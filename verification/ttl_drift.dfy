/** How far a record's expiry moves when partial hits file cached aliases again. */
module TTLDrift {
  import opened Dns
  import opened CacheModel
  import opened ChainWalk
  import opened RouterModel
  import opened Transparency
  import opened ServedTTL
  import opened PolicyOptions

  /** An alias handed out by a walk that started at `now`, filed again at `stored`. */
  function Recache(it: Item, maxTTL: Duration, now: int, stored: int): Item {
    it.(rr := it.Served(now), origTTL := Clamp(it.Served(now).ttl, maxTTL), storedAt := stored)
  }

  /** A partial hit: when its walk read the clock and when it filed the alias. */
  datatype Hit = Hit(now: int, stored: int)

  function RecacheAll(it: Item, maxTTL: Duration, hits: seq<Hit>): Item {
    if hits == [] then it
    else
      var n := |hits| - 1;
      Recache(RecacheAll(it, maxTTL, hits[..n]), maxTTL, hits[n].now, hits[n].stored)
  }

  /** Each hit reads the clock after the entry was filed and before it expires. */
  ghost predicate HitsInOrder(it: Item, maxTTL: Duration, hits: seq<Hit>) {
    hits != [] ==>
      var n := |hits| - 1;
      var before := RecacheAll(it, maxTTL, hits[..n]);
      && HitsInOrder(it, maxTTL, hits[..n])
      && before.storedAt <= hits[n].now <= hits[n].stored && !before.IsExpired(hits[n].now)
  }

  /** The time the hits spent between reading the clock and filing. */
  function Latency(hits: seq<Hit>): int {
    if hits == [] then 0 else Latency(hits[..|hits| - 1]) + hits[|hits| - 1].stored - hits[|hits| - 1].now
  }

  /** One re-caching never raises the TTL; it moves the expiry by its latency and the fraction cut off. */
  lemma RecacheDrift(it: Item, maxTTL: Duration, now: int, stored: int)
    requires it.origTTL * SECOND <= maxTTL
    requires it.storedAt <= now <= stored && !it.IsExpired(now)
    ensures var again := Recache(it, maxTTL, now, stored);
            && again.origTTL == it.RemainingTTL(now) <= it.origTTL
            && again.Expiry() - it.Expiry() == (stored - now) + (now - it.storedAt) % SECOND
            && stored - now <= again.Expiry() - it.Expiry() < stored - now + SECOND
  {
    var elapsed := now - it.storedAt;
    DivBounds(elapsed, SECOND);
    DivAtLeast(elapsed, SECOND, it.origTTL);
    var rest := it.RemainingTTL(now);
    assert rest == it.origTTL - elapsed / SECOND;
    ClampBounds(rest, maxTTL);
    MulMonotone(rest, it.origTTL, SECOND);
    assert elapsed == elapsed / SECOND * SECOND + elapsed % SECOND;
  }

  /**
   * After k re-cachings the TTL number has not risen and the expiry lies between the first expiry and
   * k seconds plus the summed latencies after it.
   */
  lemma {:induction false} DriftBound(it: Item, maxTTL: Duration, hits: seq<Hit>)
    requires it.origTTL * SECOND <= maxTTL && HitsInOrder(it, maxTTL, hits)
    ensures var last := RecacheAll(it, maxTTL, hits);
            && last.origTTL <= it.origTTL
            && last.origTTL * SECOND <= maxTTL
            && it.Expiry() <= last.Expiry()
            && it.Expiry() + Latency(hits) <= last.Expiry() <= it.Expiry() + |hits| * SECOND + Latency(hits)
            && (hits != [] ==> last.Expiry() < it.Expiry() + |hits| * SECOND + Latency(hits))
    decreases |hits|
  {
    if hits != [] {
      var n := |hits| - 1;
      DriftBound(it, maxTTL, hits[..n]);
      var before := RecacheAll(it, maxTTL, hits[..n]);
      RecacheDrift(before, maxTTL, hits[n].now, hits[n].stored);
      MulMonotone(RecacheAll(it, maxTTL, hits).origTTL, it.origTTL, SECOND);
    }
  }

  /** A re-caching keeps the TTL number exactly if less than one whole second has passed since the last filing. */
  lemma KeepsTTLIffWithinASecond(it: Item, maxTTL: Duration, now: int, stored: int)
    requires it.origTTL * SECOND <= maxTTL
    requires it.storedAt <= now <= stored && !it.IsExpired(now)
    ensures Recache(it, maxTTL, now, stored).origTTL == it.origTTL <==> now - it.storedAt < SECOND
  {
    RecacheDrift(it, maxTTL, now, stored);
    DivBounds(now - it.storedAt, SECOND);
  }

  // ---- what a walk hands out ----

  lemma EmittedFrom(store: Store, maxTTL: Duration, k: Key, now: int, at: int, x: RR) returns (it: Item)
    requires WellFormed(store, maxTTL, now) && now <= at && x in Emit(LiveAt(store, k, at), now)
    ensures k == CacheKey(x.name, x.rtype) && k in store && it in store[k]
    ensures !it.IsExpired(now) && x == it.Served(now)
  {
    var items := LiveAt(store, k, at);
    var i :| 0 <= i < |items| && Emit(items, now)[i] == x;
    it := items[i];
    LiveMembers(store[k], at);
    assert ItemFits(it, k, maxTTL, now);
  }

  /**
   * Whatever the upstreams have answered: each record of a walk is served from an unexpired item under its own
   * name and type, and the records of an unfinished walk are aliases.
   */
  lemma {:induction false} WalkRecords(store: Store, maxTTL: Duration, name: string, qtype: uint16, depth: nat,
                                       now: int, ts: seq<Round>, x: RR) returns (it: Item)
    requires WellFormed(store, maxTTL, now) && |ts| >= depth
    requires forall r :: r in ts ==> now <= r.typeAt && now <= r.aliasAt
    requires x in Walk(ViewOf(store), name, qtype, depth, now, ts).answers
    ensures var k := CacheKey(x.name, x.rtype); k in store && it in store[k]
    ensures !it.IsExpired(now) && x == it.Served(now)
    ensures Walk(ViewOf(store), name, qtype, depth, now, ts).needUpstream ==> x.rtype == TYPE_CNAME
    decreases depth
  {
    assert ts[0] in ts;
    var k, c := CacheKey(name, qtype), CacheKey(name, TYPE_CNAME);
    var cnames := LiveAt(store, c, ts[0].aliasAt);
    if LiveAt(store, k, ts[0].typeAt) != [] {
      it := EmittedFrom(store, maxTTL, k, now, ts[0].typeAt, x);
    } else if x in Emit(cnames, now) {
      it := EmittedFrom(store, maxTTL, c, now, ts[0].aliasAt, x);
    } else {
      it := WalkRecords(store, maxTTL, Follow(cnames, name), qtype, depth - 1, now, ts[1..], x);
    }
  }

  /** The walk of a call that starts after the cache was last written. */
  lemma CallRecords(c: Call, store: Store, maxTTL: Duration, before: int, x: RR) returns (it: Item)
    requires WellFormed(store, maxTTL, before) && Starts(c, before)
    requires x in CachedPart(store, c.domain, c.qtype, c.schedule).answers
    ensures var k := CacheKey(x.name, x.rtype); k in store && it in store[k]
    ensures it.storedAt <= c.schedule.now && !it.IsExpired(c.schedule.now) && x == it.Served(c.schedule.now)
    ensures CachedPart(store, c.domain, c.qtype, c.schedule).needUpstream ==> x.rtype == TYPE_CNAME
  {
    var now := c.schedule.now;
    WellFormedLater(store, maxTTL, before, now);
    OrderedBounds(c.schedule.ts, now, c.until);
    it := WalkRecords(store, maxTTL, Fqdn(c.domain), c.qtype, DEFAULT_DEPTH, now, c.schedule.ts, x);
    assert ItemFits(it, CacheKey(x.name, x.rtype), maxTTL, before);
  }

  // ---- what a call leaves under a key ----

  /** Two items that differ at most in the message flags live equally long. */
  ghost predicate SameLife(a: Item, b: Item) {
    a.rr == b.rr && a.origTTL == b.origTTL && a.storedAt == b.storedAt
  }

  /** All that is filed under the key was there before. */
  ghost predicate OnlyFrom(answer: seq<RR>, k: Key, known: seq<RR>) {
    forall y :: y in answer && CacheKey(y.name, y.rtype) == k ==> y in known
  }

  /** The call files nothing under the key but records that its own walk has found in the cache. */
  ghost predicate NotAnew(c: Call, store: Store, k: Key) {
    forall m :: m in CallOutcome(c, store).cached ==>
                  OnlyFrom(m.0.answer, k, CachedPart(store, c.domain, c.qtype, c.schedule).answers)
  }

  /** An item under the key that was filed between two instants with one of these records. */
  ghost predicate FiledFrom(y: Item, k: Key, known: seq<RR>, maxTTL: Duration, lo: int, hi: int) {
    && y.rr in known && CacheKey(y.rr.name, y.rr.rtype) == k
    && y.origTTL == Clamp(y.rr.ttl, maxTTL) && lo <= y.storedAt <= hi
  }

  lemma StampedFrom(m: Msg, g: GroupKey, k: Key, known: seq<RR>, maxTTL: Duration, lo: int, hi: int, t: int, y: Item)
    requires OnlyFrom(m.answer, k, known) && CacheKey(g.name, g.rtype) == k && lo <= t <= hi
    requires y in Stamp(ItemsOf(m, g), maxTTL, t)
    ensures FiledFrom(y, k, known, maxTTL, lo, hi)
  {
    var i :| 0 <= i < |ItemsOf(m, g)| && Stamp(ItemsOf(m, g), maxTTL, t)[i] == y;
    GroupMembers(m.answer, g);
    assert GroupOf(m.answer, g)[i] in GroupOf(m.answer, g);
  }

  /** The entry of the key holds only such items. */
  ghost predicate EntryFrom(store: Store, k: Key, known: seq<RR>, maxTTL: Duration, lo: int, hi: int) {
    k in store && forall y :: y in store[k] ==> FiledFrom(y, k, known, maxTTL, lo, hi)
  }

  ghost predicate EntryKept(after: Store, store: Store, k: Key) {
    (k in after <==> k in store) && (k in store ==> after[k] == store[k])
  }

  ghost predicate WritesKey(writes: Writes, k: Key) {
    exists i :: 0 <= i < |writes| && KeyAt(writes, i) == k
  }

  ghost predicate FilesKey(cached: seq<(Msg, Writes)>, k: Key) {
    exists j :: 0 <= j < |cached| && WritesKey(cached[j].1, k)
  }

  lemma WriteLeaves(store: Store, m: Msg, maxTTL: Duration, w: (GroupKey, int), k: Key, known: seq<RR>, lo: int,
                    hi: int)
    requires OnlyFrom(m.answer, k, known) && w.0 in GroupKeys(m.answer) && lo <= w.1 <= hi
    ensures if CacheKey(w.0.name, w.0.rtype) == k then
              EntryFrom(WriteGroup(store, m, maxTTL, w), k, known, maxTTL, lo, hi)
            else EntryKept(WriteGroup(store, m, maxTTL, w), store, k)
  {
    GroupNonEmpty(m.answer, w.0);
    if CacheKey(w.0.name, w.0.rtype) == k {
      forall y | y in Stamp(ItemsOf(m, w.0), maxTTL, w.1)
        ensures FiledFrom(y, k, known, maxTTL, lo, hi)
      {
        StampedFrom(m, w.0, k, known, maxTTL, lo, hi, w.1, y);
      }
    }
  }

  lemma WritesKeyLast(writes: Writes, k: Key)
    requires writes != []
    ensures var n := |writes| - 1;
            WritesKey(writes, k) <==> WritesKey(writes[..n], k) || KeyAt(writes, n) == k
  {
    var n := |writes| - 1;
    assert forall i :: 0 <= i < n ==> KeyAt(writes[..n], i) == KeyAt(writes, i);
  }

  /** The writes of one message put a new entry in place of the old one, or leave it alone. */
  lemma {:induction false} WritesLeave(store: Store, m: Msg, maxTTL: Duration, writes: Writes, k: Key,
                                       known: seq<RR>, lo: int, hi: int)
    requires OnlyFrom(m.answer, k, known)
    requires forall i :: 0 <= i < |writes| ==> writes[i].0 in GroupKeys(m.answer) && lo <= writes[i].1 <= hi
    ensures if WritesKey(writes, k) then EntryFrom(CacheWrites(store, m, maxTTL, writes), k, known, maxTTL, lo, hi)
            else EntryKept(CacheWrites(store, m, maxTTL, writes), store, k)
    decreases |writes|
  {
    if writes != [] {
      var n := |writes| - 1;
      WritesLeave(store, m, maxTTL, writes[..n], k, known, lo, hi);
      WritesKeyLast(writes, k);
      WriteLeaves(CacheWrites(store, m, maxTTL, writes[..n]), m, maxTTL, writes[n], k, known, lo, hi);
    }
  }

  lemma ValidWritesLeave(store: Store, m: Msg, maxTTL: Duration, writes: Writes, k: Key, known: seq<RR>, lo: int,
                         hi: int)
    requires OnlyFrom(m.answer, k, known) && ValidWrites(m.answer, writes, lo, hi)
    ensures if WritesKey(writes, k) then EntryFrom(CacheWrites(store, m, maxTTL, writes), k, known, maxTTL, lo, hi)
            else EntryKept(CacheWrites(store, m, maxTTL, writes), store, k)
  {
    forall i | 0 <= i < |writes|
      ensures writes[i].0 in GroupKeys(m.answer)
    {
      assert writes[i].0 in Written(writes);
    }
    WritesLeave(store, m, maxTTL, writes, k, known, lo, hi);
  }

  lemma {:induction false} AllWritesLeave(store: Store, maxTTL: Duration, cached: seq<(Msg, Writes)>, k: Key,
                                          known: seq<RR>, lo: int, hi: int)
    requires forall m :: m in cached ==> OnlyFrom(m.0.answer, k, known) && ValidWrites(m.0.answer, m.1, lo, hi)
    ensures if FilesKey(cached, k) then EntryFrom(WriteAll(store, maxTTL, cached), k, known, maxTTL, lo, hi)
            else EntryKept(WriteAll(store, maxTTL, cached), store, k)
    decreases |cached|
  {
    if cached != [] {
      var z := |cached| - 1;
      AllWritesLeave(store, maxTTL, cached[..z], k, known, lo, hi);
      FilesKeyLast(cached, k);
      assert cached[z] in cached;
      ValidWritesLeave(WriteAll(store, maxTTL, cached[..z]), cached[z].0, maxTTL, cached[z].1, k, known, lo, hi);
    }
  }

  lemma FilesKeyLast(cached: seq<(Msg, Writes)>, k: Key)
    requires cached != []
    ensures var z := |cached| - 1;
            FilesKey(cached, k) <==> FilesKey(cached[..z], k) || WritesKey(cached[z].1, k)
  {
    var z := |cached| - 1;
    assert forall j :: 0 <= j < z ==> cached[..z][j] == cached[j];
  }

  /** An item is one that was there before, served at `now`, and filed again before the end of the call. */
  ghost predicate Recached(it: Item, y: Item, maxTTL: Duration, now: int, until: int) {
    && it.storedAt <= now <= y.storedAt <= until && !it.IsExpired(now)
    && SameLife(y, Recache(it, maxTTL, now, y.storedAt))
  }

  ghost predicate Refiled(c: Call, store: Store, k: Key) {
    FilesKey(CallOutcome(c, store).cached, k)
  }

  /** How an item of the entry after a call comes from one before: it is the same, or re-cached by the call. */
  ghost predicate Became(c: Call, store: Store, k: Key, maxTTL: Duration, it: Item, y: Item) {
    if Refiled(c, store, k) then Recached(it, y, maxTTL, c.schedule.now, c.until) else y == it
  }

  /** Every item of the entry after the call has come from one before, and an entry is there if it was before. */
  ghost predicate NothingNew(c: Call, store: Store, after: Store, k: Key, maxTTL: Duration) {
    && (k in after <==> k in store)
    && (k in store ==> forall y :: y in after[k] ==> exists it :: it in store[k] && Became(c, store, k, maxTTL, it, y))
  }

  /**
   * One call that files nothing anew under a key, whatever its policy: either it leaves the entry alone, or
   * every item of the new entry is an unexpired one of the old entry, re-cached.
   */
  lemma OneCallRecaches(c: Call, store: Store, maxTTL: Duration, before: int, k: Key)
    requires WellFormed(store, maxTTL, before) && Starts(c, before) && Files(c, store) && NotAnew(c, store, k)
    ensures NothingNew(c, store, WriteAll(store, maxTTL, CallOutcome(c, store).cached), k, maxTTL)
    ensures !Refiled(c, store, k) ==>
              EntryKept(WriteAll(store, maxTTL, CallOutcome(c, store).cached), store, k)
  {
    var now, known := c.schedule.now, CachedPart(store, c.domain, c.qtype, c.schedule).answers;
    var after := WriteAll(store, maxTTL, CallOutcome(c, store).cached);
    AllWritesLeave(store, maxTTL, CallOutcome(c, store).cached, k, known, now, c.until);
    if Refiled(c, store, k) {
      OrderedBounds(c.schedule.ts, now, c.until);
      WellFormedLater(store, maxTTL, before, c.until);
      AllWritesKeepWellFormed(store, maxTTL, CallOutcome(c, store).cached, now, c.until);
      assert after[k][0] in after[k];
      forall y | y in after[k]
        ensures k in store && exists it :: it in store[k] && Became(c, store, k, maxTTL, it, y)
      {
        assert FiledFrom(y, k, known, maxTTL, now, c.until);
        var it := CallRecords(c, store, maxTTL, before, y.rr);
        assert Became(c, store, k, maxTTL, it, y);
      }
    } else if k in store {
      assert forall y :: y in after[k] ==> Became(c, store, k, maxTTL, y, y);
    }
  }

  // ---- when nothing is filed anew ----

  /** No answer to what the call may ask, at the domain or where its walk stands, has a record under the key. */
  ghost predicate Silent(c: Call, store: Store, k: Key) {
    var w := CachedPart(store, c.domain, c.qtype, c.schedule);
    && AllMeet(c.setting, c.domain, c.qtype, m => m, HasNone(k))
    && AllMeet(c.setting, Target(c.domain, w), c.qtype, m => m, HasNone(k))
  }

  ghost function HasNone(k: Key): Claim {
    (m: Msg) => OnlyFrom(m.answer, k, [])
  }

  ghost function HasOnly(k: Key, known: seq<RR>): Claim {
    (m: Msg) => OnlyFrom(m.answer, k, known)
  }

  lemma FilteredHasOnly(m: Msg, disableHTTPS: bool, k: Key, known: seq<RR>)
    requires OnlyFrom(m.answer, k, known)
    ensures OnlyFrom(Filtered(m, disableHTTPS).answer, k, known)
  {
    FilterMembers(m.answer);
  }

  lemma FanoutHasOnly(s: Setting, domain: string, qtype: uint16, options: Options, f: Fanout, call: nat, k: Key,
                      known: seq<RR>)
    requires AllMeet(s, domain, qtype, m => m, HasNone(k))
    ensures Meets(EcsRoute(s, domain, qtype, options, f, call), HasOnly(k, known), HasOnly(k, known), false)
    ensures !options.disableHTTPS ==>
              Meets(EcsRoute(s, domain, qtype, options, f, call), HasOnly(k, known), HasOnly(k, known), true)
  {
    forall g, c: nat | Ask(s, g, domain, qtype, c).Some?
      ensures HasOnly(k, known)(Filtered(Ask(s, g, domain, qtype, c).value, options.disableHTTPS))
    {
      FilteredHasOnly(Ask(s, g, domain, qtype, c).value, options.disableHTTPS, k, known);
    }
    EcsReplies(s, domain, qtype, options, f, call, HasOnly(k, known), HasOnly(k, known));
  }

  lemma MergedHasOnly(s: Setting, domain: string, qtype: uint16, w: WalkResult, p: Policy, f: Fanout, outer: Writes,
                      call: nat, k: Key)
    requires AllMeet(s, domain, qtype, m => m, HasNone(k))
    requires AllMeet(s, Target(domain, w), qtype, m => m, HasNone(k))
    ensures Meets(UpstreamRoute(s, domain, qtype, w, p, f, outer, call), HasOnly(k, w.answers), HasOnly(k, w.answers),
                  false)
  {
    var target := Target(domain, w);
    forall g, c: nat | Ask(s, g, target, qtype, c).Some?
      ensures var m := Merge(domain, qtype, w.answers, Ask(s, g, target, qtype, c).value);
              HasOnly(k, w.answers)(m) && HasOnly(k, w.answers)(Filtered(m, p.options.disableHTTPS))
    {
      var m := Merge(domain, qtype, w.answers, Ask(s, g, target, qtype, c).value);
      FilteredHasOnly(m, p.options.disableHTTPS, k, w.answers);
    }
    FanoutHasOnly(s, domain, qtype, DEFAULT_POLICY.options, f, call + 1, k, w.answers);
    UpstreamReplies(s, domain, qtype, w, p, f, outer, call, HasOnly(k, w.answers), HasOnly(k, w.answers));
  }

  /** Where no upstream says anything under a key, no call files anything anew under it. */
  lemma SilentMeansNotAnew(c: Call, store: Store, k: Key)
    requires Silent(c, store, k)
    ensures NotAnew(c, store, k)
  {
    var s, sch := c.setting, c.schedule;
    var w, p := CachedPart(store, c.domain, c.qtype, sch), PolicyFor(s, c.domain);
    if w.needUpstream && p.group == ECS_FALLBACK {
      FanoutHasOnly(s, c.domain, c.qtype, p.options, sch.fanout, sch.firstCall, k, w.answers);
    } else if w.needUpstream && p.group != BLOCK {
      MergedHasOnly(s, c.domain, c.qtype, w, p, sch.fanout, sch.outer, sch.firstCall, k);
    }
  }

  // ---- partial hits do file what they found again ----

  /** A partial hit that files its merged reply: an ordinary policy, and not replaced by the fan-out. */
  predicate Refiles(c: Call, store: Store) {
    var w, p := CachedPart(store, c.domain, c.qtype, c.schedule), PolicyFor(c.setting, c.domain);
    && w.needUpstream && Ordinary(p) && !p.options.disableCache && CallOutcome(c, store).reply.Some?
    && (p.options.fallbackGroup == "" ==> !Replaced(c.setting, c.domain, c.qtype, w, p, c.schedule.firstCall))
  }

  /** What such a call files is just its reply, and the cached aliases are in it. */
  lemma RefiledReply(c: Call, store: Store, x: RR) returns (m: Msg)
    requires Refiles(c, store) && x in CachedPart(store, c.domain, c.qtype, c.schedule).answers && x.rtype == TYPE_CNAME
    ensures CallOutcome(c, store).reply == Some(m) && CallOutcome(c, store).cached == [(m, c.schedule.outer)]
    ensures x in m.answer
  {
    var w, p := CachedPart(store, c.domain, c.qtype, c.schedule), PolicyFor(c.setting, c.domain);
    m := CallOutcome(c, store).reply.value;
    MergedKeepsAlias(c.setting, c.domain, c.qtype, w, p, c.schedule.fanout, c.schedule.outer, c.schedule.firstCall, x);
  }

  lemma MergedKeepsAlias(s: Setting, domain: string, qtype: uint16, w: WalkResult, p: Policy, f: Fanout, outer: Writes,
                         call: nat, x: RR)
    requires Ordinary(p) && !p.options.disableCache && x in w.answers && x.rtype == TYPE_CNAME
    requires p.options.fallbackGroup == "" ==> !Replaced(s, domain, qtype, w, p, call)
    requires UpstreamRoute(s, domain, qtype, w, p, f, outer, call).reply.Some?
    ensures var out := UpstreamRoute(s, domain, qtype, w, p, f, outer, call);
            out.cached == [(out.reply.value, outer)] && x in out.reply.value.answer
  {
    var resp := Ask(s, p.group, Target(domain, w), qtype, call).value;
    FilterMembers(Merge(domain, qtype, w.answers, resp).answer);
    assert x in Merge(domain, qtype, w.answers, resp).answer;
  }

  lemma WriteOf(m: Msg, writes: Writes, lo: int, hi: int, x: RR) returns (i: nat)
    requires ValidWrites(m.answer, writes, lo, hi) && x in m.answer
    ensures i < |writes| && writes[i].0 == KeyOf(x) && KeyAt(writes, i) == CacheKey(x.name, x.rtype)
  {
    var j :| 0 <= j < |m.answer| && m.answer[j] == x;
    assert KeyOf(x) in Written(writes);
    i :| 0 <= i < |writes| && writes[i].0 == KeyOf(x);
  }

  /** A record of a filed message is in the entry of its key, stamped with the time of its write. */
  lemma FiledRecord(store: Store, m: Msg, maxTTL: Duration, writes: Writes, lo: int, hi: int, x: RR, i: nat)
    returns (y: Item)
    requires NoClash(m.answer) && ValidWrites(m.answer, writes, lo, hi) && x in m.answer
    requires i < |writes| && writes[i].0 == KeyOf(x)
    ensures var k, after := CacheKey(x.name, x.rtype), CacheWrites(store, m, maxTTL, writes);
            k in after && y in after[k]
    ensures y.rr == x && y.origTTL == Clamp(x.ttl, maxTTL) && y.storedAt == writes[i].1
  {
    var g := KeyOf(x);
    GroupMembers(m.answer, g);
    var j :| 0 <= j < |GroupOf(m.answer, g)| && GroupOf(m.answer, g)[j] == x;
    CacheWritesExactly(store, m, maxTTL, writes, lo, hi);
    assert KeyAt(writes, i) == CacheKey(x.name, x.rtype);
    y := Stamp(ItemsOf(m, g), maxTTL, writes[i].1)[j];
  }

  ghost predicate InEntry(store: Store, k: Key, y: Item) {
    k in store && y in store[k]
  }

  lemma FiledReply(store: Store, m: Msg, maxTTL: Duration, writes: Writes, lo: int, hi: int, x: RR) returns (y: Item)
    requires ValidWrites(m.answer, writes, lo, hi) && x in m.answer
    ensures FilesKey([(m, writes)], CacheKey(x.name, x.rtype))
    ensures NoClash(m.answer) ==>
              && InEntry(WriteAll(store, maxTTL, [(m, writes)]), CacheKey(x.name, x.rtype), y)
              && y.rr == x && y.origTTL == Clamp(x.ttl, maxTTL) && lo <= y.storedAt <= hi
  {
    var i := WriteOf(m, writes, lo, hi, x);
    assert WritesKey([(m, writes)][0].1, CacheKey(x.name, x.rtype));
    y := NewItem(m, x);
    if NoClash(m.answer) {
      y := FiledRecord(store, m, maxTTL, writes, lo, hi, x, i);
      WriteAllOne(store, maxTTL, m, writes);
    }
  }

  /**
   * A partial hit through an ordinary group, with expected_ips and fallback_group or without: each record it
   * served is an alias from an unexpired item, and afterwards the entry holds that item re-cached, with the
   * walk's clock reading and the time of its own write. (Without a clash of names, that is: see NoClash.)
   */
  lemma PartialHitRecaches(c: Call, store: Store, maxTTL: Duration, before: int, x: RR) returns (it: Item, y: Item)
    requires WellFormed(store, maxTTL, before) && Starts(c, before) && Files(c, store)
    requires Refiles(c, store) && x in CachedPart(store, c.domain, c.qtype, c.schedule).answers
    ensures var k := CacheKey(x.name, TYPE_CNAME); k in store && it in store[k] && Refiled(c, store, k)
    ensures x == it.Served(c.schedule.now)
    ensures NoClash(CallOutcome(c, store).reply.value.answer) ==>
              && InEntry(WriteAll(store, maxTTL, CallOutcome(c, store).cached), CacheKey(x.name, TYPE_CNAME), y)
              && Recached(it, y, maxTTL, c.schedule.now, c.until)
  {
    it := CallRecords(c, store, maxTTL, before, x);
    var m := RefiledReply(c, store, x);
    assert (m, c.schedule.outer) in CallOutcome(c, store).cached;
    y := FiledReply(store, m, maxTTL, c.schedule.outer, c.schedule.now, c.until, x);
  }

  // ---- over runs ----

  /** No call from the a-th on files anything anew under the key. */
  ghost predicate NeverAnew(calls: seq<Call>, maxTTL: Duration, a: nat, k: Key) {
    |calls| <= a || var z := |calls| - 1;
                    NeverAnew(calls[..z], maxTTL, a, k) && NotAnew(calls[z], StoreAfter(calls[..z], maxTTL), k)
  }

  /** How many calls from the a-th on file something under the key. */
  ghost function Refilings(calls: seq<Call>, maxTTL: Duration, a: nat, k: Key): nat {
    if |calls| <= a then 0
    else
      var z := |calls| - 1;
      Refilings(calls[..z], maxTTL, a, k) + if Refiled(calls[z], StoreAfter(calls[..z], maxTTL), k) then 1 else 0
  }

  /** The time those calls take, from reading the clock to their end. */
  ghost function Busy(calls: seq<Call>, maxTTL: Duration, a: nat, k: Key): int {
    if |calls| <= a then 0
    else
      var z := |calls| - 1;
      Busy(calls[..z], maxTTL, a, k)
      + if Refiled(calls[z], StoreAfter(calls[..z], maxTTL), k) then calls[z].until - calls[z].schedule.now else 0
  }

  /** The last call of a run, over what the calls before it have left. */
  lemma LastCallRecaches(calls: seq<Call>, maxTTL: Duration, start: int, k: Key)
    requires InTime(calls, maxTTL, start) && calls != []
    requires NotAnew(calls[|calls| - 1], StoreAfter(calls[..|calls| - 1], maxTTL), k)
    ensures NothingNew(calls[|calls| - 1], StoreAfter(calls[..|calls| - 1], maxTTL), StoreAfter(calls, maxTTL), k,
                       maxTTL)
  {
    var z := |calls| - 1;
    RunsKeepWellFormed(calls[..z], maxTTL, start);
    OneCallRecaches(calls[z], StoreAfter(calls[..z], maxTTL), maxTTL, EndOf(calls[..z], start), k);
  }

  lemma OneHitMore(it: Item, maxTTL: Duration, hits: seq<Hit>, now: int, until: int, cur: Item, next: Item)
    returns (more: seq<Hit>)
    requires HitsInOrder(it, maxTTL, hits) && SameLife(cur, RecacheAll(it, maxTTL, hits))
    requires Recached(cur, next, maxTTL, now, until)
    ensures HitsInOrder(it, maxTTL, more) && SameLife(next, RecacheAll(it, maxTTL, more))
    ensures |more| == |hits| + 1 && Latency(more) <= Latency(hits) + until - now
  {
    more := hits + [Hit(now, next.storedAt)];
    assert more[..|hits|] == hits;
  }

  /** What one item has come to over a stretch: re-cached by these hits. */
  ghost predicate ComesTo(calls: seq<Call>, maxTTL: Duration, a: nat, k: Key, it: Item, last: Item, hits: seq<Hit>) {
    && HitsInOrder(it, maxTTL, hits) && SameLife(last, RecacheAll(it, maxTTL, hits))
    && |hits| == Refilings(calls, maxTTL, a, k) && Latency(hits) <= Busy(calls, maxTTL, a, k)
  }

  /** The stretch neither begins nor drops an entry of the key. */
  lemma {:induction false} EntryStays(calls: seq<Call>, maxTTL: Duration, start: int, a: nat, k: Key)
    requires InTime(calls, maxTTL, start) && a <= |calls| && NeverAnew(calls, maxTTL, a, k)
    ensures k in StoreAfter(calls, maxTTL) <==> k in StoreAfter(calls[..a], maxTTL)
    decreases |calls|
  {
    if |calls| == a {
      AllCalls(calls, a);
    } else {
      FewerCalls(calls, a);
      EntryStays(calls[..|calls| - 1], maxTTL, start, a, k);
      LastCallRecaches(calls, maxTTL, start, k);
    }
  }

  /** Where an item of the entry came from in the last call. */
  lemma ItemBefore(calls: seq<Call>, maxTTL: Duration, start: int, k: Key, last: Item) returns (cur: Item)
    requires InTime(calls, maxTTL, start) && calls != []
    requires NotAnew(calls[|calls| - 1], StoreAfter(calls[..|calls| - 1], maxTTL), k)
    requires k in StoreAfter(calls, maxTTL) && last in StoreAfter(calls, maxTTL)[k]
    ensures var z := |calls| - 1;
            var c, store := calls[z], StoreAfter(calls[..z], maxTTL);
            k in store && cur in store[k] && Became(c, store, k, maxTTL, cur, last)
  {
    var z := |calls| - 1;
    LastCallRecaches(calls, maxTTL, start, k);
    cur := SomeBefore(calls[z], StoreAfter(calls[..z], maxTTL), StoreAfter(calls, maxTTL), k, maxTTL, last);
  }

  lemma SomeBefore(c: Call, store: Store, after: Store, k: Key, maxTTL: Duration, last: Item) returns (cur: Item)
    requires NothingNew(c, store, after, k, maxTTL) && k in after && last in after[k]
    ensures k in store && cur in store[k] && Became(c, store, k, maxTTL, cur, last)
  {
    cur :| cur in store[k] && Became(c, store, k, maxTTL, cur, last);
  }

  lemma StretchOneMore(calls: seq<Call>, maxTTL: Duration, a: nat, k: Key, it: Item, cur: Item, last: Item,
                       hits: seq<Hit>) returns (more: seq<Hit>)
    requires a < |calls| && ComesTo(calls[..|calls| - 1], maxTTL, a, k, it, cur, hits)
    requires var z := |calls| - 1;
             Became(calls[z], StoreAfter(calls[..z], maxTTL), k, maxTTL, cur, last)
    ensures ComesTo(calls, maxTTL, a, k, it, last, more)
  {
    var z := |calls| - 1;
    var c := calls[z];
    if Refiled(c, StoreAfter(calls[..z], maxTTL), k) {
      more := OneHitMore(it, maxTTL, hits, c.schedule.now, c.until, cur, last);
    } else {
      more := hits;
    }
  }

  /**
   * A stretch of a run in which nothing is filed anew under a key, whatever else the upstreams answer: each
   * item of the entry at its end is an item of the entry at its beginning, re-cached in order, once by each
   * call that filed the key.
   */
  lemma {:induction false} StretchRecaches(calls: seq<Call>, maxTTL: Duration, start: int, a: nat, k: Key, last: Item)
    returns (it: Item, hits: seq<Hit>)
    requires InTime(calls, maxTTL, start) && a <= |calls| && NeverAnew(calls, maxTTL, a, k)
    requires k in StoreAfter(calls, maxTTL) && last in StoreAfter(calls, maxTTL)[k]
    ensures k in StoreAfter(calls[..a], maxTTL) && it in StoreAfter(calls[..a], maxTTL)[k]
    ensures ComesTo(calls, maxTTL, a, k, it, last, hits)
    decreases |calls|
  {
    if |calls| == a {
      AllCalls(calls, a);
      it, hits := last, [];
    } else {
      FewerCalls(calls, a);
      var cur := ItemBefore(calls, maxTTL, start, k, last);
      it, hits := StretchRecaches(calls[..|calls| - 1], maxTTL, start, a, k, cur);
      hits := StretchOneMore(calls, maxTTL, a, k, it, cur, last, hits);
    }
  }

  /**
   * So over a stretch with r re-filings no item of the entry has a higher TTL number than the one it came
   * from, and its expiry has moved by less than r seconds plus the time those r calls took, and never back.
   */
  lemma DriftOverRuns(calls: seq<Call>, maxTTL: Duration, start: int, a: nat, k: Key, last: Item)
    returns (it: Item)
    requires InTime(calls, maxTTL, start) && a <= |calls| && NeverAnew(calls, maxTTL, a, k)
    requires k in StoreAfter(calls, maxTTL) && last in StoreAfter(calls, maxTTL)[k]
    ensures k in StoreAfter(calls[..a], maxTTL) && it in StoreAfter(calls[..a], maxTTL)[k]
    ensures last.origTTL <= it.origTTL
    ensures var r := Refilings(calls, maxTTL, a, k);
            && it.Expiry() <= last.Expiry() <= it.Expiry() + r * SECOND + Busy(calls, maxTTL, a, k)
            && (r > 0 ==> last.Expiry() < it.Expiry() + r * SECOND + Busy(calls, maxTTL, a, k))
  {
    var hits;
    it, hits := StretchRecaches(calls, maxTTL, start, a, k, last);
    PrefixInTime(calls, maxTTL, start, a);
    RunsKeepWellFormed(calls[..a], maxTTL, start);
    assert ItemFits(it, k, maxTTL, EndOf(calls[..a], start));
    DriftBound(it, maxTTL, hits);
  }

  /** Over groups that answer from one zone the entry of an alias is one item throughout, and so drifts as one. */
  lemma OneAliasDrifts(zone: Zone, rank: Rank, calls: seq<Call>, maxTTL: Duration, start: int, a: nat, n: string,
                       it: Item) returns (last: Item)
    requires ZoneOk(zone, rank) && InTime(calls, maxTTL, start) && a <= |calls|
    requires forall c :: c in calls ==> Honest(c.setting, zone, rank)
    requires var k, store := CacheKey(n, TYPE_CNAME), StoreAfter(calls[..a], maxTTL); k in store && it in store[k]
    requires NeverAnew(calls, maxTTL, a, CacheKey(n, TYPE_CNAME))
    ensures var k, store := CacheKey(n, TYPE_CNAME), StoreAfter(calls, maxTTL); k in store && store[k] == [last]
    ensures last.origTTL <= it.origTTL
    ensures var k := CacheKey(n, TYPE_CNAME);
            var r := Refilings(calls, maxTTL, a, k);
            && it.Expiry() <= last.Expiry() <= it.Expiry() + r * SECOND + Busy(calls, maxTTL, a, k)
            && (r > 0 ==> last.Expiry() < it.Expiry() + r * SECOND + Busy(calls, maxTTL, a, k))
  {
    var k := CacheKey(n, TYPE_CNAME);
    EntryStays(calls, maxTTL, start, a, k);
    last := OneAliasEntry(zone, rank, calls, maxTTL, start, k);
    PrefixInTime(calls, maxTTL, start, a);
    var first := OneAliasEntry(zone, rank, calls[..a], maxTTL, start, k);
    var from := DriftOverRuns(calls, maxTTL, start, a, k, last);
    assert from == first == it;
  }

  lemma OneAliasEntry(zone: Zone, rank: Rank, calls: seq<Call>, maxTTL: Duration, start: int, k: Key)
    returns (it: Item)
    requires ZoneOk(zone, rank) && InTime(calls, maxTTL, start)
    requires forall c :: c in calls ==> Honest(c.setting, zone, rank)
    requires k in StoreAfter(calls, maxTTL) && k.rtype == TYPE_CNAME
    ensures StoreAfter(calls, maxTTL)[k] == [it]
  {
    HonestRunIsOk(zone, rank, calls, maxTTL, start);
    RunsKeepSound(zone, rank, calls, maxTTL);
    assert EntrySound(zone, k, StoreAfter(calls, maxTTL)[k]);
    it := StoreAfter(calls, maxTTL)[k][0];
  }

  lemma AllCalls(calls: seq<Call>, a: nat)
    requires a == |calls|
    ensures calls[..a] == calls
  {
  }

  lemma FewerCalls(calls: seq<Call>, a: nat)
    requires a < |calls|
    ensures calls[..|calls| - 1][..a] == calls[..a]
  {
  }

  lemma {:induction false} PrefixInTime(calls: seq<Call>, maxTTL: Duration, start: int, a: nat)
    requires InTime(calls, maxTTL, start) && a <= |calls|
    ensures InTime(calls[..a], maxTTL, start)
    decreases |calls|
  {
    if a == |calls| {
      AllCalls(calls, a);
    } else {
      PrefixInTime(calls[..|calls| - 1], maxTTL, start, a);
      FewerCalls(calls, a);
    }
  }
}
