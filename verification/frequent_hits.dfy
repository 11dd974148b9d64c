/**
 * A run of Route calls that keeps an alias alive for ever: the drift bound cannot do without the number of
 * re-filings.
 */
module FrequentHits {
  import opened Dns
  import opened CacheModel
  import opened ChainWalk
  import opened RouterModel
  import opened Transparency
  import opened ServedTTL
  import opened PolicyOptions
  import opened TTLDrift
  import EcsFallback
  import Matching

  const HALF := 500_000_000

  /** n is an alias of a name that has neither records of the type nor an alias. */
  ghost predicate Dangles(zone: Zone, rank: Rank, n: string, qtype: uint16, x: RR) {
    && ZoneOk(zone, rank) && qtype != TYPE_CNAME && zone(n, TYPE_CNAME) == [x]
    && x.data.Alias? && zone(x.data.target, qtype) == [] && zone(x.data.target, TYPE_CNAME) == []
  }

  /** Every group answers every time, from the zone, with one and the same TTL. */
  ghost predicate Steady(s: Setting, zone: Zone, rank: Rank, ttl: uint32)
    requires ZoneOk(zone, rank)
  {
    forall g, n, t: uint16, c: nat ::
      var r := s.answers(g, n, t, c);
      r.Some? && StripAll(r.value.answer) == ZoneAnswer(zone, rank, n, t)
        && forall x :: x in r.value.answer ==> x.ttl == ttl
  }

  /** A query that takes no time: all its clock readings are t. */
  function CallAt(s: Setting, n: string, qtype: uint16, t: int): Call {
    Call(s, n, qtype, Schedule(t, Tail(t, DEFAULT_DEPTH), Fanout(true, true, []), [(GroupKey(n, TYPE_CNAME), t)], 0), t)
  }

  lemma CallAtIsOk(zone: Zone, rank: Rank, s: Setting, ttl: uint32, n: string, qtype: uint16, t: int)
    requires ZoneOk(zone, rank) && Steady(s, zone, rank, ttl)
    ensures CallOk(CallAt(s, n, qtype, t), zone, rank) && Starts(CallAt(s, n, qtype, t), t)
  {
    OrderedTail([], t, t, DEFAULT_DEPTH);
    assert [] + Tail(t, DEFAULT_DEPTH) == Tail(t, DEFAULT_DEPTH);
  }

  lemma TailRounds(t: int)
    ensures Tail(t, DEFAULT_DEPTH)[0] == Round(t, t) && Tail(t, DEFAULT_DEPTH)[1..][0] == Round(t, t)
  {
    assert Tail(t, DEFAULT_DEPTH) == [Round(t, t)] + Tail(t, DEFAULT_DEPTH - 1);
    assert Tail(t, DEFAULT_DEPTH - 1) == [Round(t, t)] + Tail(t, DEFAULT_DEPTH - 2);
  }

  /** Where neither is stored, a round ends the walk. */
  lemma WalkEndsAt(view: View, name: string, qtype: uint16, depth: nat, t: int, ts: seq<Round>)
    requires 0 < depth <= |ts| && ts[0] == Round(t, t)
    requires view(CacheKey(name, qtype), t) == [] && view(CacheKey(name, TYPE_CNAME), t) == []
    ensures Walk(view, name, qtype, depth, t, ts) == WalkResult([], true, name)
  {
  }

  lemma WalkStepsTo(view: View, name: string, qtype: uint16, depth: nat, t: int, ts: seq<Round>, next: string)
    requires 0 < depth <= |ts| && ts[0] == Round(t, t)
    requires view(CacheKey(name, qtype), t) == [] && view(CacheKey(name, TYPE_CNAME), t) != []
    requires Follow(view(CacheKey(name, TYPE_CNAME), t), name) == next
    requires Walk(view, next, qtype, depth - 1, t, ts[1..]) == WalkResult([], true, next)
    ensures Walk(view, name, qtype, depth, t, ts)
            == WalkResult(Emit(view(CacheKey(name, TYPE_CNAME), t), t), true, next)
  {
    assert Emit(view(CacheKey(name, TYPE_CNAME), t), t) + [] == Emit(view(CacheKey(name, TYPE_CNAME), t), t);
  }

  /** The call files the alias of n, and only as it was in the cache. */
  ghost predicate Rehits(c: Call, store: Store, n: string) {
    Refiled(c, store, CacheKey(n, TYPE_CNAME)) && NotAnew(c, store, CacheKey(n, TYPE_CNAME))
  }

  /** The call leaves just this item under the alias of n. */
  ghost predicate LeavesAlias(c: Call, store: Store, maxTTL: Duration, n: string, it: Item) {
    var k, after := CacheKey(n, TYPE_CNAME), WriteAll(store, maxTTL, CallOutcome(c, store).cached);
    k in after && after[k] == [it]
  }

  /** What the walk finds: nothing before the alias is stored, then just the alias. */
  lemma WalkAtDangling(zone: Zone, rank: Rank, store: Store, n: string, qtype: uint16, x: RR, t: int)
    requires Dangles(zone, rank, n, qtype, x) && Sound(zone, store)
    ensures var cnames := LiveAt(store, CacheKey(n, TYPE_CNAME), t);
            Walk(ViewOf(store), n, qtype, DEFAULT_DEPTH, t, Tail(t, DEFAULT_DEPTH))
            == if cnames == [] then WalkResult([], true, n) else WalkResult(Emit(cnames, t), true, x.data.target)
  {
    SoundStoreShows(zone, store);
    var alias := AliasAt(zone, rank, n);
    var view, ts := ViewOf(store), Tail(t, DEFAULT_DEPTH);
    var cnames := view(CacheKey(n, TYPE_CNAME), t);
    TailRounds(t);
    if cnames == [] {
      WalkEndsAt(view, n, qtype, DEFAULT_DEPTH, t, ts);
    } else {
      OneAlias(cnames, alias, n);
      WalkEndsAt(view, x.data.target, qtype, DEFAULT_DEPTH - 1, t, ts[1..]);
      WalkStepsTo(view, n, qtype, DEFAULT_DEPTH, t, ts, x.data.target);
    }
  }

  /** The reply of such a query is the alias alone, and it is filed at once. */
  lemma ReplyAtDangling(zone: Zone, rank: Rank, s: Setting, store: Store, ttl: uint32, n: string, qtype: uint16, x: RR,
                        t: int)
    returns (m: Msg)
    requires Dangles(zone, rank, n, qtype, x) && Steady(s, zone, rank, ttl) && Simple(s, n) && Sound(zone, store)
    ensures var c, cnames := CallAt(s, n, qtype, t), LiveAt(store, CacheKey(n, TYPE_CNAME), t);
            && CallOutcome(c, store).reply == Some(m) && CallOutcome(c, store).cached == [(m, c.schedule.outer)]
            && StripAll(m.answer) == [x] && Files(c, store)
            && (cnames == [] ==> m.answer[0].ttl == ttl)
            && (cnames != [] ==> CachedPart(store, n, qtype, c.schedule).answers == m.answer == Emit(cnames, t))
  {
    var c := CallAt(s, n, qtype, t);
    var alias := AliasAt(zone, rank, n);
    CallAtIsOk(zone, rank, s, ttl, n, qtype, t);
    WalkAtDangling(zone, rank, store, n, qtype, x, t);
    var w := CachedPart(store, n, qtype, c.schedule);
    m := SimpleMiss(s, n, qtype, w, c.schedule.fanout, c.schedule.outer, 0);
    RouteMeetsZone(zone, rank, s, store, n, qtype, c.schedule, t);
    assert ZoneAnswer(zone, rank, x.data.target, qtype) == [];
    assert ZoneAnswer(zone, rank, n, qtype) == [x];
    OneRecordOneGroup(m.answer, x, t);
  }

  lemma OneRecordOneGroup(answer: seq<RR>, x: RR, t: int)
    requires StripAll(answer) == [x]
    ensures ValidWrites(answer, [(KeyOf(x), t)], t, t)
  {
    var writes := [(KeyOf(x), t)];
    assert answer == [answer[0]] && answer[0].(ttl := 0) == x;
    assert writes[0].0 in Written(writes) && KeyOf(answer[0]) in GroupKeys(answer);
  }

  lemma StampedOne(m: Msg, g: GroupKey, x: RR, maxTTL: Duration, t: int)
    requires GroupOf(m.answer, g) == [x]
    ensures Stamp(ItemsOf(m, g), maxTTL, t) == [Item(x, Clamp(x.ttl, maxTTL), t, m.rcode, m.authData, m.recurAvail)]
  {
    assert ItemsOf(m, g) == [NewItem(m, x)];
  }

  /** A message of one record leaves just this record under its key. */
  lemma FiledAlone(store: Store, m: Msg, maxTTL: Duration, x: RR, t: int) returns (it: Item)
    requires m.answer == [x]
    ensures var k, after := CacheKey(x.name, x.rtype), WriteAll(store, maxTTL, [(m, [(KeyOf(x), t)])]);
            k in after && after[k] == [it]
    ensures it == Item(x, Clamp(x.ttl, maxTTL), t, m.rcode, m.authData, m.recurAvail)
    ensures FilesKey([(m, [(KeyOf(x), t)])], CacheKey(x.name, x.rtype))
  {
    var writes := [(KeyOf(x), t)];
    GroupOfUniform([x], KeyOf(x), KeyOf(x));
    StampedOne(m, KeyOf(x), x, maxTTL, t);
    assert writes[..0] == [];
    OneWrite(store, m, maxTTL, writes[0]);
    WriteAllOne(store, maxTTL, m, writes);
    assert WritesKey([(m, writes)][0].1, CacheKey(x.name, x.rtype)) by {
      assert KeyAt(writes, 0) == CacheKey(x.name, x.rtype);
    }
    it := Item(x, Clamp(x.ttl, maxTTL), t, m.rcode, m.authData, m.recurAvail);
  }

  /** The first query files the alias with its full TTL; each further one re-files what is there. */
  lemma FirstCall(zone: Zone, rank: Rank, s: Setting, ttl: uint32, n: string, qtype: uint16, x: RR, t: int,
                  maxTTL: Duration)
    returns (it: Item)
    requires Dangles(zone, rank, n, qtype, x) && Steady(s, zone, rank, ttl) && Simple(s, n) && ttl * SECOND <= maxTTL
    ensures LeavesAlias(CallAt(s, n, qtype, t), map[], maxTTL, n, it) && it.origTTL == ttl && it.storedAt == t
    ensures Files(CallAt(s, n, qtype, t), map[])
  {
    var alias := AliasAt(zone, rank, n);
    var m := ReplyAtDangling(zone, rank, s, map[], ttl, n, qtype, x, t);
    var rr := m.answer[0];
    assert m.answer == [rr] && rr.(ttl := 0) == x;
    it := FiledAlone(map[], m, maxTTL, rr, t);
    ClampBounds(ttl, maxTTL);
  }

  lemma NextCall(zone: Zone, rank: Rank, s: Setting, store: Store, ttl: uint32, n: string, qtype: uint16, x: RR, t: int,
                 maxTTL: Duration, it: Item) returns (next: Item)
    requires Dangles(zone, rank, n, qtype, x) && Steady(s, zone, rank, ttl) && Simple(s, n) && Sound(zone, store)
    requires var k := CacheKey(n, TYPE_CNAME); k in store && store[k] == [it]
    requires it.origTTL * SECOND <= maxTTL && it.storedAt <= t && !it.IsExpired(t)
    ensures LeavesAlias(CallAt(s, n, qtype, t), store, maxTTL, n, next) && next.storedAt == t
    ensures next.origTTL == it.origTTL <==> t - it.storedAt < SECOND
    ensures Rehits(CallAt(s, n, qtype, t), store, n)
    ensures Files(CallAt(s, n, qtype, t), store)
  {
    var alias := AliasAt(zone, rank, n);
    var m := ReplyAtDangling(zone, rank, s, store, ttl, n, qtype, x, t);
    var k := CacheKey(n, TYPE_CNAME);
    assert [it][..0] == [] && LiveAt(store, k, t) == [it];
    assert EntrySound(zone, k, store[k]);
    assert StripAll(RRsOf([it])) == [x];
    next := RefilesAlone(CallAt(s, n, qtype, t), store, maxTTL, n, m, Emit([it], t)[0], t);
    KeepsTTLIffWithinASecond(it, maxTTL, t, t);
  }

  lemma RefilesAlone(c: Call, store: Store, maxTTL: Duration, n: string, m: Msg, x: RR, t: int) returns (it: Item)
    requires CallOutcome(c, store).cached == [(m, [(GroupKey(n, TYPE_CNAME), t)])]
    requires m.answer == CachedPart(store, c.domain, c.qtype, c.schedule).answers == [x]
    requires KeyOf(x) == GroupKey(n, TYPE_CNAME)
    ensures Rehits(c, store, n) && LeavesAlias(c, store, maxTTL, n, it)
    ensures it == Item(x, Clamp(x.ttl, maxTTL), t, m.rcode, m.authData, m.recurAvail)
  {
    it := FiledAlone(store, m, maxTTL, x, t);
  }

  /** Queries for the same name, half a second apart. */
  ghost predicate TwicePerSecond(calls: seq<Call>, s: Setting, n: string, qtype: uint16, start: int) {
    forall i :: 0 <= i < |calls| ==> calls[i] == CallAt(s, n, qtype, start + i * HALF)
  }

  lemma Once(s: Setting, n: string, qtype: uint16, start: int)
    ensures TwicePerSecond([CallAt(s, n, qtype, start)], s, n, qtype, start)
  {
  }

  lemma OnceMore(calls: seq<Call>, s: Setting, n: string, qtype: uint16, start: int, next: int, more: seq<Call>)
    requires TwicePerSecond(calls, s, n, qtype, start)
    requires next == start + |calls| * HALF && more == calls + [CallAt(s, n, qtype, next)]
    ensures TwicePerSecond(more, s, n, qtype, start)
  {
  }

  /** Every call but the first files the alias again that it found in the cache. */
  ghost predicate AllRehit(calls: seq<Call>, maxTTL: Duration, n: string) {
    && calls != [] && NeverAnew(calls, maxTTL, 1, CacheKey(n, TYPE_CNAME))
    && Refilings(calls, maxTTL, 1, CacheKey(n, TYPE_CNAME)) == |calls| - 1
  }

  lemma FirstIsNoRehit(c: Call, maxTTL: Duration, n: string)
    ensures AllRehit([c], maxTTL, n)
  {
  }

  lemma InTimeAlone(c: Call, maxTTL: Duration, start: int)
    requires Starts(c, start) && Files(c, map[])
    ensures InTime([c], maxTTL, start) && EndOf([c], start) == c.until
    ensures StoreAfter([c], maxTTL) == WriteAll(map[], maxTTL, CallOutcome(c, map[]).cached)
  {
    OneMoreCall([], c, maxTTL, start);
    assert [] + [c] == [c];
  }

  lemma OneMoreRehit(calls: seq<Call>, c: Call, maxTTL: Duration, n: string)
    requires AllRehit(calls, maxTTL, n) && Rehits(c, StoreAfter(calls, maxTTL), n)
    ensures AllRehit(calls + [c], maxTTL, n)
  {
    assert (calls + [c])[..|calls|] == calls;
  }

  /** The run is in time up to the instant t, and the entry of n was filed at t with all of its TTL. */
  ghost predicate FreshAt(zone: Zone, rank: Rank, calls: seq<Call>, maxTTL: Duration, start: int, n: string,
                          ttl: uint32, t: int, last: Item)
  {
    && InTime(calls, maxTTL, start) && EndOf(calls, start) == t
    && (forall c :: c in calls ==> CallOk(c, zone, rank))
    && CacheKey(n, TYPE_CNAME) in StoreAfter(calls, maxTTL)
       && StoreAfter(calls, maxTTL)[CacheKey(n, TYPE_CNAME)] == [last]
    && last.origTTL == ttl && last.storedAt == t
  }

  lemma FreshAtFirst(zone: Zone, rank: Rank, s: Setting, ttl: uint32, n: string, qtype: uint16, x: RR, start: int,
                     maxTTL: Duration) returns (calls: seq<Call>, last: Item)
    requires Dangles(zone, rank, n, qtype, x) && Steady(s, zone, rank, ttl) && Simple(s, n)
    requires ttl * SECOND <= maxTTL
    ensures |calls| == 1 && TwicePerSecond(calls, s, n, qtype, start) && AllRehit(calls, maxTTL, n)
    ensures FreshAt(zone, rank, calls, maxTTL, start, n, ttl, start, last)
  {
    var c := CallAt(s, n, qtype, start);
    CallAtIsOk(zone, rank, s, ttl, n, qtype, start);
    last := FirstCall(zone, rank, s, ttl, n, qtype, x, start, maxTTL);
    InTimeAlone(c, maxTTL, start);
    FirstIsNoRehit(c, maxTTL, n);
    Once(s, n, qtype, start);
    calls := [c];
  }

  /** The next call finds the entry fresh and leaves it fresh. */
  lemma NextFresh(zone: Zone, rank: Rank, s: Setting, ttl: uint32, n: string, qtype: uint16, x: RR, calls: seq<Call>,
                  start: int, t: int, next: int, maxTTL: Duration, it: Item, more: seq<Call>) returns (last: Item)
    requires Dangles(zone, rank, n, qtype, x) && Steady(s, zone, rank, ttl) && Simple(s, n)
    requires 1 <= ttl && ttl * SECOND <= maxTTL && FreshAt(zone, rank, calls, maxTTL, start, n, ttl, t, it)
    requires t <= next < t + SECOND && more == calls + [CallAt(s, n, qtype, next)]
    ensures FreshAt(zone, rank, more, maxTTL, start, n, ttl, next, last)
    ensures Rehits(CallAt(s, n, qtype, next), StoreAfter(calls, maxTTL), n)
  {
    CallAtIsOk(zone, rank, s, ttl, n, qtype, next);
    RunsKeepSound(zone, rank, calls, maxTTL);
    last := NextCall(zone, rank, s, StoreAfter(calls, maxTTL), ttl, n, qtype, x, next, maxTTL, it);
    StillFresh(zone, rank, calls, CallAt(s, n, qtype, next), more, maxTTL, start, n, ttl, t, next, it, last);
  }

  lemma HalfASecondLater(zone: Zone, rank: Rank, s: Setting, ttl: uint32, n: string, qtype: uint16, x: RR,
                         calls: seq<Call>, start: int, t: int, next: int, maxTTL: Duration, it: Item)
    returns (more: seq<Call>, last: Item)
    requires Dangles(zone, rank, n, qtype, x) && Steady(s, zone, rank, ttl) && Simple(s, n)
    requires 1 <= ttl && ttl * SECOND <= maxTTL && FreshAt(zone, rank, calls, maxTTL, start, n, ttl, t, it)
    requires TwicePerSecond(calls, s, n, qtype, start) && next == t + HALF == start + |calls| * HALF
    requires AllRehit(calls, maxTTL, n)
    ensures |more| == |calls| + 1 && TwicePerSecond(more, s, n, qtype, start) && AllRehit(more, maxTTL, n)
    ensures FreshAt(zone, rank, more, maxTTL, start, n, ttl, next, last)
  {
    var c := CallAt(s, n, qtype, next);
    more := calls + [c];
    last := NextFresh(zone, rank, s, ttl, n, qtype, x, calls, start, t, next, maxTTL, it, more);
    OnceMore(calls, s, n, qtype, start, next, more);
    OneMoreRehit(calls, c, maxTTL, n);
  }

  lemma StillFresh(zone: Zone, rank: Rank, calls: seq<Call>, c: Call, more: seq<Call>, maxTTL: Duration,
                   start: int, n: string, ttl: uint32, t: int, end: int, it: Item, last: Item)
    requires FreshAt(zone, rank, calls, maxTTL, start, n, ttl, t, it) && CallOk(c, zone, rank)
    requires Starts(c, c.schedule.now) && t <= c.schedule.now && Files(c, StoreAfter(calls, maxTTL))
    requires last.origTTL == ttl && last.storedAt == end == c.until && more == calls + [c]
    requires LeavesAlias(c, StoreAfter(calls, maxTTL), maxTTL, n, last)
    ensures FreshAt(zone, rank, more, maxTTL, start, n, ttl, end, last)
  {
    OneMoreCall(calls, c, maxTTL, start);
  }

  /**
   * An alias to a name without records, asked for every half second: after any number of queries, which
   * take no time at all, it still has its full TTL, so it never expires however short that TTL is.
   */
  lemma {:induction false} AskedTwicePerSecondItNeverExpires(zone: Zone, rank: Rank, s: Setting, ttl: uint32, n: string,
                                                             qtype: uint16, x: RR, start: int, k: nat, maxTTL: Duration)
    returns (calls: seq<Call>, last: Item)
    requires Dangles(zone, rank, n, qtype, x) && Steady(s, zone, rank, ttl) && Simple(s, n)
    requires 1 <= ttl && ttl * SECOND <= maxTTL
    ensures |calls| == k + 1 && TwicePerSecond(calls, s, n, qtype, start) && AllRehit(calls, maxTTL, n)
    ensures FreshAt(zone, rank, calls, maxTTL, start, n, ttl, start + k * HALF, last)
    ensures last.Expiry() == start + ttl * SECOND + k * HALF
    decreases k
  {
    if k == 0 {
      calls, last := FreshAtFirst(zone, rank, s, ttl, n, qtype, x, start, maxTTL);
    } else {
      calls, last := AskedTwicePerSecondItNeverExpires(zone, rank, s, ttl, n, qtype, x, start, k - 1, maxTTL);
      calls, last := HalfASecondLater(zone, rank, s, ttl, n, qtype, x, calls, start, start + (k - 1) * HALF,
                                      start + k * HALF, maxTTL, last);
    }
  }

  // ---- there is such a name and such a setting ----

  function OneAliasZone(): Zone {
    (n: string, t: uint16) =>
      if n == "a." && t == TYPE_CNAME then [RR("a.", TYPE_CNAME, CLASS_INET, 0, Alias("b."))] else []
  }

  lemma SuchASettingExists(ttl: uint32, geo: EcsFallback.Geo) returns (zone: Zone, rank: Rank, s: Setting, x: RR)
    ensures Dangles(zone, rank, "a.", TYPE_A, x) && Steady(s, zone, rank, ttl) && Simple(s, "a.")
  {
    zone, rank := OneAliasZone(), (n: string) => if n == "a." then 1 else 0;
    x := RR("a.", TYPE_CNAME, CLASS_INET, 0, Alias("b."));
    assert "a." != "b." && zone("a.", TYPE_CNAME) == [x];
    var answers := HonestGroupsExist(zone, rank, ttl);
    s := Setting([Policy(UNKNOWN, "up", Options(false, false, [], "", ""))], map[], [], geo, {"up"}, answers);
    assert Matching.MatchSpec(map[], "a.") == None by {
      Matching.BestIsLongestSuffix(map[], Matching.Normalise("a."));
    }
    assert |"up"| == 2 && |BLOCK| == 5 && |ECS_FALLBACK| == 18;
  }
}
