/**
 * Two names that are aliases of each other: nothing keeps such a pair out of the cache, and each query that
 * files it again multiplies its cached copies by five.
 */
module AliasRing {
  import opened Dns
  import opened CacheModel
  import opened ChainWalk
  import opened RouterModel
  import opened Transparency
  import opened ServedTTL
  import opened PolicyOptions
  import opened TTLDrift
  import EcsFallback
  import Matching

  function AliasRR(owner: string, target: string, ttl: uint32): RR {
    RR(owner, TYPE_CNAME, CLASS_INET, ttl, Alias(target))
  }

  /** So many copies of one alias, filed together and fresh at the given instant. */
  ghost predicate Copies(items: seq<Item>, owner: string, target: string, p: nat, until: int) {
    |items| == p && forall x :: x in items ==> IsCopy(x, items[0], owner, target) && !x.IsExpired(until)
  }

  ghost predicate IsCopy(x: Item, first: Item, owner: string, target: string) {
    x.rr == AliasRR(owner, target, x.rr.ttl) && x.origTTL == first.origTTL && x.storedAt == first.storedAt
  }

  ghost predicate TwoNames(a: string, b: string, qtype: uint16) {
    IsFqdn(a) && IsFqdn(b) && a != b && qtype != TYPE_CNAME
  }

  ghost predicate HoldsCopies(store: Store, owner: string, target: string, p: nat, until: int) {
    CacheKey(owner, TYPE_CNAME) in store && Copies(store[CacheKey(owner, TYPE_CNAME)], owner, target, p, until)
  }

  /** The cache holds p copies of either alias, and neither name has an entry of the type. */
  ghost predicate Ring(store: Store, a: string, b: string, qtype: uint16, p: nat, until: int) {
    && HoldsCopies(store, a, b, p, until) && HoldsCopies(store, b, a, p, until)
    && CacheKey(a, qtype) !in store && CacheKey(b, qtype) !in store
  }

  // ---- the walk round the ring ----

  function Alternate(x: seq<RR>, y: seq<RR>, j: nat): seq<RR> {
    if j == 0 then [] else x + (y + Alternate(x, y, j - 1))
  }

  /** What the walk reads at either name, at all its readings. */
  ghost predicate Shown(view: View, a: string, b: string, qtype: uint16, cnames: seq<Item>, r: Round) {
    && view(CacheKey(a, qtype), r.typeAt) == [] && view(CacheKey(a, TYPE_CNAME), r.aliasAt) == cnames
    && cnames != [] && Follow(cnames, a) == b
  }

  lemma OneRound(view: View, a: string, b: string, qtype: uint16, cnames: seq<Item>, depth: nat, now: int,
                 ts: seq<Round>, rest: WalkResult)
    requires 0 < depth <= |ts| && Shown(view, a, b, qtype, cnames, ts[0])
    requires rest == Walk(view, b, qtype, depth - 1, now, ts[1..])
    ensures Walk(view, a, qtype, depth, now, ts) == rest.(answers := Emit(cnames, now) + rest.answers)
  {
  }

  lemma TwoRounds(view: View, a: string, b: string, qtype: uint16, x: seq<Item>, y: seq<Item>, depth: nat, now: int,
                  ts: seq<Round>, rest: WalkResult)
    requires 2 <= depth <= |ts| && Shown(view, a, b, qtype, x, ts[0]) && Shown(view, b, a, qtype, y, ts[1])
    requires rest == Walk(view, a, qtype, depth - 2, now, ts[1..][1..])
    ensures Walk(view, a, qtype, depth, now, ts)
         == rest.(answers := Emit(x, now) + (Emit(y, now) + rest.answers))
  {
    OneRound(view, b, a, qtype, y, depth - 1, now, ts[1..], rest);
    OneRound(view, a, b, qtype, x, depth, now, ts, rest.(answers := Emit(y, now) + rest.answers));
  }

  ghost predicate AllShown(view: View, a: string, b: string, qtype: uint16, x: seq<Item>, y: seq<Item>,
                           ts: seq<Round>) {
    forall r :: r in ts ==> Shown(view, a, b, qtype, x, r) && Shown(view, b, a, qtype, y, r)
  }

  lemma {:induction false} WalkRound(view: View, a: string, b: string, qtype: uint16, x: seq<Item>, y: seq<Item>,
                                     j: nat, now: int, ts: seq<Round>)
    requires |ts| >= 2 * j && AllShown(view, a, b, qtype, x, y, ts)
    ensures Walk(view, a, qtype, 2 * j, now, ts) == WalkResult(Alternate(Emit(x, now), Emit(y, now), j), true, a)
    decreases j
  {
    if j > 0 {
      var rest := ts[1..][1..];
      assert forall r :: r in rest ==> r in ts;
      WalkRound(view, a, b, qtype, x, y, j - 1, now, rest);
      assert ts[0] in ts && ts[1] in ts;
      TwoRounds(view, a, b, qtype, x, y, 2 * j, now, ts,
                WalkResult(Alternate(Emit(x, now), Emit(y, now), j - 1), true, a));
    }
  }

  lemma CopiesAreLive(items: seq<Item>, owner: string, target: string, p: nat, until: int, t: int)
    requires Copies(items, owner, target, p, until) && p > 0 && t <= until
    ensures Live(items, t) == items
  {
    assert forall i :: 0 <= i < |items| ==> items[i] in items;
    LiveAllOrNothing(items, t);
  }

  lemma CopiesLead(items: seq<Item>, owner: string, target: string, p: nat, until: int)
    requires Copies(items, owner, target, p, until) && p > 0 && IsFqdn(target)
    ensures Follow(items, owner) == target
  {
    assert items[|items| - 1] in items;
  }

  lemma RingShows(store: Store, a: string, b: string, qtype: uint16, p: nat, until: int, r: Round)
    requires TwoNames(a, b, qtype) && Ring(store, a, b, qtype, p, until) && p > 0 && r.aliasAt <= until
    ensures Shown(ViewOf(store), a, b, qtype, store[CacheKey(a, TYPE_CNAME)], r)
  {
    CopiesAreLive(store[CacheKey(a, TYPE_CNAME)], a, b, p, until, r.aliasAt);
    CopiesLead(store[CacheKey(a, TYPE_CNAME)], a, b, p, until);
  }

  function CachedAliases(store: Store, n: string, now: int): seq<RR>
    requires CacheKey(n, TYPE_CNAME) in store
  {
    Emit(store[CacheKey(n, TYPE_CNAME)], now)
  }

  /** A walk of the default depth goes five times round the ring and takes every copy each time. */
  lemma FiveRounds(store: Store, domain: string, a: string, b: string, qtype: uint16, p: nat, until: int,
                   sch: Schedule)
    requires TwoNames(a, b, qtype) && Ring(store, a, b, qtype, p, until) && p > 0
    requires Fqdn(domain) == a && Ordered(sch.ts, sch.now, until)
    ensures CachedPart(store, domain, qtype, sch)
         == WalkResult(Alternate(CachedAliases(store, a, sch.now), CachedAliases(store, b, sch.now), 5), true, a)
  {
    OrderedBounds(sch.ts, sch.now, until);
    var x, y := store[CacheKey(a, TYPE_CNAME)], store[CacheKey(b, TYPE_CNAME)];
    forall r | r in sch.ts
      ensures Shown(ViewOf(store), a, b, qtype, x, r) && Shown(ViewOf(store), b, a, qtype, y, r)
    {
      RingShows(store, a, b, qtype, p, until, r);
      RingShows(store, b, a, qtype, p, until, r);
    }
    WalkRound(ViewOf(store), a, b, qtype, x, y, 5, sch.now, sch.ts);
  }

  // ---- its groups ----

  ghost predicate AllAre(rrs: seq<RR>, x: RR) {
    forall r :: r in rrs ==> r == x
  }

  lemma {:induction false} AlternateGroup(x: seq<RR>, y: seq<RR>, j: nat, g: GroupKey)
    ensures |GroupOf(Alternate(x, y, j), g)| == j * |GroupOf(x, g)| + j * |GroupOf(y, g)|
    decreases j
  {
    if j > 0 {
      var rest := Alternate(x, y, j - 1);
      AlternateGroup(x, y, j - 1, g);
      GroupOfConcat(x, y + rest, g);
      GroupOfConcat(y, rest, g);
      OneMoreTime(j, |GroupOf(x, g)|);
      OneMoreTime(j, |GroupOf(y, g)|);
    }
  }

  lemma OneMoreTime(j: nat, n: nat)
    requires j > 0
    ensures j * n == n + (j - 1) * n
  {
  }

  lemma {:induction false} AlternateMembers(x: seq<RR>, y: seq<RR>, j: nat)
    ensures |Alternate(x, y, j)| == j * |x| + j * |y|
    ensures forall r :: r in Alternate(x, y, j) ==> r in x || r in y
    decreases j
  {
    if j > 0 {
      AlternateMembers(x, y, j - 1);
      OneMoreTime(j, |x|);
      OneMoreTime(j, |y|);
    }
  }

  lemma FiveOfEach(x: seq<RR>, y: seq<RR>, a: RR, b: RR, p: nat, answer: seq<RR>)
    requires AllAre(x, a) && AllAre(y, b) && |x| == |y| == p && KeyOf(a) != KeyOf(b)
    requires answer == Alternate(x, y, 5)
    ensures |answer| == 10 * p && Carries(answer, a, 5 * p) && Carries(answer, b, 5 * p)
    ensures forall r :: r in answer ==> r == a || r == b
  {
    AlternateGroup(x, y, 5, KeyOf(a));
    AlternateGroup(x, y, 5, KeyOf(b));
    AlternateMembers(x, y, 5);
    GroupOfAlike(x, a, KeyOf(b));
    GroupOfAlike(y, b, KeyOf(a));
  }

  /** The answer has so many records of the group of x, all of them x. */
  ghost predicate Carries(answer: seq<RR>, x: RR, n: nat) {
    |GroupOf(answer, KeyOf(x))| == n && forall r :: r in answer && KeyOf(r) == KeyOf(x) ==> r == x
  }

  lemma GroupOfAlike(rrs: seq<RR>, x: RR, other: GroupKey)
    requires AllAre(rrs, x) && KeyOf(x) != other
    ensures GroupOf(rrs, KeyOf(x)) == rrs && GroupOf(rrs, other) == []
  {
    GroupOfUniform(rrs, KeyOf(x), KeyOf(x));
    GroupOfUniform(rrs, other, KeyOf(x));
  }

  lemma CopiesServeAlike(items: seq<Item>, owner: string, target: string, p: nat, until: int, now: int)
    requires Copies(items, owner, target, p, until) && p > 0
    ensures AllAre(Emit(items, now), items[0].Served(now)) && KeyOf(items[0].rr) == GroupKey(owner, TYPE_CNAME)
    ensures items[0].Served(now) == AliasRR(owner, target, items[0].Served(now).ttl)
  {
    assert items[0] in items;
    forall r | r in Emit(items, now)
      ensures r == items[0].Served(now)
    {
      var i :| 0 <= i < |items| && Emit(items, now)[i] == r;
      assert items[i] in items;
    }
  }

  /** What is known of the reply's records, for both names of the ring. */
  lemma RingGroups(store: Store, a: string, b: string, qtype: uint16, p: nat, until: int, now: int, answer: seq<RR>)
    requires TwoNames(a, b, qtype) && Ring(store, a, b, qtype, p, until) && p > 0
    requires answer == Alternate(CachedAliases(store, a, now), CachedAliases(store, b, now), 5)
    ensures var x, y := store[CacheKey(a, TYPE_CNAME)][0].Served(now), store[CacheKey(b, TYPE_CNAME)][0].Served(now);
            && KeyOf(x) == GroupKey(a, TYPE_CNAME) && KeyOf(y) == GroupKey(b, TYPE_CNAME)
            && Carries(answer, x, 5 * p) && Carries(answer, y, 5 * p)
    ensures forall r :: r in answer ==> r.rtype == TYPE_CNAME && r.data.Alias? && (r.name == a || r.name == b)
    ensures NoClash(answer) && |answer| == 10 * p
  {
    var xs, ys := store[CacheKey(a, TYPE_CNAME)], store[CacheKey(b, TYPE_CNAME)];
    CopiesServeAlike(xs, a, b, p, until, now);
    CopiesServeAlike(ys, b, a, p, until, now);
    FiveOfEach(Emit(xs, now), Emit(ys, now), xs[0].Served(now), ys[0].Served(now), p, answer);
    WireNamesDoNotClash(answer);
  }

  // ---- one call ----

  /** A query for the name, under an ordinary policy that caches, whose group answers without records. */
  ghost predicate AsksInVain(c: Call, a: string, qtype: uint16) {
    var p := PolicyFor(c.setting, c.domain);
    && Fqdn(c.domain) == a && c.qtype == qtype && Ordinary(p) && !p.options.disableCache
    && var r := Ask(c.setting, p.group, a, qtype, c.schedule.firstCall); r.Some? && r.value.answer == []
  }

  ghost predicate AllAliases(rrs: seq<RR>) {
    forall x :: x in rrs ==> x.rtype == TYPE_CNAME && x.data.Alias?
  }

  lemma {:induction false} NoAddresses(rrs: seq<RR>)
    requires AllAliases(rrs)
    ensures WithoutHTTPS(rrs) == rrs && EcsFallback.ExtractIPs(rrs) == []
    decreases |rrs|
  {
    if rrs != [] {
      NoAddresses(rrs[..|rrs| - 1]);
      assert rrs == rrs[..|rrs| - 1] + [rrs[|rrs| - 1]];
      assert rrs[|rrs| - 1] in rrs;
    }
  }

  /** Aliases with nothing after them fit every rule and have nothing to strip, whatever the options. */
  lemma VainMiss(s: Setting, domain: string, qtype: uint16, w: WalkResult, p: Policy, f: Fanout, outer: Writes,
                 call: nat) returns (m: Msg)
    requires p == PolicyFor(s, domain) && Ordinary(p) && !p.options.disableCache && AllAliases(w.answers)
    requires var r := Ask(s, p.group, Target(domain, w), qtype, call); r.Some? && r.value.answer == []
    ensures MissSpec(s, domain, qtype, w, f, outer, call).reply == Some(m)
    ensures MissSpec(s, domain, qtype, w, f, outer, call).cached == [(m, outer)]
    ensures m.answer == w.answers
  {
    var resp := Ask(s, p.group, Target(domain, w), qtype, call).value;
    AppendNothing(w.answers);
    NoAddresses(w.answers);
    m := Filtered(Merge(domain, qtype, w.answers, resp), p.options.disableHTTPS);
    assert Merged(s, domain, qtype, w, p, call) == Some(m);
    assert Fits(s, m, p.options);
  }

  lemma RingHasAliases(store: Store, a: string, b: string, qtype: uint16, p: nat, until: int, now: int,
                       answer: seq<RR>)
    requires TwoNames(a, b, qtype) && Ring(store, a, b, qtype, p, until) && p > 0
    requires answer == Alternate(CachedAliases(store, a, now), CachedAliases(store, b, now), 5)
    ensures AllAliases(answer) && answer != []
  {
    RingGroups(store, a, b, qtype, p, until, now, answer);
  }

  lemma ReplyFromRing(c: Call, store: Store, a: string, b: string, qtype: uint16, p: nat) returns (m: Msg)
    requires TwoNames(a, b, qtype) && Ring(store, a, b, qtype, p, c.until) && p > 0
    requires AsksInVain(c, a, qtype) && Ordered(c.schedule.ts, c.schedule.now, c.until)
    ensures CallOutcome(c, store).reply == Some(m) && CallOutcome(c, store).cached == [(m, c.schedule.outer)]
    ensures m.answer
         == Alternate(CachedAliases(store, a, c.schedule.now), CachedAliases(store, b, c.schedule.now), 5)
  {
    FiveRounds(store, c.domain, a, b, qtype, p, c.until, c.schedule);
    var w := CachedPart(store, c.domain, qtype, c.schedule);
    RingHasAliases(store, a, b, qtype, p, c.until, c.schedule.now, w.answers);
    m := VainMiss(c.setting, c.domain, qtype, w, PolicyFor(c.setting, c.domain), c.schedule.fanout, c.schedule.outer,
                  c.schedule.firstCall);
  }

  /** What the second loop leaves under a name of the ring. */
  lemma FiledCopies(m: Msg, owner: string, target: string, x: RR, n: nat, maxTTL: Duration, t: int, until: int)
    requires x == AliasRR(owner, target, x.ttl) && Carries(m.answer, x, n)
    requires until < t + Clamp(x.ttl, maxTTL) * SECOND
    ensures Copies(Stamp(ItemsOf(m, KeyOf(x)), maxTTL, t), owner, target, n, until)
  {
    var items := Stamp(ItemsOf(m, KeyOf(x)), maxTTL, t);
    GroupMembers(m.answer, KeyOf(x));
    forall i | 0 <= i < |items|
      ensures items[i].rr == x
    {
      assert GroupOf(m.answer, KeyOf(x))[i] in GroupOf(m.answer, KeyOf(x));
    }
  }

  /** A copy that is served and filed again does not expire earlier. */
  lemma FiledAgainIsFresh(it: Item, maxTTL: Duration, now: int, t: int, until: int)
    requires it.origTTL * SECOND <= maxTTL && it.storedAt <= now <= t && now <= until && !it.IsExpired(until)
    ensures until < t + Clamp(it.Served(now).ttl, maxTTL) * SECOND
  {
    RecacheDrift(it, maxTTL, now, t);
  }

  lemma RingKeysDiffer(a: string, b: string, qtype: uint16)
    requires TwoNames(a, b, qtype)
    ensures CacheKey(a, TYPE_CNAME) != CacheKey(b, TYPE_CNAME)
    ensures CacheKey(a, qtype) != CacheKey(a, TYPE_CNAME) && CacheKey(a, qtype) != CacheKey(b, TYPE_CNAME)
  {
  }

  /** Either name's part of what the call leaves. */
  lemma OneNameLater(store: Store, m: Msg, maxTTL: Duration, writes: Writes, now: int, hi: int, owner: string,
                     target: string, p: nat, until: int)
    requires HoldsCopies(store, owner, target, p, until) && p > 0 && now <= hi <= until
    requires WellFormed(store, maxTTL, now) && NoClash(m.answer) && ValidWrites(m.answer, writes, now, hi)
    requires var x := store[CacheKey(owner, TYPE_CNAME)][0].Served(now);
             KeyOf(x) == GroupKey(owner, TYPE_CNAME) && Carries(m.answer, x, 5 * p)
    ensures HoldsCopies(CacheWrites(store, m, maxTTL, writes), owner, target, 5 * p, until)
  {
    var k := CacheKey(owner, TYPE_CNAME);
    var first := store[k][0];
    var x := first.Served(now);
    assert first in store[k] && ItemFits(first, k, maxTTL, now);
    GroupMembers(m.answer, KeyOf(x));
    assert GroupOf(m.answer, KeyOf(x))[0] in GroupOf(m.answer, KeyOf(x));
    var i := WriteOf(m, writes, now, hi, x);
    FiledAgainIsFresh(first, maxTTL, now, writes[i].1, until);
    FiledCopies(m, owner, target, x, 5 * p, maxTTL, writes[i].1, until);
    CacheWritesExactly(store, m, maxTTL, writes, now, hi);
  }

  lemma OtherKeysStay(store: Store, m: Msg, maxTTL: Duration, writes: Writes, lo: int, hi: int, k: Key)
    requires ValidWrites(m.answer, writes, lo, hi)
    requires forall r :: r in m.answer ==> CacheKey(r.name, r.rtype) != k
    ensures k in CacheWrites(store, m, maxTTL, writes) <==> k in store
  {
    forall i | 0 <= i < |writes|
      ensures KeyAt(writes, i) != k
    {
      assert writes[i].0 in Written(writes);
    }
    CacheWritesElsewhere(store, m, maxTTL, writes, k);
  }

  /**
   * One query that goes round the ring in vain, whenever it reads the clock and in whatever order it files:
   * where the cache held p copies of either alias, the reply carries 10 p aliases, and the cache then 5 p of either.
   */
  lemma RingGrows(c: Call, store: Store, maxTTL: Duration, before: int, a: string, b: string, qtype: uint16, p: nat,
                  until: int) returns (m: Msg)
    requires TwoNames(a, b, qtype) && Ring(store, a, b, qtype, p, until) && p > 0 && c.until <= until
    requires WellFormed(store, maxTTL, before) && Starts(c, before) && Files(c, store) && AsksInVain(c, a, qtype)
    ensures CallOutcome(c, store).reply == Some(m) && |m.answer| == 10 * p
    ensures Ring(WriteAll(store, maxTTL, CallOutcome(c, store).cached), a, b, qtype, 5 * p, until)
  {
    var now, writes := c.schedule.now, c.schedule.outer;
    EarlierRing(store, a, b, qtype, p, c.until, until);
    m := ReplyFromRing(c, store, a, b, qtype, p);
    assert (m, writes) in CallOutcome(c, store).cached;
    OrderedBounds(c.schedule.ts, now, c.until);
    WellFormedLater(store, maxTTL, before, now);
    WriteAllOne(store, maxTTL, m, writes);
    RingAfter(store, m, maxTTL, writes, now, c.until, a, b, qtype, p, until);
  }

  lemma EarlierRing(store: Store, a: string, b: string, qtype: uint16, p: nat, t: int, until: int)
    requires Ring(store, a, b, qtype, p, until) && t <= until
    ensures Ring(store, a, b, qtype, p, t)
  {
  }

  lemma RingAfter(store: Store, m: Msg, maxTTL: Duration, writes: Writes, now: int, hi: int, a: string, b: string,
                  qtype: uint16, p: nat, until: int)
    requires TwoNames(a, b, qtype) && Ring(store, a, b, qtype, p, until) && p > 0 && now <= hi <= until
    requires WellFormed(store, maxTTL, now) && ValidWrites(m.answer, writes, now, hi)
    requires m.answer == Alternate(CachedAliases(store, a, now), CachedAliases(store, b, now), 5)
    ensures Ring(CacheWrites(store, m, maxTTL, writes), a, b, qtype, 5 * p, until) && |m.answer| == 10 * p
  {
    RingGroups(store, a, b, qtype, p, until, now, m.answer);
    RingKeysDiffer(a, b, qtype);
    OneNameLater(store, m, maxTTL, writes, now, hi, a, b, p, until);
    OneNameLater(store, m, maxTTL, writes, now, hi, b, a, p, until);
    OtherKeysStay(store, m, maxTTL, writes, now, hi, CacheKey(a, qtype));
    OtherKeysStay(store, m, maxTTL, writes, now, hi, CacheKey(b, qtype));
  }

  /** Nothing is filed anew, under any key: the copies are re-cached ones, so their drift is bounded, loop or not. */
  lemma RingFilesNothingAnew(c: Call, store: Store, a: string, b: string, qtype: uint16, p: nat, k: Key)
    requires TwoNames(a, b, qtype) && Ring(store, a, b, qtype, p, c.until) && p > 0
    requires AsksInVain(c, a, qtype) && Ordered(c.schedule.ts, c.schedule.now, c.until)
    ensures NotAnew(c, store, k)
  {
    FiveRounds(store, c.domain, a, b, qtype, p, c.until, c.schedule);
    var m := ReplyFromRing(c, store, a, b, qtype, p);
    assert CachedPart(store, c.domain, c.qtype, c.schedule).answers == m.answer;
  }

  // ---- over runs ----

  /** p times 5 to the k. */
  function Grown(p: nat, k: nat): (r: nat)
    ensures p > 0 ==> r > 0
  {
    if k == 0 then p else 5 * Grown(p, k - 1)
  }

  /** The run is in time and leaves a ring with so many copies. */
  ghost predicate Leaves(calls: seq<Call>, maxTTL: Duration, start: int, a: string, b: string, qtype: uint16, p: nat,
                         until: int) {
    InTime(calls, maxTTL, start) && Ring(StoreAfter(calls, maxTTL), a, b, qtype, p, until)
  }

  /** A query for either name of the ring. */
  ghost predicate GoesRound(c: Call, a: string, b: string, qtype: uint16) {
    AsksInVain(c, a, qtype) || AsksInVain(c, b, qtype)
  }

  /** So is every call from the m-th on. */
  ghost predicate AllGoRound(calls: seq<Call>, m: nat, a: string, b: string, qtype: uint16) {
    |calls| <= m || var z := |calls| - 1;
                    AllGoRound(calls[..z], m, a, b, qtype) && GoesRound(calls[z], a, b, qtype)
  }

  lemma OneCallMore(calls: seq<Call>, c: Call, more: seq<Call>, maxTTL: Duration, start: int, a: string, b: string,
                    qtype: uint16, p: nat, until: int)
    requires TwoNames(a, b, qtype) && p > 0 && Leaves(calls, maxTTL, start, a, b, qtype, p, until)
    requires Starts(c, EndOf(calls, start)) && Files(c, StoreAfter(calls, maxTTL))
    requires GoesRound(c, a, b, qtype) && c.until <= until && more == calls + [c]
    ensures Leaves(more, maxTTL, start, a, b, qtype, 5 * p, until) && EndOf(more, start) == c.until
  {
    RunsKeepWellFormed(calls, maxTTL, start);
    RingGrowsEitherWay(c, StoreAfter(calls, maxTTL), maxTTL, EndOf(calls, start), a, b, qtype, p, until);
    OneMoreCall(calls, c, maxTTL, start);
  }

  lemma RingGrowsEitherWay(c: Call, store: Store, maxTTL: Duration, before: int, a: string, b: string, qtype: uint16,
                           p: nat, until: int)
    requires TwoNames(a, b, qtype) && Ring(store, a, b, qtype, p, until) && p > 0 && c.until <= until
    requires WellFormed(store, maxTTL, before) && Starts(c, before) && Files(c, store) && GoesRound(c, a, b, qtype)
    ensures Ring(WriteAll(store, maxTTL, CallOutcome(c, store).cached), a, b, qtype, 5 * p, until)
  {
    if AsksInVain(c, a, qtype) {
      var m := RingGrows(c, store, maxTTL, before, a, b, qtype, p, until);
    } else {
      var m := RingGrows(c, store, maxTTL, before, b, a, qtype, p, until);
    }
  }

  lemma OneMoreGoesRound(calls: seq<Call>, c: Call, more: seq<Call>, m: nat, a: string, b: string, qtype: uint16)
    requires AllGoRound(calls, m, a, b, qtype) && GoesRound(c, a, b, qtype) && more == calls + [c]
    ensures AllGoRound(more, m, a, b, qtype)
  {
    assert more[..|calls|] == calls;
  }

  lemma LastCallGrows(calls: seq<Call>, maxTTL: Duration, start: int, a: string, b: string, qtype: uint16, p: nat,
                      until: int)
    requires TwoNames(a, b, qtype) && p > 0 && InTime(calls, maxTTL, start) && calls != []
    requires GoesRound(calls[|calls| - 1], a, b, qtype) && EndOf(calls, start) <= until
    requires Ring(StoreAfter(calls[..|calls| - 1], maxTTL), a, b, qtype, p, until)
    ensures Ring(StoreAfter(calls, maxTTL), a, b, qtype, 5 * p, until)
  {
    var z := |calls| - 1;
    RunsKeepWellFormed(calls[..z], maxTTL, start);
    RingGrowsEitherWay(calls[z], StoreAfter(calls[..z], maxTTL), maxTTL, EndOf(calls[..z], start), a, b, qtype, p,
                       until);
  }

  lemma LastEndsLater(calls: seq<Call>, maxTTL: Duration, start: int)
    requires InTime(calls, maxTTL, start) && calls != []
    ensures InTime(calls[..|calls| - 1], maxTTL, start) && EndOf(calls[..|calls| - 1], start) <= EndOf(calls, start)
  {
    var c := calls[|calls| - 1];
    OrderedBounds(c.schedule.ts, c.schedule.now, c.until);
  }

  /** From the store `first` the calls from the m-th on go round the ring one after another. */
  ghost predicate RoundsFrom(calls: seq<Call>, maxTTL: Duration, start: int, m: nat, a: string, b: string,
                             qtype: uint16, until: int, first: Store)
  {
    if |calls| <= m then first == StoreAfter(calls, maxTTL)
    else
      var z := |calls| - 1;
      && RoundsFrom(calls[..z], maxTTL, start, m, a, b, qtype, until, first)
      && LastGoesRound(calls, maxTTL, start, a, b, qtype, until)
  }

  ghost predicate LastGoesRound(calls: seq<Call>, maxTTL: Duration, start: int, a: string, b: string, qtype: uint16,
                                until: int)
  {
    && calls != [] && InTime(calls, maxTTL, start) && EndOf(calls, start) <= until
    && GoesRound(calls[|calls| - 1], a, b, qtype)
  }

  lemma {:induction false} InTimeRounds(calls: seq<Call>, maxTTL: Duration, start: int, m: nat, a: string, b: string,
                                        qtype: uint16, until: int)
    requires m <= |calls| && InTime(calls, maxTTL, start) && AllGoRound(calls, m, a, b, qtype)
    requires EndOf(calls, start) <= until
    ensures RoundsFrom(calls, maxTTL, start, m, a, b, qtype, until, StoreAfter(calls[..m], maxTTL))
    decreases |calls|
  {
    if m == |calls| {
      AllCalls(calls, m);
    } else {
      FewerCalls(calls, m);
      LastEndsLater(calls, maxTTL, start);
      InTimeRounds(calls[..|calls| - 1], maxTTL, start, m, a, b, qtype, until);
    }
  }

  lemma OneRoundMore(calls: seq<Call>, maxTTL: Duration, start: int, a: string, b: string, qtype: uint16, p: nat,
                     until: int)
    requires TwoNames(a, b, qtype) && p > 0 && LastGoesRound(calls, maxTTL, start, a, b, qtype, until)
    requires Ring(StoreAfter(calls[..|calls| - 1], maxTTL), a, b, qtype, p, until)
    ensures Ring(StoreAfter(calls, maxTTL), a, b, qtype, 5 * p, until)
  {
    LastCallGrows(calls, maxTTL, start, a, b, qtype, p, until);
  }

  lemma {:induction false} RoundsGrow(calls: seq<Call>, maxTTL: Duration, start: int, m: nat, k: nat, a: string,
                                      b: string, qtype: uint16, p: nat, until: int, first: Store)
    requires TwoNames(a, b, qtype) && p > 0 && |calls| == m + k
    requires RoundsFrom(calls, maxTTL, start, m, a, b, qtype, until, first) && Ring(first, a, b, qtype, p, until)
    ensures Ring(StoreAfter(calls, maxTTL), a, b, qtype, Grown(p, k), until)
    decreases k
  {
    if k > 0 {
      RoundsGrow(calls[..|calls| - 1], maxTTL, start, m, k - 1, a, b, qtype, p, until, first);
      OneRoundMore(calls, maxTTL, start, a, b, qtype, Grown(p, k - 1), until);
    }
  }

  /**
   * Whatever the times of the calls, as long as the first copies are fresh at the end: after k queries for
   * names of the ring the cache holds 5 to the k times as many copies of either alias.
   */
  lemma RingGrowsOverRuns(calls: seq<Call>, maxTTL: Duration, start: int, m: nat, k: nat, a: string, b: string,
                          qtype: uint16, p: nat, until: int)
    requires TwoNames(a, b, qtype) && p > 0 && |calls| == m + k && InTime(calls, maxTTL, start)
    requires AllGoRound(calls, m, a, b, qtype) && EndOf(calls, start) <= until
    requires Ring(StoreAfter(calls[..m], maxTTL), a, b, qtype, p, until)
    ensures Ring(StoreAfter(calls, maxTTL), a, b, qtype, Grown(p, k), until)
  {
    InTimeRounds(calls, maxTTL, start, m, a, b, qtype, until);
    RoundsGrow(calls, maxTTL, start, m, k, a, b, qtype, p, until, StoreAfter(calls[..m], maxTTL));
  }

  // ---- from an empty cache ----

  /** A group that answers its first call with the two aliases, and any further one without records. */
  function LoopSetting(a: string, b: string, ttl: uint32): Setting {
    Setting([Policy(UNKNOWN, "up", Options(false, false, [], "", ""))], map[], [],
            (ip: string, rule: string) => false, {"up"},
            (g: string, n: string, t: uint16, c: nat) =>
              Some(Question(n, t).(answer := if c == 0 then [AliasRR(a, b, ttl), AliasRR(b, a, ttl)] else [])))
  }

  lemma LoopSettingIsSimple(a: string, b: string, ttl: uint32, domain: string)
    ensures Simple(LoopSetting(a, b, ttl), domain) && PolicyFor(LoopSetting(a, b, ttl), domain).group == "up"
  {
    Matching.BestIsLongestSuffix(map[], Matching.Normalise(domain));
    assert |"up"| == 2 && |BLOCK| == 5 && |ECS_FALLBACK| == 18;
  }

  function BothAliases(a: string, b: string, t: int): Writes {
    [(GroupKey(a, TYPE_CNAME), t), (GroupKey(b, TYPE_CNAME), t)]
  }

  /** A query for the first name that takes no time; n is the number of its upstream call. */
  function LoopCall(domain: string, b: string, qtype: uint16, ttl: uint32, t: int, n: nat): Call {
    var a := Fqdn(domain);
    Call(LoopSetting(a, b, ttl), domain, qtype,
         Schedule(t, Tail(t, DEFAULT_DEPTH), Fanout(true, true, []), BothAliases(a, b, t), n), t)
  }

  lemma LoopCallStarts(domain: string, b: string, qtype: uint16, ttl: uint32, t: int, n: nat)
    ensures Starts(LoopCall(domain, b, qtype, ttl, t, n), t)
  {
    OrderedTail([], t, t, DEFAULT_DEPTH);
    assert [] + Tail(t, DEFAULT_DEPTH) == Tail(t, DEFAULT_DEPTH);
  }

  lemma BothAreWritten(answer: seq<RR>, a: string, b: string, t: int)
    requires a != b && GroupKeys(answer) == {GroupKey(a, TYPE_CNAME), GroupKey(b, TYPE_CNAME)}
    ensures ValidWrites(answer, BothAliases(a, b, t), t, t)
  {
    var writes := BothAliases(a, b, t);
    assert writes[0].0 in Written(writes) && writes[1].0 in Written(writes);
  }

  /** The answer with both aliases is filed as it is. */
  lemma LoopIsFiled(domain: string, a: string, b: string, qtype: uint16, ttl: uint32, maxTTL: Duration, t: int,
                    until: int)
    requires a == Fqdn(domain) && TwoNames(a, b, qtype) && ttl * SECOND <= maxTTL && until < t + ttl * SECOND
    ensures Files(LoopCall(domain, b, qtype, ttl, t, 0), map[])
    ensures Ring(WriteAll(map[], maxTTL, CallOutcome(LoopCall(domain, b, qtype, ttl, t, 0), map[]).cached), a, b,
                 qtype, 1, until)
  {
    var c := LoopCall(domain, b, qtype, ttl, t, 0);
    LoopSettingIsSimple(a, b, ttl, domain);
    var w := CachedPart(map[], domain, qtype, c.schedule);
    assert w == WalkResult([], true, a);
    var m := SimpleMiss(c.setting, domain, qtype, w, c.schedule.fanout, c.schedule.outer, 0);
    assert m.answer == [AliasRR(a, b, ttl), AliasRR(b, a, ttl)];
    assert CallOutcome(c, map[]).cached == [(m, c.schedule.outer)];
    TwoAliasesFiled(m, a, b, qtype, ttl, maxTTL, t, until);
    WriteAllOne(map[], maxTTL, m, c.schedule.outer);
  }

  lemma FirstCopy(m: Msg, owner: string, target: string, maxTTL: Duration, writes: Writes, t: int, until: int, x: RR,
                  i: nat)
    requires NoClash(m.answer) && ValidWrites(m.answer, writes, t, t) && Carries(m.answer, x, 1)
    requires x == AliasRR(owner, target, x.ttl) && x.ttl * SECOND <= maxTTL && until < t + x.ttl * SECOND
    requires i < |writes| && writes[i] == (KeyOf(x), t)
    ensures HoldsCopies(CacheWrites(map[], m, maxTTL, writes), owner, target, 1, until)
  {
    ClampBounds(x.ttl, maxTTL);
    FiledCopies(m, owner, target, x, 1, maxTTL, t, until);
    CacheWritesExactly(map[], m, maxTTL, writes, t, t);
    assert KeyAt(writes, i) == CacheKey(owner, TYPE_CNAME);
  }

  lemma TwoAliasesFiled(m: Msg, a: string, b: string, qtype: uint16, ttl: uint32, maxTTL: Duration, t: int,
                        until: int)
    requires TwoNames(a, b, qtype) && m.answer == [AliasRR(a, b, ttl), AliasRR(b, a, ttl)]
    requires ttl * SECOND <= maxTTL && until < t + ttl * SECOND
    ensures ValidWrites(m.answer, BothAliases(a, b, t), t, t)
    ensures Ring(CacheWrites(map[], m, maxTTL, BothAliases(a, b, t)), a, b, qtype, 1, until)
  {
    var x, y := AliasRR(a, b, ttl), AliasRR(b, a, ttl);
    assert m.answer == [x] + [y];
    TwoMembers(m.answer, x, y);
    CarriesOne(m.answer, x, y);
    KeysOfRing(m.answer, a, b);
    BothAreWritten(m.answer, a, b, t);
    WireNamesDoNotClash(m.answer);
    FirstCopy(m, a, b, maxTTL, BothAliases(a, b, t), t, until, x, 0);
    FirstCopy(m, b, a, maxTTL, BothAliases(a, b, t), t, until, y, 1);
    OtherKeysStay(map[], m, maxTTL, BothAliases(a, b, t), t, t, CacheKey(a, qtype));
    OtherKeysStay(map[], m, maxTTL, BothAliases(a, b, t), t, t, CacheKey(b, qtype));
  }

  lemma TwoMembers(answer: seq<RR>, x: RR, y: RR)
    requires answer == [x] + [y]
    ensures forall r :: r in answer ==> r == x || r == y
  {
  }

  lemma CarriesOne(answer: seq<RR>, x: RR, y: RR)
    requires answer == [x] + [y] && KeyOf(x) != KeyOf(y)
    ensures |GroupOf(answer, KeyOf(x))| == |GroupOf(answer, KeyOf(y))| == 1
  {
    GroupOfConcat([x], [y], KeyOf(x));
    GroupOfConcat([x], [y], KeyOf(y));
    GroupOfAlike([x], x, KeyOf(y));
    GroupOfAlike([y], y, KeyOf(x));
  }

  /** A further query of that kind goes round the ring. */
  lemma LoopGoesRound(domain: string, a: string, b: string, qtype: uint16, ttl: uint32, t: int, store: Store, p: nat,
                      until: int)
    requires a == Fqdn(domain) && TwoNames(a, b, qtype) && Ring(store, a, b, qtype, p, until) && p > 0 && t <= until
    ensures AsksInVain(LoopCall(domain, b, qtype, ttl, t, 1), a, qtype)
    ensures Files(LoopCall(domain, b, qtype, ttl, t, 1), store)
  {
    var c := LoopCall(domain, b, qtype, ttl, t, 1);
    LoopSettingIsSimple(a, b, ttl, domain);
    LoopCallStarts(domain, b, qtype, ttl, t, 1);
    EarlierRing(store, a, b, qtype, p, t, until);
    var m := ReplyFromRing(c, store, a, b, qtype, p);
    RingGroups(store, a, b, qtype, p, until, t, m.answer);
    KeysOfRing(m.answer, a, b);
    BothAreWritten(m.answer, a, b, t);
  }

  lemma KeysOfRing(answer: seq<RR>, a: string, b: string)
    requires forall r :: r in answer ==> r.rtype == TYPE_CNAME && (r.name == a || r.name == b)
    requires GroupOf(answer, GroupKey(a, TYPE_CNAME)) != [] && GroupOf(answer, GroupKey(b, TYPE_CNAME)) != []
    ensures GroupKeys(answer) == {GroupKey(a, TYPE_CNAME), GroupKey(b, TYPE_CNAME)}
  {
    GroupNonEmpty(answer, GroupKey(a, TYPE_CNAME));
    GroupNonEmpty(answer, GroupKey(b, TYPE_CNAME));
    forall g | g in GroupKeys(answer)
      ensures g in {GroupKey(a, TYPE_CNAME), GroupKey(b, TYPE_CNAME)}
    {
      var i :| 0 <= i < |answer| && KeyOf(answer[i]) == g;
      assert answer[i] in answer;
    }
  }

  /**
   * Such a run starts from an empty cache: one answer with two aliases that form a loop, then k queries that
   * bring no records, all at one instant, leave 5 to the k copies of either alias.
   */
  lemma {:induction false} LoopFillsTheCache(domain: string, a: string, b: string, qtype: uint16,
                                             ttl: uint32, maxTTL: Duration, t: int, k: nat) returns (calls: seq<Call>)
    requires a == Fqdn(domain) && TwoNames(a, b, qtype) && 1 <= ttl && ttl * SECOND <= maxTTL
    ensures |calls| == k + 1 && AllGoRound(calls, 1, a, b, qtype) && EndOf(calls, t) == t
    ensures NeverAnew(calls, maxTTL, 1, CacheKey(a, TYPE_CNAME))
    ensures Leaves(calls, maxTTL, t, a, b, qtype, Grown(1, k), t)
    decreases k
  {
    if k == 0 {
      calls := LoopBegins(domain, a, b, qtype, ttl, maxTTL, t);
    } else {
      calls := LoopFillsTheCache(domain, a, b, qtype, ttl, maxTTL, t, k - 1);
      calls := LoopOnceMore(calls, domain, a, b, qtype, ttl, maxTTL, t, Grown(1, k - 1));
    }
  }

  lemma OneMoreNotAnew(calls: seq<Call>, c: Call, more: seq<Call>, maxTTL: Duration, k: Key)
    requires NeverAnew(calls, maxTTL, 1, k) && NotAnew(c, StoreAfter(calls, maxTTL), k) && more == calls + [c]
    ensures NeverAnew(more, maxTTL, 1, k)
  {
    assert more[..|calls|] == calls;
  }

  lemma LoopOnceMore(calls: seq<Call>, domain: string, a: string, b: string, qtype: uint16, ttl: uint32,
                     maxTTL: Duration, t: int, p: nat) returns (more: seq<Call>)
    requires a == Fqdn(domain) && TwoNames(a, b, qtype) && p > 0 && Leaves(calls, maxTTL, t, a, b, qtype, p, t)
    requires AllGoRound(calls, 1, a, b, qtype) && EndOf(calls, t) == t
    requires NeverAnew(calls, maxTTL, 1, CacheKey(a, TYPE_CNAME))
    ensures NeverAnew(more, maxTTL, 1, CacheKey(a, TYPE_CNAME))
    ensures |more| == |calls| + 1 && AllGoRound(more, 1, a, b, qtype) && EndOf(more, t) == t
    ensures Leaves(more, maxTTL, t, a, b, qtype, 5 * p, t)
  {
    var c := LoopCall(domain, b, qtype, ttl, t, 1);
    LoopGoesRound(domain, a, b, qtype, ttl, t, StoreAfter(calls, maxTTL), p, t);
    LoopCallStarts(domain, b, qtype, ttl, t, 1);
    more := calls + [c];
    OneMoreGoesRound(calls, c, more, 1, a, b, qtype);
    RingFilesNothingAnew(c, StoreAfter(calls, maxTTL), a, b, qtype, p, CacheKey(a, TYPE_CNAME));
    OneMoreNotAnew(calls, c, more, maxTTL, CacheKey(a, TYPE_CNAME));
    OneCallMore(calls, c, more, maxTTL, t, a, b, qtype, p, t);
  }

  lemma LoopBegins(domain: string, a: string, b: string, qtype: uint16, ttl: uint32, maxTTL: Duration, t: int)
    returns (calls: seq<Call>)
    requires a == Fqdn(domain) && TwoNames(a, b, qtype) && 1 <= ttl && ttl * SECOND <= maxTTL
    ensures |calls| == 1 && EndOf(calls, t) == t && Leaves(calls, maxTTL, t, a, b, qtype, 1, t)
  {
    var c := LoopCall(domain, b, qtype, ttl, t, 0);
    LoopCallStarts(domain, b, qtype, ttl, t, 0);
    LoopIsFiled(domain, a, b, qtype, ttl, maxTTL, t, t);
    OneMoreCall([], c, maxTTL, t);
    calls := [c];
    assert [] + [c] == calls;
  }
}
