/** Following CNAMEs through the cache: the recursive walk that the loop implements. */
module ChainWalk {
  import opened Dns
  import opened CacheModel
  import opened MemoryCache

  const DEFAULT_DEPTH := 10

  datatype WalkResult = WalkResult(answers: seq<RR>, needUpstream: bool, target: string)

  function Emit(items: seq<Item>, now: int): (r: seq<RR>)
    ensures |r| == |items|
    ensures forall i :: 0 <= i < |items| ==> r[i] == items[i].Served(now)
  {
    seq(|items|, i requires 0 <= i < |items| => items[i].Served(now))
  }

  /** Where a list of records under a CNAME key leads: to the last alias in it. */
  function Follow(items: seq<Item>, current: string): string {
    if items == [] then current
    else if items[|items| - 1].rr.data.Alias? then Fqdn(items[|items| - 1].rr.data.target)
    else Follow(items[..|items| - 1], current)
  }

  /** The clock readings of one round: the lookup of the wanted type, then the lookup of an alias. */
  datatype Round = Round(typeAt: int, aliasAt: int)

  /**
   * The walk from `name` over an unchanging view. `now` is the one instant used for all TTLs; `ts` are the
   * clock readings of the lookups, one round for each name visited.
   */
  function Walk(view: View, name: string, qtype: uint16, depth: nat, now: int, ts: seq<Round>): WalkResult
    requires |ts| >= depth
    decreases depth
  {
    if depth == 0 then WalkResult([], true, name)
    else
      var items := view(CacheKey(name, qtype), ts[0].typeAt);
      if items != [] then WalkResult(Emit(items, now), false, "")
      else
        var cnames := view(CacheKey(name, TYPE_CNAME), ts[0].aliasAt);
        if cnames == [] then WalkResult([], true, name)
        else
          var rest := Walk(view, Follow(cnames, name), qtype, depth - 1, now, ts[1..]);
          rest.(answers := Emit(cnames, now) + rest.answers)
  }

  /** Of several records under a CNAME key it is the last alias that is followed, if there is any. */
  lemma {:induction false} LastAliasIsFollowed(items: seq<Item>, current: string) returns (i: int)
    ensures -1 <= i < |items| && forall j :: i < j < |items| ==> !items[j].rr.data.Alias?
    ensures if i < 0 then Follow(items, current) == current
            else items[i].rr.data.Alias? && Follow(items, current) == Fqdn(items[i].rr.data.target)
    decreases |items|
  {
    i := |items| - 1;
    if i >= 0 && !items[i].rr.data.Alias? {
      i := LastAliasIsFollowed(items[..i], current);
    }
  }

  /**
   * One alias and its tail, by the numbers of the protocol: with nothing live of the wanted type under the name
   * itself, what is live under its CNAME key (type 5, class 1) comes first, and then what is live of the wanted
   * type under the name that it leads to.
   */
  lemma AliasThenTail(store: Store, name: string, target: string, qtype: uint16, now: int, ts: seq<Round>)
    requires IsFqdn(name) && IsFqdn(target) && |ts| >= 2
    requires LiveAt(store, Key(name, qtype, 1), ts[0].typeAt) == []
    requires var aliases := LiveAt(store, Key(name, 5, 1), ts[0].aliasAt);
             |aliases| == 1 && aliases[0].rr.data == Alias(target)
    requires LiveAt(store, Key(target, qtype, 1), ts[1].typeAt) != []
    ensures Walk(ViewOf(store), name, qtype, 2, now, ts)
         == WalkResult(Emit(LiveAt(store, Key(name, 5, 1), ts[0].aliasAt), now)
                       + Emit(LiveAt(store, Key(target, qtype, 1), ts[1].typeAt), now), false, "")
  {
    var aliases := LiveAt(store, Key(name, 5, 1), ts[0].aliasAt);
    assert ViewOf(store)(CacheKey(name, TYPE_CNAME), ts[0].aliasAt) == aliases;
    assert Follow(aliases, name) == target;
    assert ts[1..][0] == ts[1];
    assert Walk(ViewOf(store), target, qtype, 1, now, ts[1..])
           == WalkResult(Emit(LiveAt(store, Key(target, qtype, 1), ts[1].typeAt), now), false, "");
  }

  /** Clock readings in order, between two instants. */
  ghost predicate Ordered(ts: seq<Round>, lo: int, hi: int) {
    if ts == [] then lo <= hi
    else lo <= ts[0].typeAt <= ts[0].aliasAt && Ordered(ts[1..], ts[0].aliasAt, hi)
  }

  lemma {:induction false} OrderedBounds(ts: seq<Round>, lo: int, hi: int)
    requires Ordered(ts, lo, hi)
    ensures lo <= hi && forall r :: r in ts ==> lo <= r.typeAt <= r.aliasAt <= hi
    decreases |ts|
  {
    if ts != [] {
      OrderedBounds(ts[1..], ts[0].aliasAt, hi);
      assert ts == [ts[0]] + ts[1..];
    }
  }

  lemma {:induction false} OrderedAppend(ts: seq<Round>, lo: int, hi: int, r: Round)
    requires Ordered(ts, lo, hi) && hi <= r.typeAt <= r.aliasAt
    ensures Ordered(ts + [r], lo, r.aliasAt)
    decreases |ts|
  {
    if ts == [] {
      assert Ordered([], r.aliasAt, r.aliasAt);
      assert (ts + [r])[1..] == [];
    } else {
      OrderedAppend(ts[1..], ts[0].aliasAt, hi, r);
      assert (ts + [r])[1..] == ts[1..] + [r];
    }
  }

  lemma {:induction false} WalkRespectsView(a: View, b: View, name: string, qtype: uint16, depth: nat,
                                            now: int, ts: seq<Round>, from: int)
    requires |ts| >= depth
    requires forall k, t :: from <= t ==> a(k, t) == b(k, t)
    requires forall r :: r in ts ==> from <= r.typeAt && from <= r.aliasAt
    ensures Walk(a, name, qtype, depth, now, ts) == Walk(b, name, qtype, depth, now, ts)
    decreases depth
  {
    if depth > 0 {
      assert ts[0] in ts;
      var cnames := a(CacheKey(name, TYPE_CNAME), ts[0].aliasAt);
      WalkRespectsView(a, b, Follow(cnames, name), qtype, depth - 1, now, ts[1..], from);
    }
  }

  /** A full hit always carries a record, so the router may look at the first one. */
  lemma {:induction false} FullHitHasAnswer(view: View, name: string, qtype: uint16, depth: nat, now: int,
                                            ts: seq<Round>)
    requires |ts| >= depth
    ensures var w := Walk(view, name, qtype, depth, now, ts);
            if w.needUpstream then w.answers == [] ==> w.target == name else w.answers != [] && w.target == ""
    decreases depth
  {
    if depth > 0 {
      var cnames := view(CacheKey(name, TYPE_CNAME), ts[0].aliasAt);
      FullHitHasAnswer(view, Follow(cnames, name), qtype, depth - 1, now, ts[1..]);
    }
  }

  // ---- the shape of the answers ----

  /** The records are aliases, each owned by the target of the one before, leading from start to end. */
  ghost predicate AliasChain(rrs: seq<RR>, start: string, end: string) {
    if rrs == [] then start == end
    else rrs[0].name == start && rrs[0].data.Alias? && AliasChain(rrs[1..], Fqdn(rrs[0].data.target), end)
  }

  /** What a view offers as aliases: at most one per owner, owned by that name. */
  ghost predicate OneAliasPerOwner(view: View) {
    forall n: string, t: int ::
      var cnames := view(CacheKey(n, TYPE_CNAME), t);
      |cnames| <= 1 && forall x :: x in cnames ==> x.rr.data.Alias? && x.rr.name == Fqdn(n)
  }

  /** After m aliases the walk stands at `end`; it stopped there for the reason its result gives. */
  ghost predicate StoppedAt(view: View, w: WalkResult, name: string, qtype: uint16, depth: nat,
                            now: int, ts: seq<Round>, m: nat, end: string)
    requires |ts| >= depth
  {
    && m <= |w.answers| && m <= depth
    && AliasChain(w.answers[..m], name, end)
    && if w.needUpstream then
         && m == |w.answers| && w.target == end
         && (m < depth ==> && view(CacheKey(end, qtype), ts[m].typeAt) == []
                           && view(CacheKey(end, TYPE_CNAME), ts[m].aliasAt) == [])
       else
         && m < |w.answers| && m < depth
         && w.answers[m..] == Emit(view(CacheKey(end, qtype), ts[m].typeAt), now)
  }

  /** The walk follows an alias from its first name. */
  predicate GoesOn(view: View, name: string, qtype: uint16, depth: nat, ts: seq<Round>)
    requires |ts| >= depth
  {
    && depth > 0
    && view(CacheKey(name, qtype), ts[0].typeAt) == []
    && view(CacheKey(name, TYPE_CNAME), ts[0].aliasAt) != []
  }

  lemma StopsAtOnce(view: View, name: string, qtype: uint16, depth: nat, now: int, ts: seq<Round>)
    requires |ts| >= depth && !GoesOn(view, name, qtype, depth, ts)
    ensures StoppedAt(view, Walk(view, name, qtype, depth, now, ts), name, qtype, depth, now, ts, 0, name)
  {
    if depth > 0 {
      var items := view(CacheKey(name, qtype), ts[0].typeAt);
      assert Emit(items, now)[0..] == Emit(items, now);
    }
  }

  lemma StoppedOneLater(view: View, rr: RR, rest: WalkResult, name: string, qtype: uint16, depth: nat, now: int,
                        ts: seq<Round>, m: nat, end: string)
    requires 0 < depth <= |ts| && rr.name == name && rr.data.Alias?
    requires StoppedAt(view, rest, Fqdn(rr.data.target), qtype, depth - 1, now, ts[1..], m, end)
    ensures StoppedAt(view, rest.(answers := [rr] + rest.answers), name, qtype, depth, now, ts, m + 1, end)
  {
    var answers := [rr] + rest.answers;
    assert answers[..m + 1][1..] == rest.answers[..m];
    assert answers[m + 1..] == rest.answers[m..];
  }

  /**
   * With one alias per owner the answers form one connected chain from the queried name, the upstream
   * target is its end, and below the depth limit the end has neither the wanted type nor an alias live.
   */
  lemma {:induction false} WalkIsConnected(view: View, name: string, qtype: uint16, depth: nat, now: int,
                                           ts: seq<Round>)
    returns (m: nat, end: string)
    requires |ts| >= depth && OneAliasPerOwner(view) && IsFqdn(name)
    ensures StoppedAt(view, Walk(view, name, qtype, depth, now, ts), name, qtype, depth, now, ts, m, end)
    decreases depth
  {
    if GoesOn(view, name, qtype, depth, ts) {
      var next := Follow(view(CacheKey(name, TYPE_CNAME), ts[0].aliasAt), name);
      m, end := WalkIsConnected(view, next, qtype, depth - 1, now, ts[1..]);
      ConnectedOneLater(view, name, qtype, depth, now, ts, m, end);
      m := m + 1;
    } else {
      StopsAtOnce(view, name, qtype, depth, now, ts);
      m, end := 0, name;
    }
  }

  lemma ConnectedOneLater(view: View, name: string, qtype: uint16, depth: nat, now: int, ts: seq<Round>, m: nat,
                          end: string)
    requires |ts| >= depth && OneAliasPerOwner(view) && IsFqdn(name) && GoesOn(view, name, qtype, depth, ts)
    requires var next := Follow(view(CacheKey(name, TYPE_CNAME), ts[0].aliasAt), name);
             StoppedAt(view, Walk(view, next, qtype, depth - 1, now, ts[1..]), next, qtype, depth - 1, now, ts[1..],
                       m, end)
    ensures StoppedAt(view, Walk(view, name, qtype, depth, now, ts), name, qtype, depth, now, ts, m + 1, end)
  {
    var rr := FirstAlias(view, name, ts[0].aliasAt);
    var next := Fqdn(rr.rr.data.target);
    var rest := Walk(view, next, qtype, depth - 1, now, ts[1..]);
    StoppedOneLater(view, rr.Served(now), rest, name, qtype, depth, now, ts, m, end);
    assert Emit([rr], now) == [rr.Served(now)];
    assert Walk(view, name, qtype, depth, now, ts) == rest.(answers := [rr.Served(now)] + rest.answers);
  }

  lemma FirstAlias(view: View, name: string, t: int) returns (x: Item)
    requires OneAliasPerOwner(view) && IsFqdn(name) && view(CacheKey(name, TYPE_CNAME), t) != []
    ensures view(CacheKey(name, TYPE_CNAME), t) == [x] && x.rr.name == name && x.rr.data.Alias?
    ensures Follow([x], name) == Fqdn(x.rr.data.target)
  {
    x := view(CacheKey(name, TYPE_CNAME), t)[0];
    assert x in view(CacheKey(name, TYPE_CNAME), t);
  }

  /** At the readings of one round the name has nothing of the wanted type and an alias into the ring. */
  ghost predicate LeadsOn(view: View, ring: set<string>, n: string, qtype: uint16, r: Round) {
    && view(CacheKey(n, qtype), r.typeAt) == []
    && view(CacheKey(n, TYPE_CNAME), r.aliasAt) != []
    && Follow(view(CacheKey(n, TYPE_CNAME), r.aliasAt), n) in ring
  }

  /** At every reading of the walk each name of the ring leads to another of the ring. */
  ghost predicate Closed(view: View, ring: set<string>, qtype: uint16, ts: seq<Round>) {
    forall n, r :: n in ring && r in ts ==> LeadsOn(view, ring, n, qtype, r)
  }

  /**
   * On aliases that form a cycle the walk ends all the same: it is cut off at its depth and asks upstream, with
   * an alias for each round, or more where an entry holds several.
   */
  lemma {:induction false} CyclicChainIsCutOff(view: View, name: string, qtype: uint16, depth: nat, now: int,
                                               ts: seq<Round>, ring: set<string>)
    requires |ts| >= depth
    requires name in ring && Closed(view, ring, qtype, ts)
    ensures var w := Walk(view, name, qtype, depth, now, ts);
            w.needUpstream && |w.answers| >= depth && w.target in ring
    decreases depth
  {
    if depth > 0 {
      assert ts[0] in ts && LeadsOn(view, ring, name, qtype, ts[0]);
      var cnames := view(CacheKey(name, TYPE_CNAME), ts[0].aliasAt);
      CyclicChainIsCutOff(view, Follow(cnames, name), qtype, depth - 1, now, ts[1..], ring);
    }
  }

  /** With one alias per owner there are never more aliases than rounds, so on a cycle there are just as many. */
  lemma {:induction false} OneAliasPerRound(view: View, name: string, qtype: uint16, depth: nat, now: int,
                                            ts: seq<Round>)
    requires |ts| >= depth && OneAliasPerOwner(view)
    ensures var w := Walk(view, name, qtype, depth, now, ts); w.needUpstream ==> |w.answers| <= depth
    decreases depth
  {
    if depth > 0 {
      var cnames := view(CacheKey(name, TYPE_CNAME), ts[0].aliasAt);
      OneAliasPerRound(view, Follow(cnames, name), qtype, depth - 1, now, ts[1..]);
    }
  }

  /** The store that two names aliased to each other leave, both filed at the same time. */
  function TwoAliases(a: string, b: string, ttl: uint32, stored: int): Store {
    map[CacheKey(a, TYPE_CNAME) := [AliasItem(a, b, ttl, stored)],
        CacheKey(b, TYPE_CNAME) := [AliasItem(b, a, ttl, stored)]]
  }

  function AliasItem(owner: string, target: string, ttl: uint32, stored: int): Item {
    Item(RR(owner, TYPE_CNAME, CLASS_INET, ttl, Alias(target)), ttl, stored, RCODE_SUCCESS, false, false)
  }

  lemma LiveOfOne(x: Item, t: int)
    ensures Live([x], t) == if x.IsExpired(t) then [] else [x]
  {
    assert [x][..0] == [];
  }

  lemma OneAliasEach(a: string, b: string, ttl: uint32, stored: int)
    requires IsFqdn(a) && IsFqdn(b) && a != b
    ensures OneAliasPerOwner(ViewOf(TwoAliases(a, b, ttl, stored)))
  {
    forall n: string, t: int
      ensures var cnames := ViewOf(TwoAliases(a, b, ttl, stored))(CacheKey(n, TYPE_CNAME), t);
              |cnames| <= 1 && forall x :: x in cnames ==> x.rr.data.Alias? && x.rr.name == Fqdn(n)
    {
      if Fqdn(n) == a {
        LiveOfOne(AliasItem(a, b, ttl, stored), t);
      } else if Fqdn(n) == b {
        LiveOfOne(AliasItem(b, a, ttl, stored), t);
      }
    }
  }

  lemma LeadToEachOther(a: string, b: string, ttl: uint32, stored: int, n: string, qtype: uint16, r: Round)
    requires IsFqdn(a) && IsFqdn(b) && a != b && qtype != TYPE_CNAME
    requires n in {a, b} && r.aliasAt < stored + ttl * SECOND
    ensures LeadsOn(ViewOf(TwoAliases(a, b, ttl, stored)), {a, b}, n, qtype, r)
  {
    var items := TwoAliases(a, b, ttl, stored)[CacheKey(n, TYPE_CNAME)];
    assert items[..0] == [] && !items[0].IsExpired(r.aliasAt);
    assert Live(items, r.aliasAt) == items;
  }

  /** Such a cycle does occur: the walk over it asks upstream after `depth` aliases, as long as they are fresh. */
  lemma TwoNameCycle(a: string, b: string, qtype: uint16, ttl: uint32, stored: int, depth: nat, now: int,
                     ts: seq<Round>)
    requires IsFqdn(a) && IsFqdn(b) && a != b && qtype != TYPE_CNAME && |ts| >= depth
    requires forall r :: r in ts ==> r.aliasAt < stored + ttl * SECOND
    ensures var w := Walk(ViewOf(TwoAliases(a, b, ttl, stored)), a, qtype, depth, now, ts);
            w.needUpstream && |w.answers| == depth && w.target in {a, b}
  {
    var view := ViewOf(TwoAliases(a, b, ttl, stored));
    OneAliasEach(a, b, ttl, stored);
    forall n, r | n in {a, b} && r in ts
      ensures LeadsOn(view, {a, b}, n, qtype, r)
    {
      LeadToEachOther(a, b, ttl, stored, n, qtype, r);
    }
    CyclicChainIsCutOff(view, a, qtype, depth, now, ts, {a, b});
    OneAliasPerRound(view, a, qtype, depth, now, ts);
  }

  // ---- the loop ----

  lemma ReachedStart(view: View, start: string, qtype: uint16, now: int)
    ensures Reached(view, start, qtype, now, [], start, [])
  {
    forall rest: seq<Round>
      ensures Continues(view, start, qtype, now, [], start, [], rest)
    {
      assert [] + rest == rest;
      var w := Walk(view, start, qtype, |rest|, now, rest);
      assert [] + w.answers == w.answers;
    }
  }

  /** With the further rounds `rest`, the whole walk is `answers` followed by the walk from `current`. */
  ghost predicate Continues(view: View, start: string, qtype: uint16, now: int, ts: seq<Round>,
                            current: string, answers: seq<RR>, rest: seq<Round>)
  {
    var w := Walk(view, current, qtype, |rest|, now, rest);
    Walk(view, start, qtype, |ts + rest|, now, ts + rest) == w.(answers := answers + w.answers)
  }

  /** After the rounds `ts` the loop stands at `current` with `answers`, whatever rounds follow. */
  ghost predicate Reached(view: View, start: string, qtype: uint16, now: int, ts: seq<Round>,
                          current: string, answers: seq<RR>)
  {
    forall rest: seq<Round> :: Continues(view, start, qtype, now, ts, current, answers, rest)
  }

  lemma ContinuesNext(view: View, start: string, qtype: uint16, now: int, ts: seq<Round>,
                      current: string, answers: seq<RR>, r: Round, rest: seq<Round>)
    requires Continues(view, start, qtype, now, ts, current, answers, [r] + rest)
    requires view(CacheKey(current, qtype), r.typeAt) == []
    requires view(CacheKey(current, TYPE_CNAME), r.aliasAt) != []
    ensures var cnames := view(CacheKey(current, TYPE_CNAME), r.aliasAt);
            Continues(view, start, qtype, now, ts + [r], Follow(cnames, current), answers + Emit(cnames, now), rest)
  {
    var cnames := view(CacheKey(current, TYPE_CNAME), r.aliasAt);
    var longer := [r] + rest;
    assert longer[1..] == rest;
    assert ts + [r] + rest == ts + longer;
    var w := Walk(view, Follow(cnames, current), qtype, |rest|, now, rest);
    assert answers + (Emit(cnames, now) + w.answers) == answers + Emit(cnames, now) + w.answers;
  }

  lemma ReachedNext(view: View, start: string, qtype: uint16, now: int, ts: seq<Round>,
                    current: string, answers: seq<RR>, r: Round)
    requires Reached(view, start, qtype, now, ts, current, answers)
    requires view(CacheKey(current, qtype), r.typeAt) == []
    requires view(CacheKey(current, TYPE_CNAME), r.aliasAt) != []
    ensures var cnames := view(CacheKey(current, TYPE_CNAME), r.aliasAt);
            Reached(view, start, qtype, now, ts + [r], Follow(cnames, current), answers + Emit(cnames, now))
  {
    forall rest: seq<Round>
      ensures var cnames := view(CacheKey(current, TYPE_CNAME), r.aliasAt);
              Continues(view, start, qtype, now, ts + [r], Follow(cnames, current), answers + Emit(cnames, now), rest)
    {
      assert Continues(view, start, qtype, now, ts, current, answers, [r] + rest);
      ContinuesNext(view, start, qtype, now, ts, current, answers, r, rest);
    }
  }

  /** Once a round ends the walk, the remaining readings do not matter. */
  lemma ReachedEnd(view: View, start: string, qtype: uint16, now: int, ts: seq<Round>, hi: int,
                   current: string, answers: seq<RR>, r: Round, more: nat) returns (all: seq<Round>)
    requires Reached(view, start, qtype, now, ts, current, answers)
    requires view(CacheKey(current, qtype), r.typeAt) != [] || view(CacheKey(current, TYPE_CNAME), r.aliasAt) == []
    requires Ordered(ts, now, hi) && hi <= r.typeAt <= r.aliasAt
    ensures |all| == |ts| + 1 + more && Ordered(all, now, r.aliasAt)
    ensures var items := view(CacheKey(current, qtype), r.typeAt);
            Walk(view, start, qtype, |all|, now, all)
            == if items != [] then WalkResult(answers + Emit(items, now), false, "")
               else WalkResult(answers, true, current)
  {
    var rest := [r] + Tail(r.aliasAt, more);
    all := ts + rest;
    assert all == ts + [r] + Tail(r.aliasAt, more);
    assert answers + [] == answers;
    assert Continues(view, start, qtype, now, ts, current, answers, rest);
    OrderedAppend(ts, now, hi, r);
    OrderedTail(ts + [r], now, r.aliasAt, more);
  }

  function Tail(t: int, n: nat): (r: seq<Round>)
    ensures |r| == n
  {
    if n == 0 then [] else [Round(t, t)] + Tail(t, n - 1)
  }

  lemma {:induction false} OrderedTail(ts: seq<Round>, lo: int, hi: int, n: nat)
    requires Ordered(ts, lo, hi)
    ensures Ordered(ts + Tail(hi, n), lo, hi)
    decreases n
  {
    if n == 0 {
      assert ts + [] == ts;
    } else {
      OrderedAppend(ts, lo, hi, Round(hi, hi));
      OrderedTail(ts + [Round(hi, hi)], lo, hi, n - 1);
      ConcatAssoc(ts, [Round(hi, hi)], Tail(hi, n - 1));
    }
  }

  lemma ComposeViews(a: Store, b: Store, c: Store, early: int, late: int)
    requires SameView(a, b, early) && SameView(b, c, late) && early <= late
    ensures SameView(a, c, late)
  {
    forall k, t | late <= t
      ensures LiveAt(a, k, t) == LiveAt(c, k, t)
    {
      assert LiveAt(a, k, t) == LiveAt(b, k, t);
      assert LiveAt(b, k, t) == LiveAt(c, k, t);
    }
  }

  /** GetRRs as the walk needs it: what a store that was never purged would answer. */
  method Lookup(c: MemoryDNSCache, clock: Clock, qname: string, qtype: uint16, ghost before: Store, ghost purged: Store)
    returns (items: seq<RRCacheItem>, hit: bool, ghost at: int, ghost after: Store)
    requires c.Valid() && c.Abs() == purged && SameView(before, purged, clock.now)
    modifies c`storage, c`filed, clock
    ensures c.Valid() && c.filed == old(c.filed) && old(clock.now) <= at == clock.now
    ensures hit <==> items != []
    ensures Values(items) == ViewOf(before)(CacheKey(qname, qtype), at)
    ensures c.Abs() == after && SameView(before, after, at)
  {
    items, hit, at := c.GetRRs(clock, qname, qtype);
    after := c.Abs();
    EvictionIsInvisible(purged, CacheKey(qname, qtype), at);
    ComposeViews(before, purged, after, old(clock.now), at);
  }

  /** What one round of the walk finds at a name. */
  datatype Visit = Found(rrs: seq<RR>) | Missing | Next(rrs: seq<RR>, name: string)

  function VisitAt(view: View, name: string, qtype: uint16, now: int, r: Round): Visit {
    var items, cnames := view(CacheKey(name, qtype), r.typeAt), view(CacheKey(name, TYPE_CNAME), r.aliasAt);
    if items != [] then Found(Emit(items, now))
    else if cnames == [] then Missing
    else Next(Emit(cnames, now), Follow(cnames, name))
  }

  /** One round of the loop: the wanted type first, an alias only if that is missing. */
  method VisitName(c: MemoryDNSCache, clock: Clock, name: string, qtype: uint16, now: int,
                   ghost before: Store, ghost store: Store)
    returns (v: Visit, ghost r: Round, ghost after: Store)
    requires c.Valid() && c.Abs() == store && SameView(before, store, clock.now)
    modifies c`storage, c`filed, clock
    ensures c.Valid() && c.filed == old(c.filed) && old(clock.now) <= r.typeAt <= r.aliasAt == clock.now
    ensures v == VisitAt(ViewOf(before), name, qtype, now, r)
    ensures c.Abs() == after && SameView(before, after, r.aliasAt)
  {
    var items, hit, at, mid := Lookup(c, clock, name, qtype, before, store);
    if hit {
      r, after := Round(at, at), mid;
      label Hit:
      var rrs := EmitItems(items, now);
      c.Untouched@Hit();
      return Found(rrs), r, after;
    }
    var cnames, cnameHit;
    ghost var aliasAt;
    cnames, cnameHit, aliasAt, after := Lookup(c, clock, name, TYPE_CNAME, before, mid);
    r := Round(at, aliasAt);
    if !cnameHit {
      return Missing, r, after;
    }
    label Alias:
    var rrs, next := AppendAliases(cnames, now, name);
    c.Untouched@Alias();
    v := Next(rrs, next);
  }

  /**
   * The loop. It reads the clock once for TTLs and again in every lookup, and each lookup may purge the
   * cache; the result is nevertheless the recursive walk over the cache as it was, and the cache it leaves
   * cannot be told from that one.
   */
  method ResolveCNAMEChain(c: MemoryDNSCache, clock: Clock, qname: string, qtype: uint16, maxDepth: int)
    returns (answers: seq<RR>, needUpstream: bool, target: string, ghost now: int, ghost ts: seq<Round>)
    requires c.Valid()
    modifies c`storage, c`filed, clock
    ensures c.Valid() && c.filed == old(c.filed)
    ensures old(clock.now) <= now
    ensures |ts| == (if maxDepth <= 0 then 10 else maxDepth) && Ordered(ts, now, clock.now)
    ensures WalkResult(answers, needUpstream, target)
         == Walk(ViewOf(old(c.Abs())), Fqdn(qname), qtype, |ts|, now, ts)
    ensures SameView(old(c.Abs()), c.Abs(), clock.now)
  {
    var total := if maxDepth <= 0 then DEFAULT_DEPTH else maxDepth;
    ghost var before, hi := c.Abs(), 0;
    ghost var view, store := ViewOf(before), before;
    answers := [];
    var current := Fqdn(qname);
    var start := clock.Read();
    now, hi, ts := start, start, [];
    ReachedStart(view, current, qtype, now);
    for depth := 0 to total
      invariant c.Valid() && c.filed == old(c.filed) && hi == clock.now
      invariant |ts| == depth && Ordered(ts, now, hi)
      invariant Reached(view, Fqdn(qname), qtype, now, ts, current, answers)
      invariant c.Abs() == store && SameView(before, store, hi)
    {
      var v;
      ghost var r;
      v, r, store := VisitName(c, clock, current, qtype, start, before, store);
      if !v.Next? {
        ts := ReachedEnd(view, Fqdn(qname), qtype, now, ts, hi, current, answers, r, total - depth - 1);
        if v.Found? {
          return answers + v.rrs, false, "", now, ts;
        }
        return answers, true, current, now, ts;
      }
      ReachedNext(view, Fqdn(qname), qtype, now, ts, current, answers, r);
      OrderedAppend(ts, now, hi, r);
      answers, current, ts, hi := answers + v.rrs, v.name, ts + [r], r.aliasAt;
    }
    assert ts + [] == ts && answers + [] == answers;
    assert Continues(view, Fqdn(qname), qtype, now, ts, current, answers, []);
    return answers, true, current, now, ts;
  }

  method EmitItems(items: seq<RRCacheItem>, now: int) returns (rrs: seq<RR>)
    ensures rrs == Emit(Values(items), now)
  {
    rrs := [];
    for i := 0 to |items|
      invariant rrs == Emit(Values(items)[..i], now)
    {
      rrs := rrs + [items[i].Value().Served(now)];
    }
    assert Values(items)[..|items|] == Values(items);
  }

  method AppendAliases(items: seq<RRCacheItem>, now: int, from: string) returns (rrs: seq<RR>, current: string)
    ensures rrs == Emit(Values(items), now)
    ensures current == Follow(Values(items), from)
  {
    rrs, current := [], from;
    for i := 0 to |items|
      invariant rrs == Emit(Values(items)[..i], now)
      invariant current == Follow(Values(items)[..i], from)
    {
      assert Values(items)[..i + 1][..i] == Values(items)[..i];
      var rr := items[i].Value().Served(now);
      rrs := rrs + [rr];
      if rr.data.Alias? {
        current := Fqdn(rr.data.target);
      }
    }
    assert Values(items)[..|items|] == Values(items);
  }
}
