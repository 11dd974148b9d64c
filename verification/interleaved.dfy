/**
 * Walks whose lookups interleave with the steps of any other calls: what they find of a zone when stores bring
 * whole RRsets, and the one type of query for which interleaving shows.
 */
module Interleaved {
  import opened Dns
  import opened CacheModel
  import opened ChainWalk
  import opened Transparency
  import S = SplitLock

  // ---- every step keeps whole RRsets ----

  ghost predicate CallSound(zone: Zone, c: S.Call) {
    EntrySound(zone, c.key, c.items)
  }

  /** Nothing, or the zone's whole RRset of the key. */
  ghost predicate Whole(zone: Zone, k: Key, items: seq<Item>) {
    items == [] || StripAll(RRsOf(items)) == zone(k.name, k.rtype)
  }

  ghost predicate SoundState(zone: Zone, s: S.State) {
    && Sound(zone, s.storage)
    && (forall id :: id in s.calls ==> CallSound(zone, s.calls[id]))
    && (forall r :: r in s.returned ==> Whole(zone, r.key, r.items))
  }

  /** What the stores bring: whole RRsets, one TTL each. Nothing is said of how many there are, or when. */
  ghost predicate StoresAreWhole(zone: Zone, run: seq<S.State>) {
    forall i, id :: 0 <= i < |run| && id in run[i].calls && run[i].calls[id].HasStamped? ==>
                      CallSound(zone, run[i].calls[id])
  }

  lemma ReadKeepsSound(zone: Zone, s: S.State, s': S.State, id: nat, key: Key)
    requires SoundState(zone, s) && S.Read(s, s', id, key)
    ensures SoundState(zone, s')
  {
    if key in s.storage {
      assert EntrySound(zone, key, s.storage[key]);
    }
  }

  lemma ExpiryCheckKeepsSound(zone: Zone, s: S.State, s': S.State, id: nat)
    requires SoundState(zone, s) && S.Filter(s, s', id)
    ensures SoundState(zone, s')
  {
    assert CallSound(zone, s.calls[id]);
  }

  /** A call's list that is live at all is live as a whole, so a clean-up drops an entry or leaves it alone. */
  lemma FinishKeepsSound(zone: Zone, s: S.State, s': S.State, id: nat)
    requires SoundState(zone, s) && S.Finish(s, s', id)
    ensures SoundState(zone, s') && Whole(zone, s.calls[id].key, Live(s.calls[id].items, s.calls[id].now))
  {
    var c := s.calls[id];
    assert CallSound(zone, c);
    LiveAllOrNothing(c.items, c.now);
    assert forall k :: k in s'.storage ==> k in s.storage && s'.storage[k] == s.storage[k];
    forall r | r in s'.returned
      ensures Whole(zone, r.key, r.items)
    {
      if r in s.returned {
        assert Whole(zone, r.key, r.items);
      }
    }
  }

  lemma BeginSetKeepsSound(zone: Zone, s: S.State, s': S.State, id: nat, key: Key, items: seq<Item>, maxTTL: Duration)
    requires SoundState(zone, s) && S.BeginSet(s, s', id, key, items, maxTTL) && CallSound(zone, s'.calls[id])
    ensures SoundState(zone, s')
  {
  }

  lemma EndSetKeepsSound(zone: Zone, s: S.State, s': S.State, id: nat)
    requires SoundState(zone, s) && S.EndSet(s, s', id)
    ensures SoundState(zone, s')
  {
    assert CallSound(zone, s.calls[id]);
  }

  lemma FewerEntriesKeepSound(zone: Zone, s: S.State, s': S.State)
    requires SoundState(zone, s) && s'.calls == s.calls && s'.returned == s.returned
    requires forall k :: k in s'.storage ==> k in s.storage && s'.storage[k] == s.storage[k]
    ensures SoundState(zone, s')
  {
  }

  lemma StepKeepsSound(zone: Zone, s: S.State, s': S.State)
    requires SoundState(zone, s) && S.Next(s, s')
    requires forall id :: id in s'.calls && s'.calls[id].HasStamped? ==> CallSound(zone, s'.calls[id])
    ensures SoundState(zone, s')
  {
    if id :| S.Finish(s, s', id) {
      FinishKeepsSound(zone, s, s', id);
    } else if id :| S.EndSet(s, s', id) {
      EndSetKeepsSound(zone, s, s', id);
    } else if id, key :| S.Read(s, s', id, key) {
      ReadKeepsSound(zone, s, s', id, key);
    } else if id :| S.Filter(s, s', id) {
      ExpiryCheckKeepsSound(zone, s, s', id);
    } else if id, key, items, maxTTL :| S.BeginSet(s, s', id, key, items, maxTTL) {
      BeginSetKeepsSound(zone, s, s', id, key, items, maxTTL);
    } else {
      FewerEntriesKeepSound(zone, s, s');
    }
  }

  /** In every interleaving each lookup returns nothing or the zone's whole RRset. */
  lemma {:induction false} LookupsReturnWholeRRsets(zone: Zone, run: seq<S.State>)
    requires S.IsRun(run) && StoresAreWhole(zone, run)
    ensures SoundState(zone, run[|run| - 1])
    decreases |run|
  {
    var n := |run| - 1;
    if n > 0 {
      assert forall i :: 0 <= i < n ==> run[..n][i] == run[i];
      LookupsReturnWholeRRsets(zone, run[..n]);
      StepKeepsSound(zone, run[n - 1], run[n]);
    }
  }

  // ---- a walk by what its lookups returned ----

  /** The two lookups of a round; the second is made only if the first returned nothing. */
  datatype Seen = Seen(typed: seq<Item>, aliased: seq<Item>)

  function WalkSeen(name: string, qtype: uint16, seen: seq<Seen>, now: int): WalkResult
    decreases |seen|
  {
    if seen == [] then WalkResult([], true, name)
    else if seen[0].typed != [] then WalkResult(Emit(seen[0].typed, now), false, "")
    else if seen[0].aliased == [] then WalkResult([], true, name)
    else
      var rest := WalkSeen(Follow(seen[0].aliased, name), qtype, seen[1..], now);
      rest.(answers := Emit(seen[0].aliased, now) + rest.answers)
  }

  /** With nobody else about, this is the walk over the cache. */
  function SeenBy(view: View, name: string, qtype: uint16, ts: seq<Round>): seq<Seen>
    decreases |ts|
  {
    if ts == [] then []
    else
      var cnames := view(CacheKey(name, TYPE_CNAME), ts[0].aliasAt);
      [Seen(view(CacheKey(name, qtype), ts[0].typeAt), cnames)] + SeenBy(view, Follow(cnames, name), qtype, ts[1..])
  }

  lemma {:induction false} AloneItIsTheWalk(view: View, name: string, qtype: uint16, ts: seq<Round>, now: int)
    ensures WalkSeen(name, qtype, SeenBy(view, name, qtype, ts), now) == Walk(view, name, qtype, |ts|, now, ts)
    decreases |ts|
  {
    if ts != [] {
      var cnames := view(CacheKey(name, TYPE_CNAME), ts[0].aliasAt);
      AloneItIsTheWalk(view, Follow(cnames, name), qtype, ts[1..], now);
      assert SeenBy(view, name, qtype, ts)[1..] == SeenBy(view, Follow(cnames, name), qtype, ts[1..]);
    }
  }

  /** A lookup of this key has returned these items in the course of the run. */
  ghost predicate Returned(s: S.State, k: Key, items: seq<Item>) {
    exists now :: S.Return(k, now, items) in s.returned
  }

  /** The walk's lookups are among those the run has returned, along the names it visits. */
  ghost predicate SeenInRun(s: S.State, name: string, qtype: uint16, seen: seq<Seen>)
    decreases |seen|
  {
    seen == [] ||
    (&& Returned(s, CacheKey(name, qtype), seen[0].typed)
     && (seen[0].typed == [] ==>
           && Returned(s, CacheKey(name, TYPE_CNAME), seen[0].aliased)
           && SeenInRun(s, Follow(seen[0].aliased, name), qtype, seen[1..])))
  }

  ghost predicate SeenWhole(zone: Zone, name: string, qtype: uint16, seen: seq<Seen>)
    decreases |seen|
  {
    seen == [] ||
    (&& Whole(zone, CacheKey(name, qtype), seen[0].typed)
     && (seen[0].typed == [] ==>
           && Whole(zone, CacheKey(name, TYPE_CNAME), seen[0].aliased)
           && SeenWhole(zone, Follow(seen[0].aliased, name), qtype, seen[1..])))
  }

  lemma {:induction false} SeenInSoundRun(zone: Zone, s: S.State, name: string, qtype: uint16, seen: seq<Seen>)
    requires SoundState(zone, s) && SeenInRun(s, name, qtype, seen)
    ensures SeenWhole(zone, name, qtype, seen)
    decreases |seen|
  {
    if seen != [] && seen[0].typed == [] {
      SeenInSoundRun(zone, s, Follow(seen[0].aliased, name), qtype, seen[1..]);
    }
  }

  /** For every type but CNAME what was seen, completed by the zone's answer for the target, is the zone's answer. */
  lemma {:induction false} WholeWalkMeetsZone(zone: Zone, rank: Rank, name: string, qtype: uint16, seen: seq<Seen>,
                                              now: int)
    requires ZoneOk(zone, rank) && IsFqdn(name) && qtype != TYPE_CNAME && SeenWhole(zone, name, qtype, seen)
    ensures Completes(zone, rank, WalkSeen(name, qtype, seen, now), name, qtype)
    decreases |seen|
  {
    if seen != [] {
      var typed, aliased := seen[0].typed, seen[0].aliased;
      if typed != [] {
        FoundCompletes(zone, rank, typed, name, qtype, now);
      } else if aliased != [] {
        var x := AliasAt(zone, rank, name);
        OneAlias(aliased, x, name);
        WholeWalkMeetsZone(zone, rank, x.data.target, qtype, seen[1..], now);
        FollowedCompletes(zone, rank, WalkSeen(x.data.target, qtype, seen[1..], now), aliased, name, qtype, now);
      }
    }
  }

  /**
   * So however its lookups interleave with other lookups, stores, deletes and clears, a walk for any type but
   * CNAME finds what the zone says, with its upstream target to ask for the rest.
   */
  lemma InterleavedWalkMeetsZone(zone: Zone, rank: Rank, run: seq<S.State>, name: string, qtype: uint16,
                                 seen: seq<Seen>, now: int)
    requires ZoneOk(zone, rank) && S.IsRun(run) && StoresAreWhole(zone, run) && IsFqdn(name) && qtype != TYPE_CNAME
    requires SeenInRun(run[|run| - 1], name, qtype, seen)
    ensures Completes(zone, rank, WalkSeen(name, qtype, seen, now), name, qtype)
  {
    LookupsReturnWholeRRsets(zone, run);
    SeenInSoundRun(zone, run[|run| - 1], name, qtype, seen);
    WholeWalkMeetsZone(zone, rank, name, qtype, seen, now);
  }

  // ---- queries for CNAME records look twice under the same key ----

  /** The alias was not there for the first lookup of a round and there for the second. */
  predicate Overtaken(seen: seq<Seen>) {
    seen != [] && seen[0].typed == [] && seen[0].aliased != []
  }

  lemma {:induction false} SomethingIsFound(zone: Zone, rank: Rank, name: string, seen: seq<Seen>, now: int)
    requires ZoneOk(zone, rank) && IsFqdn(name) && SeenWhole(zone, name, TYPE_CNAME, seen)
    requires zone(name, TYPE_CNAME) != []
    ensures var w := WalkSeen(name, TYPE_CNAME, seen, now);
            w.answers != [] || (w.needUpstream && ZoneAnswer(zone, rank, w.target, TYPE_CNAME) != [])
  {
  }

  /**
   * A CNAME query is answered as the zone says exactly if the first round was not overtaken by a store, or
   * the alias that then was found, and followed, leads to a name that has none.
   */
  lemma AliasQueryMeetsZoneIff(zone: Zone, rank: Rank, name: string, seen: seq<Seen>, now: int)
    requires ZoneOk(zone, rank) && IsFqdn(name) && SeenWhole(zone, name, TYPE_CNAME, seen)
    ensures Completes(zone, rank, WalkSeen(name, TYPE_CNAME, seen, now), name, TYPE_CNAME)
       <==> (Overtaken(seen) ==> zone(Follow(seen[0].aliased, name), TYPE_CNAME) == [])
  {
    if Overtaken(seen) {
      var aliased := seen[0].aliased;
      var x := AliasAt(zone, rank, name);
      OneAlias(aliased, x, name);
      var target := x.data.target;
      var rest := WalkSeen(target, TYPE_CNAME, seen[1..], now);
      var w := WalkSeen(name, TYPE_CNAME, seen, now);
      EmitOne(aliased, now);
      assert ZoneAnswer(zone, rank, name, TYPE_CNAME) == [x];
      if zone(target, TYPE_CNAME) == [] {
        assert rest == WalkResult([], true, target);
        assert StripAll(w.answers) + [] == [x];
      } else {
        SomethingIsFound(zone, rank, target, seen[1..], now);
      }
    } else if seen != [] {
      StripEmit(seen[0].typed, now);
      AppendNothing(StripAll(Emit(seen[0].typed, now)));
    }
  }

  /** A lookup alone, from its first lock to its return. */
  lemma LookupAlone(run: seq<S.State>, key: Key, id: nat) returns (longer: seq<S.State>)
    requires run != [] && S.Steps(run)
    requires var s := run[|run| - 1]; key in s.storage && id !in s.calls
    ensures |longer| == |run| + 3 && run <= longer && S.Steps(longer)
    ensures var s := run[|run| - 1];
            longer[|run| + 2].returned == s.returned + [S.Return(key, s.clock, Live(s.storage[key], s.clock))]
  {
    var s := run[|run| - 1];
    var items := s.storage[key];
    var s1 := s.(calls := s.calls[id := S.HasRead(key, items)]);
    var s2 := s.(calls := s.calls[id := S.HasFiltered(key, items, s.clock)]);
    var s3 := s.(storage := S.CleanUp(s.storage, key, items, s.clock),
                 returned := s.returned + [S.Return(key, s.clock, Live(items, s.clock))]);
    assert S.Read(s, s1, id, key);
    assert s1.calls[id := S.HasFiltered(key, items, s.clock)] == s2.calls;
    assert S.Filter(s1, s2, id);
    assert s2.calls - {id} == s.calls;
    assert S.Finish(s2, s3, id);
    longer := S.Extended(run, s1);
    longer := S.Extended(longer, s2);
    longer := S.Extended(longer, s3);
  }

  /** A store alone, from its stamping to its lock. */
  lemma StoreAlone(run: seq<S.State>, key: Key, items: seq<Item>, maxTTL: Duration, id: nat)
    returns (longer: seq<S.State>)
    requires run != [] && S.Steps(run) && items != []
    requires id !in run[|run| - 1].calls
    ensures |longer| == |run| + 2 && run <= longer && S.Steps(longer)
    ensures var s, t := run[|run| - 1], longer[|run| + 1];
            && t.storage == s.storage[key := Stamp(items, maxTTL, s.clock)]
            && t.clock == s.clock && t.calls == s.calls && t.returned == s.returned
  {
    var s := run[|run| - 1];
    var stamped := Stamp(items, maxTTL, s.clock);
    var s1 := s.(calls := s.calls[id := S.HasStamped(key, stamped)]);
    var s2 := s.(storage := s.storage[key := stamped], stored := s.stored + set x | x in stamped :: (key, x));
    assert S.BeginSet(s, s1, id, key, items, maxTTL);
    assert s1.calls - {id} == s.calls;
    assert S.EndSet(s1, s2, id);
    longer := S.Extended(run, s1);
    longer := S.Extended(longer, s2);
  }

  /** Such a round occurs: from any state without an entry for the key, with one store between the lookups. */
  lemma OvertakingIsReachable(s: S.State, key: Key, items: seq<Item>, maxTTL: Duration, id: nat)
    returns (run: seq<S.State>)
    requires key !in s.storage && id !in s.calls && items != []
    ensures |run| == 7 && run[0] == s && S.Steps(run)
    ensures var found := Live(Stamp(items, maxTTL, s.clock), s.clock);
            run[6].returned == s.returned + [S.Return(key, s.clock, [])] + [S.Return(key, s.clock, found)]
  {
    var missed := s.(returned := s.returned + [S.Return(key, s.clock, [])]);
    assert S.Read(s, missed, id, key);
    run := [s, missed];
    run := StoreAlone(run, key, items, maxTTL, id);
    run := LookupAlone(run, key, id);
  }

  // ---- and it does make a CNAME query go wrong ----

  function AliasRR(owner: string, target: string): RR {
    RR(owner, TYPE_CNAME, CLASS_INET, 0, Alias(target))
  }

  /** a. is an alias of b., which is an alias of c. */
  function TwoStepZone(): Zone {
    (n: string, t: uint16) =>
      if t != TYPE_CNAME then []
      else if n == "a." then [AliasRR("a.", "b.")]
      else if n == "b." then [AliasRR("b.", "c.")]
      else []
  }

  function TwoStepRank(): Rank {
    (n: string) => if n == "a." then 2 else if n == "b." then 1 else 0
  }

  lemma TwoStepZoneIsOk()
    ensures ZoneOk(TwoStepZone(), TwoStepRank())
  {
    var zone, rank := TwoStepZone(), TwoStepRank();
    forall n: string, t: uint16, x | x in zone(n, t)
      ensures x.name == n && x.rtype == t && x.ttl == 0 && IsFqdn(n)
    {
      TwoStepRecords(n, t, x);
    }
    forall n: string, x | x in zone(n, TYPE_CNAME)
      ensures AliasOk(rank, x)
    {
      TwoStepRecords(n, TYPE_CNAME, x);
    }
  }

  lemma TwoStepRecords(n: string, t: uint16, x: RR)
    requires x in TwoStepZone()(n, t)
    ensures x.name == n && x.rtype == t && x.ttl == 0 && IsFqdn(n) && AliasOk(TwoStepRank(), x)
  {
    assert "a." != "b." && "b." != "c." && "a." != "c.";
  }

  lemma WholeExtended(zone: Zone, run: seq<S.State>, s: S.State) returns (longer: seq<S.State>)
    requires run != [] && S.Steps(run) && S.Next(run[|run| - 1], s) && StoresAreWhole(zone, run)
    requires forall id :: id in s.calls && s.calls[id].HasStamped? ==> CallSound(zone, s.calls[id])
    ensures S.Steps(longer) && longer == run + [s] && StoresAreWhole(zone, longer)
  {
    longer := S.Extended(run, s);
  }

  function AliasToStore(): Item {
    Item(AliasRR("a.", "b.").(ttl := 60), 60, 0, RCODE_SUCCESS, false, false)
  }

  /** The entry for the alias of a., fresh at time 0. */
  function StoredAlias(maxTTL: Duration): seq<Item> {
    Stamp([AliasToStore()], maxTTL, 0)
  }

  lemma StoredAliasIsSound(maxTTL: Duration)
    requires 60 * SECOND <= maxTTL
    ensures EntrySound(TwoStepZone(), CacheKey("a.", TYPE_CNAME), StoredAlias(maxTTL))
    ensures Live(StoredAlias(maxTTL), 0) == StoredAlias(maxTTL) && Follow(StoredAlias(maxTTL), "a.") == "b."
  {
    var items := StoredAlias(maxTTL);
    ClampBounds(60, maxTTL);
    assert items[..0] == [] && !items[0].IsExpired(0);
    assert StripAll(RRsOf(items)) == [AliasRR("a.", "b.")];
  }

  lemma Missed() returns (run: seq<S.State>)
    ensures S.IsRun(run) && StoresAreWhole(TwoStepZone(), run)
    ensures run[|run| - 1] == S.State(map[], 0, map[], {}, [S.Return(CacheKey("a.", TYPE_CNAME), 0, [])])
  {
    var k := CacheKey("a.", TYPE_CNAME);
    var s0 := S.State(map[], 0, map[], {}, []);
    var s1 := s0.(returned := [S.Return(k, 0, [])]);
    run := [s0];
    assert S.Read(s0, s1, 0, k);
    run := WholeExtended(TwoStepZone(), run, s1);
  }

  /** The first half: the alias is missed, then stored by somebody else. */
  lemma MissedThenStored(maxTTL: Duration) returns (run: seq<S.State>)
    requires 60 * SECOND <= maxTTL
    ensures S.IsRun(run) && StoresAreWhole(TwoStepZone(), run)
    ensures var s, k := run[|run| - 1], CacheKey("a.", TYPE_CNAME);
            && s.storage == map[k := StoredAlias(maxTTL)] && s.calls == map[] && s.clock == 0
            && s.returned == [S.Return(k, 0, [])]
  {
    var zone, k, items := TwoStepZone(), CacheKey("a.", TYPE_CNAME), StoredAlias(maxTTL);
    StoredAliasIsSound(maxTTL);
    run := Missed();
    var s1 := run[|run| - 1];
    var s2 := s1.(calls := map[1 := S.HasStamped(k, items)]);
    var s3 := s1.(storage := map[k := items], stored := set x | x in items :: (k, x));
    assert S.BeginSet(s1, s2, 1, k, [AliasToStore()], maxTTL);
    run := WholeExtended(zone, run, s2);
    assert S.EndSet(s2, s3, 1);
    run := WholeExtended(zone, run, s3);
  }

  /** The second half: the alias is found and the walk, gone on to b., finds nothing there. */
  lemma FoundThenFollowed(maxTTL: Duration) returns (run: seq<S.State>)
    requires 60 * SECOND <= maxTTL
    ensures S.IsRun(run) && StoresAreWhole(TwoStepZone(), run)
    ensures var s, k := run[|run| - 1], CacheKey("a.", TYPE_CNAME);
            && Returned(s, k, []) && Returned(s, k, StoredAlias(maxTTL)) && Returned(s, CacheKey("b.", TYPE_CNAME), [])
  {
    var zone, k, items := TwoStepZone(), CacheKey("a.", TYPE_CNAME), StoredAlias(maxTTL);
    StoredAliasIsSound(maxTTL);
    run := MissedThenStored(maxTTL);
    var s3 := run[|run| - 1];
    var s4 := s3.(calls := map[0 := S.HasRead(k, items)]);
    var s5 := s3.(calls := map[0 := S.HasFiltered(k, items, 0)]);
    var s6 := s3.(returned := [S.Return(k, 0, []), S.Return(k, 0, items)]);
    var s7 := s6.(returned := s6.returned + [S.Return(CacheKey("b.", TYPE_CNAME), 0, [])]);
    assert S.Read(s3, s4, 0, k);
    run := WholeExtended(zone, run, s4);
    assert S.Filter(s4, s5, 0);
    run := WholeExtended(zone, run, s5);
    assert S.Finish(s5, s6, 0);
    run := WholeExtended(zone, run, s6);
    assert "a." != "b." && CacheKey("b.", TYPE_CNAME) != k;
    assert S.Read(s6, s7, 0, CacheKey("b.", TYPE_CNAME));
    run := WholeExtended(zone, run, s7);
    assert s7.returned[0] in s7.returned && s7.returned[1] in s7.returned && s7.returned[2] in s7.returned;
  }

  lemma {:induction false} NothingSeen(s: S.State, name: string, n: nat)
    requires Returned(s, CacheKey(name, TYPE_CNAME), [])
    ensures SeenInRun(s, name, TYPE_CNAME, seq(n, _ => Seen([], [])))
    decreases n
  {
    if n > 0 {
      var seen := seq(n, _ => Seen([], []));
      NothingSeen(s, name, n - 1);
      assert seen[1..] == seq(n - 1, _ => Seen([], []));
    }
  }

  /**
   * A run from an empty cache, with one store of a whole RRset, in which a walk of the default depth for the
   * CNAME record of a. is not completed to the zone's answer by any answer for its target.
   */
  lemma AliasQueryGoesWrong(maxTTL: Duration, now: int) returns (run: seq<S.State>, seen: seq<Seen>)
    requires 60 * SECOND <= maxTTL
    ensures ZoneOk(TwoStepZone(), TwoStepRank())
    ensures S.IsRun(run) && StoresAreWhole(TwoStepZone(), run)
    ensures |seen| == DEFAULT_DEPTH && SeenInRun(run[|run| - 1], "a.", TYPE_CNAME, seen)
    ensures !Completes(TwoStepZone(), TwoStepRank(), WalkSeen("a.", TYPE_CNAME, seen, now), "a.", TYPE_CNAME)
  {
    TwoStepZoneIsOk();
    StoredAliasIsSound(maxTTL);
    run := FoundThenFollowed(maxTTL);
    var rest := seq(DEFAULT_DEPTH - 1, _ => Seen([], []));
    seen := [Seen([], StoredAlias(maxTTL))] + rest;
    NothingSeen(run[|run| - 1], "b.", DEFAULT_DEPTH - 1);
    assert seen[1..] == rest;
    LookupsReturnWholeRRsets(TwoStepZone(), run);
    SeenInSoundRun(TwoStepZone(), run[|run| - 1], "a.", TYPE_CNAME, seen);
    AliasQueryMeetsZoneIff(TwoStepZone(), TwoStepRank(), "a.", seen, now);
    assert "b." != "a.";
  }
}
