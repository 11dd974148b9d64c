/** GetRRs takes the lock twice. The cache under any number of concurrent calls, lock by lock. */
module SplitLock {
  import opened CacheModel

  /** A call between two of its steps. A lookup has read its list, then filtered it; a store has stamped. */
  datatype Call =
    | HasRead(key: Key, items: seq<Item>)
    | HasFiltered(key: Key, items: seq<Item>, now: int)
    | HasStamped(key: Key, items: seq<Item>)

  /** What a lookup returned, and the clock reading it filtered with. */
  datatype Return = Return(key: Key, now: int, items: seq<Item>)

  /** `stored` and `returned` only record what happened. */
  datatype State = State(storage: Store, clock: int, calls: map<nat, Call>,
                         stored: set<(Key, Item)>, returned: seq<Return>)

  ghost predicate Init(s: State) {
    s.storage == map[] && s.calls == map[] && s.stored == {} && s.returned == []
  }

  ghost predicate Tick(s: State, s': State) {
    s'.clock >= s.clock && s' == s.(clock := s'.clock)
  }

  /** Read lock: the list is fetched. A missing key ends the call at once. */
  ghost predicate Read(s: State, s': State, id: nat, key: Key) {
    && id !in s.calls
    && s' == if key in s.storage then s.(calls := s.calls[id := HasRead(key, s.storage[key])])
             else s.(returned := s.returned + [Return(key, s.clock, [])])
  }

  /** No lock: the clock is read and the list filtered. */
  ghost predicate Filter(s: State, s': State, id: nat) {
    && id in s.calls && s.calls[id].HasRead?
    && s' == s.(calls := s.calls[id := HasFiltered(s.calls[id].key, s.calls[id].items, s.clock)])
  }

  function CleanUp(storage: Store, key: Key, items: seq<Item>, now: int): Store {
    var valid := Live(items, now);
    if valid == [] then storage - {key}
    else if |valid| < |items| then storage[key := valid]
    else storage
  }

  /** Write lock, if there is anything to clean up; then the call returns. */
  ghost predicate Finish(s: State, s': State, id: nat) {
    && id in s.calls && s.calls[id].HasFiltered?
    && var c := s.calls[id];
       s' == s.(storage := CleanUp(s.storage, c.key, c.items, c.now), calls := s.calls - {id},
                returned := s.returned + [Return(c.key, c.now, Live(c.items, c.now))])
  }

  /** SetRRs stamps without lock ... */
  ghost predicate BeginSet(s: State, s': State, id: nat, key: Key, items: seq<Item>, maxTTL: Duration) {
    && id !in s.calls && items != []
    && s' == s.(calls := s.calls[id := HasStamped(key, Stamp(items, maxTTL, s.clock))])
  }

  /** ... and stores under the write lock. */
  ghost predicate EndSet(s: State, s': State, id: nat) {
    && id in s.calls && s.calls[id].HasStamped?
    && var c := s.calls[id];
       s' == s.(storage := s.storage[c.key := c.items], calls := s.calls - {id},
                stored := s.stored + set x | x in c.items :: (c.key, x))
  }

  ghost predicate Delete(s: State, s': State, key: Key) {
    s' == s.(storage := s.storage - {key})
  }

  ghost predicate Clear(s: State, s': State) {
    s' == s.(storage := map[])
  }

  ghost predicate Next(s: State, s': State) {
    || Tick(s, s')
    || (exists id, key :: Read(s, s', id, key))
    || (exists id :: Filter(s, s', id))
    || (exists id :: Finish(s, s', id))
    || (exists id, key, items, maxTTL :: BeginSet(s, s', id, key, items, maxTTL))
    || (exists id :: EndSet(s, s', id))
    || (exists key :: Delete(s, s', key))
    || Clear(s, s')
  }

  ghost predicate Steps(run: seq<State>) {
    forall i :: 0 <= i < |run| - 1 ==> Next(run[i], run[i + 1])
  }

  ghost predicate IsRun(run: seq<State>) {
    run != [] && Init(run[0]) && Steps(run)
  }

  lemma OneMoreStep(run: seq<State>, s: State)
    requires run != [] && Steps(run) && Next(run[|run| - 1], s)
    ensures Steps(run + [s])
  {
    forall i | 0 <= i < |run|
      ensures Next((run + [s])[i], (run + [s])[i + 1])
    {
      if i < |run| - 1 {
        assert Next(run[i], run[i + 1]);
      }
    }
  }

  lemma Extended(run: seq<State>, s: State) returns (longer: seq<State>)
    requires run != [] && Steps(run) && Next(run[|run| - 1], s)
    ensures Steps(longer) && longer == run + [s]
  {
    OneMoreStep(run, s);
    longer := run + [s];
  }

  // ---- safety over every run ----

  ghost predicate AllStored(s: State, key: Key, items: seq<Item>) {
    forall x :: x in items ==> (key, x) in s.stored
  }

  ghost predicate ReturnOk(s: State, r: Return) {
    AllStored(s, r.key, r.items) && r.now <= s.clock && forall x :: x in r.items ==> !x.IsExpired(r.now)
  }

  ghost predicate CallOk(s: State, c: Call) {
    match c
    case HasRead(key, items) => AllStored(s, key, items)
    case HasFiltered(key, items, now) => AllStored(s, key, items) && now <= s.clock
    case HasStamped(key, items) => true
  }

  ghost predicate Inv(s: State) {
    && (forall k :: k in s.storage ==> AllStored(s, k, s.storage[k]))
    && (forall id :: id in s.calls ==> CallOk(s, s.calls[id]))
    && (forall r :: r in s.returned ==> ReturnOk(s, r))
  }

  lemma FinishKeepsInv(s: State, s': State, id: nat)
    requires Inv(s) && Finish(s, s', id)
    ensures Inv(s')
  {
    var c := s.calls[id];
    assert CallOk(s, c);
    LiveMembers(c.items, c.now);
    forall k | k in s'.storage
      ensures AllStored(s', k, s'.storage[k])
    {
      if k in s.storage && s'.storage[k] == s.storage[k] {
        assert AllStored(s, k, s.storage[k]);
      }
    }
    forall r | r in s'.returned
      ensures ReturnOk(s', r)
    {
      if r in s.returned {
        assert ReturnOk(s, r);
      }
    }
    assert forall j :: j in s'.calls ==> j in s.calls && s'.calls[j] == s.calls[j];
    assert forall j :: j in s.calls ==> CallOk(s, s.calls[j]);
  }

  lemma EndSetKeepsInv(s: State, s': State, id: nat)
    requires Inv(s) && EndSet(s, s', id)
    ensures Inv(s')
  {
    var c := s.calls[id];
    forall x | x in c.items
      ensures (c.key, x) in s'.stored
    {
    }
    assert s.stored <= s'.stored;
    forall k | k in s'.storage
      ensures AllStored(s', k, s'.storage[k])
    {
      if k != c.key {
        assert AllStored(s, k, s.storage[k]);
      }
    }
    forall j | j in s'.calls
      ensures CallOk(s', s'.calls[j])
    {
      assert CallOk(s, s.calls[j]);
    }
    forall r | r in s'.returned
      ensures ReturnOk(s', r)
    {
      assert ReturnOk(s, r);
    }
  }

  lemma OtherStepsKeepInv(s: State, s': State)
    requires Inv(s) && s'.stored == s.stored && s.clock <= s'.clock
    requires forall k :: k in s'.storage ==> k in s.storage && s'.storage[k] == s.storage[k]
    requires forall id :: id in s'.calls ==> (id in s.calls && s'.calls[id] == s.calls[id]) || CallOk(s', s'.calls[id])
    requires s'.returned == s.returned || exists key :: s'.returned == s.returned + [Return(key, s.clock, [])]
    ensures Inv(s')
  {
    forall k | k in s'.storage
      ensures AllStored(s', k, s'.storage[k])
    {
      assert AllStored(s, k, s.storage[k]);
    }
    forall id | id in s'.calls
      ensures CallOk(s', s'.calls[id])
    {
      if id in s.calls && s'.calls[id] == s.calls[id] {
        assert CallOk(s, s.calls[id]);
      }
    }
    forall r | r in s'.returned
      ensures ReturnOk(s', r)
    {
      if r in s.returned {
        assert ReturnOk(s, r);
      }
    }
  }

  lemma InvStep(s: State, s': State)
    requires Inv(s) && Next(s, s')
    ensures Inv(s')
  {
    if id :| Finish(s, s', id) {
      FinishKeepsInv(s, s', id);
    } else if id :| EndSet(s, s', id) {
      EndSetKeepsInv(s, s', id);
    } else if id, key :| Read(s, s', id, key) {
      if key in s.storage {
        assert AllStored(s, key, s.storage[key]);
      }
      OtherStepsKeepInv(s, s');
    } else if id :| Filter(s, s', id) {
      assert CallOk(s, s.calls[id]);
      OtherStepsKeepInv(s, s');
    } else {
      OtherStepsKeepInv(s, s');
    }
  }

  lemma {:induction false} InvHolds(run: seq<State>)
    requires IsRun(run)
    ensures Inv(run[|run| - 1])
    decreases |run|
  {
    var n := |run| - 1;
    if n > 0 {
      InvHolds(run[..n]);
      InvStep(run[n - 1], run[n]);
    }
  }

  /**
   * In every interleaving, whatever stale clean-up does to newer entries, every record a lookup has ever
   * returned was put under that very key by a SetRRs, and had not expired at the lookup's clock reading.
   */
  lemma OnlyStoredLiveRecordsAreReturned(run: seq<State>, r: Return, x: Item)
    requires IsRun(run) && r in run[|run| - 1].returned && x in r.items
    ensures (r.key, x) in run[|run| - 1].stored && !x.IsExpired(r.now)
  {
    InvHolds(run);
    assert ReturnOk(run[|run| - 1], r);
  }

  // ---- what is left of a record when it is served ----

  ghost predicate FiledBy(items: seq<Item>, t: int) {
    forall x :: x in items ==> x.storedAt <= t
  }

  ghost predicate CallDated(c: Call, clock: int) {
    FiledBy(c.items, if c.HasFiltered? then c.now else clock) && (c.HasFiltered? ==> c.now <= clock)
  }

  ghost predicate ReturnDated(r: Return, clock: int) {
    r.now <= clock && forall x :: x in r.items ==> x.storedAt <= r.now && !x.IsExpired(r.now)
  }

  /** Nothing is stamped later than the clock, nor later than the lookup that returns it. */
  ghost predicate Dated(s: State) {
    && (forall k :: k in s.storage ==> FiledBy(s.storage[k], s.clock))
    && (forall id :: id in s.calls ==> CallDated(s.calls[id], s.clock))
    && (forall r :: r in s.returned ==> ReturnDated(r, s.clock))
  }

  /** Whatever a step files or returns was dated before, or is stamped by the step. */
  lemma OneStepDated(s: State, s': State)
    requires Dated(s) && s.clock <= s'.clock
    requires forall k :: k in s'.storage ==> (k in s.storage && s'.storage[k] == s.storage[k])
                                             || FiledBy(s'.storage[k], s.clock)
    requires forall id :: id in s'.calls ==> (id in s.calls && s'.calls[id] == s.calls[id])
                                             || CallDated(s'.calls[id], s.clock)
    requires forall r :: r in s'.returned ==> r in s.returned || ReturnDated(r, s.clock)
    ensures Dated(s')
  {
    forall k | k in s'.storage
      ensures FiledBy(s'.storage[k], s'.clock)
    {
      assert k in s.storage && s'.storage[k] == s.storage[k] ==> FiledBy(s.storage[k], s.clock);
    }
    forall id | id in s'.calls
      ensures CallDated(s'.calls[id], s'.clock)
    {
      assert id in s.calls && s'.calls[id] == s.calls[id] ==> CallDated(s.calls[id], s.clock);
    }
  }

  lemma FinishKeepsDated(s: State, s': State, id: nat)
    requires Dated(s) && Finish(s, s', id)
    ensures Dated(s')
  {
    var c := s.calls[id];
    assert CallDated(c, s.clock);
    LiveMembers(c.items, c.now);
    assert FiledBy(Live(c.items, c.now), s.clock);
    OneStepDated(s, s');
  }

  lemma DatedStep(s: State, s': State)
    requires Dated(s) && Next(s, s')
    ensures Dated(s')
  {
    if id :| Finish(s, s', id) {
      FinishKeepsDated(s, s', id);
    } else if id :| EndSet(s, s', id) {
      assert CallDated(s.calls[id], s.clock);
      OneStepDated(s, s');
    } else if id, key :| Read(s, s', id, key) {
      if key in s.storage {
        assert FiledBy(s.storage[key], s.clock);
      }
      OneStepDated(s, s');
    } else if id :| Filter(s, s', id) {
      assert CallDated(s.calls[id], s.clock);
      OneStepDated(s, s');
    } else {
      OneStepDated(s, s');
    }
  }

  lemma {:induction false} DatedHolds(run: seq<State>)
    requires IsRun(run)
    ensures Dated(run[|run| - 1])
    decreases |run|
  {
    var n := |run| - 1;
    if n > 0 {
      DatedHolds(run[..n]);
      DatedStep(run[n - 1], run[n]);
    }
  }

  /** At or before the instant of its expiry check an item that passed it has at least one second left. */
  lemma LeftWhenServed(x: Item, at: int, now: int)
    requires x.storedAt <= at && !x.IsExpired(at) && now <= at
    ensures x.RemainingTTL(now) >= 1
    ensures now <= x.storedAt - SECOND || x.RemainingTTL(now) <= x.origTTL
  {
    ExpiredIffNothingLeft(x, now);
    RemainingExceedsIff(x, now);
  }

  /**
   * In every interleaving a record that a lookup returned has at least one second left at any clock reading its
   * caller took before the lookup's own: no record of TTL 0 is served, however many calls overlap.
   */
  lemma ServedWithTimeLeft(run: seq<State>, r: Return, x: Item, now: int)
    requires IsRun(run) && r in run[|run| - 1].returned && x in r.items && now <= r.now
    ensures x.RemainingTTL(now) >= 1
    ensures x.RemainingTTL(now) < 0x1_0000_0000 ==> x.Served(now).ttl >= 1
  {
    DatedHolds(run);
    assert ReturnDated(r, run[|run| - 1].clock);
    LeftWhenServed(x, r.now, now);
  }

  // ---- what clean-up may destroy ----

  /**
   * A clean-up that writes leaves the live view alone exactly when the entry still shows, at its clock
   * reading, what the lookup saw. Otherwise it undoes a store, or brings back what a store has replaced.
   */
  lemma CleanUpIsInvisibleIffUnchanged(storage: Store, key: Key, items: seq<Item>, now: int)
    requires |Live(items, now)| < |items|
    ensures SameView(CleanUp(storage, key, items, now), storage, now)
       <==> LiveAt(storage, key, now) == Live(items, now)
  {
    var after := CleanUp(storage, key, items, now);
    LiveLater(items, now, now);
    assert LiveAt(after, key, now) == Live(items, now);
    if LiveAt(storage, key, now) == Live(items, now) {
      forall k, t | now <= t
        ensures LiveAt(after, k, t) == LiveAt(storage, k, t)
      {
        if k == key {
          LiveLater(items, now, t);
          if key in storage {
            LiveLater(storage[key], now, t);
          }
          LiveLater(Live(items, now), now, t);
        }
      }
    }
  }

  /** The state just before the overtaken lookup of LookupCanLoseAStore takes its second lock. */
  lemma OvertakenLookup(s: State, key: Key, items: seq<Item>, maxTTL: Duration, a: nat, b: nat)
    returns (run: seq<State>)
    requires key in s.storage && a !in s.calls && b !in s.calls && a != b && items != []
    ensures |run| == 5 && run[0] == s && Steps(run)
    ensures run[4].calls == s.calls[a := HasFiltered(key, s.storage[key], s.clock)]
    ensures run[4].storage == s.storage[key := Stamp(items, maxTTL, s.clock)]
    ensures run[4].clock == s.clock && forall x :: x in Stamp(items, maxTTL, s.clock) ==> (key, x) in run[4].stored
  {
    var stamped := Stamp(items, maxTTL, s.clock);
    var s1 := s.(calls := s.calls[a := HasRead(key, s.storage[key])]);
    var s2 := s.(calls := s.calls[a := HasFiltered(key, s.storage[key], s.clock)]);
    var s3 := s2.(calls := s2.calls[b := HasStamped(key, stamped)]);
    var s4 := s2.(storage := s.storage[key := stamped], stored := s.stored + set x | x in stamped :: (key, x));
    run := [s, s1, s2, s3, s4];
    assert Read(s, s1, a, key);
    assert s1.calls[a := HasFiltered(key, s.storage[key], s.clock)] == s2.calls;
    assert Filter(s1, s2, a);
    assert BeginSet(s2, s3, b, key, items, maxTTL);
    assert s3.calls - {b} == s2.calls;
    assert EndSet(s3, s4, b);
  }

  /**
   * From every state in which all that a key holds has expired, a lookup of that key can be overtaken by
   * any store to it: the store ends between the lookup's two locks, and the clean-up then deletes it whole.
   */
  lemma LookupCanLoseAStore(s: State, key: Key, items: seq<Item>, maxTTL: Duration, a: nat, b: nat)
    returns (run: seq<State>)
    requires key in s.storage && Live(s.storage[key], s.clock) == []
    requires a !in s.calls && b !in s.calls && a != b && items != []
    ensures |run| == 6 && run[0] == s && Steps(run)
    ensures forall x :: x in Stamp(items, maxTTL, s.clock) ==> (key, x) in run[5].stored
    ensures run[5].storage == s.storage - {key} && run[5].clock == s.clock
  {
    var first := OvertakenLookup(s, key, items, maxTTL, a, b);
    var before := first[4];
    var after := before.(storage := before.storage - {key}, calls := before.calls - {a},
                         returned := before.returned + [Return(key, s.clock, [])]);
    assert Finish(before, after, a);
    assert Next(before, after);
    run := Extended(first, after);
    assert after.storage == s.storage - {key};
  }

  lemma StepsJoin(a: seq<State>, b: seq<State>)
    requires a != [] && b != [] && Steps(a) && Steps(b) && a[|a| - 1] == b[0]
    ensures Steps(a + b[1..])
  {
    var all := a + b[1..];
    forall i | 0 <= i < |all| - 1
      ensures Next(all[i], all[i + 1])
    {
      if i < |a| - 1 {
        assert Next(a[i], a[i + 1]);
      } else {
        assert all[i] == b[i - |a| + 1] && all[i + 1] == b[i - |a| + 2];
      }
    }
  }

  /** A run that begins with an empty cache and comes to an entry that has expired. */
  lemma ExpiredEntryIsReachable(key: Key, it: Item, maxTTL: Duration, t: int) returns (run: seq<State>)
    requires maxTTL >= 0
    ensures IsRun(run)
    ensures var s := run[|run| - 1];
            key in s.storage && Live(s.storage[key], s.clock) == [] && s.calls == map[] && s.clock == t + maxTTL
  {
    var stamped := Stamp([it], maxTTL, t);
    var s0 := State(map[], t, map[], {}, []);
    var s1 := s0.(calls := map[0 := HasStamped(key, stamped)]);
    var s2 := s0.(storage := map[key := stamped], stored := set x | x in stamped :: (key, x));
    var s3 := s2.(clock := t + maxTTL);
    assert BeginSet(s0, s1, 0, key, [it], maxTTL) && EndSet(s1, s2, 0) && Tick(s2, s3);
    run := Extended([s0], s1);
    run := Extended(run, s2);
    run := Extended(run, s3);
    ClampBounds(it.origTTL, maxTTL);
    assert stamped[..0] == [] && stamped[0].IsExpired(s3.clock);
  }

  /** So a run from an empty cache can end with a store that is gone, though none of it has expired. */
  lemma StoreIsLost(key: Key, it: Item, items: seq<Item>, maxTTL: Duration, t: int) returns (run: seq<State>)
    requires maxTTL >= 0 && items != []
    ensures IsRun(run) && key !in run[|run| - 1].storage
    ensures var s := run[|run| - 1]; forall x :: x in Stamp(items, maxTTL, s.clock) ==> (key, x) in s.stored
  {
    var first := ExpiredEntryIsReachable(key, it, maxTTL, t);
    var second := LookupCanLoseAStore(first[|first| - 1], key, items, maxTTL, 0, 1);
    StepsJoin(first, second);
    run := first + second[1..];
    assert run[|run| - 1] == second[5];
  }
}
