/** Queries that overlap: the TTLs they are served, and a run in which one reaches into another's store. */
module Overlapping {
  import opened Dns
  import opened CacheModel
  import opened ChainWalk
  import opened RouterModel
  import opened Transparency
  import opened PolicyOptions
  import opened ConcurrentRoute
  import Matching
  import S = SplitLock

  // ---- no record of TTL 0 is served, however queries overlap ----

  /** The record was made from an item that had time left at the walk's clock reading. */
  ghost predicate Alive(x: RR, now: int) {
    exists it: Item :: x == it.Served(now) && it.RemainingTTL(now) >= 1
  }

  ghost predicate AllAlive(rrs: seq<RR>, now: int) {
    forall x :: x in rrs ==> Alive(x, now)
  }

  /** All that a query has taken from the cache. */
  ghost predicate DoneAlive(d: Done) {
    AllAlive(d.found, d.q.now) && (d.fullHit && d.reply.Some? ==> AllAlive(d.reply.value.answer, d.q.now))
  }

  ghost predicate JobAlive(job: Job, clock: int) {
    && job.q.now <= clock
    && if job.Filing? then DoneAlive(job.result) else AllAlive(job.w.answers, job.q.now)
  }

  /** A lookup checks for expiry after its walk has read the clock. */
  ghost predicate CallLater(job: Job, c: S.Call) {
    IsLooking(job) && c.HasFiltered? ==> job.q.now <= c.now
  }

  ghost predicate Alert(s: State) {
    && S.Dated(s.cache)
    && (forall id :: id in s.jobs ==> JobAlive(s.jobs[id], s.cache.clock))
    && (forall id :: id in s.jobs && id in s.cache.calls ==> CallLater(s.jobs[id], s.cache.calls[id]))
    && (forall d :: d in s.done ==> DoneAlive(d))
  }

  /** A step of one job, which goes on with `job` or ends with `ended`. */
  lemma OneJobStaysAlive(s: State, s': State, id: nat, job: Option<Job>, ended: Option<Done>)
    requires Alert(s) && S.Dated(s'.cache) && s.cache.clock == s'.cache.clock
    requires s'.jobs == if job.Some? then s.jobs[id := job.value] else s.jobs - {id}
    requires s'.done == if ended.Some? then s.done + [ended.value] else s.done
    requires job.Some? ==> JobAlive(job.value, s.cache.clock)
    requires job.Some? && id in s'.cache.calls ==> CallLater(job.value, s'.cache.calls[id])
    requires ended.Some? ==> DoneAlive(ended.value)
    requires OthersKept(s.cache, s'.cache, id)
    ensures Alert(s')
  {
  }

  lemma EmitAlive(items: seq<Item>, at: int, now: int)
    requires now <= at && forall x :: x in items ==> x.storedAt <= at && !x.IsExpired(at)
    ensures AllAlive(Emit(items, now), now)
  {
    forall r | r in Emit(items, now)
      ensures Alive(r, now)
    {
      var i :| 0 <= i < |items| && Emit(items, now)[i] == r;
      assert items[i] in items;
      S.LeftWhenServed(items[i], at, now);
    }
  }

  lemma AppendAlive(a: seq<RR>, b: seq<RR>, now: int)
    requires AllAlive(a, now) && AllAlive(b, now)
    ensures AllAlive(a + b, now)
  {
  }

  lemma LookedStaysAlive(s: State, s': State, id: nat, items: seq<Item>, at: int)
    requires Alert(s) && S.Dated(s'.cache) && s.cache.clock == s'.cache.clock
    requires id in s.jobs && IsLooking(s.jobs[id]) && Looked(s, s', id, items)
    requires s.jobs[id].q.now <= at && forall x :: x in items ==> x.storedAt <= at && !x.IsExpired(at)
    requires OthersKept(s.cache, s'.cache, id) && id !in s'.cache.calls
    ensures Alert(s')
  {
    var job := s.jobs[id];
    assert JobAlive(job, s.cache.clock);
    EmitAlive(items, at, job.q.now);
    AppendAlive(job.w.answers, Emit(items, job.q.now), job.q.now);
    if job.Typed? && items != [] {
      OneJobStaysAlive(s, s', id, None, Some(FullHit(job, items)));
    } else {
      OneJobStaysAlive(s, s', id, Some(AfterLookup(job, items)), None);
    }
  }

  lemma LookupStaysAlive(s: State, s': State, id: nat)
    requires Alert(s) && S.Dated(s'.cache) && (Fetch(s, s', id) || Filter(s, s', id) || Return(s, s', id))
    ensures Alert(s')
  {
    var job := s.jobs[id];
    assert JobAlive(job, s.cache.clock);
    if Return(s, s', id) {
      var c := s.cache.calls[id];
      FinishTouchesOne(s.cache, s'.cache, id);
      assert S.CallDated(c, s.cache.clock) && CallLater(job, c);
      LiveMembers(c.items, c.now);
      LookedStaysAlive(s, s', id, Live(c.items, c.now), c.now);
    } else if Fetch(s, s', id) && LookupKey(job) !in s.cache.storage {
      LookedStaysAlive(s, s', id, [], job.q.now);
    } else {
      assert s'.jobs == s.jobs[id := job];
      OneJobStaysAlive(s, s', id, Some(job), None);
    }
  }

  lemma FilingStaysAlive(s: State, s': State, id: nat, maxTTL: Duration)
    requires Alert(s) && S.Dated(s'.cache)
    requires (exists g :: StampGroup(s, s', id, g, maxTTL)) || StoreGroup(s, s', id) || NextMessage(s, s', id)
             || Reply(s, s', id)
    ensures Alert(s')
  {
    var job := s.jobs[id];
    assert JobAlive(job, s.cache.clock);
    if Reply(s, s', id) {
      OneJobStaysAlive(s, s', id, None, Some(job.result));
    } else {
      OneJobStaysAlive(s, s', id, Some(s'.jobs[id]), None);
    }
  }

  lemma AnswerStaysAlive(s: State, s': State, id: nat, f: Fanout, call: nat)
    requires Alert(s) && S.Dated(s'.cache) && Answer(s, s', id, f, call)
    ensures Alert(s')
  {
    assert JobAlive(s.jobs[id], s.cache.clock);
    OneJobStaysAlive(s, s', id, Some(s'.jobs[id]), None);
  }

  lemma ArriveStaysAlive(s: State, s': State, id: nat, q: Query)
    requires Alert(s) && S.Dated(s'.cache) && Arrive(s, s', id, q)
    ensures Alert(s')
  {
    OneJobStaysAlive(s, s', id, Some(Typed(q, Walked(Fqdn(q.domain), [], DEFAULT_DEPTH))), None);
  }

  lemma AroundStaysAlive(s: State, s': State)
    requires Alert(s) && S.Dated(s'.cache) && Around(s, s')
    ensures Alert(s')
  {
    assert forall id :: id in s.jobs ==> JobAlive(s.jobs[id], s.cache.clock);
  }

  lemma StaysDated(s: State, s': State, maxTTL: Duration)
    requires S.Dated(s.cache) && ConcurrentRoute.Next(s, s', maxTTL)
    ensures S.Dated(s'.cache)
  {
    CacheTakesItsOwnSteps(s, s', maxTTL);
    if s'.cache != s.cache {
      S.DatedStep(s.cache, s'.cache);
    }
  }

  lemma AliveStep(s: State, s': State, maxTTL: Duration)
    requires Alert(s) && ConcurrentRoute.Next(s, s', maxTTL)
    ensures Alert(s')
  {
    StaysDated(s, s', maxTTL);
    if id, q :| Arrive(s, s', id, q) {
      ArriveStaysAlive(s, s', id, q);
    } else if id :| Fetch(s, s', id) || Filter(s, s', id) || Return(s, s', id) {
      LookupStaysAlive(s, s', id);
    } else if id, f, call :| Answer(s, s', id, f, call) {
      AnswerStaysAlive(s, s', id, f, call);
    } else if id, g :| StampGroup(s, s', id, g, maxTTL) {
      FilingStaysAlive(s, s', id, maxTTL);
    } else if id :| StoreGroup(s, s', id) || NextMessage(s, s', id) || Reply(s, s', id) {
      FilingStaysAlive(s, s', id, maxTTL);
    } else {
      AroundStaysAlive(s, s');
    }
  }

  lemma {:induction false} AlertHolds(run: seq<State>, maxTTL: Duration)
    requires IsRun(run, maxTTL)
    ensures Alert(run[|run| - 1])
    decreases |run|
  {
    var n := |run| - 1;
    if n > 0 {
      PrefixIsRun(run, maxTTL, n);
      AlertHolds(run[..n], maxTTL);
      AliveStep(run[n - 1], run[n], maxTTL);
    }
  }

  /**
   * In every run of concurrent queries, whatever the upstreams answer: each record that a query has taken from
   * the cache had at least one second left when its TTL was computed.
   */
  lemma ConcurrentRecordsAreAlive(run: seq<State>, maxTTL: Duration, d: Done, x: RR)
    requires IsRun(run, maxTTL) && d in run[|run| - 1].done
    requires x in d.found || (d.fullHit && d.reply.Some? && x in d.reply.value.answer)
    ensures Alive(x, d.q.now)
  {
    AlertHolds(run, maxTTL);
    assert DoneAlive(d);
  }

  // ---- a run that overlaps, from an empty cache ----

  /** A zone of one address. */
  function OneAddressZone(): Zone {
    (n: string, t: uint16) => if n == "a." && t == TYPE_A then [ADDRESS.(ttl := 0)] else []
  }

  function NoRank(): Rank {
    (n: string) => 0
  }

  /** An ordinary group without options, which always answers from that zone. */
  function OneAddressSetting(): Setting {
    Setting([Policy(UNKNOWN, "up", Options(false, false, [], "", ""))], map[], [],
            (ip: string, rule: string) => false, {"up"},
            (g: string, n: string, t: uint16, c: nat) => Some(Question(n, t).(answer := AddressFor(n, t))))
  }

  function AddressFor(n: string, t: uint16): seq<RR> {
    if n == "a." && t == TYPE_A then [ADDRESS] else []
  }

  lemma OneAddressZoneIsOk()
    ensures ZoneOk(OneAddressZone(), NoRank())
  {
  }

  lemma OneAddressIsHonest()
    requires ZoneOk(OneAddressZone(), NoRank())
    ensures Honest(OneAddressSetting(), OneAddressZone(), NoRank())
  {
    forall n, t: uint16
      ensures FromZone(OneAddressZone(), NoRank(), n, t, AddressFor(n, t))
    {
      assert OneAddressZone()(n, TYPE_CNAME) == [];
    }
  }

  function Asks(now: int): Query {
    Query(OneAddressSetting(), "a.", TYPE_A, now)
  }

  /** A query that has just arrived. */
  function Fresh(now: int): Job {
    Typed(Asks(now), Walked("a.", [], DEFAULT_DEPTH))
  }

  const TYPE_KEY := CacheKey("a.", TYPE_A)
  const ALIAS_KEY := CacheKey("a.", TYPE_CNAME)

  /** What the group answers, as the router hands it on. */
  function AddressReply(): Msg {
    Merge("a.", TYPE_A, [], Question("a.", TYPE_A).(answer := [ADDRESS]))
  }

  lemma AddressIsHandedOn(f: Fanout)
    ensures var out := MissSpec(OneAddressSetting(), "a.", TYPE_A, WalkResult([], true, "a."), f, [], 0);
            out.reply == Some(AddressReply()) && out.cached == [(AddressReply(), [])]
    ensures AddressReply().answer == [ADDRESS]
  {
    Matching.BestIsLongestSuffix(map[], Matching.Normalise("a."));
    assert |"up"| == 2 && |BLOCK| == 5 && |ECS_FALLBACK| == 18;
    var m := SimpleMiss(OneAddressSetting(), "a.", TYPE_A, WalkResult([], true, "a."), f, [], 0);
    assert [] + [ADDRESS] == [ADDRESS];
  }

  /** The address, filed at the given instant. */
  function Filed(t: int): Item {
    Item(ADDRESS, 60, t, RCODE_SUCCESS, false, false)
  }

  lemma FiledAddress(maxTTL: Duration, t: int)
    requires 60 * SECOND <= maxTTL
    ensures ItemsOf(AddressReply(), KeyOf(ADDRESS)) != []
    ensures Stamp(ItemsOf(AddressReply(), KeyOf(ADDRESS)), maxTTL, t) == [Filed(t)]
    ensures GroupKeys(AddressReply().answer) == {KeyOf(ADDRESS)}
    ensures Live([Filed(t)], t) == [Filed(t)]
  {
    AddressIsHandedOn(Fanout(true, true, []));
    GroupOfUniform([ADDRESS], KeyOf(ADDRESS), KeyOf(ADDRESS));
    ClampBounds(60, maxTTL);
    assert KeyOf(AddressReply().answer[0]) in GroupKeys(AddressReply().answer);
    assert [Filed(t)][..0] == [];
  }

  // ---- a query by itself, lock by lock ----

  ghost predicate OneSetting(s: State, setting: Setting) {
    forall id :: id in s.jobs ==> s.jobs[id].q.setting == setting
  }

  /** A run all of whose queries are of one setting. */
  ghost predicate RunOf(setting: Setting, run: seq<State>, maxTTL: Duration) {
    IsRun(run, maxTTL) && forall i :: 0 <= i < |run| ==> OneSetting(run[i], setting)
  }

  ghost predicate Follows(s: State, s': State, maxTTL: Duration) {
    ConcurrentRoute.Next(s, s', maxTTL)
  }

  lemma ByLookup(s: State, s': State, id: nat, maxTTL: Duration)
    requires Fetch(s, s', id) || Filter(s, s', id) || Return(s, s', id)
    ensures Follows(s, s', maxTTL)
  {
  }

  lemma ByFiling(s: State, s': State, id: nat, maxTTL: Duration)
    requires StoreGroup(s, s', id) || NextMessage(s, s', id) || Reply(s, s', id)
    ensures Follows(s, s', maxTTL)
  {
  }

  lemma OneStepMore(setting: Setting, run: seq<State>, s: State, maxTTL: Duration) returns (longer: seq<State>)
    requires RunOf(setting, run, maxTTL) && Follows(run[|run| - 1], s, maxTTL) && OneSetting(s, setting)
    ensures RunOf(setting, longer, maxTTL) && longer == run + [s]
  {
    longer := run + [s];
    forall i | 0 <= i < |longer| - 1
      ensures ConcurrentRoute.Next(longer[i], longer[i + 1], maxTTL)
    {
      if i < |run| - 1 {
        assert ConcurrentRoute.Next(run[i], run[i + 1], maxTTL);
      }
    }
  }

  /** A lookup for a missing key, in one step. */
  lemma MissesOnce(setting: Setting, run: seq<State>, id: nat, maxTTL: Duration, job: Job) returns (longer: seq<State>)
    requires RunOf(setting, run, maxTTL)
    requires var s := run[|run| - 1];
             && id in s.jobs && s.jobs[id] == job && IsLooking(job) && id !in s.cache.calls
             && LookupKey(job) !in s.cache.storage
    ensures RunOf(setting, longer, maxTTL)
    ensures var s := run[|run| - 1];
            var found := S.Return(LookupKey(job), s.cache.clock, []);
            longer[|longer| - 1] == s.(cache := s.cache.(returned := s.cache.returned + [found]),
                                       jobs := s.jobs[id := AfterLookup(job, [])])
  {
    var s := run[|run| - 1];
    var found := S.Return(LookupKey(job), s.cache.clock, []);
    var s' := s.(cache := s.cache.(returned := s.cache.returned + [found]), jobs := s.jobs[id := AfterLookup(job, [])]);
    assert OneSetting(s, setting);
    assert S.Read(s.cache, s'.cache, id, LookupKey(job));
    assert Fetch(s, s', id);
    ByLookup(s, s', id, maxTTL);
    longer := OneStepMore(setting, run, s', maxTTL);
  }

  /** The first lock of a lookup that finds an entry, and its expiry check. */
  lemma ReadsEntry(setting: Setting, run: seq<State>, id: nat, maxTTL: Duration, key: Key) returns (longer: seq<State>)
    requires RunOf(setting, run, maxTTL)
    requires var s := run[|run| - 1];
             && id in s.jobs && IsLooking(s.jobs[id]) && key == LookupKey(s.jobs[id]) && id !in s.cache.calls
             && key in s.cache.storage
    ensures RunOf(setting, longer, maxTTL)
    ensures var s := run[|run| - 1];
            var c := S.HasFiltered(key, s.cache.storage[key], s.cache.clock);
            longer[|longer| - 1] == s.(cache := s.cache.(calls := s.cache.calls[id := c]))
  {
    var s := run[|run| - 1];
    var read := S.HasRead(key, s.cache.storage[key]);
    var filtered := S.HasFiltered(key, s.cache.storage[key], s.cache.clock);
    var s1 := s.(cache := s.cache.(calls := s.cache.calls[id := read]));
    var s2 := s.(cache := s.cache.(calls := s.cache.calls[id := filtered]));
    assert OneSetting(s, setting);
    assert S.Read(s.cache, s1.cache, id, key);
    ByLookup(s, s1, id, maxTTL);
    longer := OneStepMore(setting, run, s1, maxTTL);
    assert s1.cache.calls[id := filtered] == s2.cache.calls;
    assert S.Filter(s1.cache, s2.cache, id);
    assert ConcurrentRoute.Filter(s1, s2, id);
    ByLookup(s1, s2, id, maxTTL);
    longer := OneStepMore(setting, longer, s2, maxTTL);
  }

  /** A lookup of the wanted type whose list is live as a whole ends the query. */
  lemma ReturnsEntry(setting: Setting, run: seq<State>, id: nat, maxTTL: Duration, c: S.Call)
    returns (longer: seq<State>)
    requires RunOf(setting, run, maxTTL) && c.HasFiltered? && c.items != [] && Live(c.items, c.now) == c.items
    requires var s := run[|run| - 1];
             id in s.jobs && s.jobs[id].Typed? && id in s.cache.calls && s.cache.calls[id] == c
    ensures RunOf(setting, longer, maxTTL)
    ensures longer[|longer| - 1].done == run[|run| - 1].done + [FullHit(run[|run| - 1].jobs[id], c.items)]
  {
    var s := run[|run| - 1];
    var cache := s.cache.(calls := s.cache.calls - {id},
                          returned := s.cache.returned + [S.Return(c.key, c.now, c.items)]);
    var s' := State(cache, s.jobs - {id}, s.done + [FullHit(s.jobs[id], c.items)]);
    assert OneSetting(s, setting);
    assert S.Finish(s.cache, cache, id);
    assert Looked(s, s', id, c.items);
    assert Return(s, s', id);
    ByLookup(s, s', id, maxTTL);
    longer := OneStepMore(setting, run, s', maxTTL);
  }

  /** A query is answered with a reply that it is to file, and nothing else. */
  lemma Answers(setting: Setting, run: seq<State>, id: nat, maxTTL: Duration, job: Job, m: Msg, f: Fanout, call: nat)
    returns (longer: seq<State>)
    requires RunOf(setting, run, maxTTL) && job.Asking? && (f.gotEcs || f.gotProxy)
    requires var s := run[|run| - 1]; id in s.jobs && s.jobs[id] == job
    requires var out := MissSpec(job.q.setting, job.q.domain, job.q.qtype,
                                 WalkResult(job.w.answers, true, job.w.name), f, [], call);
             out.reply == Some(m) && out.cached == [(m, [])]
    ensures RunOf(setting, longer, maxTTL)
    ensures longer[|longer| - 1]
         == run[|run| - 1].(jobs := run[|run| - 1].jobs[id := Files(job, m, call)])
  {
    var s := run[|run| - 1];
    var s' := s.(jobs := s.jobs[id := Files(job, m, call)]);
    assert OneSetting(s, setting);
    assert Messages([(m, [])]) == [m];
    assert Answer(s, s', id, f, call);
    ByAnswer(s, s', id, f, call, maxTTL);
    longer := OneStepMore(setting, run, s', maxTTL);
  }

  function Files(job: Job, m: Msg, call: nat): Job
    requires job.Asking?
  {
    Filing(job.q, Missed(job, call, Some(m)), [m], GroupKeys(m.answer))
  }

  lemma ByAnswer(s: State, s': State, id: nat, f: Fanout, call: nat, maxTTL: Duration)
    requires Answer(s, s', id, f, call)
    ensures Follows(s, s', maxTTL)
  {
  }

  /** A group of the message being filed is stamped and stored. */
  lemma StoresOne(setting: Setting, run: seq<State>, id: nat, maxTTL: Duration, job: Job, g: GroupKey, m: Msg)
    returns (longer: seq<State>)
    requires RunOf(setting, run, maxTTL) && job.Filing? && job.msgs == [m] && g in job.todo && ItemsOf(m, g) != []
    requires var s := run[|run| - 1]; id in s.jobs && s.jobs[id] == job && id !in s.cache.calls
    ensures RunOf(setting, longer, maxTTL)
    ensures var s, s' := run[|run| - 1], longer[|longer| - 1];
            && s'.jobs == s.jobs[id := job.(todo := job.todo - {g})] && s'.done == s.done
            && s'.cache.calls == s.cache.calls && s'.cache.clock == s.cache.clock
            && s'.cache.storage == s.cache.storage[CacheKey(g.name, g.rtype)
                                                   := Stamp(ItemsOf(m, g), maxTTL, s.cache.clock)]
  {
    var s, key := run[|run| - 1], CacheKey(g.name, g.rtype);
    var items := Stamp(ItemsOf(m, g), maxTTL, s.cache.clock);
    var jobs := s.jobs[id := job.(todo := job.todo - {g})];
    var s1 := s.(cache := s.cache.(calls := s.cache.calls[id := S.HasStamped(key, items)]), jobs := jobs);
    var s2 := s1.(cache := s.cache.(storage := s.cache.storage[key := items],
                                    stored := s.cache.stored + set x | x in items :: (key, x)));
    assert OneSetting(s, setting);
    assert S.BeginSet(s.cache, s1.cache, id, key, ItemsOf(m, g), maxTTL);
    assert StampGroup(s, s1, id, g, maxTTL);
    longer := OneStepMore(setting, run, s1, maxTTL);
    assert s1.cache.calls - {id} == s.cache.calls;
    assert S.EndSet(s1.cache, s2.cache, id);
    assert StoreGroup(s1, s2, id);
    ByFiling(s1, s2, id, maxTTL);
    longer := OneStepMore(setting, longer, s2, maxTTL);
  }

  /** With nothing left to store of its only message a query replies. */
  lemma Replies(setting: Setting, run: seq<State>, id: nat, maxTTL: Duration, job: Job) returns (longer: seq<State>)
    requires RunOf(setting, run, maxTTL) && job.Filing? && |job.msgs| == 1 && job.todo == {}
    requires var s := run[|run| - 1]; id in s.jobs && s.jobs[id] == job && id !in s.cache.calls
    ensures RunOf(setting, longer, maxTTL)
    ensures var s := run[|run| - 1];
            longer[|longer| - 1] == s.(jobs := s.jobs - {id}, done := s.done + [job.result])
  {
    var s := run[|run| - 1];
    var s1 := s.(jobs := s.jobs[id := job.(msgs := job.msgs[1..], todo := Groups(job.msgs[1..]))]);
    var s2 := s.(jobs := s.jobs - {id}, done := s.done + [job.result]);
    assert OneSetting(s, setting);
    assert NextMessage(s, s1, id);
    ByFiling(s, s1, id, maxTTL);
    longer := OneStepMore(setting, run, s1, maxTTL);
    assert s1.jobs - {id} == s2.jobs;
    assert Reply(s1, s2, id);
    ByFiling(s1, s2, id, maxTTL);
    longer := OneStepMore(setting, longer, s2, maxTTL);
  }

  // ---- the run ----

  /** One query arrives at time 0, another at time t. */
  lemma BothArrive(t: nat, maxTTL: Duration) returns (run: seq<State>)
    ensures RunOf(OneAddressSetting(), run, maxTTL)
    ensures run[|run| - 1] == State(S.State(map[], t, map[], {}, []), map[1 := Fresh(0), 2 := Fresh(t)], [])
  {
    var s0 := State(S.State(map[], 0, map[], {}, []), map[], []);
    var s1 := s0.(jobs := map[1 := Fresh(0)]);
    var s2 := s1.(cache := s1.cache.(clock := t));
    var s3 := s2.(jobs := map[1 := Fresh(0), 2 := Fresh(t)]);
    run := [s0];
    assert Arrive(s0, s1, 1, Asks(0));
    run := OneStepMore(OneAddressSetting(), run, s1, maxTTL);
    assert S.Tick(s1.cache, s2.cache) && Around(s1, s2);
    run := OneStepMore(OneAddressSetting(), run, s2, maxTTL);
    assert s2.jobs[2 := Fresh(t)] == s3.jobs;
    assert Arrive(s2, s3, 2, Asks(t));
    run := OneStepMore(OneAddressSetting(), run, s3, maxTTL);
  }

  /** The second query's reply: the address, which nothing replaces. */
  function SecondDone(t: int): Done {
    Done(Asks(t), [], false, false, Some(AddressReply()))
  }

  /** The state at time t, up to what the cache has recorded. */
  ghost predicate At(s: State, t: int, storage: Store, second: Option<Job>, done: seq<Done>) {
    && s.cache.storage == storage && s.cache.clock == t && s.cache.calls == map[] && s.done == done
    && s.jobs == if second.Some? then map[1 := Fresh(0), 2 := second.value] else map[1 := Fresh(0)]
  }

  function SecondWaits(t: int): Job {
    Asking(Asks(t), Walked("a.", [], DEFAULT_DEPTH))
  }

  lemma SecondMisses(t: nat, maxTTL: Duration) returns (run: seq<State>)
    ensures RunOf(OneAddressSetting(), run, maxTTL)
    ensures At(run[|run| - 1], t, map[], Some(SecondWaits(t)), [])
  {
    run := BothArrive(t, maxTTL);
    run := MissesOnce(OneAddressSetting(), run, 2, maxTTL, Fresh(t));
    run := MissesOnce(OneAddressSetting(), run, 2, maxTTL, AfterLookup(Fresh(t), []));
  }

  function SecondFiles(t: int, todo: set<GroupKey>): Job {
    Filing(Asks(t), SecondDone(t), [AddressReply()], todo)
  }

  lemma SecondIsAnswered(t: nat, maxTTL: Duration, run: seq<State>) returns (longer: seq<State>)
    requires RunOf(OneAddressSetting(), run, maxTTL)
    requires At(run[|run| - 1], t, map[], Some(SecondWaits(t)), [])
    ensures RunOf(OneAddressSetting(), longer, maxTTL)
    ensures At(longer[|longer| - 1], t, map[], Some(SecondFiles(t, {KeyOf(ADDRESS)})), [])
  {
    AddressIsHandedOn(Fanout(true, true, []));
    OneGroup();
    NothingIsReplaced(t);
    longer := Answers(OneAddressSetting(), run, 2, maxTTL, SecondWaits(t), AddressReply(), Fanout(true, true, []), 0);
  }

  lemma NothingIsReplaced(t: nat)
    ensures Missed(SecondWaits(t), 0, Some(AddressReply())) == SecondDone(t)
  {
    AddressIsHandedOn(Fanout(true, true, []));
  }

  lemma OneGroup()
    ensures GroupKeys(AddressReply().answer) == {KeyOf(ADDRESS)}
  {
    AddressIsHandedOn(Fanout(true, true, []));
    assert KeyOf(AddressReply().answer[0]) in GroupKeys(AddressReply().answer);
  }

  lemma SecondStores(t: nat, maxTTL: Duration, run: seq<State>) returns (longer: seq<State>)
    requires 60 * SECOND <= maxTTL && RunOf(OneAddressSetting(), run, maxTTL)
    requires At(run[|run| - 1], t, map[], Some(SecondFiles(t, {KeyOf(ADDRESS)})), [])
    ensures RunOf(OneAddressSetting(), longer, maxTTL)
    ensures At(longer[|longer| - 1], t, map[TYPE_KEY := [Filed(t)]], Some(SecondFiles(t, {})), [])
  {
    var job, g := SecondFiles(t, {KeyOf(ADDRESS)}), KeyOf(ADDRESS);
    FiledAddress(maxTTL, t);
    longer := StoresOne(OneAddressSetting(), run, 2, maxTTL, job, g, AddressReply());
    assert {g} - {g} == {};
    assert job.(todo := {}) == SecondFiles(t, {});
  }

  lemma SecondReplies(t: nat, maxTTL: Duration, run: seq<State>, storage: Store) returns (longer: seq<State>)
    requires RunOf(OneAddressSetting(), run, maxTTL)
    requires At(run[|run| - 1], t, storage, Some(SecondFiles(t, {})), [])
    ensures RunOf(OneAddressSetting(), longer, maxTTL)
    ensures At(longer[|longer| - 1], t, storage, None, [SecondDone(t)])
  {
    longer := Replies(OneAddressSetting(), run, 2, maxTTL, SecondFiles(t, {}));
    assert [] + [SecondDone(t)] == [SecondDone(t)];
  }

  /** The first query finds what the second has filed. */
  lemma FirstFinds(t: nat, maxTTL: Duration, run: seq<State>) returns (longer: seq<State>)
    requires 60 * SECOND <= maxTTL && RunOf(OneAddressSetting(), run, maxTTL)
    requires At(run[|run| - 1], t, map[TYPE_KEY := [Filed(t)]], None, [SecondDone(t)])
    ensures RunOf(OneAddressSetting(), longer, maxTTL)
    ensures longer[|longer| - 1].done == [SecondDone(t)] + [FullHit(Fresh(0), [Filed(t)])]
  {
    FiledAddress(maxTTL, t);
    longer := ReadsEntry(OneAddressSetting(), run, 1, maxTTL, TYPE_KEY);
    longer := ReturnsEntry(OneAddressSetting(), longer, 1, maxTTL, S.HasFiltered(TYPE_KEY, [Filed(t)], t));
  }

  lemma ServedLater(d: nat)
    requires 60 + d < 0x1_0000_0000
    ensures HitReply(Fresh(0), [Filed(d * SECOND)]).answer == [ADDRESS.(ttl := 60 + d)]
  {
    assert d * SECOND / SECOND == d;
    assert Emit([Filed(d * SECOND)], 0) == [ADDRESS.(ttl := 60 + d)];
  }

  /**
   * A run from an empty cache, over groups that answer from a zone. A query arrives; d seconds later another
   * one arrives, misses, asks, files the address with a TTL of 60 and replies; then the first one looks, finds
   * it, and serves it with a TTL of 60 + d.
   */
  lemma OverlappingQueryServesMore(d: nat, maxTTL: Duration) returns (run: seq<State>, first: Done, second: Done)
    requires 60 * SECOND <= maxTTL && 60 + d < 0x1_0000_0000
    ensures ZoneOk(OneAddressZone(), NoRank()) && IsRun(run, maxTTL)
    ensures AllHonest(OneAddressZone(), NoRank(), run) && run[|run| - 1].done == [second] + [first]
    ensures !second.fullHit && second.reply.Some? && second.reply.value.answer == [ADDRESS]
    ensures first.fullHit && first.reply.Some? && first.reply.value.answer == [ADDRESS.(ttl := 60 + d)]
  {
    var t := d * SECOND;
    OneAddressZoneIsOk();
    OneAddressIsHonest();
    run := SecondMisses(t, maxTTL);
    run := SecondIsAnswered(t, maxTTL, run);
    run := SecondStores(t, maxTTL, run);
    run := SecondReplies(t, maxTTL, run, map[TYPE_KEY := [Filed(t)]]);
    run := FirstFinds(t, maxTTL, run);
    first, second := FullHit(Fresh(0), [Filed(t)]), SecondDone(t);
    AddressIsHandedOn(Fanout(true, true, []));
    ServedLater(d);
    RunIsHonest(run, maxTTL);
  }

  lemma RunIsHonest(run: seq<State>, maxTTL: Duration)
    requires RunOf(OneAddressSetting(), run, maxTTL) && ZoneOk(OneAddressZone(), NoRank())
    requires Honest(OneAddressSetting(), OneAddressZone(), NoRank())
    ensures AllHonest(OneAddressZone(), NoRank(), run)
  {
    forall i, id | 0 <= i < |run| && id in run[i].jobs
      ensures Honest(run[i].jobs[id].q.setting, OneAddressZone(), NoRank())
    {
      assert OneSetting(run[i], OneAddressSetting());
    }
  }
}
