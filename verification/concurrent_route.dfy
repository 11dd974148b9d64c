/**
 * Any number of Route calls at once over one cache, lock by lock: each walks, asks, merges and files its reply
 * group by group, while the steps of the others fall in between.
 */
module ConcurrentRoute {
  import opened Dns
  import opened CacheModel
  import opened ChainWalk
  import opened RouterModel
  import opened Transparency
  import opened ZonePaths
  import opened Interleaved
  import opened PolicyOptions
  import S = SplitLock

  /** A query, with the clock reading its walk uses for TTLs. */
  datatype Query = Query(setting: Setting, domain: string, qtype: uint16, now: int)

  /** Where a walk stands: the name, what it has collected, and how many more rounds it may go. */
  datatype Walked = Walked(name: string, answers: seq<RR>, left: nat)

  datatype Job =
    | Typed(q: Query, w: Walked)
    | Aliased(q: Query, w: Walked)
    | Asking(q: Query, w: Walked)
    | Filing(q: Query, result: Done, msgs: seq<Msg>, todo: set<GroupKey>)

  /** A reply; what the walk had found, and whether the policy's group was replaced, only record what happened. */
  datatype Done = Done(q: Query, found: seq<RR>, fullHit: bool, replaced: bool, reply: Option<Msg>)

  /** A job makes its lookups and stores as the call of its own number in the cache. */
  datatype State = State(cache: S.State, jobs: map<nat, Job>, done: seq<Done>)

  ghost predicate Init(s: State) {
    S.Init(s.cache) && s.jobs == map[] && s.done == []
  }

  predicate IsLooking(job: Job) {
    job.Typed? || job.Aliased?
  }

  function LookupKey(job: Job): Key
    requires IsLooking(job)
  {
    CacheKey(job.w.name, if job.Typed? then job.q.qtype else TYPE_CNAME)
  }

  /** The reply of a full hit. */
  function HitReply(job: Job, items: seq<Item>): Msg
    requires job.Typed?
  {
    Question(job.q.domain, job.q.qtype).(answer := job.w.answers + Emit(items, job.q.now))
  }

  function FullHit(job: Job, items: seq<Item>): Done
    requires job.Typed?
  {
    Done(job.q, job.w.answers, true, false, Some(HitReply(job, items)))
  }

  /** What a job goes on with when a lookup has returned these items; a full hit ends it. */
  function AfterLookup(job: Job, items: seq<Item>): Job
    requires IsLooking(job) && !(job.Typed? && items != [])
  {
    if job.Typed? then Aliased(job.q, job.w)
    else if items == [] then Asking(job.q, job.w)
    else
      var w := Walked(Follow(items, job.w.name), job.w.answers + Emit(items, job.q.now),
                      if job.w.left > 0 then job.w.left - 1 else 0);
      if w.left == 0 then Asking(job.q, w) else Typed(job.q, w)
  }

  ghost predicate Looked(s: State, s': State, id: nat, items: seq<Item>)
    requires id in s.jobs && IsLooking(s.jobs[id])
  {
    var job := s.jobs[id];
    if job.Typed? && items != [] then
      s' == s.(cache := s'.cache, jobs := s.jobs - {id},
               done := s.done + [FullHit(job, items)])
    else
      s' == s.(cache := s'.cache, jobs := s.jobs[id := AfterLookup(job, items)])
  }

  // ---- steps ----

  ghost predicate Arrive(s: State, s': State, id: nat, q: Query) {
    && id !in s.jobs && id !in s.cache.calls && q.now == s.cache.clock
    && s' == s.(jobs := s.jobs[id := Typed(q, Walked(Fqdn(q.domain), [], DEFAULT_DEPTH))])
  }

  /** The first lock of a lookup; a missing key is returned at once. */
  ghost predicate Fetch(s: State, s': State, id: nat) {
    && id in s.jobs && IsLooking(s.jobs[id]) && S.Read(s.cache, s'.cache, id, LookupKey(s.jobs[id]))
    && if LookupKey(s.jobs[id]) in s.cache.storage then s' == s.(cache := s'.cache) else Looked(s, s', id, [])
  }

  ghost predicate Filter(s: State, s': State, id: nat) {
    id in s.jobs && IsLooking(s.jobs[id]) && S.Filter(s.cache, s'.cache, id) && s' == s.(cache := s'.cache)
  }

  /** The second lock of a lookup, and its return. */
  ghost predicate Return(s: State, s': State, id: nat) {
    && id in s.jobs && IsLooking(s.jobs[id]) && S.Finish(s.cache, s'.cache, id)
    && Looked(s, s', id, Live(s.cache.calls[id].items, s.cache.calls[id].now))
  }

  function Messages(cached: seq<(Msg, Writes)>): (r: seq<Msg>)
    ensures |r| == |cached| && forall i :: 0 <= i < |r| ==> r[i] == cached[i].0
  {
    seq(|cached|, i requires 0 <= i < |cached| => cached[i].0)
  }

  function Groups(msgs: seq<Msg>): set<GroupKey> {
    if msgs == [] then {} else GroupKeys(msgs[0].answer)
  }

  function Missed(job: Job, call: nat, reply: Option<Msg>): Done
    requires job.Asking?
  {
    var w := WalkResult(job.w.answers, true, job.w.name);
    Done(job.q, w.answers, false, Replaced(job.q.setting, job.q.domain, job.q.qtype, w,
                                           PolicyFor(job.q.setting, job.q.domain), call), reply)
  }

  /** The policy decides and the groups answer, whatever they do and however long it takes. */
  ghost predicate Answer(s: State, s': State, id: nat, f: Fanout, call: nat) {
    && id in s.jobs && s.jobs[id].Asking? && (f.gotEcs || f.gotProxy)
    && var job := s.jobs[id];
       var w := WalkResult(job.w.answers, true, job.w.name);
       var out := MissSpec(job.q.setting, job.q.domain, job.q.qtype, w, f, [], call);
       var msgs := Messages(out.cached);
       s' == s.(jobs := s.jobs[id := Filing(job.q, Missed(job, call, out.reply), msgs, Groups(msgs))])
  }

  /** A group of the message being filed is stamped ... */
  ghost predicate StampGroup(s: State, s': State, id: nat, g: GroupKey, maxTTL: Duration) {
    && id in s.jobs && s.jobs[id].Filing? && s.jobs[id].msgs != [] && g in s.jobs[id].todo
    && var job := s.jobs[id];
       && S.BeginSet(s.cache, s'.cache, id, CacheKey(g.name, g.rtype), ItemsOf(job.msgs[0], g), maxTTL)
       && s' == s.(cache := s'.cache, jobs := s.jobs[id := job.(todo := job.todo - {g})])
  }

  /** ... and stored. */
  ghost predicate StoreGroup(s: State, s': State, id: nat) {
    id in s.jobs && s.jobs[id].Filing? && S.EndSet(s.cache, s'.cache, id) && s' == s.(cache := s'.cache)
  }

  ghost predicate NextMessage(s: State, s': State, id: nat) {
    && id in s.jobs && id !in s.cache.calls
    && s.jobs[id].Filing? && s.jobs[id].msgs != [] && s.jobs[id].todo == {}
    && var job := s.jobs[id];
       s' == s.(jobs := s.jobs[id := job.(msgs := job.msgs[1..], todo := Groups(job.msgs[1..]))])
  }

  ghost predicate Reply(s: State, s': State, id: nat) {
    && id in s.jobs && id !in s.cache.calls && s.jobs[id].Filing? && s.jobs[id].msgs == []
    && s' == s.(jobs := s.jobs - {id}, done := s.done + [s.jobs[id].result])
  }

  /** Time passes, or somebody deletes a key or clears the cache. */
  ghost predicate Around(s: State, s': State) {
    && (S.Tick(s.cache, s'.cache) || (exists key :: S.Delete(s.cache, s'.cache, key)) || S.Clear(s.cache, s'.cache))
    && s' == s.(cache := s'.cache)
  }

  ghost predicate Next(s: State, s': State, maxTTL: Duration) {
    || (exists id, q :: Arrive(s, s', id, q))
    || (exists id :: Fetch(s, s', id))
    || (exists id :: Filter(s, s', id))
    || (exists id :: Return(s, s', id))
    || (exists id, f, call :: Answer(s, s', id, f, call))
    || (exists id, g :: StampGroup(s, s', id, g, maxTTL))
    || (exists id :: StoreGroup(s, s', id))
    || (exists id :: NextMessage(s, s', id))
    || (exists id :: Reply(s, s', id))
    || Around(s, s')
  }

  ghost predicate IsRun(run: seq<State>, maxTTL: Duration) {
    run != [] && Init(run[0]) && forall i :: 0 <= i < |run| - 1 ==> Next(run[i], run[i + 1], maxTTL)
  }

  /** Every query is served by groups that answer from the zone. */
  ghost predicate AllHonest(zone: Zone, rank: Rank, run: seq<State>)
    requires ZoneOk(zone, rank)
  {
    forall i, id :: 0 <= i < |run| && id in run[i].jobs ==> Honest(run[i].jobs[id].q.setting, zone, rank)
  }

  // ---- the invariant ----

  /** A blocked domain gets its block reply below a full hit; any other reply is as expected. */
  ghost predicate ReplyOk(zone: Zone, rank: Rank, d: Done)
    requires ZoneOk(zone, rank)
  {
    var p := PolicyFor(d.q.setting, d.q.domain);
    d.reply.Some? ==>
      if !d.fullHit && p.group == BLOCK then
        d.reply.value == BlockReply(d.q.domain, d.q.qtype, p.options.blockType)
      else
        AsExpected(zone, rank, d.q.setting, d.q.domain, d.q.qtype, d.found, d.fullHit, d.replaced, d.reply.value)
  }

  ghost predicate JobOk(zone: Zone, rank: Rank, job: Job)
    requires ZoneOk(zone, rank)
  {
    match job
    case Filing(q, result, msgs, todo) =>
      ReplyOk(zone, rank, result) && forall m :: m in msgs ==> AnswerSound(zone, m.answer)
    case _ => PathTo(zone, Fqdn(job.q.domain), job.w.answers, job.w.name) && IsFqdn(job.w.name)
  }

  /** A lookup under way is for the key its job wants. */
  ghost predicate CallFits(job: Job, c: S.Call) {
    IsLooking(job) ==> c.key == LookupKey(job)
  }

  ghost predicate Inv(zone: Zone, rank: Rank, s: State)
    requires ZoneOk(zone, rank)
  {
    && SoundState(zone, s.cache)
    && (forall id :: id in s.jobs ==> JobOk(zone, rank, s.jobs[id]))
    && (forall id :: id in s.jobs && id in s.cache.calls ==> CallFits(s.jobs[id], s.cache.calls[id]))
    && (forall d :: d in s.done ==> ReplyOk(zone, rank, d))
  }

  /** No step touches the call of another job. */
  ghost predicate OthersKept(s: S.State, s': S.State, id: nat) {
    forall k :: k != id ==> (k in s.calls <==> k in s'.calls) && (k in s.calls ==> s'.calls[k] == s.calls[k])
  }

  /** A step of one job that ends it. */
  lemma EndingKeepsInv(zone: Zone, rank: Rank, s: State, s': State, id: nat, d: Done)
    requires ZoneOk(zone, rank) && Inv(zone, rank, s) && id in s.jobs
    requires s'.jobs == s.jobs - {id} && s'.done == s.done + [d] && ReplyOk(zone, rank, d)
    requires SoundState(zone, s'.cache) && OthersKept(s.cache, s'.cache, id)
    ensures Inv(zone, rank, s')
  {
  }

  /** A step of one job that goes on. */
  lemma GoingOnKeepsInv(zone: Zone, rank: Rank, s: State, s': State, id: nat, job: Job)
    requires ZoneOk(zone, rank) && Inv(zone, rank, s)
    requires s'.jobs == s.jobs[id := job] && s'.done == s.done && JobOk(zone, rank, job)
    requires id in s'.cache.calls ==> CallFits(job, s'.cache.calls[id])
    requires SoundState(zone, s'.cache) && OthersKept(s.cache, s'.cache, id)
    ensures Inv(zone, rank, s')
  {
  }

  /** A step of one job's call in the cache. */
  lemma SameJobKeepsInv(zone: Zone, rank: Rank, s: State, s': State, id: nat)
    requires ZoneOk(zone, rank) && Inv(zone, rank, s) && id in s.jobs && s'.jobs == s.jobs && s'.done == s.done
    requires id in s'.cache.calls ==> CallFits(s.jobs[id], s'.cache.calls[id])
    requires SoundState(zone, s'.cache) && OthersKept(s.cache, s'.cache, id)
    ensures Inv(zone, rank, s')
  {
  }

  /** What a lookup returns for the key it wanted takes the walk on through the zone. */
  lemma LookedKeepsJob(zone: Zone, rank: Rank, job: Job, items: seq<Item>)
    requires ZoneOk(zone, rank) && JobOk(zone, rank, job) && IsLooking(job)
    requires Whole(zone, LookupKey(job), items)
    ensures job.Typed? && items != [] ==> ReplyOk(zone, rank, FullHit(job, items))
    ensures !(job.Typed? && items != []) ==> JobOk(zone, rank, AfterLookup(job, items))
  {
    var w := job.w;
    if job.Typed? {
      if items != [] {
        StripEmit(items, job.q.now);
        StripConcat(w.answers, Emit(items, job.q.now));
        PathCompletesUnlessAstray(zone, rank, Fqdn(job.q.domain), w.answers, w.name, job.q.qtype);
      }
    } else if items != [] {
      var x := AliasAt(zone, rank, w.name);
      OneAlias(items, x, w.name);
      EmitOne(items, job.q.now);
      PathExtends(zone, Fqdn(job.q.domain), w.answers, w.name, items[0].Served(job.q.now));
    }
  }

  lemma LookedKeepsInv(zone: Zone, rank: Rank, s: State, s': State, id: nat, items: seq<Item>)
    requires ZoneOk(zone, rank) && Inv(zone, rank, s) && id in s.jobs && IsLooking(s.jobs[id])
    requires Whole(zone, LookupKey(s.jobs[id]), items) && Looked(s, s', id, items)
    requires SoundState(zone, s'.cache) && OthersKept(s.cache, s'.cache, id) && id !in s'.cache.calls
    ensures Inv(zone, rank, s')
  {
    var job := s.jobs[id];
    LookedKeepsJob(zone, rank, job, items);
    if job.Typed? && items != [] {
      EndingKeepsInv(zone, rank, s, s', id, FullHit(job, items));
    } else {
      GoingOnKeepsInv(zone, rank, s, s', id, AfterLookup(job, items));
    }
  }

  lemma FetchKeepsInv(zone: Zone, rank: Rank, s: State, s': State, id: nat)
    requires ZoneOk(zone, rank) && Inv(zone, rank, s) && Fetch(s, s', id)
    ensures Inv(zone, rank, s')
  {
    var key := LookupKey(s.jobs[id]);
    ReadKeepsSound(zone, s.cache, s'.cache, id, key);
    if key in s.cache.storage {
      SameJobKeepsInv(zone, rank, s, s', id);
    } else {
      LookedKeepsInv(zone, rank, s, s', id, []);
    }
  }

  lemma FilterKeepsInv(zone: Zone, rank: Rank, s: State, s': State, id: nat)
    requires ZoneOk(zone, rank) && Inv(zone, rank, s) && Filter(s, s', id)
    ensures Inv(zone, rank, s')
  {
    ExpiryCheckKeepsSound(zone, s.cache, s'.cache, id);
    assert CallFits(s.jobs[id], s.cache.calls[id]);
    SameJobKeepsInv(zone, rank, s, s', id);
  }

  lemma FinishTouchesOne(s: S.State, s': S.State, id: nat)
    requires S.Finish(s, s', id)
    ensures OthersKept(s, s', id) && id !in s'.calls
  {
  }

  lemma ReturnKeepsInv(zone: Zone, rank: Rank, s: State, s': State, id: nat)
    requires ZoneOk(zone, rank) && Inv(zone, rank, s) && Return(s, s', id)
    ensures Inv(zone, rank, s')
  {
    var c := s.cache.calls[id];
    FinishKeepsSound(zone, s.cache, s'.cache, id);
    FinishTouchesOne(s.cache, s'.cache, id);
    assert CallFits(s.jobs[id], c);
    LookedKeepsInv(zone, rank, s, s', id, Live(c.items, c.now));
  }

  lemma AnswerKeepsInv(zone: Zone, rank: Rank, s: State, s': State, id: nat, f: Fanout, call: nat)
    requires ZoneOk(zone, rank) && Inv(zone, rank, s) && Answer(s, s', id, f, call)
    requires Honest(s.jobs[id].q.setting, zone, rank)
    ensures Inv(zone, rank, s')
  {
    var job := s.jobs[id];
    var q, w := job.q, job.w;
    MissAfterPath(zone, rank, q.setting, q.domain, q.qtype, w.answers, w.name, f, [], call);
    ReplyAfterPath(zone, rank, q.setting, q.domain, q.qtype, w.answers, w.name, f, [], call);
    var out := MissSpec(q.setting, q.domain, q.qtype, WalkResult(w.answers, true, w.name), f, [], call);
    var msgs := Messages(out.cached);
    forall m | m in msgs
      ensures AnswerSound(zone, m.answer)
    {
      var i :| 0 <= i < |msgs| && msgs[i] == m;
      assert out.cached[i] in out.cached;
    }
    GoingOnKeepsInv(zone, rank, s, s', id, Filing(q, Missed(job, call, out.reply), msgs, Groups(msgs)));
  }

  lemma StampGroupKeepsInv(zone: Zone, rank: Rank, s: State, s': State, id: nat, g: GroupKey, maxTTL: Duration)
    requires ZoneOk(zone, rank) && Inv(zone, rank, s) && StampGroup(s, s', id, g, maxTTL)
    ensures Inv(zone, rank, s')
  {
    var job := s.jobs[id];
    assert job.msgs[0] in job.msgs;
    StampedGroupIsSound(zone, rank, job.msgs[0], maxTTL, g, s.cache.clock);
    BeginSetKeepsSound(zone, s.cache, s'.cache, id, CacheKey(g.name, g.rtype), ItemsOf(job.msgs[0], g), maxTTL);
    GoingOnKeepsInv(zone, rank, s, s', id, job.(todo := job.todo - {g}));
  }

  lemma StoreGroupKeepsInv(zone: Zone, rank: Rank, s: State, s': State, id: nat)
    requires ZoneOk(zone, rank) && Inv(zone, rank, s) && StoreGroup(s, s', id)
    ensures Inv(zone, rank, s')
  {
    EndSetKeepsSound(zone, s.cache, s'.cache, id);
    SameJobKeepsInv(zone, rank, s, s', id);
  }

  lemma AroundKeepsInv(zone: Zone, rank: Rank, s: State, s': State)
    requires ZoneOk(zone, rank) && Inv(zone, rank, s) && Around(s, s')
    ensures Inv(zone, rank, s')
  {
    FewerEntriesKeepSound(zone, s.cache, s'.cache);
  }

  lemma ArriveKeepsInv(zone: Zone, rank: Rank, s: State, s': State, id: nat, q: Query)
    requires ZoneOk(zone, rank) && Inv(zone, rank, s) && Arrive(s, s', id, q)
    ensures Inv(zone, rank, s')
  {
    GoingOnKeepsInv(zone, rank, s, s', id, Typed(q, Walked(Fqdn(q.domain), [], DEFAULT_DEPTH)));
  }

  lemma FilingStepKeepsInv(zone: Zone, rank: Rank, s: State, s': State, id: nat)
    requires ZoneOk(zone, rank) && Inv(zone, rank, s) && (NextMessage(s, s', id) || Reply(s, s', id))
    ensures Inv(zone, rank, s')
  {
    var job := s.jobs[id];
    if NextMessage(s, s', id) {
      GoingOnKeepsInv(zone, rank, s, s', id, job.(msgs := job.msgs[1..], todo := Groups(job.msgs[1..])));
    } else {
      EndingKeepsInv(zone, rank, s, s', id, job.result);
    }
  }

  lemma InvStep(zone: Zone, rank: Rank, s: State, s': State, maxTTL: Duration)
    requires ZoneOk(zone, rank) && Inv(zone, rank, s) && Next(s, s', maxTTL)
    requires forall id :: id in s.jobs ==> Honest(s.jobs[id].q.setting, zone, rank)
    ensures Inv(zone, rank, s')
  {
    if id, q :| Arrive(s, s', id, q) {
      ArriveKeepsInv(zone, rank, s, s', id, q);
    } else if id :| Fetch(s, s', id) {
      FetchKeepsInv(zone, rank, s, s', id);
    } else if id :| Filter(s, s', id) {
      FilterKeepsInv(zone, rank, s, s', id);
    } else if id :| Return(s, s', id) {
      ReturnKeepsInv(zone, rank, s, s', id);
    } else if id, f, call :| Answer(s, s', id, f, call) {
      AnswerKeepsInv(zone, rank, s, s', id, f, call);
    } else if id, g :| StampGroup(s, s', id, g, maxTTL) {
      StampGroupKeepsInv(zone, rank, s, s', id, g, maxTTL);
    } else if id :| StoreGroup(s, s', id) {
      StoreGroupKeepsInv(zone, rank, s, s', id);
    } else if id :| NextMessage(s, s', id) || Reply(s, s', id) {
      FilingStepKeepsInv(zone, rank, s, s', id);
    } else {
      AroundKeepsInv(zone, rank, s, s');
    }
  }

  lemma {:induction false} InvHolds(zone: Zone, rank: Rank, run: seq<State>, maxTTL: Duration)
    requires ZoneOk(zone, rank) && IsRun(run, maxTTL) && AllHonest(zone, rank, run)
    ensures Inv(zone, rank, run[|run| - 1])
    decreases |run|
  {
    var n := |run| - 1;
    if n > 0 {
      HonestPrefix(zone, rank, run, n);
      InvHolds(zone, rank, run[..n], maxTTL);
      InvStep(zone, rank, run[n - 1], run[n], maxTTL);
    }
  }

  lemma HonestPrefix(zone: Zone, rank: Rank, run: seq<State>, n: nat)
    requires ZoneOk(zone, rank) && AllHonest(zone, rank, run) && n <= |run|
    ensures AllHonest(zone, rank, run[..n])
  {
    forall i, id | 0 <= i < n && id in run[..n][i].jobs
      ensures Honest(run[..n][i].jobs[id].q.setting, zone, rank)
    {
      assert run[..n][i] == run[i];
    }
  }

  lemma PrefixIsRun(run: seq<State>, maxTTL: Duration, n: nat)
    requires IsRun(run, maxTTL) && 0 < n <= |run|
    ensures IsRun(run[..n], maxTTL)
  {
    forall i | 0 <= i < n - 1
      ensures Next(run[..n][i], run[..n][i + 1], maxTTL)
    {
      assert run[..n][i] == run[i] && run[..n][i + 1] == run[i + 1];
      assert Next(run[i], run[i + 1], maxTTL);
    }
  }

  // ---- what every run keeps ----

  /**
   * In every run of concurrent queries, however they interleave: each reply for a type other than CNAME that
   * is a full hit, or that no policy blocks or strips of HTTPS records, is the zone's own answer.
   */
  lemma ConcurrentRepliesMeetZone(zone: Zone, rank: Rank, run: seq<State>, maxTTL: Duration, d: Done)
    requires ZoneOk(zone, rank) && IsRun(run, maxTTL) && AllHonest(zone, rank, run)
    requires d in run[|run| - 1].done && d.reply.Some? && d.q.qtype != TYPE_CNAME
    requires d.fullHit || PlainFor(d.q.setting, d.q.domain)
    ensures StripAll(d.reply.value.answer) == ZoneAnswer(zone, rank, Fqdn(d.q.domain), d.q.qtype)
  {
    ConcurrentRepliesAreAsExpected(zone, rank, run, maxTTL, d);
  }

  /**
   * And what any reply is: below a full hit a blocking policy gives just the block reply. Every other reply
   * has the zone's records, under disable_https and below a full hit without the HTTPS ones unless it is a
   * replacement; for a CNAME query exactly unless the walk followed the alias asked for to a name that has an
   * alias too, and the reply begins with what the walk found.
   */
  lemma ConcurrentRepliesAreAsExpected(zone: Zone, rank: Rank, run: seq<State>, maxTTL: Duration, d: Done)
    requires ZoneOk(zone, rank) && IsRun(run, maxTTL) && AllHonest(zone, rank, run)
    requires d in run[|run| - 1].done && d.reply.Some?
    ensures var p := PolicyFor(d.q.setting, d.q.domain);
            if !d.fullHit && p.group == BLOCK then
              d.reply.value == BlockReply(d.q.domain, d.q.qtype, p.options.blockType)
            else
              AsExpected(zone, rank, d.q.setting, d.q.domain, d.q.qtype, d.found, d.fullHit, d.replaced,
                         d.reply.value)
  {
    InvHolds(zone, rank, run, maxTTL);
    assert ReplyOk(zone, rank, d);
  }

  function Caches(run: seq<State>): (r: seq<S.State>)
    ensures |r| == |run| && forall i :: 0 <= i < |run| ==> r[i] == run[i].cache
  {
    seq(|run|, i requires 0 <= i < |run| => run[i].cache)
  }

  /** All that concurrent queries store, CNAME queries led astray included, is whole RRsets of the zone. */
  lemma ConcurrentStoresAreWhole(zone: Zone, rank: Rank, run: seq<State>, maxTTL: Duration)
    requires ZoneOk(zone, rank) && IsRun(run, maxTTL) && AllHonest(zone, rank, run)
    ensures StoresAreWhole(zone, Caches(run))
  {
    forall i, id | 0 <= i < |run| && id in run[i].cache.calls && run[i].cache.calls[id].HasStamped?
      ensures CallSound(zone, run[i].cache.calls[id])
    {
      HonestPrefix(zone, rank, run, i + 1);
      PrefixIsRun(run, maxTTL, i + 1);
      InvHolds(zone, rank, run[..i + 1], maxTTL);
      assert run[..i + 1][i] == run[i];
    }
  }

  /** The cache sees of a run only its own steps. */
  lemma CacheTakesItsOwnSteps(s: State, s': State, maxTTL: Duration)
    requires Next(s, s', maxTTL)
    ensures s'.cache == s.cache || S.Next(s.cache, s'.cache)
  {
    if id, g :| StampGroup(s, s', id, g, maxTTL) {
      assert S.BeginSet(s.cache, s'.cache, id, CacheKey(g.name, g.rtype), ItemsOf(s.jobs[id].msgs[0], g), maxTTL);
    }
  }
}
