/** The two concurrent queries of proxy_ecs_fallback, the loop that collects them, and the decision. */
module EcsFallback {
  import opened Dns

  /** Whether an address matches a GeoIP or ASN rule: the databases are not part of this model. */
  type Geo = (string, string) -> bool

  function ExtractIPs(answer: seq<RR>): seq<string> {
    if answer == [] then []
    else
      var n := |answer| - 1;
      ExtractIPs(answer[..n]) +
      match answer[n].data
      case V4(ip) => [ip]
      case V6(ip) => [ip]
      case _ => []
  }

  lemma {:induction false} AddressIsTaken(answer: seq<RR>, x: RR, ip: string)
    requires x in answer && (x.data == V4(ip) || x.data == V6(ip))
    ensures ip in ExtractIPs(answer)
    decreases |answer|
  {
    var n := |answer| - 1;
    InInit(answer, x);
    if x in answer[..n] {
      AddressIsTaken(answer[..n], x, ip);
    }
  }

  lemma {:induction false} AddressHasRecord(answer: seq<RR>, ip: string) returns (x: RR)
    requires ip in ExtractIPs(answer)
    ensures x in answer && (x.data == V4(ip) || x.data == V6(ip))
    decreases |answer|
  {
    var n := |answer| - 1;
    if ip in ExtractIPs(answer[..n]) {
      x := AddressHasRecord(answer[..n], ip);
    } else {
      x := answer[n];
    }
  }

  /** The addresses of an answer are those of its A and AAAA records, and no others. */
  lemma AddressesOf(answer: seq<RR>)
    ensures forall ip :: ip in ExtractIPs(answer) <==> exists x :: x in answer && (x.data == V4(ip) || x.data == V6(ip))
  {
    forall ip
      ensures ip in ExtractIPs(answer) <==> exists x :: x in answer && (x.data == V4(ip) || x.data == V6(ip))
    {
      if ip in ExtractIPs(answer) {
        var x := AddressHasRecord(answer, ip);
      }
      if x :| x in answer && (x.data == V4(ip) || x.data == V6(ip)) {
        AddressIsTaken(answer, x, ip);
      }
    }
  }

  predicate MatchAny(geo: Geo, ip: string, rules: seq<string>) {
    exists r :: r in rules && geo(ip, r)
  }

  predicate NeedsDirect(ecs: Option<Msg>, rules: seq<string>, geo: Geo) {
    ecs.Some? && exists ip :: ip in ExtractIPs(ecs.value.answer) && MatchAny(geo, ip, rules)
  }

  datatype Choice = UseDirect | UseProxy | UseEcs | Failed

  /** The decision on what the two queries brought; a query that failed or was not received is None. */
  function Decide(ecs: Option<Msg>, proxy: Option<Msg>, rules: seq<string>, geo: Geo): Choice {
    if NeedsDirect(ecs, rules, geo) then UseDirect
    else if proxy.Some? then UseProxy
    else if ecs.Some? then UseEcs
    else Failed
  }

  // ---- the protocol: two producers, a channel of capacity 2, a one-shot timer, a loop of two rounds ----

  datatype Source = FromEcs | FromProxy
  datatype Timer = Armed | Fired | Drained

  /** What comes through the channel: the sender's name and its response, None for an error. */
  datatype Result = Result(from: Source, resp: Option<Msg>)

  /** What each query will answer once it finishes. */
  datatype Replies = Replies(ecs: Option<Msg>, proxy: Option<Msg>)

  const CAPACITY := 2
  const ROUNDS := 2

  /** gotEcs and gotProxy only record which results were received; the decision does not read them. */
  datatype State = State(ecsSent: bool, proxySent: bool, chan: seq<Result>, timer: Timer, rounds: nat,
                         proxyECSResp: Option<Msg>, proxyResp: Option<Msg>, gotEcs: bool, gotProxy: bool)

  ghost predicate Init(s: State) {
    s == State(false, false, [], Armed, 0, None, None, false, false)
  }

  /** A producer puts its result into the channel; it would block on a full one. */
  ghost predicate Send(c: Replies, s: State, s': State, who: Source) {
    && |s.chan| < CAPACITY
    && match who
       case FromEcs => !s.ecsSent && s' == s.(ecsSent := true, chan := s.chan + [Result(FromEcs, c.ecs)])
       case FromProxy => !s.proxySent && s' == s.(proxySent := true, chan := s.chan + [Result(FromProxy, c.proxy)])
  }

  ghost predicate Fire(s: State, s': State) {
    s.timer == Armed && s' == s.(timer := Fired)
  }

  function Received(s: State): State
    requires s.chan != []
  {
    var res, t := s.chan[0], s.(chan := s.chan[1..], rounds := s.rounds + 1);
    if res.from == FromEcs then t.(proxyECSResp := res.resp, gotEcs := true)
    else t.(proxyResp := res.resp, gotProxy := true)
  }

  ghost predicate Receive(s: State, s': State) {
    s.rounds < ROUNDS && s.chan != [] && s' == Received(s)
  }

  /** The timeout case ends the select statement but not the loop around it. */
  ghost predicate TakeTimeout(s: State, s': State) {
    s.rounds < ROUNDS && s.timer == Fired && s' == s.(timer := Drained, rounds := s.rounds + 1)
  }

  ghost predicate Next(c: Replies, s: State, s': State) {
    Send(c, s, s', FromEcs) || Send(c, s, s', FromProxy) || Fire(s, s') || Receive(s, s') || TakeTimeout(s, s')
  }

  ghost predicate IsRun(c: Replies, run: seq<State>) {
    run != [] && Init(run[0]) && forall i :: 0 <= i < |run| - 1 ==> Next(c, run[i], run[i + 1])
  }

  ghost function Last(run: seq<State>): State
    requires run != []
  {
    run[|run| - 1]
  }

  /** The decision taken when the loop is over, from the loop's two variables. */
  function Outcome(s: State, rules: seq<string>, geo: Geo): Choice {
    Decide(s.proxyECSResp, s.proxyResp, rules, geo)
  }

  function One(b: bool): nat {
    if b then 1 else 0
  }

  ghost predicate Inv(c: Replies, s: State) {
    && (forall r :: r in s.chan ==> r.resp == match r.from case FromEcs => c.ecs case FromProxy => c.proxy)
    && (Result(FromEcs, c.ecs) in s.chan <==> s.ecsSent && !s.gotEcs)
    && (Result(FromProxy, c.proxy) in s.chan <==> s.proxySent && !s.gotProxy)
    && (s.gotEcs ==> s.ecsSent) && (s.gotProxy ==> s.proxySent)
    && |s.chan| == One(s.ecsSent && !s.gotEcs) + One(s.proxySent && !s.gotProxy)
    && s.rounds == One(s.gotEcs) + One(s.gotProxy) + One(s.timer == Drained)
    && s.proxyECSResp == (if s.gotEcs then c.ecs else None)
    && s.proxyResp == (if s.gotProxy then c.proxy else None)
  }

  lemma InvAfterReceive(c: Replies, s: State)
    requires Inv(c, s) && s.rounds < ROUNDS && s.chan != []
    ensures Inv(c, Received(s))
  {
    assert s.chan[0] in s.chan;
    if |s.chan| == 1 {
      assert s.chan == [s.chan[0]];
    } else {
      assert s.chan == [s.chan[0], s.chan[1]];
      assert s.chan[1..] == [s.chan[1]];
    }
  }

  lemma InvStep(c: Replies, s: State, s': State)
    requires Inv(c, s) && Next(c, s, s')
    ensures Inv(c, s')
  {
    if Receive(s, s') {
      InvAfterReceive(c, s);
    }
  }

  lemma {:induction false} InvHolds(c: Replies, run: seq<State>)
    requires IsRun(c, run)
    ensures Inv(c, Last(run))
    decreases |run|
  {
    var n := |run| - 1;
    if n > 0 {
      InvHolds(c, run[..n]);
      assert Last(run[..n]) == run[n - 1];
      InvStep(c, run[n - 1], run[n]);
    }
  }

  /**
   * When the loop is over it has consumed exactly two events, at most one of them the timeout; so at least
   * one query has finished, and both results were received exactly if the timeout was not consumed.
   */
  lemma DecidesOnFinishedQueries(c: Replies, run: seq<State>)
    requires IsRun(c, run)
    ensures var s := Last(run);
            s.rounds == 2 ==>
              && (s.gotEcs || s.gotProxy)
              && (s.gotEcs ==> s.ecsSent) && (s.gotProxy ==> s.proxySent)
              && ((s.gotEcs && s.gotProxy) <==> s.timer != Drained)
  {
    InvHolds(c, run);
  }

  /** The outcome depends only on which results were received: not on their order, nor on when the timer fired. */
  lemma ScheduleIndependent(c: Replies, run: seq<State>, rules: seq<string>, geo: Geo)
    requires IsRun(c, run) && Last(run).rounds == 2
    ensures var s := Last(run);
            Outcome(s, rules, geo)
              == Decide(if s.gotEcs then c.ecs else None, if s.gotProxy then c.proxy else None, rules, geo)
  {
    InvHolds(c, run);
  }

  /** A producer that has not sent yet always finds room, also after the decision: no producer is left behind. */
  lemma ProducersNeverBlock(c: Replies, run: seq<State>, who: Source)
    requires IsRun(c, run)
    requires match who case FromEcs => !Last(run).ecsSent case FromProxy => !Last(run).proxySent
    ensures |Last(run).chan| < 2 && exists s' :: Send(c, Last(run), s', who)
  {
    InvHolds(c, run);
    var s := Last(run);
    if who == FromEcs {
      assert Send(c, s, s.(ecsSent := true, chan := s.chan + [Result(FromEcs, c.ecs)]), who);
    } else {
      assert Send(c, s, s.(proxySent := true, chan := s.chan + [Result(FromProxy, c.proxy)]), who);
    }
  }

  /** Work still to be done by everybody; every step does some of it, so every run ends. */
  function Remaining(s: State): nat {
    2 * (One(!s.ecsSent) + One(!s.proxySent)) + |s.chan| + 2 * One(s.timer == Armed) + One(s.timer == Fired)
  }

  lemma EveryStepMakesProgress(c: Replies, s: State, s': State)
    requires Next(c, s, s')
    ensures Remaining(s') < Remaining(s)
  {
  }

  /** Before two events are consumed some step can always be taken. */
  lemma NoDeadlock(c: Replies, run: seq<State>)
    requires IsRun(c, run) && Last(run).rounds < 2
    ensures exists s' :: Next(c, Last(run), s')
  {
    InvHolds(c, run);
    var s := Last(run);
    if s.chan != [] {
      assert Next(c, s, Received(s));
    } else {
      assert !s.ecsSent || !s.proxySent;
      var who := if !s.ecsSent then FromEcs else FromProxy;
      ProducersNeverBlock(c, run, who);
      var s' :| Send(c, s, s', who);
      assert Next(c, s, s');
    }
  }

  /**
   * The three-second timeout does not bound the wait: once it has been consumed, the receiver can go on
   * exactly when a query has finished, however late that is.
   */
  lemma TimeoutDoesNotEndTheWait(c: Replies, run: seq<State>)
    requires IsRun(c, run) && Last(run).timer == Drained && Last(run).rounds < 2
    ensures (exists s' :: Receive(Last(run), s') || TakeTimeout(Last(run), s')) <==>
            Last(run).ecsSent || Last(run).proxySent
  {
    InvHolds(c, run);
    var s := Last(run);
    if s.chan != [] {
      assert Receive(s, Received(s));
    }
  }

  /** Such a wait is reached: the timer has run out and been consumed while both queries are still under way. */
  lemma WaitAfterTimeoutIsReachable(c: Replies) returns (run: seq<State>)
    ensures IsRun(c, run) && Last(run).timer == Drained
    ensures Last(run).rounds < 2 && !Last(run).ecsSent && !Last(run).proxySent
  {
    var s0 := State(false, false, [], Armed, 0, None, None, false, false);
    var s1 := s0.(timer := Fired);
    var s2 := s1.(timer := Drained, rounds := 1);
    run := [s0, s1, s2];
    assert Fire(s0, s1) && TakeTimeout(s1, s2);
  }

  // ---- what the loop can end with ----

  /** A finished run of the loop that leaves these two variables. */
  ghost predicate Leaves(c: Replies, run: seq<State>, ecs: Option<Msg>, proxy: Option<Msg>) {
    && IsRun(c, run) && Last(run).rounds == 2
    && Last(run).proxyECSResp == ecs && Last(run).proxyResp == proxy
  }

  ghost predicate SomeRunLeaves(c: Replies, ecs: Option<Msg>, proxy: Option<Msg>) {
    exists run :: Leaves(c, run, ecs, proxy)
  }

  /** The machine's first steps: both queries finish, in this order of sending. */
  lemma BothSent(c: Replies) returns (run: seq<State>)
    ensures IsRun(c, run) && |run| == 3
    ensures Last(run) == State(true, true, [Result(FromEcs, c.ecs), Result(FromProxy, c.proxy)], Armed, 0, None, None,
                               false, false)
  {
    var s0 := State(false, false, [], Armed, 0, None, None, false, false);
    var s1 := s0.(ecsSent := true, chan := [Result(FromEcs, c.ecs)]);
    var s2 := s1.(proxySent := true, chan := [Result(FromEcs, c.ecs), Result(FromProxy, c.proxy)]);
    run := [s0, s1, s2];
    assert Send(c, s0, s1, FromEcs) && Send(c, s1, s2, FromProxy);
  }

  lemma RunLeavesBoth(c: Replies)
    ensures SomeRunLeaves(c, c.ecs, c.proxy)
  {
    var run := BothSent(c);
    var s := Last(run);
    run := OneMore(c, run, Received(s));
    run := OneMore(c, run, Received(Received(s)));
    assert Leaves(c, run, c.ecs, c.proxy);
  }

  lemma RunLeavesOne(c: Replies, who: Source)
    ensures match who
            case FromEcs => SomeRunLeaves(c, c.ecs, None)
            case FromProxy => SomeRunLeaves(c, None, c.proxy)
  {
    var s0 := State(false, false, [], Armed, 0, None, None, false, false);
    var s1, s2 := s0.(timer := Fired), s0.(timer := Drained, rounds := 1);
    var run := [s0, s1, s2];
    assert Fire(s0, s1) && TakeTimeout(s1, s2);
    var s3 := if who == FromEcs then s2.(ecsSent := true, chan := [Result(FromEcs, c.ecs)])
              else s2.(proxySent := true, chan := [Result(FromProxy, c.proxy)]);
    assert Send(c, s2, s3, who);
    run := OneMore(c, run, s3);
    run := OneMore(c, run, Received(s3));
    if who == FromEcs {
      assert Leaves(c, run, c.ecs, None);
    } else {
      assert Leaves(c, run, None, c.proxy);
    }
  }

  lemma OneMore(c: Replies, run: seq<State>, s: State) returns (longer: seq<State>)
    requires IsRun(c, run) && Next(c, Last(run), s)
    ensures IsRun(c, longer) && Last(longer) == s
  {
    longer := run + [s];
  }

  /** Finished runs leave each variable its own query's result or nothing, never both nothing received. */
  lemma RunsLeaveExactly(c: Replies, ecs: Option<Msg>, proxy: Option<Msg>)
    ensures SomeRunLeaves(c, ecs, proxy)
       <==> (ecs == c.ecs && proxy in {None, c.proxy}) || (proxy == c.proxy && ecs in {None, c.ecs})
  {
    RunLeavesBoth(c);
    RunLeavesOne(c, FromEcs);
    RunLeavesOne(c, FromProxy);
    if run :| Leaves(c, run, ecs, proxy) {
      InvHolds(c, run);
    }
  }
}
