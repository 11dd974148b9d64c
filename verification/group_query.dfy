/** One query raced over all the upstreams of a group: the workers, the channel, the receiver, cancellation. */
module GroupQuery {
  import opened Dns

  /** What an upstream's exchange ends with. */
  datatype Reply = Reply(resp: Option<Msg>, err: Option<string>) {
    predicate Succeeds() {
      err == None && resp.Some?
    }
  }

  /** A worker exchanges, then checks for cancellation, then sends; once it has passed the check it sends. */
  datatype Phase = Exchanging | Checking | Sending | Sent | Quit

  datatype Outcome = Answer(resp: Msg) | TimedOut | AllFailed(lastErr: Option<string>)

  datatype Receiver = Waiting(round: nat, lastErr: Option<string>) | Returned(outcome: Outcome)

  /** The channel carries the numbers of workers. `received` only records what has been taken from it. */
  datatype State = State(workers: seq<Phase>, chan: seq<nat>, receiver: Receiver,
                         ctxDone: bool, cancelled: bool, received: seq<nat>)

  ghost predicate Init(c: seq<Reply>, s: State) {
    && c != []
    && s == State(seq(|c|, _ => Exchanging), [], Waiting(0, None), false, false, [])
  }

  ghost predicate Moves(s: State, w: nat, before: Phase) {
    w < |s.workers| && s.workers[w] == before
  }

  ghost predicate Finish(s: State, s': State, w: nat) {
    Moves(s, w, Exchanging) && s' == s.(workers := s.workers[w := Checking])
  }

  /** The query's own context is done when the caller's is, or when the receiver has cancelled it. */
  ghost predicate Check(s: State, s': State, w: nat) {
    Moves(s, w, Checking) && s' == s.(workers := s.workers[w := if s.ctxDone || s.cancelled then Quit else Sending])
  }

  /** The channel has room for as many results as there are upstreams. */
  ghost predicate Send(s: State, s': State, w: nat) {
    Moves(s, w, Sending) && |s.chan| < |s.workers| && s' == s.(workers := s.workers[w := Sent], chan := s.chan + [w])
  }

  /** The caller's context ends, at any moment. */
  ghost predicate Expire(s: State, s': State) {
    !s.ctxDone && s' == s.(ctxDone := true)
  }

  ghost predicate Listening(s: State) {
    s.receiver.Waiting? && s.receiver.round < |s.workers|
  }

  function Return(s: State, outcome: Outcome): State {
    s.(receiver := Returned(outcome), cancelled := true)
  }

  ghost predicate Receive(c: seq<Reply>, s: State, s': State) {
    && Listening(s) && s.chan != [] && s.chan[0] < |c|
    && var w, t := s.chan[0], s.(chan := s.chan[1..], received := s.received + [s.chan[0]]);
       s' == if c[w].Succeeds() then Return(t, Answer(c[w].resp.value))
             else t.(receiver := Waiting(s.receiver.round + 1, c[w].err))
  }

  ghost predicate TimeOut(s: State, s': State) {
    Listening(s) && s.ctxDone && s' == Return(s, TimedOut)
  }

  ghost predicate GiveUp(s: State, s': State) {
    s.receiver.Waiting? && !Listening(s) && s' == Return(s, AllFailed(s.receiver.lastErr))
  }

  /** A step of the query itself, as opposed to the end of the caller's context. */
  ghost predicate Work(c: seq<Reply>, s: State, s': State) {
    || (exists w :: Finish(s, s', w) || Check(s, s', w) || Send(s, s', w))
    || Receive(c, s, s') || TimeOut(s, s') || GiveUp(s, s')
  }

  ghost predicate Next(c: seq<Reply>, s: State, s': State) {
    Expire(s, s') || Work(c, s, s')
  }

  ghost predicate IsRun(c: seq<Reply>, run: seq<State>) {
    run != [] && Init(c, run[0]) && forall i :: 0 <= i < |run| - 1 ==> Next(c, run[i], run[i + 1])
  }

  ghost function Last(run: seq<State>): State
    requires run != []
  {
    run[|run| - 1]
  }

  // ---- counting over the workers ----

  function Sum(ws: seq<Phase>, f: Phase -> nat): nat {
    if ws == [] then 0 else f(ws[0]) + Sum(ws[1..], f)
  }

  lemma {:induction false} SumUpdate(ws: seq<Phase>, w: nat, p: Phase, f: Phase -> nat)
    requires w < |ws|
    ensures Sum(ws[w := p], f) == Sum(ws, f) - f(ws[w]) + f(p)
  {
    if w == 0 {
      assert ws[0 := p][1..] == ws[1..];
    } else {
      assert ws[w := p][1..] == ws[1..][w - 1 := p];
      SumUpdate(ws[1..], w - 1, p, f);
    }
  }

  function HasSent(p: Phase): nat {
    if p == Sent then 1 else 0
  }

  lemma {:induction false} SentAtMostAll(ws: seq<Phase>)
    ensures Sum(ws, HasSent) <= |ws|
    ensures Sum(ws, HasSent) == |ws| <==> forall w :: 0 <= w < |ws| ==> ws[w] == Sent
  {
    if ws != [] {
      SentAtMostAll(ws[1..]);
      assert ws == [ws[0]] + ws[1..];
    }
  }

  lemma {:induction false} NobodyHasSent(n: nat)
    ensures Sum(seq(n, _ => Exchanging), HasSent) == 0
  {
    if n > 0 {
      assert seq(n, _ => Exchanging)[1..] == seq(n - 1, _ => Exchanging);
      NobodyHasSent(n - 1);
    }
  }

  // ---- the invariant ----

  ghost predicate AllFail(c: seq<Reply>, ws: seq<nat>) {
    forall w :: w in ws ==> w < |c| && !c[w].Succeeds()
  }

  ghost predicate FailsWith(c: seq<Reply>, w: nat, err: Option<string>) {
    w < |c| && !c[w].Succeeds() && c[w].err == err
  }

  ghost predicate AnswersWith(c: seq<Reply>, w: nat, resp: Msg) {
    w < |c| && c[w].Succeeds() && c[w].resp == Some(resp)
  }

  ghost predicate ChannelInv(c: seq<Reply>, s: State) {
    && |s.workers| == |c| > 0
    && |s.received| + |s.chan| == Sum(s.workers, HasSent)
    && (forall w :: w in s.received || w in s.chan <==> 0 <= w < |c| && s.workers[w] == Sent)
    && (forall w :: 0 <= w < |c| && s.workers[w] == Quit ==> s.ctxDone || s.cancelled)
  }

  ghost predicate ReceiverInv(c: seq<Reply>, s: State) {
    var n := |s.received|;
    match s.receiver
    case Waiting(round, lastErr) =>
      round == n <= |c| && AllFail(c, s.received) && !s.cancelled
        && (n > 0 ==> FailsWith(c, s.received[n - 1], lastErr))
    case Returned(Answer(resp)) =>
      && n > 0 && s.cancelled && AllFail(c, s.received[..n - 1])
      && AnswersWith(c, s.received[n - 1], resp)
    case Returned(TimedOut) => s.ctxDone && s.cancelled
    case Returned(AllFailed(lastErr)) =>
      n == |c| > 0 && s.cancelled && AllFail(c, s.received) && FailsWith(c, s.received[n - 1], lastErr)
  }

  lemma WorkerStepKeepsInv(c: seq<Reply>, s: State, s': State, w: nat)
    requires ChannelInv(c, s) && ReceiverInv(c, s)
    requires Finish(s, s', w) || Check(s, s', w) || Send(s, s', w)
    ensures ChannelInv(c, s') && ReceiverInv(c, s')
  {
    SumUpdate(s.workers, w, s'.workers[w], HasSent);
  }

  lemma ReceiverStepKeepsInv(c: seq<Reply>, s: State, s': State)
    requires ChannelInv(c, s) && ReceiverInv(c, s)
    requires Receive(c, s, s') || TimeOut(s, s') || GiveUp(s, s')
    ensures ChannelInv(c, s') && ReceiverInv(c, s')
  {
    if Receive(c, s, s') {
      assert s.chan == [s.chan[0]] + s.chan[1..];
      assert s'.received[..|s.received|] == s.received;
    }
  }

  lemma {:induction false} InvHolds(c: seq<Reply>, run: seq<State>)
    requires IsRun(c, run)
    ensures ChannelInv(c, Last(run)) && ReceiverInv(c, Last(run))
    decreases |run|
  {
    var n := |run| - 1;
    if n == 0 {
      NobodyHasSent(|c|);
    } else {
      var s, s' := run[n - 1], run[n];
      InvHolds(c, run[..n]);
      assert Last(run[..n]) == s && Next(c, s, s');
      if w :| Finish(s, s', w) || Check(s, s', w) || Send(s, s', w) {
        WorkerStepKeepsInv(c, s, s', w);
      } else if !Expire(s, s') {
        ReceiverStepKeepsInv(c, s, s');
      }
    }
  }

  // ---- what every run keeps ----

  /** A worker that has decided to send always finds room, also long after the query has returned. */
  lemma SendersNeverBlock(c: seq<Reply>, run: seq<State>, w: nat)
    requires IsRun(c, run) && Moves(Last(run), w, Sending)
    ensures |Last(run).chan| < |Last(run).workers|
  {
    InvHolds(c, run);
    SentAtMostAll(Last(run).workers);
  }

  ghost predicate IsBusy(s: State, w: nat) {
    w < |s.workers| && s.workers[w] != Sent && s.workers[w] != Quit
  }

  /** While the receiver listens under a live context, a result is queued or some worker is still to send one. */
  lemma NothingIsLost(c: seq<Reply>, run: seq<State>)
    requires IsRun(c, run) && Listening(Last(run)) && !Last(run).ctxDone
    ensures Last(run).chan != [] || exists w :: IsBusy(Last(run), w)
  {
    InvHolds(c, run);
    var s := Last(run);
    SentAtMostAll(s.workers);
    if s.chan == [] {
      var w :| 0 <= w < |c| && s.workers[w] != Sent;
      assert IsBusy(s, w);
    }
  }

  lemma BusyWorkerCanMove(c: seq<Reply>, run: seq<State>, w: nat) returns (s': State)
    requires IsRun(c, run) && IsBusy(Last(run), w)
    ensures Work(c, Last(run), s')
  {
    InvHolds(c, run);
    var s := Last(run);
    match s.workers[w] {
      case Exchanging =>
        s' := s.(workers := s.workers[w := Checking]);
        assert Finish(s, s', w);
      case Checking =>
        s' := s.(workers := s.workers[w := if s.ctxDone || s.cancelled then Quit else Sending]);
        assert Check(s, s', w);
      case Sending =>
        SendersNeverBlock(c, run, w);
        s' := s.(workers := s.workers[w := Sent], chan := s.chan + [w]);
        assert Send(s, s', w);
    }
  }

  /** A run comes to rest only when the query has returned and every worker has sent or quit: nobody is stuck. */
  lemma RestsOnlyWhenAllIsDone(c: seq<Reply>, run: seq<State>)
    requires IsRun(c, run)
    requires forall s' :: !Work(c, Last(run), s')
    ensures Last(run).receiver.Returned? && forall w :: !IsBusy(Last(run), w)
  {
    InvHolds(c, run);
    var s := Last(run);
    if w :| IsBusy(s, w) {
      var s' := BusyWorkerCanMove(c, run, w);
      assert false;
    }
    if s.receiver.Waiting? {
      if !Listening(s) {
        assert GiveUp(s, Return(s, AllFailed(s.receiver.lastErr)));
        assert Work(c, s, Return(s, AllFailed(s.receiver.lastErr)));
      } else if s.ctxDone {
        assert TimeOut(s, Return(s, TimedOut));
        assert Work(c, s, Return(s, TimedOut));
      } else {
        NothingIsLost(c, run);
        ReceivesWhatIsQueued(c, run);
      }
      assert false;
    }
  }

  lemma ReceivesWhatIsQueued(c: seq<Reply>, run: seq<State>)
    requires IsRun(c, run) && Listening(Last(run)) && Last(run).chan != []
    ensures exists s' :: Work(c, Last(run), s')
  {
    InvHolds(c, run);
    var s := Last(run);
    var w, t := s.chan[0], s.(chan := s.chan[1..], received := s.received + [s.chan[0]]);
    assert w in s.chan;
    var s' := if c[w].Succeeds() then Return(t, Answer(c[w].resp.value))
              else t.(receiver := Waiting(s.receiver.round + 1, c[w].err));
    assert Receive(c, s, s');
    assert Work(c, s, s');
  }

  function Effort(p: Phase): nat {
    match p case Exchanging => 4 case Checking => 3 case Sending => 2 case Sent => 0 case Quit => 0
  }

  function Remaining(s: State): nat {
    Sum(s.workers, Effort) + |s.chan| + (if s.receiver.Waiting? then 1 else 0) + if s.ctxDone then 0 else 1
  }

  lemma WorkerStepMakesProgress(s: State, s': State, w: nat)
    requires Finish(s, s', w) || Check(s, s', w) || Send(s, s', w)
    ensures Remaining(s') < Remaining(s)
  {
    SumUpdate(s.workers, w, s'.workers[w], Effort);
  }

  /** Every step uses up some of a fixed amount of work, so every run does come to rest. */
  lemma EveryStepMakesProgress(c: seq<Reply>, s: State, s': State)
    requires Next(c, s, s')
    ensures Remaining(s') < Remaining(s)
  {
    if w :| Finish(s, s', w) || Check(s, s', w) || Send(s, s', w) {
      WorkerStepMakesProgress(s, s', w);
    } else {
      assert s'.workers == s.workers;
    }
  }

  // ---- the outcome ----

  ghost predicate SomeSucceeds(c: seq<Reply>) {
    exists w :: 0 <= w < |c| && c[w].Succeeds()
  }

  /**
   * In every run: an answer is that of an upstream that succeeded, and no success was received before it;
   * "all failed" is reported only when all have failed, with the error received last; a timeout only once the
   * caller's context has ended.
   */
  lemma OutcomeIsJustified(c: seq<Reply>, run: seq<State>)
    requires IsRun(c, run) && Last(run).receiver.Returned?
    ensures var s := Last(run);
            match s.receiver.outcome
            case Answer(resp) =>
              && s.received != [] && AllFail(c, s.received[..|s.received| - 1])
              && s.received[|s.received| - 1] < |c|
              && c[s.received[|s.received| - 1]] == Reply(Some(resp), None)
            case TimedOut => s.ctxDone
            case AllFailed(lastErr) =>
              && (forall w :: 0 <= w < |c| ==> c[w].err.Some? || c[w].resp == None)
              && s.received != [] && s.received[|s.received| - 1] < |c|
              && c[s.received[|s.received| - 1]].err == lastErr
  {
    InvHolds(c, run);
    var s := Last(run);
    if s.receiver.outcome.AllFailed? {
      SentAtMostAll(s.workers);
      assert s.chan == [];
      forall w | 0 <= w < |c|
        ensures !c[w].Succeeds()
      {
        assert s.workers[w] == Sent;
        assert w in s.received;
      }
    }
  }

  /** Under a live context the outcome does not depend on the schedule: an answer exactly if an upstream succeeds. */
  lemma SucceedsIffSomeUpstreamDoes(c: seq<Reply>, run: seq<State>)
    requires IsRun(c, run) && Last(run).receiver.Returned? && !Last(run).ctxDone
    ensures Last(run).receiver.outcome.Answer? <==> exists w :: 0 <= w < |c| && c[w].err == None && c[w].resp.Some?
    ensures Last(run).receiver.outcome.AllFailed? <==>
            forall w :: 0 <= w < |c| ==> c[w].err.Some? || c[w].resp == None
  {
    OutcomeIsJustified(c, run);
  }

  // ---- building the group ----

  /** The upstreams that could be created, each known by its nameserver. */
  function Created(nameservers: seq<string>, works: string -> bool): (r: seq<string>)
    ensures |r| <= |nameservers|
  {
    if nameservers == [] then []
    else (if works(nameservers[0]) then [nameservers[0]] else []) + Created(nameservers[1..], works)
  }

  lemma {:induction false} CreatedOneMore(nameservers: seq<string>, ns: string, works: string -> bool)
    ensures Created(nameservers + [ns], works) == Created(nameservers, works) + if works(ns) then [ns] else []
  {
    if nameservers == [] {
      assert [] + [ns] == [ns];
    } else {
      assert (nameservers + [ns])[1..] == nameservers[1..] + [ns];
      CreatedOneMore(nameservers[1..], ns, works);
    }
  }

  /** NewGroup's loop. The query indexes `nameservers` by the position of an upstream, which stays in range. */
  method NewGroup(nameservers: seq<string>, works: string -> bool) returns (upstreams: seq<string>)
    ensures upstreams == Created(nameservers, works)
  {
    upstreams := [];
    for i := 0 to |nameservers|
      invariant upstreams == Created(nameservers[..i], works)
    {
      CreatedOneMore(nameservers[..i], nameservers[i], works);
      assert nameservers[..i + 1] == nameservers[..i] + [nameservers[i]];
      if works(nameservers[i]) {
        upstreams := upstreams + [nameservers[i]];
      }
    }
    assert nameservers[..|nameservers|] == nameservers;
  }

  lemma {:induction false} CreatedAllWork(nameservers: seq<string>, works: string -> bool, i: nat)
    requires i < |Created(nameservers, works)|
    ensures works(Created(nameservers, works)[i])
  {
    if works(nameservers[0]) {
      if i > 0 {
        CreatedAllWork(nameservers[1..], works, i - 1);
      }
    } else {
      CreatedAllWork(nameservers[1..], works, i);
    }
  }

  ghost predicate Misplaced(nameservers: seq<string>, works: string -> bool, i: int, j: int) {
    0 <= i < j < |nameservers| && !works(nameservers[i]) && works(nameservers[j])
  }

  lemma {:induction false} NoneCreated(nameservers: seq<string>, works: string -> bool)
    ensures Created(nameservers, works) == [] <==> forall j :: 0 <= j < |nameservers| ==> !works(nameservers[j])
  {
    if nameservers != [] {
      NoneCreated(nameservers[1..], works);
      assert nameservers == [nameservers[0]] + nameservers[1..];
    }
  }

  /**
   * The query reports upstream i under the name nameservers[i]. All these names are right exactly when no
   * nameserver that could not be created stands before one that could.
   */
  lemma {:induction false} NamesAreRightIff(nameservers: seq<string>, works: string -> bool)
    ensures Created(nameservers, works) <= nameservers
       <==> !exists i, j :: Misplaced(nameservers, works, i, j)
  {
    if nameservers == [] {
    } else if works(nameservers[0]) {
      NamesAreRightIff(nameservers[1..], works);
      var rest := nameservers[1..];
      forall i, j | Misplaced(rest, works, i, j)
        ensures Misplaced(nameservers, works, i + 1, j + 1)
      {
        assert nameservers[i + 1] == rest[i] && nameservers[j + 1] == rest[j];
      }
      forall i, j | Misplaced(nameservers, works, i, j)
        ensures Misplaced(rest, works, i - 1, j - 1)
      {
      }
    } else {
      NoneCreated(nameservers[1..], works);
      if Created(nameservers, works) != [] {
        CreatedAllWork(nameservers, works, 0);
        var j :| 0 <= j < |nameservers[1..]| && works(nameservers[1..][j]);
        assert Misplaced(nameservers, works, 0, j + 1);
      } else {
        assert nameservers == [nameservers[0]] + nameservers[1..];
      }
    }
  }

  /** Such names do go wrong: of two nameservers only the second can be created, and it goes under the first's name. */
  lemma WrongNameOccurs(works: string -> bool)
    requires !works("x") && works("y")
    ensures Created(["x", "y"], works) == ["y"] && ["x", "y"][0] != Created(["x", "y"], works)[0]
  {
    assert ["x", "y"][1..] == ["y"] && ["y"][1..] == [];
    assert Created([], works) == [];
    assert Created(["y"], works) == ["y"] + [];
    assert "x" != "y";
  }
}
