/** Fitting a response into one UDP datagram. */
module Truncation {
  import opened Dns

  /** The three record sections, in the order in which they go on the wire. */
  datatype Sections = Sections(answer: seq<RR>, ns: seq<RR>, extra: seq<RR>)

  /** The wire length of a message, compressed or not. */
  type Length = (bool, Sections) -> nat

  const DEFAULT_SIZE := 512
  const LARGEST_SIZE := 1232

  /** The client's limit: 512 without EDNS; with it whatever the client says up to 1232, however little. */
  function MaxSize(udpSize: Option<uint16>): (r: nat)
    ensures r <= 1232
    ensures udpSize == None ==> r == 512
    ensures udpSize.Some? ==> r <= udpSize.value as nat && (r == udpSize.value as nat || r == 1232)
  {
    match udpSize
    case None => DEFAULT_SIZE
    case Some(n) => if n as nat > LARGEST_SIZE then LARGEST_SIZE else n as nat
  }

  function Init<T>(s: seq<T>): seq<T>
    requires s != []
  {
    s[..|s| - 1]
  }

  // ---- the specification: drop the last record that may go until the message fits ----

  predicate CanDrop(m: Sections) {
    m.extra != [] || m.ns != [] || |m.answer| > 1
  }

  function DropLast(m: Sections): Sections
    requires CanDrop(m)
  {
    if m.extra != [] then m.(extra := Init(m.extra))
    else if m.ns != [] then m.(ns := Init(m.ns))
    else m.(answer := Init(m.answer))
  }

  function Truncate(m: Sections, size: Sections -> nat, max: nat): Sections
    decreases |m.answer| + |m.ns| + |m.extra|
  {
    if size(m) <= max || !CanDrop(m) then m else Truncate(DropLast(m), size, max)
  }

  // ---- the code ----

  class Message {
    var answer: seq<RR>
    var ns: seq<RR>
    var extra: seq<RR>
    var truncated: bool
    var compress: bool

    ghost function Records(): Sections
      reads this
    {
      Sections(answer, ns, extra)
    }

    function Len(length: Length): nat
      reads this
    {
      length(compress, Sections(answer, ns, extra))
    }
  }

  ghost function Compressed(length: Length): Sections -> nat {
    m => length(true, m)
  }

  method EnsureUDPSize(resp: Message, udp: bool, udpSize: Option<uint16>, length: Length)
    modifies resp
    ensures var fits := old(length(true, resp.Records())) <= MaxSize(udpSize);
            && resp.truncated == (old(resp.truncated) || (udp && !fits))
            && resp.compress == (old(resp.compress) || udp)
    ensures resp.Records() == if udp then Truncate(old(resp.Records()), Compressed(length), MaxSize(udpSize))
                              else old(resp.Records())
  {
    if !udp {
      return;
    }
    var maxSize := MaxSize(udpSize);
    resp.compress := true;
    if resp.Len(length) <= maxSize {
      return;
    }
    resp.truncated := true;
    ghost var goal := Truncate(resp.Records(), Compressed(length), maxSize);
    while resp.Len(length) > maxSize && |resp.extra| > 0
      invariant resp.compress && resp.truncated
      invariant Truncate(resp.Records(), Compressed(length), maxSize) == goal
      decreases |resp.extra|
    {
      resp.extra := resp.extra[..|resp.extra| - 1];
    }
    while resp.Len(length) > maxSize && |resp.ns| > 0
      invariant resp.compress && resp.truncated && (resp.Len(length) <= maxSize || resp.extra == [])
      invariant Truncate(resp.Records(), Compressed(length), maxSize) == goal
      decreases |resp.ns|
    {
      resp.ns := resp.ns[..|resp.ns| - 1];
    }
    while resp.Len(length) > maxSize && |resp.answer| > 1
      invariant resp.compress && resp.truncated && (resp.Len(length) <= maxSize || (resp.extra == [] && resp.ns == []))
      invariant Truncate(resp.Records(), Compressed(length), maxSize) == goal
      decreases |resp.answer|
    {
      resp.answer := resp.answer[..|resp.answer| - 1];
    }
  }

  // ---- what is left of the message ----

  /** Some records cut from the end of some sections. */
  ghost predicate IsCut(k: Sections, m: Sections) {
    k.answer <= m.answer && k.ns <= m.ns && k.extra <= m.extra
  }

  /** Authority goes only once Additional is empty, Answer only once both are, the first Answer never. */
  ghost predicate InOrder(k: Sections, m: Sections) {
    && (k.ns != m.ns ==> k.extra == [])
    && (k.answer != m.answer ==> k.ns == [] && k.extra == [] && k.answer != [])
  }

  lemma {:induction false} CutsInOrder(m: Sections, size: Sections -> nat, max: nat)
    ensures IsCut(Truncate(m, size, max), m) && InOrder(Truncate(m, size, max), m)
    decreases |m.answer| + |m.ns| + |m.extra|
  {
    if size(m) > max && CanDrop(m) {
      CutsInOrder(DropLast(m), size, max);
    }
  }

  /** A result that is still too long has nothing left to drop. */
  lemma {:induction false} FitsOrIsMinimal(m: Sections, size: Sections -> nat, max: nat)
    ensures var t := Truncate(m, size, max); size(t) <= max || (t.extra == [] && t.ns == [] && |t.answer| <= 1)
    decreases |m.answer| + |m.ns| + |m.extra|
  {
    if size(m) > max && CanDrop(m) {
      FitsOrIsMinimal(DropLast(m), size, max);
    }
  }

  /** Everything in m that the code may drop, dropped. */
  function Least(m: Sections): Sections {
    Sections(if |m.answer| > 1 then m.answer[..1] else m.answer, [], [])
  }

  // ---- maximality, if dropping the last record on the wire never lengthens a message ----

  ghost predicate DroppingHelps(size: Sections -> nat) {
    forall m :: CanDrop(m) ==> size(DropLast(m)) <= size(m)
  }

  /** k can be had from m by dropping last records on the wire. */
  ghost predicate IsTail(k: Sections, m: Sections) {
    IsCut(k, m) && InOrder(k, m)
  }

  lemma {:induction false} TailIsNoLonger(k: Sections, m: Sections, size: Sections -> nat)
    requires DroppingHelps(size) && IsTail(k, m)
    ensures size(k) <= size(m)
    decreases |m.answer| + |m.ns| + |m.extra|
  {
    if k != m {
      assert CanDrop(m) by {
        if m.extra == [] && m.ns == [] {
          assert k.answer != m.answer;
        }
      }
      OneDropNearer(k, m);
      TailIsNoLonger(k, DropLast(m), size);
    }
  }

  lemma OneDropNearer(k: Sections, m: Sections)
    requires CanDrop(m) && IsTail(k, m) && k != m
    ensures IsTail(k, DropLast(m))
  {
  }

  /** The result is the first message on the way down that fits: every longer one on the way is too long. */
  lemma {:induction false} LongerTailsAreTooLong(k: Sections, m: Sections, size: Sections -> nat, max: nat)
    requires IsTail(k, m) && IsTail(Truncate(m, size, max), k) && k != Truncate(m, size, max)
    ensures size(k) > max
    decreases |m.answer| + |m.ns| + |m.extra|
  {
    if k == m {
    } else {
      CutsInOrder(m, size, max);
      assert Truncate(m, size, max) != m;
      OneDropNearer(k, m);
      LongerTailsAreTooLong(k, DropLast(m), size, max);
    }
  }

  /**
   * No cut of the message that fits keeps more Answers; none that keeps all Answers keeps more Authority;
   * none that keeps both whole keeps more Additional. The cut need not follow any order.
   */
  lemma NoFittingCutKeepsMore(m: Sections, k: Sections, size: Sections -> nat, max: nat)
    requires DroppingHelps(size) && IsCut(k, m) && size(k) <= max
    ensures var t := Truncate(m, size, max);
            && |k.answer| <= |t.answer|
            && (k.answer == m.answer ==> t.answer == m.answer && |k.ns| <= |t.ns|)
            && (k.answer == m.answer && k.ns == m.ns ==> t.ns == m.ns && |k.extra| <= |t.extra|)
  {
    var t := Truncate(m, size, max);
    CutsInOrder(m, size, max);
    if |t.answer| < |k.answer| {
      var bare := Sections(k.answer, [], []);
      TailIsNoLonger(bare, k, size);
      LongerTailsAreTooLong(bare, m, size, max);
    }
    if k.answer == m.answer && |t.ns| < |k.ns| {
      var bare := k.(extra := []);
      TailIsNoLonger(bare, k, size);
      LongerTailsAreTooLong(bare, m, size, max);
    }
    if k.answer == m.answer && k.ns == m.ns && |t.extra| < |k.extra| {
      LongerTailsAreTooLong(k, m, size, max);
    }
  }

  /** The datagram limit is met exactly when the first Answer alone would meet it. */
  lemma FitsIffFirstAnswerDoes(m: Sections, size: Sections -> nat, max: nat)
    requires DroppingHelps(size)
    ensures size(Truncate(m, size, max)) <= max <==> size(Least(m)) <= max
  {
    var t := Truncate(m, size, max);
    CutsInOrder(m, size, max);
    FitsOrIsMinimal(m, size, max);
    assert Least(m) == Least(t) by {
      if t.answer != m.answer && |m.answer| > 1 {
        assert m.answer[..1] == t.answer[..1];
      }
    }
    if size(t) <= max {
      TailIsNoLonger(Least(t), t, size);
    }
  }
}
