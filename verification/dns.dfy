/** DNS records and messages, as far as the cache and the router look into them. */
module Dns {

  datatype Option<+T> = None | Some(value: T) {
    function Get(default: T): T {
      if Some? then value else default
    }
  }

  type uint16 = n: int | 0 <= n < 0x1_0000
  type uint32 = n: int | 0 <= n < 0x1_0000_0000

  const TYPE_A: uint16 := 1
  const TYPE_CNAME: uint16 := 5
  const TYPE_AAAA: uint16 := 28
  const TYPE_SVCB: uint16 := 64
  const TYPE_HTTPS: uint16 := 65
  const CLASS_INET: uint16 := 1

  const RCODE_SUCCESS := 0
  const RCODE_NAME_ERROR := 3

  /** The Go type behind a record: the code asks only whether it is an A, an AAAA or a CNAME. */
  datatype RData = V4(addr: string) | V6(addr: string) | Alias(target: string) | Opaque(bytes: seq<int>)

  datatype RR = RR(name: string, rtype: uint16, cls: uint16, ttl: uint32, data: RData)

  datatype Msg = Msg(qname: string, qtype: uint16, rcode: int, authData: bool, recurAvail: bool,
                     answer: seq<RR>, ns: seq<RR>, extra: seq<RR>, truncated: bool, compress: bool)

  predicate IsFqdn(s: string) {
    |s| > 0 && s[|s| - 1] == '.'
  }

  function Fqdn(s: string): (r: string)
    ensures IsFqdn(r)
    ensures IsFqdn(s) ==> r == s
  {
    if IsFqdn(s) then s else s + "."
  }

  /** A fresh query message for a name (what SetQuestion fills in). */
  function Question(qname: string, qtype: uint16): Msg {
    Msg(Fqdn(qname), qtype, RCODE_SUCCESS, false, false, [], [], [], false, false)
  }

  /** The records without their TTLs. */
  function StripAll(s: seq<RR>): (r: seq<RR>)
    ensures |r| == |s|
    ensures forall i :: 0 <= i < |s| ==> r[i] == s[i].(ttl := 0)
  {
    seq(|s|, i requires 0 <= i < |s| => s[i].(ttl := 0))
  }

  lemma StripConcat(a: seq<RR>, b: seq<RR>)
    ensures StripAll(a + b) == StripAll(a) + StripAll(b)
  {
  }

  lemma ConcatAssoc<T>(a: seq<T>, b: seq<T>, c: seq<T>)
    ensures a + b + c == a + (b + c)
  {
  }

  lemma AppendNothing<T>(s: seq<T>)
    ensures s + [] == s
  {
  }

  lemma TakeOneMore<T>(s: seq<T>, i: nat)
    requires i < |s|
    ensures s[..i + 1] == s[..i] + [s[i]]
  {
  }

  lemma TakeTake<T>(s: seq<T>, i: nat)
    requires i < |s|
    ensures s[..i + 1][..i] == s[..i] && s[..i + 1][i] == s[i]
  {
  }

  lemma InInit<T>(s: seq<T>, x: T)
    requires s != []
    ensures x in s <==> x in s[..|s| - 1] || x == s[|s| - 1]
  {
    assert s == s[..|s| - 1] + [s[|s| - 1]];
  }

  /** Records are cached by owner name and type. */
  datatype GroupKey = GroupKey(name: string, rtype: uint16)

  function KeyOf(rr: RR): GroupKey {
    GroupKey(rr.name, rr.rtype)
  }

  function GroupKeys(answer: seq<RR>): set<GroupKey> {
    set i | 0 <= i < |answer| :: KeyOf(answer[i])
  }

  /** The records of one group, in the order of the answer section. */
  function GroupOf(answer: seq<RR>, g: GroupKey): seq<RR> {
    if answer == [] then []
    else
      var n := |answer| - 1;
      GroupOf(answer[..n], g) + (if KeyOf(answer[n]) == g then [answer[n]] else [])
  }

  lemma {:induction false} GroupMembers(answer: seq<RR>, g: GroupKey)
    ensures forall x :: x in GroupOf(answer, g) <==> x in answer && KeyOf(x) == g
    decreases |answer|
  {
    if answer != [] {
      var n := |answer| - 1;
      GroupMembers(answer[..n], g);
      assert answer == answer[..n] + [answer[n]];
    }
  }

  lemma {:induction false} GroupOfConcat(a: seq<RR>, b: seq<RR>, g: GroupKey)
    ensures GroupOf(a + b, g) == GroupOf(a, g) + GroupOf(b, g)
    decreases |b|
  {
    if b == [] {
      assert a + b == a;
    } else {
      var n := |b| - 1;
      GroupOfConcat(a, b[..n], g);
      assert (a + b)[..|a| + n] == a + b[..n];
    }
  }

  lemma {:induction false} GroupOfStrip(a: seq<RR>, g: GroupKey)
    ensures GroupOf(StripAll(a), g) == StripAll(GroupOf(a, g))
    decreases |a|
  {
    if a != [] {
      var n := |a| - 1;
      GroupOfStrip(a[..n], g);
      assert StripAll(a)[..n] == StripAll(a[..n]);
    }
  }

  lemma GroupNonEmpty(answer: seq<RR>, g: GroupKey)
    ensures g in GroupKeys(answer) <==> GroupOf(answer, g) != []
  {
    GroupMembers(answer, g);
    if g in GroupKeys(answer) {
      var i :| 0 <= i < |answer| && KeyOf(answer[i]) == g;
      assert answer[i] in GroupOf(answer, g);
    }
    if GroupOf(answer, g) != [] {
      var x := GroupOf(answer, g)[0];
      assert x in GroupOf(answer, g);
    }
  }
}
