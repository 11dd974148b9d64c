/**
 * The cache is transparent: over every run of calls the records returned are those of an uncached lookup,
 * provided all upstream groups answer from one stable zone.
 */
module Transparency {
  import opened Dns
  import opened CacheModel
  import opened ChainWalk
  import opened RouterModel

  // ---- the zone ----

  /** The records of a name and type, without TTLs. */
  type Zone = (string, uint16) -> seq<RR>

  /** A measure that falls along aliases, so that they are acyclic. */
  type Rank = string -> nat

  ghost predicate ZoneOk(zone: Zone, rank: Rank) {
    && (forall n, t, x :: x in zone(n, t) ==> x.name == n && x.rtype == t && x.ttl == 0 && IsFqdn(n))
    && (forall n :: |zone(n, TYPE_CNAME)| <= 1)
    && (forall n, x :: x in zone(n, TYPE_CNAME) ==> AliasOk(rank, x))
    && (forall n, t :: t != TYPE_CNAME && zone(n, TYPE_CNAME) != [] ==> zone(n, t) == [])
  }

  ghost predicate AliasOk(rank: Rank, x: RR) {
    x.data.Alias? && IsFqdn(x.data.target) && rank(x.data.target) < rank(x.name)
  }

  /** The alias of a name that has one. */
  ghost function AliasAt(zone: Zone, rank: Rank, n: string): (x: RR)
    requires ZoneOk(zone, rank) && zone(n, TYPE_CNAME) != []
    ensures zone(n, TYPE_CNAME) == [x] && x.name == n && x.rtype == TYPE_CNAME && x.ttl == 0 && AliasOk(rank, x)
  {
    var x := zone(n, TYPE_CNAME)[0];
    assert x in zone(n, TYPE_CNAME);
    x
  }

  /** What a resolver without cache answers: the aliases from the name on, then the wanted records. */
  ghost function ZoneAnswer(zone: Zone, rank: Rank, n: string, qtype: uint16): seq<RR>
    requires ZoneOk(zone, rank)
    decreases rank(n)
  {
    if zone(n, qtype) != [] then zone(n, qtype)
    else if zone(n, TYPE_CNAME) == [] then []
    else [AliasAt(zone, rank, n)] + ZoneAnswer(zone, rank, AliasAt(zone, rank, n).data.target, qtype)
  }

  ghost predicate UniformTTL(answer: seq<RR>) {
    forall i, j :: 0 <= i < |answer| && 0 <= j < |answer| && KeyOf(answer[i]) == KeyOf(answer[j]) ==>
                     answer[i].ttl == answer[j].ttl
  }

  /** An answer taken from the zone: its records in order, with any TTLs that agree within an RRset. */
  ghost predicate FromZone(zone: Zone, rank: Rank, n: string, qtype: uint16, answer: seq<RR>)
    requires ZoneOk(zone, rank)
  {
    StripAll(answer) == ZoneAnswer(zone, rank, n, qtype) && UniformTTL(answer)
  }

  /** Every group, whenever asked, either fails or answers from the zone. */
  ghost predicate Honest(s: Setting, zone: Zone, rank: Rank)
    requires ZoneOk(zone, rank)
  {
    forall g, n, t, c :: s.answers(g, n, t, c).Some? ==> FromZone(zone, rank, n, t, s.answers(g, n, t, c).value.answer)
  }

  /** For every zone there are groups that answer so, with any TTL and without ever failing. */
  lemma HonestGroupsExist(zone: Zone, rank: Rank, ttl: uint32) returns (answers: Answers)
    requires ZoneOk(zone, rank)
    ensures forall s: Setting :: s.answers == answers ==> Honest(s, zone, rank)
    ensures forall g, n, t: uint16, c: nat :: var r := answers(g, n, t, c);
              r.Some? && StripAll(r.value.answer) == ZoneAnswer(zone, rank, n, t)
                && forall x :: x in r.value.answer ==> x.ttl == ttl
  {
    answers := (g: string, n: string, t: uint16, c: nat) =>
      Some(Question(n, t).(answer := WithTTL(ZoneAnswer(zone, rank, n, t), ttl)));
    forall n, t: uint16
      ensures FromZone(zone, rank, n, t, WithTTL(ZoneAnswer(zone, rank, n, t), ttl))
    {
      NoTTLInZone(zone, rank, n, t);
    }
  }

  function WithTTL(rrs: seq<RR>, ttl: uint32): (r: seq<RR>)
    ensures |r| == |rrs| && forall i :: 0 <= i < |r| ==> r[i] == rrs[i].(ttl := ttl)
  {
    seq(|rrs|, i requires 0 <= i < |rrs| => rrs[i].(ttl := ttl))
  }

  lemma {:induction false} NoTTLInZone(zone: Zone, rank: Rank, n: string, qtype: uint16)
    requires ZoneOk(zone, rank)
    ensures forall x :: x in ZoneAnswer(zone, rank, n, qtype) ==> x.ttl == 0
    decreases rank(n)
  {
    if zone(n, qtype) == [] && zone(n, TYPE_CNAME) != [] {
      NoTTLInZone(zone, rank, AliasAt(zone, rank, n).data.target, qtype);
    }
  }

  // ---- groups of zone answers are whole RRsets ----

  lemma {:induction false} GroupOfUniform(s: seq<RR>, g: GroupKey, h: GroupKey)
    requires forall x :: x in s ==> KeyOf(x) == h
    ensures GroupOf(s, g) == if g == h then s else []
    decreases |s|
  {
    if s != [] {
      var n := |s| - 1;
      GroupOfUniform(s[..n], g, h);
      assert s == s[..n] + [s[n]];
      assert s[n] in s;
    }
  }

  lemma {:induction false} NoGroup(s: seq<RR>, g: GroupKey)
    requires forall x :: x in s ==> KeyOf(x) != g
    ensures GroupOf(s, g) == []
    decreases |s|
  {
    if s != [] {
      var n := |s| - 1;
      NoGroup(s[..n], g);
      assert s[n] in s;
    }
  }

  lemma {:induction false} OwnersDoNotClimb(zone: Zone, rank: Rank, n: string, qtype: uint16)
    requires ZoneOk(zone, rank)
    ensures forall x :: x in ZoneAnswer(zone, rank, n, qtype) ==> rank(x.name) <= rank(n)
    decreases rank(n)
  {
    if zone(n, qtype) == [] && zone(n, TYPE_CNAME) != [] {
      OwnersDoNotClimb(zone, rank, AliasAt(zone, rank, n).data.target, qtype);
    }
  }

  lemma {:induction false} ZoneAnswerGroups(zone: Zone, rank: Rank, n: string, qtype: uint16, g: GroupKey)
    requires ZoneOk(zone, rank)
    ensures var r := GroupOf(ZoneAnswer(zone, rank, n, qtype), g); r == [] || r == zone(g.name, g.rtype)
    decreases rank(n)
  {
    if zone(n, qtype) != [] {
      GroupOfUniform(zone(n, qtype), g, GroupKey(n, qtype));
    } else if zone(n, TYPE_CNAME) != [] {
      var x := AliasAt(zone, rank, n);
      var rest := ZoneAnswer(zone, rank, x.data.target, qtype);
      GroupOfConcat([x], rest, g);
      GroupOfUniform([x], g, GroupKey(n, TYPE_CNAME));
      ZoneAnswerGroups(zone, rank, x.data.target, qtype, g);
      if g == GroupKey(n, TYPE_CNAME) {
        OwnersDoNotClimb(zone, rank, x.data.target, qtype);
        NoGroup(rest, g);
      }
    }
  }

  // ---- sound stores and answers ----

  function RRsOf(items: seq<Item>): (r: seq<RR>)
    ensures |r| == |items| && forall i :: 0 <= i < |items| ==> r[i] == items[i].rr
  {
    seq(|items|, i requires 0 <= i < |items| => items[i].rr)
  }

  /** An entry is one whole RRset of the zone, expiring all at once. */
  ghost predicate EntrySound(zone: Zone, k: Key, items: seq<Item>) {
    && items != []
    && StripAll(RRsOf(items)) == zone(k.name, k.rtype)
    && forall i :: 0 <= i < |items| ==> items[i].origTTL == items[0].origTTL && items[i].storedAt == items[0].storedAt
  }

  ghost predicate Sound(zone: Zone, store: Store) {
    forall k :: k in store ==> EntrySound(zone, k, store[k])
  }

  ghost predicate AnswerSound(zone: Zone, answer: seq<RR>) {
    && UniformTTL(answer)
    && forall g :: var r := GroupOf(StripAll(answer), g); r == [] || r == zone(g.name, g.rtype)
  }

  lemma ZoneAnswersAreSound(zone: Zone, rank: Rank, n: string, qtype: uint16, answer: seq<RR>)
    requires ZoneOk(zone, rank) && FromZone(zone, rank, n, qtype, answer)
    ensures AnswerSound(zone, answer)
  {
    forall g
      ensures var r := GroupOf(StripAll(answer), g); r == [] || r == zone(g.name, g.rtype)
    {
      ZoneAnswerGroups(zone, rank, n, qtype, g);
    }
  }

  /** A group of a sound answer, stamped, is a sound entry. */
  lemma StampedGroupIsSound(zone: Zone, rank: Rank, msg: Msg, maxTTL: Duration, g: GroupKey, t: int)
    requires ZoneOk(zone, rank) && AnswerSound(zone, msg.answer) && ItemsOf(msg, g) != []
    ensures EntrySound(zone, CacheKey(g.name, g.rtype), Stamp(ItemsOf(msg, g), maxTTL, t))
  {
    var stamped, rrs := Stamp(ItemsOf(msg, g), maxTTL, t), GroupOf(msg.answer, g);
    GroupOfStrip(msg.answer, g);
    assert StripAll(RRsOf(stamped)) == StripAll(rrs) == zone(g.name, g.rtype);
    assert StripAll(rrs)[0] in zone(g.name, g.rtype);
    forall i | 0 <= i < |stamped|
      ensures stamped[i].origTTL == stamped[0].origTTL && stamped[i].storedAt == stamped[0].storedAt
    {
      SameTTLInGroup(msg.answer, g, i);
    }
  }

  /** Filing one group of a sound answer keeps the store sound. */
  lemma GroupWriteKeepsSound(zone: Zone, rank: Rank, store: Store, msg: Msg, maxTTL: Duration, w: (GroupKey, int))
    requires ZoneOk(zone, rank) && Sound(zone, store) && AnswerSound(zone, msg.answer)
    ensures Sound(zone, WriteGroup(store, msg, maxTTL, w))
  {
    if ItemsOf(msg, w.0) != [] {
      StampedGroupIsSound(zone, rank, msg, maxTTL, w.0, w.1);
    }
  }

  lemma SameTTLInGroup(answer: seq<RR>, g: GroupKey, i: nat)
    requires UniformTTL(answer) && i < |GroupOf(answer, g)|
    ensures GroupOf(answer, g)[i].ttl == GroupOf(answer, g)[0].ttl
  {
    var r := GroupOf(answer, g);
    GroupMembers(answer, g);
    assert r[i] in r && r[0] in r;
    var a :| 0 <= a < |answer| && answer[a] == r[i];
    var b :| 0 <= b < |answer| && answer[b] == r[0];
  }

  lemma {:induction false} WritesKeepSound(zone: Zone, rank: Rank, store: Store, msg: Msg, maxTTL: Duration,
                                           writes: Writes)
    requires ZoneOk(zone, rank) && Sound(zone, store) && AnswerSound(zone, msg.answer)
    ensures Sound(zone, CacheWrites(store, msg, maxTTL, writes))
    decreases |writes|
  {
    if writes != [] {
      var n := |writes| - 1;
      WritesKeepSound(zone, rank, store, msg, maxTTL, writes[..n]);
      GroupWriteKeepsSound(zone, rank, CacheWrites(store, msg, maxTTL, writes[..n]), msg, maxTTL, writes[n]);
    }
  }

  lemma {:induction false} AllWritesKeepSound(zone: Zone, rank: Rank, store: Store, maxTTL: Duration,
                                              cached: seq<(Msg, Writes)>)
    requires ZoneOk(zone, rank) && Sound(zone, store)
    requires forall c :: c in cached ==> AnswerSound(zone, c.0.answer)
    ensures Sound(zone, WriteAll(store, maxTTL, cached))
    decreases |cached|
  {
    if cached != [] {
      var n := |cached| - 1;
      AllWritesKeepSound(zone, rank, store, maxTTL, cached[..n]);
      assert cached[n] in cached;
      WritesKeepSound(zone, rank, WriteAll(store, maxTTL, cached[..n]), cached[n].0, maxTTL, cached[n].1);
    }
  }

  // ---- the walk ----

  /** A sound entry is live as a whole or not at all. */
  lemma LiveAllOrNothing(items: seq<Item>, t: int)
    requires forall i :: 0 <= i < |items| ==>
                           items[i].origTTL == items[0].origTTL && items[i].storedAt == items[0].storedAt
    ensures Live(items, t) == if items != [] && items[0].IsExpired(t) then [] else items
    decreases |items|
  {
    if items != [] {
      LiveAllOrNothing(items[..|items| - 1], t);
    }
  }

  /** What a sound store shows: the zone's whole RRset or nothing, and nothing stays nothing. */
  ghost predicate Shows(zone: Zone, view: View) {
    forall n: string, q: uint16, t: int :: IsFqdn(n) ==>
      var items := view(CacheKey(n, q), t);
      && (items == [] || StripAll(RRsOf(items)) == zone(n, q))
      && (items == [] ==> forall u :: t <= u ==> view(CacheKey(n, q), u) == [])
  }

  lemma SoundStoreShows(zone: Zone, store: Store)
    requires Sound(zone, store)
    ensures Shows(zone, ViewOf(store))
  {
    forall n: string, q: uint16, t: int | IsFqdn(n)
      ensures var items := ViewOf(store)(CacheKey(n, q), t);
              && (items == [] || StripAll(RRsOf(items)) == zone(n, q))
              && (items == [] ==> forall u :: t <= u ==> ViewOf(store)(CacheKey(n, q), u) == [])
    {
      var k := CacheKey(n, q);
      if k in store {
        assert EntrySound(zone, k, store[k]);
        LiveAllOrNothing(store[k], t);
        forall u | t <= u {
          LiveAllOrNothing(store[k], u);
        }
      }
    }
  }

  lemma StripEmit(items: seq<Item>, now: int)
    ensures StripAll(Emit(items, now)) == StripAll(RRsOf(items))
  {
  }

  lemma EmitOne(items: seq<Item>, now: int)
    requires |items| == 1
    ensures Emit(items, now) == [items[0].Served(now)]
  {
  }

  /** The walk's answers, completed by the zone's answer for the upstream target, are the zone's answer. */
  ghost predicate Completes(zone: Zone, rank: Rank, w: WalkResult, name: string, qtype: uint16)
    requires ZoneOk(zone, rank)
  {
    && StripAll(w.answers) + (if w.needUpstream then ZoneAnswer(zone, rank, w.target, qtype) else [])
       == ZoneAnswer(zone, rank, name, qtype)
    && (w.needUpstream ==> IsFqdn(w.target) && forall x :: x in w.answers ==> x.rtype == TYPE_CNAME)
  }

  lemma AliasCompletes(zone: Zone, rank: Rank, rest: WalkResult, first: RR, name: string, qtype: uint16)
    requires ZoneOk(zone, rank) && zone(name, qtype) == []
    requires zone(name, TYPE_CNAME) == [first.(ttl := 0)] && first.data.Alias?
    requires Completes(zone, rank, rest, first.data.target, qtype)
    ensures Completes(zone, rank, rest.(answers := [first] + rest.answers), name, qtype)
  {
    var x := AliasAt(zone, rank, name);
    StripConcat([first], rest.answers);
    var tail := if rest.needUpstream then ZoneAnswer(zone, rank, rest.target, qtype) else [];
    assert StripAll([first] + rest.answers) + tail == [x] + (StripAll(rest.answers) + tail);
  }

  lemma FoundCompletes(zone: Zone, rank: Rank, items: seq<Item>, name: string, qtype: uint16, now: int)
    requires ZoneOk(zone, rank) && items != [] && StripAll(RRsOf(items)) == zone(name, qtype)
    ensures Completes(zone, rank, WalkResult(Emit(items, now), false, ""), name, qtype)
  {
    StripEmit(items, now);
    AppendNothing(StripAll(Emit(items, now)));
  }

  lemma FollowedCompletes(zone: Zone, rank: Rank, rest: WalkResult, cnames: seq<Item>, name: string, qtype: uint16,
                          now: int)
    requires ZoneOk(zone, rank) && zone(name, qtype) == []
    requires cnames != [] && StripAll(RRsOf(cnames)) == zone(name, TYPE_CNAME)
    requires Completes(zone, rank, rest, Follow(cnames, name), qtype)
    ensures Completes(zone, rank, rest.(answers := Emit(cnames, now) + rest.answers), name, qtype)
  {
    var x := AliasAt(zone, rank, name);
    OneAlias(cnames, x, name);
    EmitOne(cnames, now);
    AliasCompletes(zone, rank, rest, cnames[0].Served(now), name, qtype);
  }

  lemma {:induction false} WalkMeetsZone(zone: Zone, rank: Rank, view: View, name: string, qtype: uint16, depth: nat,
                                         now: int, ts: seq<Round>, lo: int, hi: int)
    requires ZoneOk(zone, rank) && Shows(zone, view) && IsFqdn(name)
    requires |ts| >= depth && Ordered(ts, lo, hi)
    ensures Completes(zone, rank, Walk(view, name, qtype, depth, now, ts), name, qtype)
    decreases depth
  {
    if depth > 0 {
      var items, cnames := view(CacheKey(name, qtype), ts[0].typeAt), view(CacheKey(name, TYPE_CNAME), ts[0].aliasAt);
      if items != [] {
        FoundCompletes(zone, rank, items, name, qtype, now);
      } else if cnames != [] {
        var x := AliasAt(zone, rank, name);
        OneAlias(cnames, x, name);
        WalkMeetsZone(zone, rank, view, x.data.target, qtype, depth - 1, now, ts[1..], ts[0].aliasAt, hi);
        FollowedCompletes(zone, rank, Walk(view, x.data.target, qtype, depth - 1, now, ts[1..]), cnames, name, qtype,
                          now);
      }
    }
  }

  lemma OneAlias(cnames: seq<Item>, x: RR, name: string)
    requires StripAll(RRsOf(cnames)) == [x] && x.data.Alias? && IsFqdn(x.data.target)
    ensures |cnames| == 1 && Follow(cnames, name) == x.data.target && cnames[0].rr.(ttl := 0) == x
  {
    assert RRsOf(cnames)[0].(ttl := 0) == x;
  }

  // ---- one call ----

  lemma TwoInGroup(a: seq<RR>, i: nat, j: nat)
    requires i < j < |a| && KeyOf(a[i]) == KeyOf(a[j])
    ensures |GroupOf(a, KeyOf(a[i]))| >= 2
  {
    var g := KeyOf(a[i]);
    assert a == a[..j] + a[j..];
    GroupOfConcat(a[..j], a[j..], g);
    assert a[..j][i] in a[..j] && a[j..][0] in a[j..];
    GroupMembers(a[..j], g);
    GroupMembers(a[j..], g);
    assert a[i] in GroupOf(a[..j], g) && a[j] in GroupOf(a[j..], g);
  }

  /** Cached aliases followed by an upstream answer for their end are again an answer from the zone. */
  lemma MergeIsFromZone(zone: Zone, rank: Rank, name: string, qtype: uint16, cached: seq<RR>, target: string,
                        answer: seq<RR>)
    requires ZoneOk(zone, rank) && FromZone(zone, rank, target, qtype, answer)
    requires StripAll(cached) + ZoneAnswer(zone, rank, target, qtype) == ZoneAnswer(zone, rank, name, qtype)
    requires forall x :: x in cached ==> x.rtype == TYPE_CNAME
    ensures FromZone(zone, rank, name, qtype, cached + answer)
  {
    var m := cached + answer;
    StripConcat(cached, answer);
    forall i, j | 0 <= i < j < |m| && KeyOf(m[i]) == KeyOf(m[j])
      ensures m[i].ttl == m[j].ttl
    {
      var g := KeyOf(m[i]);
      if i < |cached| || g.rtype == TYPE_CNAME {
        assert i < |cached| ==> m[i] in cached;
        TwoInGroup(StripAll(m), i, j);
        ZoneAnswerGroups(zone, rank, name, qtype, g);
      } else {
        assert m[i] == answer[i - |cached|] && m[j] == answer[j - |cached|];
      }
    }
  }

  lemma {:induction false} FilterKeepsGroups(rrs: seq<RR>, g: GroupKey)
    ensures GroupOf(WithoutHTTPS(rrs), g)
         == if g.rtype == TYPE_SVCB || g.rtype == TYPE_HTTPS then [] else GroupOf(rrs, g)
    decreases |rrs|
  {
    if rrs != [] {
      var n := |rrs| - 1;
      var kept := WithoutHTTPS(rrs[..n]);
      FilterKeepsGroups(rrs[..n], g);
      GroupGrows(rrs[..n], rrs[n], g);
      assert rrs == rrs[..n] + [rrs[n]];
      if IsHTTPS(rrs[n]) {
        assert WithoutHTTPS(rrs) == kept;
      } else {
        GroupGrows(kept, rrs[n], g);
      }
    }
  }

  lemma {:induction false} FilterMembers(rrs: seq<RR>)
    ensures forall x :: x in WithoutHTTPS(rrs) <==> x in rrs && !IsHTTPS(x)
    decreases |rrs|
  {
    if rrs != [] {
      var n := |rrs| - 1;
      FilterMembers(rrs[..n]);
      assert rrs == rrs[..n] + [rrs[n]];
    }
  }

  lemma FilterKeepsSound(zone: Zone, msg: Msg, disableHTTPS: bool)
    requires AnswerSound(zone, msg.answer)
    ensures AnswerSound(zone, Filtered(msg, disableHTTPS).answer)
  {
    if disableHTTPS {
      var kept := WithoutHTTPS(msg.answer);
      FilterMembers(msg.answer);
      forall g
        ensures var r := GroupOf(StripAll(kept), g); r == [] || r == zone(g.name, g.rtype)
      {
        FilterKeepsGroups(msg.answer, g);
        GroupOfStrip(kept, g);
        GroupOfStrip(msg.answer, g);
      }
      forall i, j | 0 <= i < |kept| && 0 <= j < |kept| && KeyOf(kept[i]) == KeyOf(kept[j])
        ensures kept[i].ttl == kept[j].ttl
      {
        assert kept[i] in kept && kept[j] in kept;
        var a :| 0 <= a < |msg.answer| && msg.answer[a] == kept[i];
        var b :| 0 <= b < |msg.answer| && msg.answer[b] == kept[j];
      }
    }
  }

  // What is claimed of messages is kept abstract here, so that these lemmas are about the branches of Route only.

  type Claim = Msg -> bool

  /** All that an outcome files meets one claim; its reply meets it too, and a second one if it is left whole. */
  ghost predicate Meets(out: Outcome, sound: Claim, whole: Claim, full: bool) {
    && (forall c :: c in out.cached ==> sound(c.0))
    && (out.reply.Some? ==> sound(out.reply.value) && (full ==> whole(out.reply.value)))
  }

  ghost predicate AllMeet(s: Setting, name: string, qtype: uint16, wrap: Msg -> Msg, claim: Claim) {
    forall g, c: nat :: Ask(s, g, name, qtype, c).Some? ==> claim(wrap(Ask(s, g, name, qtype, c).value))
  }

  /** Whatever the fan-out files or returns is one of the answers, filtered as the policy says. */
  lemma EcsReplies(s: Setting, domain: string, qtype: uint16, options: Options, f: Fanout, call: nat,
                   sound: Claim, whole: Claim)
    requires AllMeet(s, domain, qtype, m => Filtered(m, options.disableHTTPS), sound)
    requires !options.disableHTTPS ==> AllMeet(s, domain, qtype, m => Filtered(m, options.disableHTTPS), whole)
    ensures Meets(EcsRoute(s, domain, qtype, options, f, call), sound, whole, !options.disableHTTPS)
  {
  }

  /** expected_ips hands on one of three replies. */
  lemma ValidatedReplies(s: Setting, domain: string, qtype: uint16, target: string, cached: seq<RR>, msg: Msg,
                         fits: bool, p: Policy, f: Fanout, call: nat, sound: Claim, whole: Claim, full: bool)
    requires sound(msg) && (full ==> whole(msg))
    requires AllMeet(s, target, qtype, m => Merge(domain, qtype, cached, m), sound)
    requires AllMeet(s, target, qtype, m => Merge(domain, qtype, cached, m), whole)
    requires Meets(EcsRoute(s, domain, qtype, DEFAULT_POLICY.options, f, call), sound, whole, true)
    ensures Meets(Validated(s, domain, qtype, target, cached, msg, fits, p, f, call), sound, whole, full)
  {
  }

  lemma OuterMeets(v: Outcome, p: Policy, outer: Writes, sound: Claim, whole: Claim, full: bool)
    requires Meets(v, sound, whole, full)
    ensures Meets(WithOuter(v, p, outer), sound, whole, full)
  {
  }

  /** Whatever Route files or returns below a full hit is a merged answer or comes from the fan-out. */
  lemma UpstreamReplies(s: Setting, domain: string, qtype: uint16, w: WalkResult, p: Policy, f: Fanout, outer: Writes,
                        call: nat, sound: Claim, whole: Claim)
    requires var target := Target(domain, w);
             && AllMeet(s, target, qtype, m => Merge(domain, qtype, w.answers, m), sound)
             && AllMeet(s, target, qtype, m => Merge(domain, qtype, w.answers, m), whole)
             && AllMeet(s, target, qtype, m => Filtered(Merge(domain, qtype, w.answers, m), p.options.disableHTTPS),
                        sound)
    requires Meets(EcsRoute(s, domain, qtype, DEFAULT_POLICY.options, f, call + 1), sound, whole, true)
    ensures Meets(UpstreamRoute(s, domain, qtype, w, p, f, outer, call), sound, whole, !p.options.disableHTTPS)
  {
    var target := Target(domain, w);
    var resp := Ask(s, p.group, target, qtype, call);
    if resp.Some? {
      var m := Filtered(Merge(domain, qtype, w.answers, resp.value), p.options.disableHTTPS);
      assert sound(m) && (!p.options.disableHTTPS ==> whole(m));
      var fits := Fits(s, m, p.options);
      ValidatedReplies(s, domain, qtype, target, w.answers, m, fits, p, f, call + 1, sound, whole,
                       !p.options.disableHTTPS);
      OuterMeets(Validated(s, domain, qtype, target, w.answers, m, fits, p, f, call + 1), p, outer, sound, whole,
                 !p.options.disableHTTPS);
    }
  }

  ghost function SoundIn(zone: Zone): Claim {
    (m: Msg) => AnswerSound(zone, m.answer)
  }

  ghost function WholeIn(zone: Zone, rank: Rank, name: string, qtype: uint16): Claim
    requires ZoneOk(zone, rank)
  {
    (m: Msg) => StripAll(m.answer) == ZoneAnswer(zone, rank, name, qtype)
  }

  lemma EcsRouteMeetsZone(zone: Zone, rank: Rank, s: Setting, domain: string, qtype: uint16, options: Options,
                          f: Fanout, call: nat)
    requires ZoneOk(zone, rank) && Honest(s, zone, rank)
    ensures Meets(EcsRoute(s, domain, qtype, options, f, call), SoundIn(zone), WholeIn(zone, rank, Fqdn(domain), qtype),
                  !options.disableHTTPS)
  {
    forall g, c: nat | Ask(s, g, domain, qtype, c).Some?
      ensures var m := Filtered(Ask(s, g, domain, qtype, c).value, options.disableHTTPS);
              SoundIn(zone)(m) && (!options.disableHTTPS ==> WholeIn(zone, rank, Fqdn(domain), qtype)(m))
    {
      var m := Ask(s, g, domain, qtype, c).value;
      ZoneAnswersAreSound(zone, rank, Fqdn(domain), qtype, m.answer);
      FilterKeepsSound(zone, m, options.disableHTTPS);
    }
    EcsReplies(s, domain, qtype, options, f, call, SoundIn(zone), WholeIn(zone, rank, Fqdn(domain), qtype));
  }

  lemma UpstreamRouteMeetsZone(zone: Zone, rank: Rank, s: Setting, domain: string, qtype: uint16, w: WalkResult,
                               p: Policy, f: Fanout, outer: Writes, call: nat)
    requires ZoneOk(zone, rank) && Honest(s, zone, rank)
    requires w.needUpstream && Completes(zone, rank, w, Fqdn(domain), qtype)
             && (w.answers == [] ==> w.target == Fqdn(domain))
    ensures Meets(UpstreamRoute(s, domain, qtype, w, p, f, outer, call), SoundIn(zone),
                  WholeIn(zone, rank, Fqdn(domain), qtype), !p.options.disableHTTPS)
  {
    var target := Target(domain, w);
    var sound, whole := SoundIn(zone), WholeIn(zone, rank, Fqdn(domain), qtype);
    forall g, c: nat | Ask(s, g, target, qtype, c).Some?
      ensures var m := Merge(domain, qtype, w.answers, Ask(s, g, target, qtype, c).value);
              sound(m) && whole(m) && sound(Filtered(m, p.options.disableHTTPS))
    {
      var resp := Ask(s, g, target, qtype, c).value;
      var m := Merge(domain, qtype, w.answers, resp);
      MergeIsFromZone(zone, rank, Fqdn(domain), qtype, w.answers, w.target, resp.answer);
      ZoneAnswersAreSound(zone, rank, Fqdn(domain), qtype, m.answer);
      FilterKeepsSound(zone, m, p.options.disableHTTPS);
    }
    EcsRouteMeetsZone(zone, rank, s, domain, qtype, DEFAULT_POLICY.options, f, call + 1);
    UpstreamReplies(s, domain, qtype, w, p, f, outer, call, sound, whole);
  }

  /**
   * One call over a sound store: all that is filed is sound, and unless the policy blocks the domain or
   * strips HTTPS records the reply is the zone's answer: on a full hit, a partial hit, a walk cut off at
   * its depth or a miss, through an ordinary group, through expected_ips and through the fan-out alike.
   */
  lemma RouteMeetsZone(zone: Zone, rank: Rank, s: Setting, store: Store, domain: string, qtype: uint16, sch: Schedule,
                       hi: int)
    requires ZoneOk(zone, rank) && Honest(s, zone, rank) && Sound(zone, store)
    requires Ordered(sch.ts, sch.now, hi)
    ensures var out := RouteSpec(s, store, domain, qtype, sch);
            && (forall c :: c in out.cached ==> AnswerSound(zone, c.0.answer))
            && (out.reply.Some? && (!CachedPart(store, domain, qtype, sch).needUpstream
                                    || (PolicyFor(s, domain).group != BLOCK
                                        && !PolicyFor(s, domain).options.disableHTTPS))
                ==> StripAll(out.reply.value.answer) == ZoneAnswer(zone, rank, Fqdn(domain), qtype))
  {
    var w, p := CachedPart(store, domain, qtype, sch), PolicyFor(s, domain);
    SoundStoreShows(zone, store);
    WalkMeetsZone(zone, rank, ViewOf(store), Fqdn(domain), qtype, DEFAULT_DEPTH, sch.now, sch.ts, sch.now, hi);
    FullHitHasAnswer(ViewOf(store), Fqdn(domain), qtype, DEFAULT_DEPTH, sch.now, sch.ts);
    if !w.needUpstream {
      assert StripAll(w.answers) + [] == StripAll(w.answers);
    } else if p.group == ECS_FALLBACK {
      EcsRouteMeetsZone(zone, rank, s, domain, qtype, p.options, sch.fanout, sch.firstCall);
    } else if p.group != BLOCK {
      UpstreamRouteMeetsZone(zone, rank, s, domain, qtype, w, p, sch.fanout, sch.outer, sch.firstCall);
    }
  }

  // ---- runs ----

  /** One call of a run: policies, learned categories, upstream latencies and schedules may all differ. */
  datatype Call = Call(setting: Setting, domain: string, qtype: uint16, schedule: Schedule, until: int)

  ghost predicate CallOk(c: Call, zone: Zone, rank: Rank) {
    && ZoneOk(zone, rank) && Honest(c.setting, zone, rank)
    && Ordered(c.schedule.ts, c.schedule.now, c.until)
  }

  /** The store after a run that starts with an empty cache. */
  function StoreAfter(calls: seq<Call>, maxTTL: Duration): Store {
    if calls == [] then map[]
    else
      var n := |calls| - 1;
      var store := StoreAfter(calls[..n], maxTTL);
      WriteAll(store, maxTTL, CallOutcome(calls[n], store).cached)
  }

  function CallOutcome(c: Call, store: Store): Outcome {
    RouteSpec(c.setting, store, c.domain, c.qtype, c.schedule)
  }

  lemma {:induction false} RunsKeepSound(zone: Zone, rank: Rank, calls: seq<Call>, maxTTL: Duration)
    requires forall c :: c in calls ==> CallOk(c, zone, rank)
    requires ZoneOk(zone, rank)
    ensures Sound(zone, StoreAfter(calls, maxTTL))
    decreases |calls|
  {
    if calls != [] {
      var n := |calls| - 1;
      var c, store := calls[n], StoreAfter(calls[..n], maxTTL);
      assert c in calls;
      RunsKeepSound(zone, rank, calls[..n], maxTTL);
      RouteMeetsZone(zone, rank, c.setting, store, c.domain, c.qtype, c.schedule, c.until);
      AllWritesKeepSound(zone, rank, store, maxTTL, CallOutcome(c, store).cached);
    }
  }

  /** The policies that hand on what the zone holds. */
  predicate Plain(c: Call) {
    PlainFor(c.setting, c.domain)
  }

  predicate PlainFor(s: Setting, domain: string) {
    PolicyFor(s, domain).group != BLOCK && !PolicyFor(s, domain).options.disableHTTPS
  }

  /**
   * After any run, whatever was asked in it under whatever policies, a call returns the records that the
   * same question brings over an empty cache, in the same order, TTLs apart.
   */
  lemma CacheIsTransparent(zone: Zone, rank: Rank, calls: seq<Call>, maxTTL: Duration, warm: Call, cold: Call)
    requires forall c :: c in calls ==> CallOk(c, zone, rank)
    requires CallOk(warm, zone, rank) && CallOk(cold, zone, rank) && Plain(warm) && Plain(cold)
    requires warm.domain == cold.domain && warm.qtype == cold.qtype
    ensures var w, c := CallOutcome(warm, StoreAfter(calls, maxTTL)).reply, CallOutcome(cold, map[]).reply;
            w.Some? && c.Some? ==>
              StripAll(w.value.answer) == StripAll(c.value.answer)
                == ZoneAnswer(zone, rank, Fqdn(warm.domain), warm.qtype)
  {
    var store := StoreAfter(calls, maxTTL);
    RunsKeepSound(zone, rank, calls, maxTTL);
    RouteMeetsZone(zone, rank, warm.setting, store, warm.domain, warm.qtype, warm.schedule, warm.until);
    RouteMeetsZone(zone, rank, cold.setting, map[], cold.domain, cold.qtype, cold.schedule, cold.until);
  }

  /** A full hit is transparent under every policy, blocking and stripping ones included. */
  lemma FullHitIgnoresPolicy(zone: Zone, rank: Rank, calls: seq<Call>, maxTTL: Duration, warm: Call)
    requires forall c :: c in calls ==> CallOk(c, zone, rank)
    requires CallOk(warm, zone, rank)
    requires !CachedPart(StoreAfter(calls, maxTTL), warm.domain, warm.qtype, warm.schedule).needUpstream
    ensures var r := CallOutcome(warm, StoreAfter(calls, maxTTL)).reply;
            r.Some? && StripAll(r.value.answer) == ZoneAnswer(zone, rank, Fqdn(warm.domain), warm.qtype)
  {
    RunsKeepSound(zone, rank, calls, maxTTL);
    RouteMeetsZone(zone, rank, warm.setting, StoreAfter(calls, maxTTL), warm.domain, warm.qtype, warm.schedule,
                   warm.until);
  }

  /**
   * A domain under a blocking policy gets its block reply exactly when the cache cannot answer in full, or
   * holds, for the domain, just the records the block reply would carry. That reply is NXDOMAIN unless the
   * block type is noerror or 0.0.0.0; the latter adds an unspecified address for A and AAAA queries.
   */
  lemma BlockedExactlyBelowFullHit(s: Setting, store: Store, domain: string, qtype: uint16, sch: Schedule)
    requires PolicyFor(s, domain).group == "block"
    ensures var w, blockType := CachedPart(store, domain, qtype, sch), PolicyFor(s, domain).options.blockType;
            var answer := if blockType == "0.0.0.0" && qtype == 1 then [RR(Fqdn(domain), 1, 1, 60, V4("0.0.0.0"))]
                          else if blockType == "0.0.0.0" && qtype == 28 then [RR(Fqdn(domain), 28, 1, 60, V6("::"))]
                          else [];
            var rcode := if blockType == "noerror" || blockType == "0.0.0.0" then 0 else 3;
            RouteSpec(s, store, domain, qtype, sch).reply
              == Some(Msg(Fqdn(domain), qtype, rcode, false, false, answer, [], [], false, false))
            <==> w.needUpstream || (rcode == 0 && w.answers == answer)
  {
    FullHitHasAnswer(ViewOf(store), Fqdn(domain), qtype, DEFAULT_DEPTH, sch.now, sch.ts);
    assert "noerror" != "0.0.0.0" by { assert |"0.0.0.0"| == 7 && "noerror"[0] != "0.0.0.0"[0]; }
  }

  /** A full hit is a success with just the records of the walk. It asks, files and learns nothing. */
  lemma FullHitFilesNothing(s: Setting, store: Store, maxTTL: Duration, domain: string, qtype: uint16, sch: Schedule)
    requires !CachedPart(store, domain, qtype, sch).needUpstream
    ensures var out, w := RouteSpec(s, store, domain, qtype, sch), CachedPart(store, domain, qtype, sch);
            && out.reply == Some(Msg(Fqdn(domain), qtype, 0, false, false, w.answers, [], [], false, false))
            && out.asked == [] && out.learned == None && WriteAll(store, maxTTL, out.cached) == store
  {
  }

  // ---- the shape of walks over sound stores ----

  lemma ShownAlias(zone: Zone, rank: Rank, n: string, cnames: seq<Item>)
    requires ZoneOk(zone, rank) && (cnames == [] || StripAll(RRsOf(cnames)) == zone(n, TYPE_CNAME))
    ensures |cnames| <= 1 && forall x :: x in cnames ==> x.rr.data.Alias? && x.rr.name == n
  {
    if cnames != [] {
      var x := AliasAt(zone, rank, n);
      assert StripAll(RRsOf(cnames))[0] == cnames[0].rr.(ttl := 0);
    }
  }

  /** A sound store shows one alias per owner at most, so walks over it are connected. */
  lemma SoundStoreHasOneAliasPerOwner(zone: Zone, rank: Rank, store: Store)
    requires ZoneOk(zone, rank) && Sound(zone, store)
    ensures OneAliasPerOwner(ViewOf(store))
  {
    SoundStoreShows(zone, store);
    forall n: string, t: int
      ensures var cnames := ViewOf(store)(CacheKey(n, TYPE_CNAME), t);
              |cnames| <= 1 && forall x :: x in cnames ==> x.rr.data.Alias? && x.rr.name == Fqdn(n)
    {
      ShownAlias(zone, rank, Fqdn(n), ViewOf(store)(CacheKey(Fqdn(n), TYPE_CNAME), t));
      assert CacheKey(Fqdn(n), TYPE_CNAME) == CacheKey(n, TYPE_CNAME);
    }
  }

  /** After every run the cached part of a reply is one connected chain that begins at the queried name. */
  lemma RunsWalkConnected(zone: Zone, rank: Rank, calls: seq<Call>, maxTTL: Duration, c: Call)
    returns (m: nat, end: string)
    requires ZoneOk(zone, rank) && forall d :: d in calls ==> CallOk(d, zone, rank)
    ensures var view := ViewOf(StoreAfter(calls, maxTTL));
            StoppedAt(view, CachedPart(StoreAfter(calls, maxTTL), c.domain, c.qtype, c.schedule), Fqdn(c.domain),
                      c.qtype, DEFAULT_DEPTH, c.schedule.now, c.schedule.ts, m, end)
  {
    RunsKeepSound(zone, rank, calls, maxTTL);
    SoundStoreHasOneAliasPerOwner(zone, rank, StoreAfter(calls, maxTTL));
    m, end := WalkIsConnected(ViewOf(StoreAfter(calls, maxTTL)), Fqdn(c.domain), c.qtype, DEFAULT_DEPTH, c.schedule.now,
                              c.schedule.ts);
  }
}
