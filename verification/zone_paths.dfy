/** Paths of aliases through a zone, as a walk collects them, and what can be put after them. */
module ZonePaths {
  import opened Dns
  import opened RouterModel
  import opened Transparency
  import opened ChainWalk
  import opened PolicyOptions

  /** These aliases lead through the zone from start to end, whatever their TTLs. */
  ghost predicate PathTo(zone: Zone, start: string, answers: seq<RR>, end: string)
    decreases |answers|
  {
    if answers == [] then start == end
    else
      var n := |answers| - 1;
      var x := answers[n];
      && PathTo(zone, start, answers[..n], x.name)
      && zone(x.name, TYPE_CNAME) == [x.(ttl := 0)] && x.data.Alias? && x.data.target == end
  }

  lemma PathExtends(zone: Zone, start: string, answers: seq<RR>, end: string, x: RR)
    requires PathTo(zone, start, answers, end) && x.name == end
    requires zone(end, TYPE_CNAME) == [x.(ttl := 0)] && x.data.Alias?
    ensures PathTo(zone, start, answers + [x], x.data.target)
  {
    assert (answers + [x])[..|answers|] == answers;
  }

  lemma NothingBefore(nothing: seq<RR>, s: seq<RR>)
    requires nothing == []
    ensures nothing + s == s
  {
  }

  lemma StripLast(s: seq<RR>)
    requires s != []
    ensures StripAll(s) == StripAll(s[..|s| - 1]) + [s[|s| - 1].(ttl := 0)]
  {
  }

  lemma OneAliasOn(zone: Zone, rank: Rank, x: RR, qtype: uint16)
    requires ZoneOk(zone, rank) && qtype != TYPE_CNAME && zone(x.name, TYPE_CNAME) == [x.(ttl := 0)]
    ensures x.data.Alias?
    ensures ZoneAnswer(zone, rank, x.name, qtype)
         == [x.(ttl := 0)] + ZoneAnswer(zone, rank, x.data.target, qtype)
  {
    var alias := AliasAt(zone, rank, x.name);
  }

  /** For every type but CNAME a path followed by the zone's answer for its end is the answer for its start. */
  lemma {:induction false} PathCompletes(zone: Zone, rank: Rank, start: string, answers: seq<RR>, end: string,
                                         qtype: uint16)
    requires ZoneOk(zone, rank) && qtype != TYPE_CNAME && PathTo(zone, start, answers, end)
    ensures StripAll(answers) + ZoneAnswer(zone, rank, end, qtype) == ZoneAnswer(zone, rank, start, qtype)
    decreases |answers|
  {
    if answers == [] {
      NothingBefore(StripAll(answers), ZoneAnswer(zone, rank, end, qtype));
    } else {
      var n := |answers| - 1;
      PathCompletes(zone, rank, start, answers[..n], answers[n].name, qtype);
      OneAliasOn(zone, rank, answers[n], qtype);
      StripLast(answers);
      ConcatAssoc(StripAll(answers[..n]), [answers[n].(ttl := 0)], ZoneAnswer(zone, rank, end, qtype));
    }
  }

  lemma InitAndLast(s: seq<RR>)
    requires s != []
    ensures s == s[..|s| - 1] + [s[|s| - 1]]
  {
  }

  // ---- sound answers whose owners lie at or below a name ----

  ghost predicate SoundBelow(zone: Zone, rank: Rank, answer: seq<RR>, name: string) {
    AnswerSound(zone, answer) && forall x :: x in answer ==> rank(x.name) <= rank(name)
  }

  lemma ZoneAnswersLieBelow(zone: Zone, rank: Rank, name: string, qtype: uint16, answer: seq<RR>)
    requires ZoneOk(zone, rank) && FromZone(zone, rank, name, qtype, answer)
    ensures SoundBelow(zone, rank, answer, name)
  {
    ZoneAnswersAreSound(zone, rank, name, qtype, answer);
    OwnersDoNotClimb(zone, rank, name, qtype);
    forall x | x in answer
      ensures rank(x.name) <= rank(name)
    {
      var i :| 0 <= i < |answer| && answer[i] == x;
      assert StripAll(answer)[i] in ZoneAnswer(zone, rank, name, qtype);
    }
  }

  lemma NotAnOwner(rest: seq<RR>, g: GroupKey)
    requires forall y :: y in rest ==> y.name != g.name
    ensures GroupOf(StripAll(rest), g) == []
  {
    forall y | y in StripAll(rest)
      ensures KeyOf(y) != g
    {
      var i :| 0 <= i < |rest| && StripAll(rest)[i] == y;
      assert rest[i] in rest;
    }
    NoGroup(StripAll(rest), g);
  }

  /** An alias may be put before a sound answer whose owners all lie below it. */
  lemma AliasBefore(zone: Zone, rank: Rank, x: RR, rest: seq<RR>)
    requires ZoneOk(zone, rank) && zone(x.name, TYPE_CNAME) == [x.(ttl := 0)] && x.data.Alias?
    requires SoundBelow(zone, rank, rest, x.data.target)
    ensures SoundBelow(zone, rank, [x] + rest, x.name)
  {
    var alias := AliasAt(zone, rank, x.name);
    var all := [x] + rest;
    StripConcat([x], rest);
    assert StripAll([x]) == [alias];
    forall g
      ensures var r := GroupOf(StripAll(all), g); r == [] || r == zone(g.name, g.rtype)
    {
      GroupOfConcat([alias], StripAll(rest), g);
      GroupOfUniform([alias], g, KeyOf(alias));
      if g == KeyOf(alias) {
        NotAnOwner(rest, g);
      }
    }
    UniformBefore(x, rest);
  }

  lemma UniformBefore(x: RR, rest: seq<RR>)
    requires UniformTTL(rest) && forall y :: y in rest ==> y.name != x.name
    ensures UniformTTL([x] + rest)
  {
    var all := [x] + rest;
    forall i, j | 0 <= i < |all| && 0 <= j < |all| && KeyOf(all[i]) == KeyOf(all[j])
      ensures all[i].ttl == all[j].ttl
    {
      assert i > 0 ==> all[i] == rest[i - 1] && rest[i - 1] in rest;
      assert j > 0 ==> all[j] == rest[j - 1] && rest[j - 1] in rest;
    }
  }

  /** For every type, CNAME too, a path followed by a sound answer below its end is sound. */
  lemma {:induction false} PathBefore(zone: Zone, rank: Rank, start: string, answers: seq<RR>, end: string,
                                      rest: seq<RR>)
    requires ZoneOk(zone, rank) && PathTo(zone, start, answers, end) && SoundBelow(zone, rank, rest, end)
    ensures SoundBelow(zone, rank, answers + rest, start)
    decreases |answers|
  {
    if answers == [] {
      assert answers + rest == rest;
    } else {
      var n := |answers| - 1;
      AliasBefore(zone, rank, answers[n], rest);
      PathBefore(zone, rank, start, answers[..n], answers[n].name, [answers[n]] + rest);
      InitAndLast(answers);
      ConcatAssoc(answers[..n], [answers[n]], rest);
    }
  }

  // ---- paths collected for a query for CNAME records ----

  /** The walk has followed the very alias that was asked for, to a name that has an alias too. */
  ghost predicate Astray(zone: Zone, found: seq<RR>) {
    found != [] && found[0].data.Alias? && zone(found[0].data.target, TYPE_CNAME) != []
  }

  /** How a path begins, and that it goes on at the first target. */
  lemma {:induction false} PathBegins(zone: Zone, start: string, answers: seq<RR>, end: string)
    requires PathTo(zone, start, answers, end) && answers != []
    ensures zone(start, TYPE_CNAME) == [answers[0].(ttl := 0)] && answers[0].data.Alias?
    ensures if |answers| == 1 then end == answers[0].data.target
            else zone(answers[0].data.target, TYPE_CNAME) == [answers[1].(ttl := 0)]
    decreases |answers|
  {
    if |answers| == 1 {
      assert answers[..0] == [];
    } else {
      PathBegins(zone, start, answers[..|answers| - 1], answers[|answers| - 1].name);
    }
  }

  lemma {:induction false} PathHasAliases(zone: Zone, rank: Rank, start: string, answers: seq<RR>, end: string)
    requires ZoneOk(zone, rank) && PathTo(zone, start, answers, end)
    ensures forall x :: x in answers ==> x.rtype == TYPE_CNAME
    decreases |answers|
  {
    if answers != [] {
      var n := |answers| - 1;
      PathHasAliases(zone, rank, start, answers[..n], answers[n].name);
      var alias := AliasAt(zone, rank, answers[n].name);
      InitAndLast(answers);
    }
  }

  /**
   * The path with the zone's answer for its end is the answer for its start, for every type, exactly unless
   * it has led a query for CNAME records astray.
   */
  lemma PathCompletesUnlessAstray(zone: Zone, rank: Rank, start: string, answers: seq<RR>, end: string, qtype: uint16)
    requires ZoneOk(zone, rank) && PathTo(zone, start, answers, end)
    ensures StripAll(answers) + ZoneAnswer(zone, rank, end, qtype) == ZoneAnswer(zone, rank, start, qtype)
       <==> !(qtype == TYPE_CNAME && Astray(zone, answers))
  {
    if qtype != TYPE_CNAME {
      PathCompletes(zone, rank, start, answers, end, qtype);
    } else if answers == [] {
      NothingBefore(StripAll(answers), ZoneAnswer(zone, rank, end, qtype));
    } else {
      PathBegins(zone, start, answers, end);
      AppendNothing(StripAll(answers));
    }
  }

  // ---- what Route makes of a path ----

  /** The whole-answer claim, for every type but CNAME. */
  ghost function WholeUnlessAlias(zone: Zone, rank: Rank, name: string, qtype: uint16): Claim
    requires ZoneOk(zone, rank)
  {
    (m: Msg) => qtype == TYPE_CNAME || StripAll(m.answer) == ZoneAnswer(zone, rank, name, qtype)
  }

  lemma MeetsLess(out: Outcome, sound: Claim, whole: Claim, less: Claim, full: bool)
    requires Meets(out, sound, whole, full) && forall m :: whole(m) ==> less(m)
    ensures Meets(out, sound, less, full)
  {
  }

  lemma MergedPathIsSound(zone: Zone, rank: Rank, domain: string, qtype: uint16, answers: seq<RR>, end: string,
                          resp: Msg)
    requires ZoneOk(zone, rank) && PathTo(zone, Fqdn(domain), answers, end)
    requires FromZone(zone, rank, end, qtype, resp.answer)
    ensures var m := Merge(domain, qtype, answers, resp);
            SoundIn(zone)(m) && WholeUnlessAlias(zone, rank, Fqdn(domain), qtype)(m)
  {
    ZoneAnswersLieBelow(zone, rank, end, qtype, resp.answer);
    PathBefore(zone, rank, Fqdn(domain), answers, end, resp.answer);
    StripConcat(answers, resp.answer);
    if qtype != TYPE_CNAME {
      PathCompletes(zone, rank, Fqdn(domain), answers, end, qtype);
    }
  }

  /** Whatever is filed below a full hit is sound, also for a CNAME query that has been led astray. */
  lemma MissAfterPath(zone: Zone, rank: Rank, s: Setting, domain: string, qtype: uint16, answers: seq<RR>, end: string,
                      f: Fanout, outer: Writes, call: nat)
    requires ZoneOk(zone, rank) && Honest(s, zone, rank) && PathTo(zone, Fqdn(domain), answers, end) && IsFqdn(end)
    ensures var p := PolicyFor(s, domain);
            var out := MissSpec(s, domain, qtype, WalkResult(answers, true, end), f, outer, call);
            && (forall c :: c in out.cached ==> AnswerSound(zone, c.0.answer))
            && (out.reply.Some? && qtype != TYPE_CNAME && p.group != BLOCK && !p.options.disableHTTPS ==>
                  StripAll(out.reply.value.answer) == ZoneAnswer(zone, rank, Fqdn(domain), qtype))
  {
    var p := PolicyFor(s, domain);
    if p.group == ECS_FALLBACK {
      EcsRouteMeetsZone(zone, rank, s, domain, qtype, p.options, f, call);
    } else if p.group != BLOCK {
      UpstreamAfterPath(zone, rank, s, domain, qtype, answers, end, p, f, outer, call);
    }
  }

  lemma UpstreamAfterPath(zone: Zone, rank: Rank, s: Setting, domain: string, qtype: uint16, answers: seq<RR>,
                          end: string, p: Policy, f: Fanout, outer: Writes, call: nat)
    requires ZoneOk(zone, rank) && Honest(s, zone, rank) && PathTo(zone, Fqdn(domain), answers, end) && IsFqdn(end)
    ensures Meets(UpstreamRoute(s, domain, qtype, WalkResult(answers, true, end), p, f, outer, call), SoundIn(zone),
                  WholeUnlessAlias(zone, rank, Fqdn(domain), qtype), !p.options.disableHTTPS)
  {
    var w := WalkResult(answers, true, end);
    var target := Target(domain, w);
    var sound, whole := SoundIn(zone), WholeUnlessAlias(zone, rank, Fqdn(domain), qtype);
    forall g, c: nat | Ask(s, g, target, qtype, c).Some?
      ensures var m := Merge(domain, qtype, answers, Ask(s, g, target, qtype, c).value);
              sound(m) && whole(m) && sound(Filtered(m, p.options.disableHTTPS))
    {
      var m := Merge(domain, qtype, answers, Ask(s, g, target, qtype, c).value);
      MergedPathIsSound(zone, rank, domain, qtype, answers, end, Ask(s, g, target, qtype, c).value);
      FilterKeepsSound(zone, m, p.options.disableHTTPS);
    }
    EcsRouteMeetsZone(zone, rank, s, domain, qtype, DEFAULT_POLICY.options, f, call + 1);
    MeetsLess(EcsRoute(s, domain, qtype, DEFAULT_POLICY.options, f, call + 1), sound,
              WholeIn(zone, rank, Fqdn(domain), qtype), whole, true);
    UpstreamReplies(s, domain, qtype, w, p, f, outer, call, sound, whole);
  }

  // ---- what the client is told ----

  /** The records a reply should have: without HTTPS records if the policy strips, unless it is a replacement. */
  ghost function Expected(zone: Zone, rank: Rank, s: Setting, domain: string, qtype: uint16, fullHit: bool,
                          replaced: bool): seq<RR>
    requires ZoneOk(zone, rank)
  {
    var whole := ZoneAnswer(zone, rank, Fqdn(domain), qtype);
    if !fullHit && !replaced && PolicyFor(s, domain).options.disableHTTPS then WithoutHTTPS(whole) else whole
  }

  /** Below a full hit the fan-out asks for the domain itself, whatever the walk has found. */
  predicate FromFanout(s: Setting, domain: string, replaced: bool) {
    var p := PolicyFor(s, domain);
    p.group == ECS_FALLBACK || (replaced && p.options.fallbackGroup == "")
  }

  /** The reply is as expected exactly unless the walk was led astray and the reply begins with what it found. */
  ghost predicate AsExpected(zone: Zone, rank: Rank, s: Setting, domain: string, qtype: uint16, found: seq<RR>,
                             fullHit: bool, replaced: bool, m: Msg)
    requires ZoneOk(zone, rank)
  {
    StripAll(m.answer) == Expected(zone, rank, s, domain, qtype, fullHit, replaced)
    <==> !(qtype == TYPE_CNAME && Astray(zone, found) && (fullHit || !FromFanout(s, domain, replaced)))
  }

  lemma {:induction false} NothingToStrip(rrs: seq<RR>)
    requires forall x :: x in rrs ==> !IsHTTPS(x)
    ensures WithoutHTTPS(rrs) == rrs
    decreases |rrs|
  {
    if rrs != [] {
      NothingToStrip(rrs[..|rrs| - 1]);
      InitAndLast(rrs);
      assert rrs[|rrs| - 1] in rrs;
    }
  }

  lemma AliasesAreNotStripped(zone: Zone, rank: Rank, start: string, answers: seq<RR>, end: string)
    requires ZoneOk(zone, rank) && PathTo(zone, start, answers, end)
    ensures var all := StripAll(answers) + ZoneAnswer(zone, rank, end, TYPE_CNAME); WithoutHTTPS(all) == all
    ensures var all := ZoneAnswer(zone, rank, start, TYPE_CNAME); WithoutHTTPS(all) == all
  {
    PathHasAliases(zone, rank, start, answers, end);
    AliasesStripped(answers);
    OnlyAliases(zone, rank, start);
    OnlyAliases(zone, rank, end);
    NothingToStrip(ZoneAnswer(zone, rank, start, TYPE_CNAME));
    NothingToStrip(StripAll(answers) + ZoneAnswer(zone, rank, end, TYPE_CNAME));
  }

  lemma AliasesStripped(answers: seq<RR>)
    requires forall x :: x in answers ==> x.rtype == TYPE_CNAME
    ensures forall x :: x in StripAll(answers) ==> !IsHTTPS(x)
  {
    forall x | x in StripAll(answers)
      ensures !IsHTTPS(x)
    {
      var i :| 0 <= i < |answers| && StripAll(answers)[i] == x;
      assert answers[i] in answers;
    }
  }

  lemma OnlyAliases(zone: Zone, rank: Rank, n: string)
    requires ZoneOk(zone, rank)
    ensures forall x :: x in ZoneAnswer(zone, rank, n, TYPE_CNAME) ==> !IsHTTPS(x)
  {
  }

  /** What is merged after the path, filtered or not. */
  lemma MergedAsExpected(zone: Zone, rank: Rank, domain: string, qtype: uint16, answers: seq<RR>, end: string,
                         resp: Msg, strip: bool)
    requires ZoneOk(zone, rank) && PathTo(zone, Fqdn(domain), answers, end)
    requires FromZone(zone, rank, end, qtype, resp.answer)
    ensures var whole := ZoneAnswer(zone, rank, Fqdn(domain), qtype);
            StripAll(Filtered(Merge(domain, qtype, answers, resp), strip).answer)
              == (if strip then WithoutHTTPS(whole) else whole)
            <==> !(qtype == TYPE_CNAME && Astray(zone, answers))
  {
    PathCompletesUnlessAstray(zone, rank, Fqdn(domain), answers, end, qtype);
    StripConcat(answers, resp.answer);
    if strip {
      StripThenFilter(answers + resp.answer);
      if qtype == TYPE_CNAME {
        AliasesAreNotStripped(zone, rank, Fqdn(domain), answers, end);
      }
    }
  }

  lemma FanoutAsExpected(zone: Zone, rank: Rank, s: Setting, domain: string, qtype: uint16, options: Options, f: Fanout,
                         call: nat)
    requires ZoneOk(zone, rank) && Honest(s, zone, rank)
    ensures var whole := ZoneAnswer(zone, rank, Fqdn(domain), qtype);
            var r := EcsRoute(s, domain, qtype, options, f, call).reply;
            r.Some? ==> StripAll(r.value.answer) == if options.disableHTTPS then WithoutHTTPS(whole) else whole
  {
    if options.disableHTTPS {
      FanoutIsStripped(zone, rank, s, domain, qtype, options, f, call);
    } else {
      EcsRouteMeetsZone(zone, rank, s, domain, qtype, options, f, call);
    }
  }

  /** Whoever is asked where the walk stands answers for the end of the path. */
  lemma AskedAtEnd(zone: Zone, rank: Rank, s: Setting, group: string, domain: string, qtype: uint16, answers: seq<RR>,
                   end: string, call: nat)
    requires ZoneOk(zone, rank) && Honest(s, zone, rank) && PathTo(zone, Fqdn(domain), answers, end) && IsFqdn(end)
    ensures var r := Ask(s, group, Target(domain, WalkResult(answers, true, end)), qtype, call);
            r.Some? ==> FromZone(zone, rank, end, qtype, r.value.answer)
  {
  }

  /** Through an ordinary group, with a replacement or without. */
  lemma UpstreamAsExpected(zone: Zone, rank: Rank, s: Setting, domain: string, qtype: uint16, answers: seq<RR>,
                           end: string, p: Policy, f: Fanout, outer: Writes, call: nat)
    requires ZoneOk(zone, rank) && Honest(s, zone, rank) && PathTo(zone, Fqdn(domain), answers, end) && IsFqdn(end)
    requires p == PolicyFor(s, domain) && Ordinary(p)
    ensures var w := WalkResult(answers, true, end);
            var r := UpstreamRoute(s, domain, qtype, w, p, f, outer, call).reply;
            r.Some? ==> AsExpected(zone, rank, s, domain, qtype, answers, false,
                                   Replaced(s, domain, qtype, w, p, call), r.value)
  {
    var w := WalkResult(answers, true, end);
    var resp := Ask(s, p.group, Target(domain, w), qtype, call);
    if resp.Some? {
      AskedAtEnd(zone, rank, s, p.group, domain, qtype, answers, end, call);
      HandedOnAsExpected(zone, rank, s, domain, qtype, answers, end, p, resp.value);
      if Replaced(s, domain, qtype, w, p, call) {
        var m := Merged(s, domain, qtype, w, p, call).value;
        ReplacementAsExpected(zone, rank, s, domain, qtype, answers, end, m, p, f, call + 1);
      }
    }
  }

  lemma HandedOnAsExpected(zone: Zone, rank: Rank, s: Setting, domain: string, qtype: uint16, answers: seq<RR>,
                           end: string, p: Policy, resp: Msg)
    requires ZoneOk(zone, rank) && PathTo(zone, Fqdn(domain), answers, end)
    requires FromZone(zone, rank, end, qtype, resp.answer) && p == PolicyFor(s, domain) && Ordinary(p)
    ensures AsExpected(zone, rank, s, domain, qtype, answers, false, false,
                       Filtered(Merge(domain, qtype, answers, resp), p.options.disableHTTPS))
  {
    MergedAsExpected(zone, rank, domain, qtype, answers, end, resp, p.options.disableHTTPS);
  }

  lemma ReplacementAsExpected(zone: Zone, rank: Rank, s: Setting, domain: string, qtype: uint16, answers: seq<RR>,
                              end: string, m: Msg, p: Policy, f: Fanout, call: nat)
    requires ZoneOk(zone, rank) && Honest(s, zone, rank) && PathTo(zone, Fqdn(domain), answers, end) && IsFqdn(end)
    requires p == PolicyFor(s, domain) && Ordinary(p)
    ensures var target := Target(domain, WalkResult(answers, true, end));
            var r := Validated(s, domain, qtype, target, answers, m, false, p, f, call).reply;
            r.Some? ==> AsExpected(zone, rank, s, domain, qtype, answers, false, true, r.value)
  {
    if p.options.fallbackGroup == "" {
      FanoutAsExpected(zone, rank, s, domain, qtype, DEFAULT_POLICY.options, f, call);
    } else {
      var resp := Ask(s, p.options.fallbackGroup, Target(domain, WalkResult(answers, true, end)), qtype, call);
      AskedAtEnd(zone, rank, s, p.options.fallbackGroup, domain, qtype, answers, end, call);
      if resp.Some? {
        MergedAsExpected(zone, rank, domain, qtype, answers, end, resp.value, false);
      }
    }
  }

  /**
   * Below a full hit, after any path: a policy that blocks gives the block reply, and under any other one the
   * reply is as expected.
   */
  lemma ReplyAfterPath(zone: Zone, rank: Rank, s: Setting, domain: string, qtype: uint16, answers: seq<RR>,
                       end: string, f: Fanout, outer: Writes, call: nat)
    requires ZoneOk(zone, rank) && Honest(s, zone, rank) && PathTo(zone, Fqdn(domain), answers, end) && IsFqdn(end)
    ensures var w, p := WalkResult(answers, true, end), PolicyFor(s, domain);
            var r := MissSpec(s, domain, qtype, w, f, outer, call).reply;
            r.Some? ==> if p.group == BLOCK then r.value == BlockReply(domain, qtype, p.options.blockType)
                        else AsExpected(zone, rank, s, domain, qtype, answers, false,
                                        Replaced(s, domain, qtype, w, p, call), r.value)
  {
    var p := PolicyFor(s, domain);
    if p.group == ECS_FALLBACK {
      FanoutAsExpected(zone, rank, s, domain, qtype, p.options, f, call);
    } else if p.group != BLOCK {
      UpstreamAsExpected(zone, rank, s, domain, qtype, answers, end, p, f, outer, call);
    }
  }
}
