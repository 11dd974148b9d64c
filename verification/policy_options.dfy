/** How far the options of a policy reach: up to the point where a reply that does not fit is replaced. */
module PolicyOptions {
  import opened Dns
  import opened ChainWalk
  import opened RouterModel
  import EcsFallback
  import Matching
  import opened CacheModel
  import opened Transparency

  /** The first policy of a name decides, the default one if there is none. */
  lemma {:induction false} FirstPolicyWins(policies: seq<Policy>, name: string) returns (i: nat)
    ensures i <= |policies| && forall j :: 0 <= j < i ==> policies[j].name != name
    ensures if i < |policies| then policies[i].name == name && FindPolicy(policies, name) == policies[i]
            else FindPolicy(policies, name)
                   == Policy("unknown", "proxy_ecs_fallback", Options(false, false, [], "", ""))
    decreases |policies|
  {
    if policies == [] || policies[0].name == name {
      i := 0;
    } else {
      i := FirstPolicyWins(policies[1..], name);
      i := i + 1;
    }
  }

  /**
   * Below a full hit a domain for whose category there is no policy, or none for "unknown" if it has no
   * category, is sent through the fan-out, without options.
   */
  lemma NoPolicyMeansFanout(s: Setting, domain: string, qtype: uint16, w: WalkResult, f: Fanout, outer: Writes,
                            call: nat)
    requires forall i :: 0 <= i < |s.policies| ==>
                           s.policies[i].name != Matching.MatchSpec(s.categories, domain).Get("unknown")
    ensures MissSpec(s, domain, qtype, w, f, outer, call)
         == EcsRoute(s, domain, qtype, Options(false, false, [], "", ""), f, call)
  {
    var i := FirstPolicyWins(s.policies, Matching.MatchSpec(s.categories, domain).Get("unknown"));
    assert |BLOCK| == 5 && |ECS_FALLBACK| == 18;
  }

  /** A group that does not exist is an error: there is no reply, and nothing is filed or learned. */
  lemma UnknownGroupFails(s: Setting, domain: string, qtype: uint16, w: WalkResult, f: Fanout, outer: Writes,
                          call: nat)
    requires var g := PolicyFor(s, domain).group; g != "block" && g != "proxy_ecs_fallback" && g !in s.groups
    ensures var out := MissSpec(s, domain, qtype, w, f, outer, call);
            out.reply == None && out.cached == [] && out.learned == None && out.asked == [PolicyFor(s, domain).group]
  {
  }

  ghost predicate HasHTTPS(rrs: seq<RR>) {
    exists x :: x in rrs && IsHTTPS(x)
  }

  predicate Ordinary(p: Policy) {
    p.group != BLOCK && p.group != ECS_FALLBACK
  }

  /** The group's reply came and does not fit expected_ips. */
  predicate Replaced(s: Setting, domain: string, qtype: uint16, w: WalkResult, p: Policy, call: nat) {
    var m := Merged(s, domain, qtype, w, p, call);
    Ordinary(p) && m.Some? && !Fits(s, m.value, p.options)
  }

  /**
   * The reply of an ordinary group is replaced exactly if the policy names expected_ips and some A or AAAA
   * record of the reply, cached part included, has an address that matches none of them.
   */
  lemma ReplacedIff(s: Setting, domain: string, qtype: uint16, w: WalkResult, p: Policy, call: nat, m: Msg)
    requires p.group != "block" && p.group != "proxy_ecs_fallback" && Merged(s, domain, qtype, w, p, call) == Some(m)
    ensures Replaced(s, domain, qtype, w, p, call)
       <==> p.options.expectedIPs != []
            && exists x :: x in m.answer && (x.data.V4? || x.data.V6?)
                           && forall r :: r in p.options.expectedIPs ==> !s.geo(x.data.addr, r)
  {
    ExpectedIff(m.answer, p.options.expectedIPs, s.geo);
  }

  /** Who gives the reply below a full hit: the policy's group, its fallback group or the fan-out. */
  ghost function SourceOf(s: Setting, domain: string, qtype: uint16, w: WalkResult, p: Policy, f: Fanout,
                          call: nat): Option<Msg>
  {
    if p.group == "proxy_ecs_fallback" then EcsChoice(s, domain, qtype, f.gotEcs, f.gotProxy, call).msg
    else if !Replaced(s, domain, qtype, w, p, call) then Ask(s, p.group, Target(domain, w), qtype, call)
    else if p.options.fallbackGroup != "" then Ask(s, p.options.fallbackGroup, Target(domain, w), qtype, call + 1)
    else EcsChoice(s, domain, qtype, f.gotEcs, f.gotProxy, call + 1).msg
  }

  /**
   * The reply is that of its source: response code and flags as they came, and in the answer section the cached
   * aliases, unless the fan-out has asked for the domain itself, and then its records, in order.
   */
  lemma ReplyIsItsSources(s: Setting, domain: string, qtype: uint16, w: WalkResult, f: Fanout, outer: Writes,
                          call: nat)
    requires PolicyFor(s, domain).group != "block" && MissSpec(s, domain, qtype, w, f, outer, call).reply.Some?
    ensures var p, m := PolicyFor(s, domain), MissSpec(s, domain, qtype, w, f, outer, call).reply.value;
            var source, replaced := SourceOf(s, domain, qtype, w, p, f, call), Replaced(s, domain, qtype, w, p, call);
            var fromFanout := p.group == "proxy_ecs_fallback" || (replaced && p.options.fallbackGroup == "");
            && source.Some? && m.rcode == source.value.rcode && m.authData == source.value.authData
            && m.recurAvail == source.value.recurAvail
            && var all := (if fromFanout then [] else w.answers) + source.value.answer;
               m.answer == if p.options.disableHTTPS && !replaced then WithoutHTTPS(all) else all
  {
    var p := PolicyFor(s, domain);
    if p.group == "proxy_ecs_fallback" {
      FanoutIsItsSource(s, domain, qtype, p.options, f, call);
    } else {
      if Replaced(s, domain, qtype, w, p, call) && p.options.fallbackGroup == "" {
        FanoutIsItsSource(s, domain, qtype, DEFAULT_POLICY.options, f, call + 1);
      }
      GroupIsItsSource(s, domain, qtype, w, p, f, outer, call);
    }
  }

  lemma FanoutIsItsSource(s: Setting, domain: string, qtype: uint16, options: Options, f: Fanout, call: nat)
    ensures var reply, source := EcsRoute(s, domain, qtype, options, f, call).reply,
                                 EcsChoice(s, domain, qtype, f.gotEcs, f.gotProxy, call).msg;
            reply == match source case Some(m) => Some(Filtered(m, options.disableHTTPS)) case None => None
    ensures var source := EcsChoice(s, domain, qtype, f.gotEcs, f.gotProxy, call).msg;
            source.Some? ==> [] + source.value.answer == source.value.answer
  {
  }

  lemma GroupIsItsSource(s: Setting, domain: string, qtype: uint16, w: WalkResult, p: Policy, f: Fanout,
                         outer: Writes, call: nat)
    requires Ordinary(p)
    ensures var r, replaced := UpstreamRoute(s, domain, qtype, w, p, f, outer, call).reply,
                               Replaced(s, domain, qtype, w, p, call);
            if !replaced then r == Merged(s, domain, qtype, w, p, call)
            else if p.options.fallbackGroup != "" then
              r == match Ask(s, p.options.fallbackGroup, Target(domain, w), qtype, call + 1)
                   case Some(m) => Some(Merge(domain, qtype, w.answers, m))
                   case None => None
            else r == EcsRoute(s, domain, qtype, DEFAULT_POLICY.options, f, call + 1).reply
  {
  }

  /** Under a policy that caches, what is filed below a full hit is just the reply, and it is filed. */
  lemma FilesItsReply(s: Setting, domain: string, qtype: uint16, w: WalkResult, f: Fanout, outer: Writes, call: nat)
    requires PolicyFor(s, domain).group != "block" && !PolicyFor(s, domain).options.disableCache
    ensures var out := MissSpec(s, domain, qtype, w, f, outer, call);
            && (out.reply.Some? <==> out.cached != [])
            && forall c :: c in out.cached ==> out.reply == Some(c.0)
  {
    var p := PolicyFor(s, domain);
    if p.group == "proxy_ecs_fallback" {
      FanoutFilesItsReply(s, domain, qtype, p.options, f, call);
    } else {
      AnsweredFilesReply(s, domain, qtype, w, p, f, call);
      OuterFilesReply(Answered(s, domain, qtype, w, p, f, call), p, outer);
    }
  }

  lemma FanoutFilesItsReply(s: Setting, domain: string, qtype: uint16, options: Options, f: Fanout, call: nat)
    ensures var out := EcsRoute(s, domain, qtype, options, f, call);
            && (!options.disableCache ==> (out.reply.Some? <==> out.cached != []))
            && forall c :: c in out.cached ==> out.reply == Some(c.0)
  {
  }

  lemma AnsweredFilesReply(s: Setting, domain: string, qtype: uint16, w: WalkResult, p: Policy, f: Fanout, call: nat)
    ensures var v := Answered(s, domain, qtype, w, p, f, call);
            (v.reply == None ==> v.cached == []) && forall c :: c in v.cached ==> v.reply == Some(c.0)
  {
    FanoutFilesItsReply(s, domain, qtype, DEFAULT_POLICY.options, f, call + 1);
  }

  lemma OuterFilesReply(v: Outcome, p: Policy, outer: Writes)
    requires !p.options.disableCache && (v.reply == None ==> v.cached == [])
    requires forall c :: c in v.cached ==> v.reply == Some(c.0)
    ensures var out := WithOuter(v, p, outer);
            && (out.reply.Some? <==> out.cached != []) && forall c :: c in out.cached ==> out.reply == Some(c.0)
  {
  }

  /** What filtering takes away: records of the types 64 and 65, from Answer and Additional, if the policy says so. */
  lemma FilteredMeans(m: Msg, disableHTTPS: bool)
    ensures var r := Filtered(m, disableHTTPS);
            && r == m.(answer := r.answer, extra := r.extra)
            && (forall x :: x in r.answer <==> x in m.answer && !(disableHTTPS && (x.rtype == 64 || x.rtype == 65)))
            && (forall x :: x in r.extra <==> x in m.extra && !(disableHTTPS && (x.rtype == 64 || x.rtype == 65)))
  {
    FilterMembers(m.answer);
    FilterMembers(m.extra);
  }

  lemma FilteredHasNone(m: Msg)
    ensures !HasHTTPS(Filtered(m, true).answer) && !HasHTTPS(Filtered(m, true).extra)
  {
    FilterMembers(m.answer);
    FilterMembers(m.extra);
  }

  lemma FanoutStrips(s: Setting, domain: string, qtype: uint16, options: Options, f: Fanout, call: nat)
    requires options.disableHTTPS
    ensures var r := EcsRoute(s, domain, qtype, options, f, call).reply;
            r.Some? ==> !HasHTTPS(r.value.answer) && !HasHTTPS(r.value.extra)
  {
    var c := EcsChoice(s, domain, qtype, f.gotEcs, f.gotProxy, call);
    if c.msg.Some? {
      FilteredHasNone(c.msg.value);
    }
  }

  /**
   * disable_https strips every reply given below a full hit, except the replacement of one that does not
   * fit: the fallback group's answer is handed on whole, and so is the fan-out's.
   */
  lemma StripsUnlessReplaced(s: Setting, domain: string, qtype: uint16, w: WalkResult, f: Fanout, outer: Writes,
                             call: nat)
    requires PolicyFor(s, domain).group != BLOCK && PolicyFor(s, domain).options.disableHTTPS
    requires MissSpec(s, domain, qtype, w, f, outer, call).reply.Some?
    ensures var p, m := PolicyFor(s, domain), MissSpec(s, domain, qtype, w, f, outer, call).reply.value;
            var fallback := p.options.fallbackGroup;
            if !Replaced(s, domain, qtype, w, p, call) then !HasHTTPS(m.answer) && !HasHTTPS(m.extra)
            else if fallback == "" then EcsChoice(s, domain, qtype, f.gotEcs, f.gotProxy, call + 1).msg == Some(m)
            else var resp := Ask(s, fallback, Target(domain, w), qtype, call + 1);
                 resp.Some? && (HasHTTPS(m.answer) <==> HasHTTPS(w.answers) || HasHTTPS(resp.value.answer))
  {
    var p := PolicyFor(s, domain);
    if p.group == ECS_FALLBACK {
      FanoutStrips(s, domain, qtype, p.options, f, call);
    } else if Merged(s, domain, qtype, w, p, call).Some? {
      var resp := Ask(s, p.group, Target(domain, w), qtype, call).value;
      FilteredHasNone(Merge(domain, qtype, w.answers, resp));
    }
  }

  /**
   * disable_cache keeps a reply out of the cache unless the fan-out has replaced one that does not fit:
   * then, and only then, something is cached all the same.
   */
  lemma CachesOnlyIfReplaced(s: Setting, domain: string, qtype: uint16, w: WalkResult, f: Fanout, outer: Writes,
                             call: nat)
    requires PolicyFor(s, domain).options.disableCache
    ensures var p, out := PolicyFor(s, domain), MissSpec(s, domain, qtype, w, f, outer, call);
            out.cached != [] <==>
            Replaced(s, domain, qtype, w, p, call) && p.options.fallbackGroup == "" && out.reply.Some?
  {
    var p := PolicyFor(s, domain);
    if Ordinary(p) {
      AnsweredCaches(s, domain, qtype, w, p, f, call);
    }
  }

  lemma AnsweredCaches(s: Setting, domain: string, qtype: uint16, w: WalkResult, p: Policy, f: Fanout, call: nat)
    requires Ordinary(p)
    ensures var out := Answered(s, domain, qtype, w, p, f, call);
            out.cached != [] <==>
            Replaced(s, domain, qtype, w, p, call) && p.options.fallbackGroup == "" && out.reply.Some?
  {
    if Replaced(s, domain, qtype, w, p, call) && p.options.fallbackGroup == "" {
      FanoutCaches(s, domain, qtype, f, call + 1);
    }
  }

  lemma FanoutCaches(s: Setting, domain: string, qtype: uint16, f: Fanout, call: nat)
    ensures var out := EcsRoute(s, domain, qtype, DEFAULT_POLICY.options, f, call);
            out.cached != [] <==> out.reply.Some?
  {
  }

  /** An ordinary policy without options, for a group that exists. */
  predicate Simple(s: Setting, domain: string) {
    var p := PolicyFor(s, domain);
    Ordinary(p) && p.group in s.groups && p.options == Options(false, false, [], "", "")
  }

  /** Under such a policy the group's reply is merged, handed on whole and filed as it is. */
  lemma SimpleMiss(s: Setting, domain: string, qtype: uint16, w: WalkResult, f: Fanout, outer: Writes, call: nat)
    returns (m: Msg)
    requires Simple(s, domain) && Ask(s, PolicyFor(s, domain).group, Target(domain, w), qtype, call).Some?
    ensures MissSpec(s, domain, qtype, w, f, outer, call).reply == Some(m)
    ensures MissSpec(s, domain, qtype, w, f, outer, call).cached == [(m, outer)]
    ensures m == Merge(domain, qtype, w.answers, Ask(s, PolicyFor(s, domain).group, Target(domain, w), qtype,
                                                     call).value)
  {
    m := Merge(domain, qtype, w.answers, Ask(s, PolicyFor(s, domain).group, Target(domain, w), qtype, call).value);
  }

  // ---- what a stripped reply is, when all groups answer from one zone ----

  lemma {:induction false} StripThenFilter(rrs: seq<RR>)
    ensures StripAll(WithoutHTTPS(rrs)) == WithoutHTTPS(StripAll(rrs))
    decreases |rrs|
  {
    if rrs != [] {
      var n := |rrs| - 1;
      StripThenFilter(rrs[..n]);
      StripConcat(WithoutHTTPS(rrs[..n]), if IsHTTPS(rrs[n]) then [] else [rrs[n]]);
      assert StripAll(rrs)[..n] == StripAll(rrs[..n]);
    }
  }

  /** The message is the zone's answer without its HTTPS records. */
  ghost predicate IsStripped(zone: Zone, rank: Rank, m: Msg, domain: string, qtype: uint16)
    requires ZoneOk(zone, rank)
  {
    StripAll(m.answer) == WithoutHTTPS(ZoneAnswer(zone, rank, Fqdn(domain), qtype))
  }

  lemma FilteredIsStripped(zone: Zone, rank: Rank, m: Msg, domain: string, qtype: uint16)
    requires ZoneOk(zone, rank) && StripAll(m.answer) == ZoneAnswer(zone, rank, Fqdn(domain), qtype)
    ensures IsStripped(zone, rank, Filtered(m, true), domain, qtype)
  {
    StripThenFilter(m.answer);
  }

  lemma FanoutIsStripped(zone: Zone, rank: Rank, s: Setting, domain: string, qtype: uint16, options: Options, f: Fanout,
                         call: nat)
    requires ZoneOk(zone, rank) && Honest(s, zone, rank) && options.disableHTTPS
    ensures var r := EcsRoute(s, domain, qtype, options, f, call).reply;
            r.Some? ==> IsStripped(zone, rank, r.value, domain, qtype)
  {
    var c := EcsChoice(s, domain, qtype, f.gotEcs, f.gotProxy, call);
    if c.msg.Some? {
      FilteredIsStripped(zone, rank, c.msg.value, domain, qtype);
    }
  }

  lemma MergedIsStripped(zone: Zone, rank: Rank, s: Setting, domain: string, qtype: uint16, w: WalkResult, p: Policy,
                         call: nat)
    requires ZoneOk(zone, rank) && Honest(s, zone, rank) && p.options.disableHTTPS
    requires w.needUpstream && Completes(zone, rank, w, Fqdn(domain), qtype)
             && (w.answers == [] ==> w.target == Fqdn(domain))
    ensures var m := Merged(s, domain, qtype, w, p, call);
            m.Some? ==> IsStripped(zone, rank, m.value, domain, qtype)
  {
    var r := Ask(s, p.group, Target(domain, w), qtype, call);
    if r.Some? {
      StripConcat(w.answers, r.value.answer);
      FilteredIsStripped(zone, rank, Merge(domain, qtype, w.answers, r.value), domain, qtype);
    }
  }

  /**
   * Over a sound store, below a full hit, the reply under disable_https is the zone's answer without its HTTPS
   * records, unless it replaces one that does not fit.
   */
  lemma StrippedReplyMeetsZone(zone: Zone, rank: Rank, s: Setting, store: Store, domain: string, qtype: uint16,
                               sch: Schedule, hi: int)
    requires ZoneOk(zone, rank) && Honest(s, zone, rank) && Sound(zone, store) && Ordered(sch.ts, sch.now, hi)
    requires CachedPart(store, domain, qtype, sch).needUpstream
    requires PolicyFor(s, domain).group != BLOCK && PolicyFor(s, domain).options.disableHTTPS
    requires !Replaced(s, domain, qtype, CachedPart(store, domain, qtype, sch), PolicyFor(s, domain), sch.firstCall)
    ensures var r := RouteSpec(s, store, domain, qtype, sch).reply;
            r.Some? ==> IsStripped(zone, rank, r.value, domain, qtype)
  {
    var w, p := CachedPart(store, domain, qtype, sch), PolicyFor(s, domain);
    SoundStoreShows(zone, store);
    WalkMeetsZone(zone, rank, ViewOf(store), Fqdn(domain), qtype, DEFAULT_DEPTH, sch.now, sch.ts, sch.now, hi);
    FullHitHasAnswer(ViewOf(store), Fqdn(domain), qtype, DEFAULT_DEPTH, sch.now, sch.ts);
    StrippedMiss(zone, rank, s, domain, qtype, w, p, sch.fanout, sch.outer, sch.firstCall);
  }

  lemma StrippedMiss(zone: Zone, rank: Rank, s: Setting, domain: string, qtype: uint16, w: WalkResult, p: Policy,
                     f: Fanout, outer: Writes, call: nat)
    requires ZoneOk(zone, rank) && Honest(s, zone, rank) && p == PolicyFor(s, domain)
    requires w.needUpstream && Completes(zone, rank, w, Fqdn(domain), qtype)
             && (w.answers == [] ==> w.target == Fqdn(domain))
    requires p.group != BLOCK && p.options.disableHTTPS && !Replaced(s, domain, qtype, w, p, call)
    ensures var r := MissSpec(s, domain, qtype, w, f, outer, call).reply;
            r.Some? ==> IsStripped(zone, rank, r.value, domain, qtype)
  {
    if p.group == ECS_FALLBACK {
      FanoutIsStripped(zone, rank, s, domain, qtype, p.options, f, call);
    } else {
      MergedIsStripped(zone, rank, s, domain, qtype, w, p, call);
      GroupIsItsSource(s, domain, qtype, w, p, f, outer, call);
    }
  }

  // ---- both exceptions occur ----

  const TYPE_ANY: uint16 := 255
  const ADDRESS := RR("a.", TYPE_A, CLASS_INET, 60, V4("192.0.2.1"))
  const SERVICE := RR("a.", TYPE_HTTPS, CLASS_INET, 60, Opaque([]))

  /** Groups that answer one record each, with a policy for names of no category; no address matches any rule. */
  function OneRecordSetting(options: Options, groups: set<string>, record: string -> RR): Setting {
    Setting([Policy(UNKNOWN, "up", options)], map[], [], (ip: string, rule: string) => false, groups,
            (g: string, n: string, t: uint16, c: nat) => Some(Question(n, t).(answer := [record(g)])))
  }

  lemma UnknownPolicy(options: Options, groups: set<string>, record: string -> RR)
    ensures var p := PolicyFor(OneRecordSetting(options, groups, record), "a.");
            p == Policy(UNKNOWN, "up", options) && Ordinary(p)
  {
    Matching.BestIsLongestSuffix(map[], Matching.Normalise("a."));
    assert |"up"| == 2 && |BLOCK| == 5 && |ECS_FALLBACK| == 18;
  }

  /** The group answers with the address, which fits no rule. */
  lemma AddressIsReplaced(options: Options, groups: set<string>, record: string -> RR, qtype: uint16, call: nat)
    requires "up" in groups && record("up") == ADDRESS && options.expectedIPs != []
    ensures var s := OneRecordSetting(options, groups, record);
            Replaced(s, "a.", qtype, WalkResult([], true, "a."), PolicyFor(s, "a."), call)
  {
    UnknownPolicy(options, groups, record);
    assert WithoutHTTPS([ADDRESS]) == [ADDRESS] by { assert [ADDRESS][..0] == []; }
    assert EcsFallback.ExtractIPs([ADDRESS]) == ["192.0.2.1"] by { assert [ADDRESS][..0] == []; }
    assert [] + [ADDRESS] == [ADDRESS];
    assert "192.0.2.1" in EcsFallback.ExtractIPs([ADDRESS]);
  }

  /** Over an empty cache every walk is such a miss. */
  lemma EmptyCacheMisses(sch: Schedule, qtype: uint16)
    ensures CachedPart(map[], "a.", qtype, sch) == WalkResult([], true, "a.")
  {
  }

  /** An ANY query under disable_https that is handed an HTTPS record: the fallback group's. */
  lemma StrippedPolicyHandsOnHTTPS(sch: Schedule) returns (s: Setting, reply: Msg)
    requires sch.firstCall == 0
    ensures PolicyFor(s, "a.").options.disableHTTPS
    ensures RouteSpec(s, map[], "a.", TYPE_ANY, sch).reply == Some(reply) && HasHTTPS(reply.answer)
  {
    var options := Options(false, true, ["geoip:us"], "other", "");
    var groups, record := {"up", "other"}, (g: string) => if g == "up" then ADDRESS else SERVICE;
    s := OneRecordSetting(options, groups, record);
    EmptyCacheMisses(sch, TYPE_ANY);
    UnknownPolicy(options, groups, record);
    AddressIsReplaced(options, groups, record, TYPE_ANY, 0);
    assert |"up"| == 2 && |"other"| == 5;
    reply := Merge("a.", TYPE_ANY, [], Question("a.", TYPE_ANY).(answer := [SERVICE]));
    assert SERVICE in reply.answer;
  }

  /** An A query under disable_cache whose reply is cached: the fan-out's. */
  lemma UncachedPolicyCaches(sch: Schedule) returns (s: Setting)
    requires sch.firstCall == 0 && sch.fanout.gotProxy
    ensures PolicyFor(s, "a.").options.disableCache
    ensures RouteSpec(s, map[], "a.", TYPE_A, sch).cached != []
  {
    var options := Options(true, false, ["geoip:us"], "", "");
    var groups, record := {"up", PROXY, PROXY_ECS, DIRECT}, (g: string) => ADDRESS;
    s := OneRecordSetting(options, groups, record);
    EmptyCacheMisses(sch, TYPE_A);
    UnknownPolicy(options, groups, record);
    AddressIsReplaced(options, groups, record, TYPE_A, 0);
    CachesOnlyIfReplaced(s, "a.", TYPE_A, WalkResult([], true, "a."), sch.fanout, sch.outer, 0);
  }
}
