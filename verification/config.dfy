/** The parts of the configuration that name upstream groups, and their validation. */
module Config {
  import opened Dns
  import opened RouterModel
  import CacheModel
  import ChainWalk
  import Matching

  datatype UpstreamGroupConfig = UpstreamGroupConfig(nameservers: seq<string>, outbound: string, ecsIP: string)

  datatype OutboundConfig = OutboundConfig(tag: string, kind: string, server: string, port: int)

  datatype ECSConfig = ECSConfig(enable: bool, defaultIPv4: string)

  type Groups = map<string, UpstreamGroupConfig>

  /** A query_policy entry has the fields of a policy. */
  datatype Config = Config(port: int, bootstrap: seq<string>, upstreamGroup: Groups, outbound: seq<OutboundConfig>,
                           ecs: ECSConfig, domainGroup: map<string, seq<string>>, queryPolicy: seq<Policy>)

  datatype Error = BadPort | NoBootstrap | MissingGroup(name: string) | NoNameserver(name: string)
                 | BadOutbound(tag: string) | UnknownOutbound(group: string) | NotHTTPS(group: string)
                 | BadPolicy(index: nat) | OtherSection

  const REQUIRED_GROUPS := [PROXY, PROXY_ECS, DIRECT]

  /** The groups the fan-out policy asks. */
  const FANOUT_GROUPS := {PROXY, PROXY_ECS, DIRECT}

  predicate HasPrefix(s: string, prefix: string) {
    prefix <= s
  }

  predicate PortOk(port: int) {
    1 <= port <= 65535
  }

  predicate GroupsOk(groups: Groups) {
    forall name :: name in REQUIRED_GROUPS ==> name in groups && groups[name].nameservers != []
  }

  predicate PolicyOk(p: Policy, domainGroups: map<string, seq<string>>, groups: Groups) {
    && (p.name == UNKNOWN || p.name in domainGroups)
    && (p.group == BLOCK || p.group == ECS_FALLBACK || p.group in groups)
    && (p.group == BLOCK ==> p.options.blockType in ["", "nxdomain", "noerror", "0.0.0.0"])
    && (p.options.fallbackGroup == "" || p.options.fallbackGroup in groups)
    && (forall rule :: rule in p.options.expectedIPs ==> HasPrefix(rule, "geoip:") || HasPrefix(rule, "asn:"))
  }

  /** The required groups are looked for in order; the first fault is reported. */
  method ValidateUpstreamGroup(groups: Groups) returns (err: Option<Error>)
    ensures err == None <==> GroupsOk(groups)
    ensures err == None <==>
            forall name :: name in ["proxy", "proxy_ecs", "direct"] ==> name in groups && groups[name].nameservers != []
    ensures err.Some? ==> exists i :: 0 <= i < |REQUIRED_GROUPS|
                            && (forall j :: 0 <= j < i ==> REQUIRED_GROUPS[j] in groups
                                                           && groups[REQUIRED_GROUPS[j]].nameservers != [])
                            && err.value == (if REQUIRED_GROUPS[i] in groups then NoNameserver(REQUIRED_GROUPS[i])
                                             else MissingGroup(REQUIRED_GROUPS[i]))
  {
    for i := 0 to |REQUIRED_GROUPS|
      invariant forall j :: 0 <= j < i ==> REQUIRED_GROUPS[j] in groups && groups[REQUIRED_GROUPS[j]].nameservers != []
    {
      var name := REQUIRED_GROUPS[i];
      if name !in groups {
        return Some(MissingGroup(name));
      }
      if |groups[name].nameservers| == 0 {
        return Some(NoNameserver(name));
      }
    }
    return None;
  }

  /** The policies are checked in order; the first faulty one is reported by its index. */
  method ValidateQueryPolicy(policies: seq<Policy>, domainGroups: map<string, seq<string>>, groups: Groups)
    returns (err: Option<Error>)
    ensures err == None <==> forall i :: 0 <= i < |policies| ==> PolicyOk(policies[i], domainGroups, groups)
    ensures err == None <==>
            forall i :: 0 <= i < |policies| ==>
                          var p := policies[i];
                          && (p.name == "unknown" || p.name in domainGroups)
                          && (p.group in ["block", "proxy_ecs_fallback"] || p.group in groups)
                          && (p.group == "block" ==> p.options.blockType in ["", "nxdomain", "noerror", "0.0.0.0"])
                          && (p.options.fallbackGroup == "" || p.options.fallbackGroup in groups)
                          && (forall r :: r in p.options.expectedIPs ==> "geoip:" <= r || "asn:" <= r)
    ensures err.Some? ==> && err.value.BadPolicy? && err.value.index < |policies|
                          && !PolicyOk(policies[err.value.index], domainGroups, groups)
                          && forall j :: 0 <= j < err.value.index ==> PolicyOk(policies[j], domainGroups, groups)
  {
    for i := 0 to |policies|
      invariant forall j :: 0 <= j < i ==> PolicyOk(policies[j], domainGroups, groups)
    {
      var p := policies[i];
      if p.name != UNKNOWN && p.name !in domainGroups {
        return Some(BadPolicy(i));
      }
      if p.group != BLOCK && p.group != ECS_FALLBACK && p.group !in groups {
        return Some(BadPolicy(i));
      }
      if p.group == BLOCK && p.options.blockType != "" && p.options.blockType !in {"nxdomain", "noerror", "0.0.0.0"} {
        return Some(BadPolicy(i));
      }
      if p.options.fallbackGroup != "" && p.options.fallbackGroup !in groups {
        return Some(BadPolicy(i));
      }
      for r := 0 to |p.options.expectedIPs|
        invariant forall k :: 0 <= k < r ==>
                                || HasPrefix(p.options.expectedIPs[k], "geoip:")
                                || HasPrefix(p.options.expectedIPs[k], "asn:")
      {
        var rule := p.options.expectedIPs[r];
        if !HasPrefix(rule, "geoip:") && !HasPrefix(rule, "asn:") {
          assert rule in p.options.expectedIPs;
          return Some(BadPolicy(i));
        }
      }
    }
    return None;
  }

  /** The type behind each outbound tag: the later of two entries with one tag counts. */
  function OutboundKinds(outbounds: seq<OutboundConfig>): map<string, string> {
    if outbounds == [] then map[DIRECT := DIRECT]
    else
      var n := |outbounds| - 1;
      OutboundKinds(outbounds[..n])[outbounds[n].tag := outbounds[n].kind]
  }

  /** The type behind a tag is that of the last entry with the tag; without an entry "direct" is a tag as well. */
  lemma {:induction false} LastEntryCounts(outbounds: seq<OutboundConfig>, tag: string) returns (i: int)
    ensures -1 <= i < |outbounds| && forall j :: i < j < |outbounds| ==> outbounds[j].tag != tag
    ensures if i < 0 then (tag in OutboundKinds(outbounds) <==> tag == "direct")
                          && (tag == "direct" ==> OutboundKinds(outbounds)[tag] == "direct")
            else outbounds[i].tag == tag && tag in OutboundKinds(outbounds)
                 && OutboundKinds(outbounds)[tag] == outbounds[i].kind
    decreases |outbounds|
  {
    i := |outbounds| - 1;
    if i >= 0 && outbounds[i].tag != tag {
      i := LastEntryCounts(outbounds[..i], tag);
    }
  }

  predicate OutboundOk(ob: OutboundConfig) {
    ob.kind == "socks5" ==> ob.server != "" && PortOk(ob.port)
  }

  predicate GroupOutboundOk(g: UpstreamGroupConfig, kinds: map<string, string>) {
    g.outbound != "" ==>
      && g.outbound in kinds
      && (g.outbound != DIRECT && kinds[g.outbound] != DIRECT ==>
            forall ns :: ns in g.nameservers ==> HasPrefix(ns, "https://"))
  }

  predicate OutboundsOk(outbounds: seq<OutboundConfig>, groups: Groups) {
    && (forall i :: 0 <= i < |outbounds| ==> OutboundOk(outbounds[i]))
    && (forall name :: name in groups ==> GroupOutboundOk(groups[name], OutboundKinds(outbounds)))
  }

  /** Collects the tags, then checks the groups in the arbitrary order of a map. */
  method ValidateOutbound(outbounds: seq<OutboundConfig>, groups: Groups) returns (err: Option<Error>)
    ensures err == None <==> OutboundsOk(outbounds, groups)
    ensures err == None <==>
            && (forall i :: 0 <= i < |outbounds| && outbounds[i].kind == "socks5" ==>
                              outbounds[i].server != "" && 1 <= outbounds[i].port <= 65535)
            && (forall name :: name in groups && groups[name].outbound != "" ==>
                                 var g, kinds := groups[name], OutboundKinds(outbounds);
                                 && g.outbound in kinds
                                 && (g.outbound == "direct" || kinds[g.outbound] == "direct"
                                     || forall ns :: ns in g.nameservers ==> "https://" <= ns))
  {
    var kinds := map[DIRECT := DIRECT];
    for i := 0 to |outbounds|
      invariant kinds == OutboundKinds(outbounds[..i])
      invariant forall j :: 0 <= j < i ==> OutboundOk(outbounds[j])
    {
      var ob := outbounds[i];
      if ob.kind == "socks5" {
        if ob.server == "" || ob.port == 0 {
          return Some(BadOutbound(ob.tag));
        }
        if !PortOk(ob.port) {
          return Some(BadOutbound(ob.tag));
        }
      }
      TakeTake(outbounds, i);
      kinds := kinds[ob.tag := ob.kind];
    }
    assert outbounds[..|outbounds|] == outbounds;
    var todo := groups.Keys;
    while todo != {}
      invariant todo <= groups.Keys
      invariant forall name :: name in groups && name !in todo ==> GroupOutboundOk(groups[name], kinds)
      decreases todo
    {
      var name :| name in todo;
      var g := groups[name];
      if g.outbound != "" && g.outbound !in kinds {
        return Some(UnknownOutbound(name));
      }
      if g.outbound != DIRECT && g.outbound != "" && kinds[g.outbound] != DIRECT {
        for i := 0 to |g.nameservers|
          invariant forall j :: 0 <= j < i ==> HasPrefix(g.nameservers[j], "https://")
        {
          if !HasPrefix(g.nameservers[i], "https://") {
            assert g.nameservers[i] in g.nameservers;
            return Some(NotHTTPS(name));
          }
        }
      }
      todo := todo - {name};
    }
    return None;
  }

  predicate ConfigOk(cfg: Config) {
    && PortOk(cfg.port) && cfg.bootstrap != []
    && GroupsOk(cfg.upstreamGroup) && OutboundsOk(cfg.outbound, cfg.upstreamGroup)
    && forall i :: 0 <= i < |cfg.queryPolicy| ==> PolicyOk(cfg.queryPolicy[i], cfg.domainGroup, cfg.upstreamGroup)
  }

  /** All sections in order. The sections that name no group (ecs, cache, fallback, log, ...) are one flag. */
  method Validate(cfg: Config, otherSectionsOk: bool) returns (err: Option<Error>)
    ensures err == None <==> ConfigOk(cfg) && otherSectionsOk
    ensures err == None ==> 1 <= cfg.port <= 65535 && cfg.bootstrap != []
    ensures !(1 <= cfg.port <= 65535) ==> err == Some(BadPort)
  {
    if !PortOk(cfg.port) {
      return Some(BadPort);
    }
    if |cfg.bootstrap| == 0 {
      return Some(NoBootstrap);
    }
    err := ValidateUpstreamGroup(cfg.upstreamGroup);
    if err.Some? {
      return;
    }
    err := ValidateOutbound(cfg.outbound, cfg.upstreamGroup);
    if err.Some? {
      return;
    }
    if !otherSectionsOk {
      return Some(OtherSection);
    }
    err := ValidateQueryPolicy(cfg.queryPolicy, cfg.domainGroup, cfg.upstreamGroup);
  }

  /** The client subnet of a group: its own, or for proxy_ecs the global default while that is enabled. */
  function EcsFor(cfg: Config, name: string): string
    requires name in cfg.upstreamGroup
  {
    var own := cfg.upstreamGroup[name].ecsIP;
    if own == "" && name == PROXY_ECS && cfg.ecs.enable then cfg.ecs.defaultIPv4 else own
  }

  // ---- what validation guarantees ----

  /** The group names a policy can make Route ask for. */
  function Askable(p: Policy): set<string> {
    if p.group == BLOCK then {}
    else if p.group == ECS_FALLBACK then FANOUT_GROUPS
    else {p.group} + (if p.options.fallbackGroup != "" then {p.options.fallbackGroup} else FANOUT_GROUPS)
  }

  lemma FindPolicyFrom(policies: seq<Policy>, name: string)
    ensures FindPolicy(policies, name) in policies || FindPolicy(policies, name) == DEFAULT_POLICY
    decreases |policies|
  {
    if policies != [] && policies[0].name != name {
      FindPolicyFrom(policies[1..], name);
    }
  }

  lemma FanoutAsks(s: Setting, domain: string, qtype: uint16, options: Options, f: Fanout, call: nat)
    ensures forall g :: g in EcsRoute(s, domain, qtype, options, f, call).asked ==> g in FANOUT_GROUPS
  {
  }

  lemma OnlyAskableGroups(s: Setting, store: CacheModel.Store, domain: string, qtype: uint16, sch: Schedule)
    ensures forall g :: g in RouteSpec(s, store, domain, qtype, sch).asked ==> g in Askable(PolicyFor(s, domain))
  {
    var w, p := CachedPart(store, domain, qtype, sch), PolicyFor(s, domain);
    if w.needUpstream {
      if p.group == ECS_FALLBACK {
        FanoutAsks(s, domain, qtype, p.options, sch.fanout, sch.firstCall);
      } else if p.group != BLOCK {
        UpstreamAsks(s, domain, qtype, w, p, sch.fanout, sch.outer, sch.firstCall);
      }
    }
  }

  lemma UpstreamAsks(s: Setting, domain: string, qtype: uint16, w: ChainWalk.WalkResult, p: Policy, f: Fanout,
                     outer: Writes, call: nat)
    requires p.group != BLOCK && p.group != ECS_FALLBACK
    ensures forall g :: g in UpstreamRoute(s, domain, qtype, w, p, f, outer, call).asked ==> g in Askable(p)
  {
    FanoutAsks(s, domain, qtype, DEFAULT_POLICY.options, f, call + 1);
  }

  /**
   * After a validated configuration is loaded, no query can name a group that does not exist: whatever
   * categories have been learned, for every domain and every cache, every group Route asks for is there.
   */
  lemma NoDanglingGroup(cfg: Config, s: Setting, store: CacheModel.Store, domain: string, qtype: uint16, sch: Schedule)
    requires ConfigOk(cfg) && s.policies == cfg.queryPolicy && s.groups == cfg.upstreamGroup.Keys
    ensures forall g :: g in RouteSpec(s, store, domain, qtype, sch).asked ==> g in s.groups
  {
    OnlyAskableGroups(s, store, domain, qtype, sch);
    FindPolicyFrom(s.policies, Matching.MatchSpec(s.categories, domain).Get(UNKNOWN));
    RequiredGroupsExist(cfg.upstreamGroup);
  }

  lemma RequiredGroupsExist(groups: Groups)
    requires GroupsOk(groups)
    ensures PROXY in groups && PROXY_ECS in groups && DIRECT in groups
  {
    assert PROXY == REQUIRED_GROUPS[0] && PROXY_ECS == REQUIRED_GROUPS[1] && DIRECT == REQUIRED_GROUPS[2];
  }

  // ---- learning and the next policy ----

  /**
   * What the fan-out learns takes effect on the next query of the same domain exactly when the domain was
   * asked in lower case and without trailing dot; for any other spelling the policy stays what it was.
   */
  lemma NextPolicyIsLearned(s: Setting, domain: string, category: string)
    requires category != "" && domain != "" && domain != "."
    ensures PolicyFor(s.(categories := s.categories[domain := category]), domain)
         == if (forall c :: c in domain ==> !('A' <= c <= 'Z')) && domain[|domain| - 1] != '.' then
              FindPolicy(s.policies, category)
            else PolicyFor(s, domain)
  {
    Matching.LearnedWhenNormal(s.categories, domain, category);
  }
}
