/** Loading a validated configuration into the objects that serve queries. */
module Startup {
  import opened Dns
  import opened MemoryCache
  import opened Matching
  import opened EcsFallback
  import opened RouterModel
  import opened Config
  import opened Upstream
  import opened RouterObject

  /** One group object per configured group, in the arbitrary order of a map. */
  method LoadFromConfig(m: Manager, cfg: Config)
    modifies m`groups
    ensures m.groups.Keys == old(m.groups).Keys + cfg.upstreamGroup.Keys
    ensures forall name :: name in cfg.upstreamGroup ==>
              && m.groups[name].name == name && m.groups[name].nameservers == cfg.upstreamGroup[name].nameservers
              && m.groups[name].ecsIP
                 == if cfg.upstreamGroup[name].ecsIP == "" && name == "proxy_ecs" && cfg.ecs.enable then
                      cfg.ecs.defaultIPv4
                    else cfg.upstreamGroup[name].ecsIP
    ensures forall name :: name in old(m.groups) && name !in cfg.upstreamGroup ==> m.groups[name] == old(m.groups)[name]
  {
    var todo := cfg.upstreamGroup.Keys;
    while todo != {}
      invariant todo <= cfg.upstreamGroup.Keys
      invariant m.groups.Keys == old(m.groups).Keys + (cfg.upstreamGroup.Keys - todo)
      invariant forall name :: name in cfg.upstreamGroup && name !in todo ==>
                  && fresh(m.groups[name]) && m.groups[name].name == name
                  && m.groups[name].nameservers == cfg.upstreamGroup[name].nameservers
                  && m.groups[name].ecsIP == EcsFor(cfg, name)
      invariant forall name :: name in old(m.groups) && name !in cfg.upstreamGroup ==>
                                 m.groups[name] == old(m.groups)[name]
      decreases todo
    {
      var name :| name in todo;
      var group := new Group(name, cfg.upstreamGroup[name].nameservers);
      var ecsIP := cfg.upstreamGroup[name].ecsIP;
      if ecsIP == "" && name == PROXY_ECS && cfg.ecs.enable {
        ecsIP := cfg.ecs.defaultIPv4;
      }
      group.SetECS(ecsIP);
      m.AddGroup(name, group);
      todo := todo - {name};
    }
  }

  method AddPolicies(r: Router, policies: seq<Policy>)
    requires r.Valid() && r.policies == []
    modifies r`policies
    ensures r.Valid() && r.policies == policies
  {
    for i := 0 to |policies|
      invariant r.Valid() && r.policies == policies[..i]
    {
      r.AddPolicy(policies[i]);
    }
  }

  /** What start-up does with a configuration: validate it, load the groups, add the policies in order. */
  method Assemble(cfg: Config, otherSectionsOk: bool, answers: Answers, geo: Geo, dnsCache: MemoryDNSCache,
                  categoryCache: MemoryCategoryCache, fallbackRules: seq<string>, clock: Clock)
    returns (router: Router?, err: Option<Error>)
    requires dnsCache.Valid()
    ensures err == None <==> ConfigOk(cfg) && otherSectionsOk
    ensures err == None ==> router != null && router.Valid() && router.dnsCache == dnsCache
    ensures err == None ==>
              router.Settings().policies == cfg.queryPolicy && router.Settings().groups == cfg.upstreamGroup.Keys
  {
    router := null;
    err := Validate(cfg, otherSectionsOk);
    if err.Some? {
      return;
    }
    var manager := new Manager(answers);
    LoadFromConfig(manager, cfg);
    var matcher := new Matcher(categoryCache);
    var r := new Router(matcher, manager, geo, dnsCache, categoryCache, fallbackRules, clock);
    AddPolicies(r, cfg.queryPolicy);
    router := r;
  }
}
