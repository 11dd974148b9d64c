/** The upstream manager and the router: the mutable objects, proved against the functions of RouterModel. */
module Upstream {
  import opened Dns
  import opened MemoryCache
  import RouterModel

  class Group {
    const name: string
    const nameservers: seq<string>
    var ecsIP: string

    constructor (name: string, nameservers: seq<string>)
      ensures this.name == name && this.nameservers == nameservers && ecsIP == ""
    {
      this.name, this.nameservers, this.ecsIP := name, nameservers, "";
    }

    method SetECS(ip: string)
      modifies this
      ensures ecsIP == ip
    {
      ecsIP := ip;
    }
  }

  class Manager {
    var groups: map<string, Group>
    /** What the groups answer, as an arbitrary function of the number of the call. */
    const answers: RouterModel.Answers
    var calls: nat
    /** The group names that were asked for, in order. */
    ghost var asked: seq<string>

    constructor (answers: RouterModel.Answers)
      ensures groups == map[] && this.answers == answers && calls == 0 && asked == []
    {
      this.groups, this.answers, this.calls, this.asked := map[], answers, 0, [];
    }

    method AddGroup(name: string, group: Group)
      modifies this`groups
      ensures groups == old(groups)[name := group]
    {
      groups := groups[name := group];
    }

    /** An unknown group is an error; a known one answers after some time. */
    method Query(clock: Clock, groupName: string, domain: string, qtype: uint16) returns (resp: Option<Msg>)
      modifies this`calls, this`asked, clock
      ensures resp == if groupName in groups then answers(groupName, Fqdn(domain), qtype, old(calls)) else None
      ensures calls == old(calls) + 1 && asked == old(asked) + [groupName] && old(clock.now) <= clock.now
    {
      asked := asked + [groupName];
      resp := None;
      if groupName in groups {
        resp := answers(groupName, Fqdn(domain), qtype, calls);
        var done := clock.Read();
      }
      calls := calls + 1;
    }
  }
}

module RouterObject {
  import opened Dns
  import opened CacheModel
  import opened MemoryCache
  import opened ChainWalk
  import opened Matching
  import opened EcsFallback
  import opened RouterModel
  import opened Upstream

  function Unstamped(items: seq<Item>): (r: seq<Item>)
    ensures |r| == |items| && forall i :: 0 <= i < |items| ==> r[i] == items[i].(storedAt := 0)
  {
    seq(|items|, i requires 0 <= i < |items| => items[i].(storedAt := 0))
  }

  /** The items hold these values, whatever their time stamps. */
  ghost predicate Holds(items: seq<RRCacheItem>, values: seq<Item>)
    reads items
  {
    Unstamped(Values(items)) == values
  }

  function SoFar(groups: map<GroupKey, seq<Item>>, g: GroupKey): seq<Item> {
    if g in groups then groups[g] else []
  }

  /** What the first i records of an answer contribute to each group, record by record. */
  function Grouped(msg: Msg, i: nat): map<GroupKey, seq<Item>>
    requires i <= |msg.answer|
  {
    if i == 0 then map[]
    else
      var before, rr := Grouped(msg, i - 1), msg.answer[i - 1];
      before[KeyOf(rr) := SoFar(before, KeyOf(rr)) + [NewItem(msg, rr)]]
  }

  lemma NoItemsYet(msg: Msg, g: GroupKey)
    requires msg.answer == []
    ensures ItemsOf(msg, g) == []
  {
  }

  lemma GroupedStep(msg: Msg, i: nat, g: GroupKey)
    requires 0 < i <= |msg.answer|
    ensures var rr := msg.answer[i - 1];
            SoFar(Grouped(msg, i), g)
            == SoFar(Grouped(msg, i - 1), g) + (if KeyOf(rr) == g then [NewItem(msg, rr)] else [])
  {
    var before, rr := Grouped(msg, i - 1), msg.answer[i - 1];
    assert Grouped(msg, i) == before[KeyOf(rr) := SoFar(before, KeyOf(rr)) + [NewItem(msg, rr)]];
    AppendNothing(SoFar(before, g));
  }

  ghost predicate NoEmptyGroup(groups: map<GroupKey, seq<Item>>) {
    forall g :: g in groups ==> |groups[g]| > 0
  }

  lemma OneMoreItem(groups: map<GroupKey, seq<Item>>, g: GroupKey, x: Item)
    requires NoEmptyGroup(groups)
    ensures NoEmptyGroup(groups[g := SoFar(groups, g) + [x]])
  {
  }

  lemma {:induction false} GroupedNotEmpty(msg: Msg, i: nat)
    requires i <= |msg.answer|
    ensures NoEmptyGroup(Grouped(msg, i))
    decreases i
  {
    if i > 0 {
      GroupedNotEmpty(msg, i - 1);
      OneMoreItem(Grouped(msg, i - 1), KeyOf(msg.answer[i - 1]), NewItem(msg, msg.answer[i - 1]));
    }
  }

  /** Record by record gives the same as group by group. */
  lemma {:induction false} GroupedIsItemsOf(msg: Msg, i: nat, g: GroupKey)
    requires i <= |msg.answer|
    ensures SoFar(Grouped(msg, i), g) == ItemsOf(msg.(answer := msg.answer[..i]), g)
    decreases i
  {
    if i == 0 {
      NoItemsYet(msg.(answer := msg.answer[..0]), g);
    } else {
      var answer, rr := msg.answer[..i - 1], msg.answer[i - 1];
      GroupedIsItemsOf(msg, i - 1, g);
      GroupedStep(msg, i, g);
      ItemsGrow(msg, answer, rr, g);
      TakeOneMore(msg.answer, i - 1);
    }
  }

  lemma ItemsGrow(msg: Msg, answer: seq<RR>, rr: RR, g: GroupKey)
    ensures ItemsOf(msg.(answer := answer + [rr]), g)
         == ItemsOf(msg.(answer := answer), g) + (if KeyOf(rr) == g then [NewItem(msg, rr)] else [])
  {
    GroupGrows(answer, rr, g);
    var longer, before := ItemsOf(msg.(answer := answer + [rr]), g), ItemsOf(msg.(answer := answer), g);
    var after := before + if KeyOf(rr) == g then [NewItem(msg, rr)] else [];
    assert |longer| == |after|;
    forall i | 0 <= i < |longer|
      ensures longer[i] == after[i]
    {
    }
  }

  lemma AllGrouped(msg: Msg)
    ensures var all := Grouped(msg, |msg.answer|);
            all.Keys == GroupKeys(msg.answer) && forall g :: g in all ==> all[g] == ItemsOf(msg, g) != []
  {
    assert msg.answer[..|msg.answer|] == msg.answer;
    var all := Grouped(msg, |msg.answer|);
    forall g: GroupKey
      ensures g in all <==> g in GroupKeys(msg.answer)
      ensures g in all ==> all[g] == ItemsOf(msg, g) != []
    {
      GroupedIsItemsOf(msg, |msg.answer|, g);
      GroupedNotEmpty(msg, |msg.answer|);
      GroupNonEmpty(msg.answer, g);
      assert msg.(answer := msg.answer[..|msg.answer|]) == msg;
    }
  }

  lemma UnstampedAppend(items: seq<RRCacheItem>, x: RRCacheItem)
    ensures Unstamped(Values(items + [x])) == Unstamped(Values(items)) + [x.Value().(storedAt := 0)]
  {
    ValuesAppend(items, x);
  }

  /** Appends a fresh item for a record to a list. */
  method AppendItem(list: seq<RRCacheItem>, msg: Msg, rr: RR, clock: Clock, ghost values: seq<Item>)
    returns (longer: seq<RRCacheItem>, ghost item: RRCacheItem)
    requires Holds(list, values)
    modifies clock
    ensures old(clock.now) <= clock.now
    ensures fresh(item) && item.rr == rr && forall x :: x in longer ==> x in list || x == item
    ensures Holds(longer, values + [NewItem(msg, rr)])
  {
    var now := clock.Read();
    var x := new RRCacheItem(rr, rr.ttl, now, msg.rcode, msg.authData, msg.recurAvail);
    UnstampedAppend(list, x);
    return list + [x], x;
  }

  /** The lists of items mirror the wanted values, and every item carries a record of its own group. */
  ghost predicate Mirrors(grouped: map<GroupKey, seq<RRCacheItem>>, want: map<GroupKey, seq<Item>>,
                          items: set<RRCacheItem>)
    reads items
  {
    && grouped.Keys == want.Keys
    && (forall g, x :: g in grouped && x in grouped[g] ==> x in items && KeyOf(x.rr) == g)
    && (forall g :: g in grouped ==> Holds(grouped[g], want[g]))
  }

  method AddToGroup(grouped: map<GroupKey, seq<RRCacheItem>>, msg: Msg, rr: RR, clock: Clock,
                    ghost want: map<GroupKey, seq<Item>>, ghost items: set<RRCacheItem>)
    returns (more: map<GroupKey, seq<RRCacheItem>>, ghost moreItems: set<RRCacheItem>)
    requires Mirrors(grouped, want, items)
    modifies clock
    ensures old(clock.now) <= clock.now && items <= moreItems && fresh(moreItems - items)
    ensures Mirrors(more, want[KeyOf(rr) := SoFar(want, KeyOf(rr)) + [NewItem(msg, rr)]], moreItems)
  {
    var key := KeyOf(rr);
    var list := if key in grouped then grouped[key] else [];
    var longer;
    ghost var item;
    longer, item := AppendItem(list, msg, rr, clock, SoFar(want, key));
    more, moreItems := grouped[key := longer], items + {item};
  }

  /** The first loop of cacheResponse: one fresh item per record, appended to the list of its group. */
  method GroupAnswer(msg: Msg, clock: Clock)
    returns (grouped: map<GroupKey, seq<RRCacheItem>>, ghost items: set<RRCacheItem>)
    modifies clock
    ensures old(clock.now) <= clock.now && fresh(items)
    ensures Mirrors(grouped, Grouped(msg, |msg.answer|), items)
  {
    grouped, items := map[], {};
    for i := 0 to |msg.answer|
      invariant old(clock.now) <= clock.now && fresh(items)
      invariant Mirrors(grouped, Grouped(msg, i), items)
    {
      grouped, items := AddToGroup(grouped, msg, msg.answer[i], clock, Grouped(msg, i), items);
    }
  }

  lemma StampUnstamped(items: seq<Item>, maxTTL: Duration, now: int)
    ensures Stamp(Unstamped(items), maxTTL, now) == Stamp(items, maxTTL, now)
  {
  }

  lemma WriteOneMore(store: Store, msg: Msg, maxTTL: Duration, writes: Writes, w: (GroupKey, int))
    ensures CacheWrites(store, msg, maxTTL, writes + [w])
            == WriteGroup(CacheWrites(store, msg, maxTTL, writes), msg, maxTTL, w)
  {
    assert (writes + [w])[..|writes|] == writes;
  }

  lemma WrittenOneMore(writes: Writes, w: (GroupKey, int))
    requires NoRepeats(writes) && w.0 !in Written(writes)
    ensures Written(writes + [w]) == Written(writes) + {w.0} && NoRepeats(writes + [w])
  {
    var more := writes + [w];
    assert more[|writes|].0 == w.0;
    assert forall i :: 0 <= i < |writes| ==> more[i].0 == writes[i].0 && writes[i].0 in Written(writes);
  }

  /** Each of these groups has been written once, between two instants. */
  ghost predicate Filed(writes: Writes, groups: set<GroupKey>, lo: int, hi: int) {
    Written(writes) == groups && NoRepeats(writes) && forall i :: 0 <= i < |writes| ==> lo <= writes[i].1 <= hi
  }

  lemma FiledOneMore(writes: Writes, groups: set<GroupKey>, lo: int, hi: int, w: (GroupKey, int))
    requires Filed(writes, groups, lo, hi) && w.0 !in groups && lo <= hi <= w.1
    ensures Filed(writes + [w], groups + {w.0}, lo, w.1)
  {
    WrittenOneMore(writes, w);
  }

  /** Files one group: what SetRRs does to the store, whatever the items' old time stamps were. */
  method FileGroup(c: MemoryDNSCache, clock: Clock, msg: Msg, g: GroupKey, items: seq<RRCacheItem>)
    returns (ghost at: int)
    requires c.Valid() && Holds(items, ItemsOf(msg, g)) && items != []
    requires forall x :: x in items ==> x !in c.filed
    modifies c`storage, c`filed, clock, items
    ensures c.Valid() && old(clock.now) <= at == clock.now
    ensures c.filed == old(c.filed) + set x | x in items
    ensures c.Abs() == WriteGroup(old(c.Abs()), msg, c.maxTTL, (g, at))
  {
    ghost var values := Values(items);
    at := c.SetRRs(clock, g.name, g.rtype, items);
    StampUnstamped(values, c.maxTTL, at);
  }

  method FileNext(c: MemoryDNSCache, clock: Clock, msg: Msg, g: GroupKey, items: seq<RRCacheItem>,
                  ghost before: Store, ghost start: int, ghost done: set<GroupKey>, ghost writes: Writes)
    returns (ghost more: Writes)
    requires c.Valid() && Holds(items, ItemsOf(msg, g)) && items != []
    requires forall x :: x in items ==> x !in c.filed
    requires Filed(writes, done, start, clock.now) && g !in done && start <= clock.now
    requires c.Abs() == CacheWrites(before, msg, c.maxTTL, writes)
    modifies c`storage, c`filed, clock, items
    ensures c.Valid() && start <= clock.now
    ensures c.filed == old(c.filed) + set x | x in items
    ensures Filed(more, done + {g}, start, clock.now)
    ensures c.Abs() == CacheWrites(before, msg, c.maxTTL, more)
  {
    ghost var last := clock.now;
    ghost var at := FileGroup(c, clock, msg, g, items);
    WriteOneMore(before, msg, c.maxTTL, writes, (g, at));
    FiledOneMore(writes, done, start, last, (g, at));
    more := writes + [(g, at)];
  }

  lemma OneFewer<T>(all: set<T>, todo: set<T>, x: T)
    requires x in todo && todo <= all
    ensures all - todo + {x} == all - (todo - {x})
  {
  }

  /** The items of these groups hold what they should and have not been filed. */
  ghost predicate Waiting(c: MemoryDNSCache, grouped: map<GroupKey, seq<RRCacheItem>>, want: map<GroupKey, seq<Item>>,
                          items: set<RRCacheItem>, todo: set<GroupKey>)
    requires todo <= grouped.Keys == want.Keys
    requires forall g, x :: g in grouped && x in grouped[g] ==> x in items
    reads c, items
  {
    forall g :: g in todo ==> Holds(grouped[g], want[g]) && forall x :: x in grouped[g] ==> x !in c.filed
  }

  method FileOneOf(c: MemoryDNSCache, clock: Clock, msg: Msg, grouped: map<GroupKey, seq<RRCacheItem>>,
                   ghost want: map<GroupKey, seq<Item>>, ghost items: set<RRCacheItem>, ghost todo: set<GroupKey>,
                   g: GroupKey, ghost before: Store, ghost start: int, ghost writes: Writes)
    returns (ghost more: Writes)
    requires c.Valid() && g in todo && todo <= grouped.Keys == want.Keys && want[g] == ItemsOf(msg, g) != []
    requires forall h, x :: h in grouped && x in grouped[h] ==> x in items && KeyOf(x.rr) == h
    requires Waiting(c, grouped, want, items, todo)
    requires Filed(writes, grouped.Keys - todo, start, clock.now) && start <= clock.now
    requires c.Abs() == CacheWrites(before, msg, c.maxTTL, writes)
    modifies c`storage, c`filed, clock, items
    ensures c.Valid() && start <= clock.now
    ensures Waiting(c, grouped, want, items, todo - {g})
    ensures Filed(more, grouped.Keys - todo + {g}, start, clock.now)
    ensures c.Abs() == CacheWrites(before, msg, c.maxTTL, more)
  {
    more := FileNext(c, clock, msg, g, grouped[g], before, start, grouped.Keys - todo, writes);
  }

  /** The second loop of cacheResponse: files the groups in the arbitrary order of a map. */
  method FileGroups(c: MemoryDNSCache, clock: Clock, msg: Msg, grouped: map<GroupKey, seq<RRCacheItem>>,
                    ghost want: map<GroupKey, seq<Item>>, ghost items: set<RRCacheItem>) returns (ghost writes: Writes)
    requires c.Valid() && grouped.Keys == want.Keys
    requires forall g :: g in grouped ==> want[g] == ItemsOf(msg, g) != []
    requires forall g, x :: g in grouped && x in grouped[g] ==> x in items && KeyOf(x.rr) == g
    requires Waiting(c, grouped, want, items, grouped.Keys)
    modifies c`storage, c`filed, clock, items
    ensures c.Valid() && old(clock.now) <= clock.now
    ensures Filed(writes, grouped.Keys, old(clock.now), clock.now)
    ensures c.Abs() == CacheWrites(old(c.Abs()), msg, c.maxTTL, writes)
  {
    ghost var before, start := c.Abs(), clock.now;
    var todo := grouped.Keys;
    writes := [];
    while todo != {}
      invariant c.Valid() && start <= clock.now
      invariant todo <= grouped.Keys && Filed(writes, grouped.Keys - todo, start, clock.now)
      invariant c.Abs() == CacheWrites(before, msg, c.maxTTL, writes)
      invariant Waiting(c, grouped, want, items, todo)
      decreases todo
    {
      var g :| g in todo;
      writes := FileOneOf(c, clock, msg, grouped, want, items, todo, g, before, start, writes);
      OneFewer(grouped.Keys, todo, g);
      todo := todo - {g};
    }
  }

  /** Groups the answer by owner and type and files every group. */
  method CacheResponse(c: MemoryDNSCache, clock: Clock, msg: Msg) returns (ghost writes: Writes)
    requires c.Valid()
    modifies c`storage, c`filed, clock
    ensures c.Valid() && old(clock.now) <= clock.now
    ensures ValidWrites(msg.answer, writes, old(clock.now), clock.now)
    ensures c.Abs() == CacheWrites(old(c.Abs()), msg, c.maxTTL, writes)
  {
    label Before:
    var grouped;
    ghost var items;
    grouped, items := GroupAnswer(msg, clock);
    c.Untouched@Before();
    AllGrouped(msg);
    writes := FileGroups(c, clock, msg, grouped, Grouped(msg, |msg.answer|), items);
  }

  // ---- helpers with loops of their own ----

  method FilterRRs(rrs: seq<RR>) returns (kept: seq<RR>)
    ensures kept == WithoutHTTPS(rrs)
  {
    kept := [];
    for i := 0 to |rrs|
      invariant kept == WithoutHTTPS(rrs[..i])
    {
      TakeTake(rrs, i);
      if !IsHTTPS(rrs[i]) {
        kept := kept + [rrs[i]];
      }
    }
    assert rrs[..|rrs|] == rrs;
  }

  method FilterMsg(msg: Msg, disableHTTPS: bool) returns (m: Msg)
    ensures m == Filtered(msg, disableHTTPS)
  {
    m := msg;
    if disableHTTPS {
      var answer := FilterRRs(m.answer);
      m := m.(answer := answer);
      var extra := FilterRRs(m.extra);
      m := m.(extra := extra);
    }
  }

  /** Every address must match some rule; the first that does not decides. */
  method ValidateIPs(answer: seq<RR>, rules: seq<string>, geo: Geo) returns (ok: bool)
    ensures ok <==>
            forall x :: x in answer && (x.data.V4? || x.data.V6?) ==> exists r :: r in rules && geo(x.data.addr, r)
  {
    ExpectedIff(answer, rules, geo);
    var ips := ExtractIPs(answer);
    for i := 0 to |ips|
      invariant forall j :: 0 <= j < i ==> MatchAny(geo, ips[j], rules)
    {
      var matched := false;
      for r := 0 to |rules|
        invariant matched <==> exists k :: 0 <= k < r && geo(ips[i], rules[k])
      {
        if geo(ips[i], rules[r]) {
          matched := true;
        }
      }
      if !matched {
        assert ips[i] in ips && !MatchAny(geo, ips[i], rules);
        return false;
      }
    }
    return true;
  }

  /** Whether some address of the answer matches some rule. */
  method AnyAddressMatches(answer: seq<RR>, rules: seq<string>, geo: Geo) returns (hit: bool)
    ensures hit <==> exists x, r :: x in answer && (x.data.V4? || x.data.V6?) && r in rules && geo(x.data.addr, r)
    ensures hit <==> exists ip :: ip in ExtractIPs(answer) && MatchAny(geo, ip, rules)
  {
    MatchesIff(answer, rules, geo);
    var ips := ExtractIPs(answer);
    for i := 0 to |ips|
      invariant forall j :: 0 <= j < i ==> !MatchAny(geo, ips[j], rules)
    {
      if MatchAny(geo, ips[i], rules) {
        assert ips[i] in ips;
        return true;
      }
    }
    return false;
  }

  /**
   * The select loop: two rounds, each taking any event that is ready - a result not taken yet, or the timer,
   * which fires once. Leaving the select at the timeout does not leave the loop.
   */
  method Collect(ecsResult: Option<Msg>, proxyResult: Option<Msg>)
    returns (proxyECSResp: Option<Msg>, proxyResp: Option<Msg>, ghost gotEcs: bool, ghost gotProxy: bool)
    ensures SomeRunLeaves(Replies(ecsResult, proxyResult), proxyECSResp, proxyResp)
    ensures gotEcs || gotProxy
    ensures proxyECSResp == (if gotEcs then ecsResult else None)
            && proxyResp == (if gotProxy then proxyResult else None)
  {
    var tookEcs, tookProxy, timedOut := false, false, false;
    proxyECSResp, proxyResp := None, None;
    for i := 0 to ROUNDS
      invariant i == One(tookEcs) + One(tookProxy) + One(timedOut)
      invariant proxyECSResp == (if tookEcs then ecsResult else None)
      invariant proxyResp == (if tookProxy then proxyResult else None)
    {
      if {
        case !tookEcs => proxyECSResp, tookEcs := ecsResult, true;
        case !tookProxy => proxyResp, tookProxy := proxyResult, true;
        case !timedOut => timedOut := true;
      }
    }
    gotEcs, gotProxy := tookEcs, tookProxy;
    RunsLeaveExactly(Replies(ecsResult, proxyResult), proxyECSResp, proxyResp);
  }

  // ---- the router ----

  class Router {
    const matcher: Matcher
    var policies: seq<Policy>
    const upstreamMgr: Manager
    const geo: Geo
    const dnsCache: MemoryDNSCache
    const categoryCache: MemoryCategoryCache
    const fallbackRules: seq<string>
    const clock: Clock
    /** Category writes that were started in the background and have not happened yet. */
    var pending: seq<(string, string)>

    constructor (matcher: Matcher, upstreamMgr: Manager, geo: Geo, dnsCache: MemoryDNSCache,
                 categoryCache: MemoryCategoryCache, fallbackRules: seq<string>, clock: Clock)
      requires dnsCache.Valid() && matcher.categoryCache == categoryCache
      ensures Valid() && policies == [] && pending == []
      ensures this.matcher == matcher && this.upstreamMgr == upstreamMgr && this.geo == geo && this.dnsCache == dnsCache
      ensures this.categoryCache == categoryCache && this.fallbackRules == fallbackRules && this.clock == clock
    {
      this.matcher, this.policies, this.upstreamMgr, this.geo := matcher, [], upstreamMgr, geo;
      this.dnsCache, this.categoryCache, this.fallbackRules := dnsCache, categoryCache, fallbackRules;
      this.clock, this.pending := clock, [];
    }

    ghost predicate Valid()
      reads this, dnsCache
    {
      dnsCache.Valid() && matcher.categoryCache == categoryCache
    }

    ghost function Settings(): Setting
      reads this, upstreamMgr, categoryCache
    {
      Setting(policies, categoryCache.data, fallbackRules, geo, upstreamMgr.groups.Keys, upstreamMgr.answers)
    }

    method AddPolicy(policy: Policy)
      requires Valid()
      modifies this`policies
      ensures Valid() && policies == old(policies) + [policy]
    {
      policies := policies + [policy];
    }

    /** One background write happens; which one is up to the scheduler. */
    method RunPending()
      requires Valid() && pending != []
      modifies this`pending, categoryCache
      ensures Valid()
      ensures exists i :: 0 <= i < |old(pending)|
                && pending == old(pending)[..i] + old(pending)[i + 1..]
                && categoryCache.data == old(categoryCache.data)[old(pending)[i].0 := old(pending)[i].1]
    {
      var i: nat :| i < |pending|;
      categoryCache.Set(pending[i].0, pending[i].1);
      pending := pending[..i] + pending[i + 1..];
    }

    method FindPolicyNamed(groupName: string) returns (p: Policy)
      ensures p == FindPolicy(policies, groupName)
      ensures if exists q :: q in policies && q.name == groupName then p in policies && p.name == groupName
              else p == Policy("unknown", "proxy_ecs_fallback", Options(false, false, [], "", ""))
    {
      for i := 0 to |policies|
        invariant FindPolicy(policies, groupName) == FindPolicy(policies[i..], groupName)
        invariant forall j :: 0 <= j < i ==> policies[j].name != groupName
      {
        if policies[i].name == groupName {
          return policies[i];
        }
      }
      return DEFAULT_POLICY;
    }

    method AskGroup(group: string, name: string, qtype: uint16) returns (resp: Option<Msg>)
      requires Valid()
      modifies clock, upstreamMgr`calls, upstreamMgr`asked
      ensures Valid() && old(clock.now) <= clock.now && dnsCache.Abs() == old(dnsCache.Abs())
              && Settings() == old(Settings())
      ensures resp == Ask(Settings(), group, name, qtype, old(upstreamMgr.calls))
      ensures upstreamMgr.calls == old(upstreamMgr.calls) + 1 && upstreamMgr.asked == old(upstreamMgr.asked) + [group]
    {
      resp := upstreamMgr.Query(clock, group, name, qtype);
      dnsCache.Untouched();
    }

    /** What a call has done besides replying: cache writes, background writes started, groups asked. */
    twostate predicate Did(out: Outcome, domain: string)
      requires old(Valid())
      reads this, dnsCache, dnsCache.filed, upstreamMgr, clock, categoryCache
    {
      && Valid() && old(clock.now) <= clock.now && Settings() == old(Settings())
      && dnsCache.Abs() == WriteAll(old(dnsCache.Abs()), dnsCache.maxTTL, out.cached)
      && (forall c :: c in out.cached ==> ValidWrites(c.0.answer, c.1, old(clock.now), clock.now))
      && pending == old(pending) + (match out.learned case Some(category) => [(domain, category)] case None => [])
      && upstreamMgr.calls == old(upstreamMgr.calls) + |out.asked|
      && upstreamMgr.asked == old(upstreamMgr.asked) + out.asked
    }

    /** Filters and caches a reply as the options say and starts the background write of the category. */
    method Finish(msg: Msg, options: Options, domain: string, category: string)
      returns (reply: Msg, ghost writes: Writes)
      requires Valid()
      modifies this`pending, dnsCache`storage, dnsCache`filed, clock
      ensures Did(Deliver(msg, options, writes, category, []), domain)
      ensures Some(reply) == Deliver(msg, options, writes, category, []).reply
    {
      reply := FilterMsg(msg, options.disableHTTPS);
      writes := [];
      label Filter:
      dnsCache.Untouched();
      if !options.disableCache {
        writes := CacheResponse(dnsCache, clock, reply);
      }
      WriteAllOne(old(dnsCache.Abs()), dnsCache.maxTTL, reply, writes);
      label Cached:
      pending := pending + [(domain, category)];
      dnsCache.Untouched@Cached();
    }

    /** The two concurrent queries and the select loop. */
    method AskBoth(domain: string, qtype: uint16)
      returns (proxyECSResp: Option<Msg>, proxyResp: Option<Msg>, ghost gotEcs: bool, ghost gotProxy: bool)
      requires Valid()
      modifies clock, upstreamMgr`calls, upstreamMgr`asked
      ensures Valid() && old(clock.now) <= clock.now && dnsCache.Abs() == old(dnsCache.Abs())
              && Settings() == old(Settings())
      ensures gotEcs || gotProxy
      ensures proxyECSResp
           == if gotEcs then Ask(old(Settings()), PROXY_ECS, domain, qtype, old(upstreamMgr.calls)) else None
      ensures proxyResp
           == if gotProxy then Ask(old(Settings()), PROXY, domain, qtype, old(upstreamMgr.calls) + 1) else None
      ensures upstreamMgr.calls == old(upstreamMgr.calls) + 2
      ensures upstreamMgr.asked == old(upstreamMgr.asked) + [PROXY_ECS, PROXY]
    {
      var ecsResult := AskGroup(PROXY_ECS, domain, qtype);
      var proxyResult := AskGroup(PROXY, domain, qtype);
      ConcatAssoc(old(upstreamMgr.asked), [PROXY_ECS], [PROXY]);
      proxyECSResp, proxyResp, gotEcs, gotProxy := Collect(ecsResult, proxyResult);
    }

    /** The fan-out and the decision, with its query to the direct group. */
    method Choose(domain: string, qtype: uint16)
      returns (msg: Option<Msg>, category: string, ghost gotEcs: bool, ghost gotProxy: bool, ghost c: Chosen)
      requires Valid()
      modifies clock, upstreamMgr`calls, upstreamMgr`asked
      ensures Valid() && old(clock.now) <= clock.now && dnsCache.Abs() == old(dnsCache.Abs())
              && Settings() == old(Settings())
      ensures gotEcs || gotProxy
      ensures c == EcsChoice(old(Settings()), domain, qtype, gotEcs, gotProxy, old(upstreamMgr.calls))
      ensures msg == c.msg && category == c.category
      ensures upstreamMgr.calls == old(upstreamMgr.calls) + |c.asked|
              && upstreamMgr.asked == old(upstreamMgr.asked) + c.asked
    {
      ConcatAssoc(old(upstreamMgr.asked), [PROXY_ECS, PROXY], [DIRECT]);
      var proxyECSResp, proxyResp;
      proxyECSResp, proxyResp, gotEcs, gotProxy := AskBoth(domain, qtype);
      c := EcsChoice(old(Settings()), domain, qtype, gotEcs, gotProxy, old(upstreamMgr.calls));
      if proxyECSResp.Some? {
        var toDirect := AnyAddressMatches(proxyECSResp.value.answer, fallbackRules, geo);
        if toDirect {
          msg := AskGroup(DIRECT, domain, qtype);
          return msg, DIRECT_SITE, gotEcs, gotProxy, c;
        }
      }
      category := PROXY_SITE;
      msg := if proxyResp.Some? then proxyResp else proxyECSResp;
    }

    /** proxy_ecs_fallback: the chosen reply is filtered and cached and its category learned. */
    method HandleProxyECSFallback(domain: string, qtype: uint16, options: Options)
      returns (reply: Option<Msg>, ghost f: Fanout)
      requires Valid()
      modifies this`pending, dnsCache`storage, dnsCache`filed, clock, upstreamMgr`calls, upstreamMgr`asked
      ensures f.gotEcs || f.gotProxy
      ensures var out := EcsRoute(old(Settings()), domain, qtype, options, f, old(upstreamMgr.calls));
              Did(out, domain) && reply == out.reply
    {
      var chosen, category;
      ghost var gotEcs, gotProxy, c, writes;
      chosen, category, gotEcs, gotProxy, c := Choose(domain, qtype);
      if chosen.None? {
        f := Fanout(gotEcs, gotProxy, []);
        return None, f;
      }
      var m;
      m, writes := Finish(chosen.value, options, domain, category);
      f := Fanout(gotEcs, gotProxy, writes);
      reply := Some(m);
    }

    /** expected_ips: a reply with an unexpected address is replaced by the fallback group's or the fan-out's. */
    method HandleIPValidation(domain: string, qtype: uint16, target: string, cached: seq<RR>, msg: Msg, p: Policy)
      returns (reply: Option<Msg>, ghost f: Fanout)
      requires Valid()
      modifies this`pending, dnsCache`storage, dnsCache`filed, clock, upstreamMgr`calls, upstreamMgr`asked
      ensures f.gotEcs || f.gotProxy
      ensures var fits := AllExpected(msg.answer, p.options.expectedIPs, geo);
              var out := Validated(old(Settings()), domain, qtype, target, cached, msg, fits, p, f,
                                   old(upstreamMgr.calls));
              Did(out, domain) && reply == out.reply
    {
      f := Fanout(true, true, []);
      ExpectedIff(msg.answer, p.options.expectedIPs, geo);
      var validated := ValidateIPs(msg.answer, p.options.expectedIPs, geo);
      if validated {
        return Some(msg), f;
      }
      if p.options.fallbackGroup != "" {
        var resp := AskGroup(p.options.fallbackGroup, target, qtype);
        if resp.None? {
          return None, f;
        }
        return Some(Merge(domain, qtype, cached, resp.value)), f;
      }
      reply, f := HandleProxyECSFallback(domain, qtype, DEFAULT_POLICY.options);
    }

    /** Step 9 of Route: the addresses are checked only if the policy expects any. */
    method CheckAddresses(domain: string, qtype: uint16, target: string, cached: seq<RR>, msg: Msg, p: Policy)
      returns (reply: Option<Msg>, ghost f: Fanout, ghost v: Outcome)
      requires Valid()
      modifies this`pending, dnsCache`storage, dnsCache`filed, clock, upstreamMgr`calls, upstreamMgr`asked
      ensures v == Validated(old(Settings()), domain, qtype, target, cached, msg,
                             Fits(old(Settings()), msg, p.options), p, f,
                             old(upstreamMgr.calls))
      ensures f.gotEcs || f.gotProxy
      ensures Did(v, domain) && reply == v.reply
    {
      if |p.options.expectedIPs| > 0 {
        ghost var s, call := Settings(), upstreamMgr.calls;
        reply, f := HandleIPValidation(domain, qtype, target, cached, msg, p);
        v := Validated(s, domain, qtype, target, cached, msg, Fits(s, msg, p.options), p, f, call);
      } else {
        f, v := Fanout(true, true, []), Outcome(Some(msg), [], None, []);
        reply := Some(msg);
      }
    }

    /** Step 7 and 8 of Route: ask for the tail of the chain, merge, filter. */
    method QueryMerged(domain: string, qtype: uint16, w: WalkResult, p: Policy) returns (m: Option<Msg>)
      requires Valid()
      modifies clock, upstreamMgr`calls, upstreamMgr`asked
      ensures m == Merged(old(Settings()), domain, qtype, w, p, old(upstreamMgr.calls))
      ensures Valid() && old(clock.now) <= clock.now && dnsCache.Abs() == old(dnsCache.Abs())
              && Settings() == old(Settings())
      ensures upstreamMgr.calls == old(upstreamMgr.calls) + 1 && upstreamMgr.asked == old(upstreamMgr.asked) + [p.group]
    {
      var resp := AskGroup(p.group, Target(domain, w), qtype);
      if resp.None? {
        return None;
      }
      var msg := FilterMsg(Merge(domain, qtype, w.answers, resp.value), p.options.disableHTTPS);
      dnsCache.Untouched();
      m := Some(msg);
    }

    method QueryAndValidate(domain: string, qtype: uint16, w: WalkResult, p: Policy)
      returns (reply: Option<Msg>, ghost f: Fanout, ghost v: Outcome)
      requires Valid()
      modifies this`pending, dnsCache`storage, dnsCache`filed, clock, upstreamMgr`calls, upstreamMgr`asked
      ensures v == Answered(old(Settings()), domain, qtype, w, p, f, old(upstreamMgr.calls))
      ensures f.gotEcs || f.gotProxy
      ensures Did(v.(asked := [p.group] + v.asked), domain) && reply == v.reply
    {
      var m := QueryMerged(domain, qtype, w, p);
      if m.None? {
        reply, f, v := None, Fanout(true, true, []), Outcome(None, [], None, []);
      } else {
        reply, f, v := CheckAddresses(domain, qtype, Target(domain, w), w.answers, m.value, p);
      }
      ConcatAssoc(old(upstreamMgr.asked), [p.group], v.asked);
    }

    /** Step 10 of Route: the reply is cached unless there is none or the policy says no. */
    method CacheOuter(p: Policy, ghost v: Outcome, reply: Option<Msg>, ghost before: Store)
      returns (ghost outer: Writes)
      requires Valid() && reply == v.reply && dnsCache.Abs() == WriteAll(before, dnsCache.maxTTL, v.cached)
      modifies dnsCache`storage, dnsCache`filed, clock
      ensures Valid() && old(clock.now) <= clock.now && Settings() == old(Settings())
      ensures dnsCache.Abs() == WriteAll(before, dnsCache.maxTTL, WithOuter(v, p, outer).cached)
      ensures reply.Some? ==>
                p.options.disableCache || ValidWrites(reply.value.answer, outer, old(clock.now), clock.now)
    {
      outer := [];
      if reply.Some? && !p.options.disableCache {
        outer := CacheResponse(dnsCache, clock, reply.value);
        WriteAllMore(before, dnsCache.maxTTL, v.cached, reply.value, outer);
      }
    }

    /** Step 7 to 10 of Route: what the policy's group answers, checked and cached. */
    method RouteUpstream(domain: string, qtype: uint16, w: WalkResult, p: Policy)
      returns (reply: Option<Msg>, ghost f: Fanout, ghost outer: Writes, ghost out: Outcome)
      requires Valid()
      modifies this`pending, dnsCache`storage, dnsCache`filed, clock, upstreamMgr`calls, upstreamMgr`asked
      ensures out == UpstreamRoute(old(Settings()), domain, qtype, w, p, f, outer, old(upstreamMgr.calls))
      ensures f.gotEcs || f.gotProxy
      ensures Did(out, domain) && reply == out.reply
    {
      ghost var v;
      reply, f, v := QueryAndValidate(domain, qtype, w, p);
      ghost var mid := clock.now;
      outer := CacheOuter(p, v, reply, old(dnsCache.Abs()));
      out := WithOuter(v, p, outer);
      AllInBounds(v, p, outer, old(clock.now), mid, clock.now);
    }

    method HandleBlock(domain: string, qtype: uint16, blockType: string)
      returns (reply: Option<Msg>, ghost out: Outcome)
      requires Valid()
      ensures out == Outcome(Some(BlockReply(domain, qtype, blockType)), [], None, [])
      ensures Did(out, domain) && reply == out.reply
    {
      reply := Some(BlockReply(domain, qtype, blockType));
      out := Outcome(reply, [], None, []);
    }

    method HandleFanout(domain: string, qtype: uint16, options: Options)
      returns (reply: Option<Msg>, ghost f: Fanout, ghost out: Outcome)
      requires Valid()
      modifies this`pending, dnsCache`storage, dnsCache`filed, clock, upstreamMgr`calls, upstreamMgr`asked
      ensures f.gotEcs || f.gotProxy
      ensures out == EcsRoute(old(Settings()), domain, qtype, options, f, old(upstreamMgr.calls))
      ensures Did(out, domain) && reply == out.reply
    {
      ghost var s, call := Settings(), upstreamMgr.calls;
      reply, f := HandleProxyECSFallback(domain, qtype, options);
      out := EcsRoute(s, domain, qtype, options, f, call);
    }

    /** The branches below a full hit. */
    method RouteMiss(domain: string, qtype: uint16, w: WalkResult)
      returns (reply: Option<Msg>, ghost f: Fanout, ghost outer: Writes, ghost out: Outcome)
      requires Valid()
      modifies this`pending, dnsCache`storage, dnsCache`filed, clock, upstreamMgr`calls, upstreamMgr`asked
      ensures out == MissSpec(old(Settings()), domain, qtype, w, f, outer, old(upstreamMgr.calls))
      ensures f.gotEcs || f.gotProxy
      ensures Did(out, domain) && reply == out.reply
    {
      var groupName, matched := matcher.Match(domain);
      if !matched {
        groupName := UNKNOWN;
      }
      var policy := FindPolicyNamed(groupName);
      f, outer := Fanout(true, true, []), [];
      if policy.group == BLOCK {
        reply, out := HandleBlock(domain, qtype, policy.options.blockType);
      } else if policy.group == ECS_FALLBACK {
        reply, f, out := HandleFanout(domain, qtype, policy.options);
      } else {
        reply, f, outer, out := RouteUpstream(domain, qtype, w, policy);
      }
    }

    /** Step 1 of Route: what the cache has of the chain. */
    method ResolveCached(domain: string, qtype: uint16)
      returns (w: WalkResult, ghost now: int, ghost ts: Readings, ghost mid: Store)
      requires Valid()
      modifies dnsCache`storage, dnsCache`filed, clock
      ensures Valid() && Settings() == old(Settings())
      ensures old(clock.now) <= now <= clock.now && Ordered(ts, now, clock.now)
      ensures w == Walk(ViewOf(old(dnsCache.Abs())), Fqdn(domain), qtype, DEFAULT_DEPTH, now, ts)
      ensures mid == dnsCache.Abs() && SameView(old(dnsCache.Abs()), mid, clock.now)
      ensures !w.needUpstream ==> w.answers != []
    {
      var answers, needUpstream, target;
      answers, needUpstream, target, now, ts := ResolveCNAMEChain(dnsCache, clock, domain, qtype, DEFAULT_DEPTH);
      FullHitHasAnswer(ViewOf(old(dnsCache.Abs())), Fqdn(domain), qtype, DEFAULT_DEPTH, now, ts);
      OrderedBounds(ts, now, clock.now);
      w := WalkResult(answers, needUpstream, target);
      mid := dnsCache.Abs();
    }

    /** One query: the cache first, then the branch the policy chooses. */
    method Route(domain: string, qtype: uint16) returns (reply: Option<Msg>, ghost sch: Schedule, ghost out: Outcome)
      requires Valid()
      modifies this`pending, dnsCache`storage, dnsCache`filed, clock, upstreamMgr`calls, upstreamMgr`asked
      ensures out == RouteSpec(old(Settings()), old(dnsCache.Abs()), domain, qtype, sch)
      ensures reply == out.reply && Valid() && old(clock.now) <= clock.now && Settings() == old(Settings())
      ensures SameView(WriteAll(old(dnsCache.Abs()), dnsCache.maxTTL, out.cached), dnsCache.Abs(), clock.now)
      ensures forall c :: c in out.cached ==> ValidWrites(c.0.answer, c.1, sch.now, clock.now)
      ensures pending
           == old(pending) + (match out.learned case Some(category) => [(domain, category)] case None => [])
      ensures upstreamMgr.calls == old(upstreamMgr.calls) + |out.asked|
              && upstreamMgr.asked == old(upstreamMgr.asked) + out.asked
      ensures sch.firstCall == old(upstreamMgr.calls) && old(clock.now) <= sch.now
              && Ordered(sch.ts, sch.now, clock.now)
      ensures sch.fanout.gotEcs || sch.fanout.gotProxy
    {
      ghost var call, now, ts, mid := upstreamMgr.calls, 0, Tail(0, DEFAULT_DEPTH), map[];
      var w;
      w, now, ts, mid := ResolveCached(domain, qtype);
      ghost var at, f, outer := clock.now, Fanout(true, true, []), [];
      if w.needUpstream {
        reply, f, outer, out := RouteMiss(domain, qtype, w);
      } else {
        var shownTTL := w.answers[0].ttl;
        reply := Some(Question(domain, qtype).(answer := w.answers));
        out := Outcome(reply, [], None, []);
      }
      sch := Schedule(now, ts, f, outer, call);
      WriteAllLater(old(dnsCache.Abs()), mid, dnsCache.Abs(), dnsCache.maxTTL, out.cached, at, clock.now);
      OrderedLater(ts, now, at, clock.now);
      WidenWrites(out.cached, now, at, clock.now);
    }
  }

  lemma AllInBounds(v: Outcome, p: Policy, outer: Writes, lo: int, mid: int, hi: int)
    requires lo <= mid <= hi && forall c :: c in v.cached ==> ValidWrites(c.0.answer, c.1, lo, mid)
    requires v.reply.Some? ==> p.options.disableCache || ValidWrites(v.reply.value.answer, outer, mid, hi)
    ensures var out := WithOuter(v, p, outer);
            && out.reply == v.reply && out.learned == v.learned && out.asked == [p.group] + v.asked
            && forall c :: c in out.cached ==> ValidWrites(c.0.answer, c.1, lo, hi)
  {
  }

  lemma {:induction false} OrderedLater(ts: seq<Round>, lo: int, hi: int, later: int)
    requires Ordered(ts, lo, hi) && hi <= later
    ensures Ordered(ts, lo, later)
    decreases |ts|
  {
    if ts != [] {
      OrderedLater(ts[1..], ts[0].aliasAt, hi, later);
    }
  }

  lemma WriteAllLater(before: Store, mid: Store, after: Store, maxTTL: Duration, cached: seq<(Msg, Writes)>, at: int,
                      now: int)
    requires SameView(before, mid, at) && after == WriteAll(mid, maxTTL, cached) && at <= now
    ensures SameView(WriteAll(before, maxTTL, cached), after, now)
  {
    WriteAllRespectsView(before, mid, maxTTL, cached, at);
    ComposeViews(WriteAll(before, maxTTL, cached), after, after, at, now);
  }

  lemma WidenWrites(cached: seq<(Msg, Writes)>, lo: int, from: int, hi: int)
    requires lo <= from && forall x :: x in cached ==> ValidWrites(x.0.answer, x.1, from, hi)
    ensures forall x :: x in cached ==> ValidWrites(x.0.answer, x.1, lo, hi)
  {
  }

  lemma WriteAllMore(store: Store, maxTTL: Duration, cached: seq<(Msg, Writes)>, m: Msg, writes: Writes)
    ensures WriteAll(store, maxTTL, cached + [(m, writes)])
            == CacheWrites(WriteAll(store, maxTTL, cached), m, maxTTL, writes)
  {
    assert (cached + [(m, writes)])[..|cached|] == cached;
  }
}
