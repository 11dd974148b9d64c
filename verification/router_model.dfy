/** One Route call as a function of the cache, the settings and the choices of time and scheduling. */
module RouterModel {
  import opened Dns
  import opened CacheModel
  import opened ChainWalk
  import Matching
  import opened EcsFallback

  // ---- policies ----

  datatype Options = Options(disableCache: bool, disableHTTPS: bool, expectedIPs: seq<string>,
                             fallbackGroup: string, blockType: string)

  datatype Policy = Policy(name: string, group: string, options: Options)

  const BLOCK := "block"
  const ECS_FALLBACK := "proxy_ecs_fallback"
  const UNKNOWN := "unknown"
  const PROXY := "proxy"
  const PROXY_ECS := "proxy_ecs"
  const DIRECT := "direct"
  const PROXY_SITE := "proxy_site"
  const DIRECT_SITE := "direct_site"

  const DEFAULT_POLICY := Policy(UNKNOWN, ECS_FALLBACK, Options(false, false, [], "", ""))

  /** The first policy of that name, or the default one. */
  function FindPolicy(policies: seq<Policy>, name: string): Policy {
    if policies == [] then DEFAULT_POLICY
    else if policies[0].name == name then policies[0]
    else FindPolicy(policies[1..], name)
  }

  // ---- messages ----

  function Merge(qname: string, qtype: uint16, cached: seq<RR>, resp: Msg): Msg {
    Question(qname, qtype).(rcode := resp.rcode, authData := resp.authData, recurAvail := resp.recurAvail,
    answer := cached + resp.answer)
  }

  predicate IsHTTPS(rr: RR) {
    rr.rtype == TYPE_SVCB || rr.rtype == TYPE_HTTPS
  }

  function WithoutHTTPS(rrs: seq<RR>): seq<RR> {
    if rrs == [] then []
    else
      var n := |rrs| - 1;
      WithoutHTTPS(rrs[..n]) + (if IsHTTPS(rrs[n]) then [] else [rrs[n]])
  }

  function Filtered(msg: Msg, disableHTTPS: bool): Msg {
    if disableHTTPS then msg.(answer := WithoutHTTPS(msg.answer), extra := WithoutHTTPS(msg.extra)) else msg
  }

  /** Every address of the answer matches one of the rules; no address is fine too. */
  predicate AllExpected(answer: seq<RR>, rules: seq<string>, geo: Geo) {
    forall ip :: ip in ExtractIPs(answer) ==> MatchAny(geo, ip, rules)
  }

  function BlockReply(domain: string, qtype: uint16, blockType: string): Msg {
    var m := Question(domain, qtype);
    if blockType == "noerror" then m
    else if blockType == "0.0.0.0" then
      m.(answer :=
      if qtype == TYPE_A then [RR(m.qname, TYPE_A, CLASS_INET, 60, V4("0.0.0.0"))]
      else if qtype == TYPE_AAAA then [RR(m.qname, TYPE_AAAA, CLASS_INET, 60, V6("::"))]
      else [])
    else m.(rcode := RCODE_NAME_ERROR)
  }

  // ---- writing an answer into the cache, group by group ----

  /** The order in which the groups were written and the clock reading of each write. */
  type Writes = seq<(GroupKey, int)>

  /** The cache items of one group of an answer, before they are stamped. */
  function ItemsOf(msg: Msg, g: GroupKey): (items: seq<Item>)
    ensures |items| == |GroupOf(msg.answer, g)|
    ensures forall i :: 0 <= i < |items| ==> items[i] == NewItem(msg, GroupOf(msg.answer, g)[i])
  {
    var rrs := GroupOf(msg.answer, g);
    seq(|rrs|, i requires 0 <= i < |rrs| => NewItem(msg, rrs[i]))
  }

  function NewItem(msg: Msg, rr: RR): Item {
    Item(rr, rr.ttl, 0, msg.rcode, msg.authData, msg.recurAvail)
  }

  function WriteGroup(store: Store, msg: Msg, maxTTL: Duration, w: (GroupKey, int)): Store {
    AfterSet(store, CacheKey(w.0.name, w.0.rtype), ItemsOf(msg, w.0), maxTTL, w.1)
  }

  function CacheWrites(store: Store, msg: Msg, maxTTL: Duration, writes: Writes): Store {
    if writes == [] then store
    else
      var n := |writes| - 1;
      WriteGroup(CacheWrites(store, msg, maxTTL, writes[..n]), msg, maxTTL, writes[n])
  }

  function Written(writes: Writes): set<GroupKey> {
    set i | 0 <= i < |writes| :: writes[i].0
  }

  function KeyAt(writes: Writes, i: nat): Key
    requires i < |writes|
  {
    CacheKey(writes[i].0.name, writes[i].0.rtype)
  }

  ghost predicate NoRepeats(writes: Writes) {
    forall i, j :: 0 <= i < j < |writes| ==> writes[i].0 != writes[j].0
  }

  /** Each group of the answer is written once, at a time within the bounds. */
  ghost predicate ValidWrites(answer: seq<RR>, writes: Writes, lo: int, hi: int) {
    && Written(writes) == GroupKeys(answer) && NoRepeats(writes)
    && (forall i :: 0 <= i < |writes| ==> lo <= writes[i].1 <= hi)
  }

  function WriteAll(store: Store, maxTTL: Duration, cached: seq<(Msg, Writes)>): Store {
    if cached == [] then store
    else
      var n := |cached| - 1;
      CacheWrites(WriteAll(store, maxTTL, cached[..n]), cached[n].0, maxTTL, cached[n].1)
  }

  lemma WriteAllOne(store: Store, maxTTL: Duration, m: Msg, writes: Writes)
    ensures WriteAll(store, maxTTL, [(m, writes)]) == CacheWrites(store, m, maxTTL, writes)
  {
    assert [(m, writes)][..0] == [];
  }

  // ---- one call ----

  /** What the upstream groups answer: by group, queried name, type and the number of the call. */
  type Answers = (string, string, uint16, nat) -> Option<Msg>

  datatype Setting = Setting(policies: seq<Policy>, categories: Matching.Table, rules: seq<string>, geo: Geo,
                             groups: set<string>, answers: Answers)

  /** The clock readings of a walk of the default depth. */
  type Readings = ts: seq<Round> | |ts| >= DEFAULT_DEPTH witness Tail(0, DEFAULT_DEPTH)

  /** The choices of one call: clock readings of the walk, the fan-out, cache writes, upstream calls. */
  datatype Schedule = Schedule(now: int, ts: Readings, fanout: Fanout, outer: Writes, firstCall: nat)

  /** What the fan-out received, and the cache writes it made. */
  datatype Fanout = Fanout(gotEcs: bool, gotProxy: bool, writes: Writes)

  datatype Outcome = Outcome(reply: Option<Msg>, cached: seq<(Msg, Writes)>, learned: Option<string>,
                             asked: seq<string>)

  function Ask(s: Setting, group: string, name: string, qtype: uint16, call: nat): Option<Msg> {
    if group in s.groups then s.answers(group, Fqdn(name), qtype, call) else None
  }

  function PolicyFor(s: Setting, domain: string): Policy {
    FindPolicy(s.policies, Matching.MatchSpec(s.categories, domain).Get(UNKNOWN))
  }

  /** The cached part of a reply: the walk from the queried name with the default depth. */
  function CachedPart(store: Store, domain: string, qtype: uint16, sch: Schedule): WalkResult
  {
    Walk(ViewOf(store), Fqdn(domain), qtype, DEFAULT_DEPTH, sch.now, sch.ts)
  }

  /** A reply that is filtered and cached as the policy says. */
  function Deliver(msg: Msg, options: Options, writes: Writes, learned: string, asked: seq<string>): Outcome {
    var m := Filtered(msg, options.disableHTTPS);
    Outcome(Some(m), if options.disableCache then [] else [(m, writes)], Some(learned), asked)
  }

  /** The message the fan-out settles on, the category it stands for and the groups asked on the way. */
  datatype Chosen = Chosen(msg: Option<Msg>, category: string, asked: seq<string>)

  function EcsChoice(s: Setting, domain: string, qtype: uint16, gotEcs: bool, gotProxy: bool, call: nat): Chosen {
    var ecs := if gotEcs then Ask(s, PROXY_ECS, domain, qtype, call) else None;
    var proxy := if gotProxy then Ask(s, PROXY, domain, qtype, call + 1) else None;
    match Decide(ecs, proxy, s.rules, s.geo)
    case UseDirect => Chosen(Ask(s, DIRECT, domain, qtype, call + 2), DIRECT_SITE, [PROXY_ECS, PROXY, DIRECT])
    case UseProxy => Chosen(proxy, PROXY_SITE, [PROXY_ECS, PROXY])
    case UseEcs => Chosen(ecs, PROXY_SITE, [PROXY_ECS, PROXY])
    case Failed => Chosen(None, PROXY_SITE, [PROXY_ECS, PROXY])
  }

  function EcsRoute(s: Setting, domain: string, qtype: uint16, options: Options, f: Fanout, call: nat): Outcome {
    var c := EcsChoice(s, domain, qtype, f.gotEcs, f.gotProxy, call);
    match c.msg
    case Some(m) => Deliver(m, options, f.writes, c.category, c.asked)
    case None => Outcome(None, [], None, c.asked)
  }

  predicate Fits(s: Setting, msg: Msg, options: Options) {
    options.expectedIPs == [] || AllExpected(msg.answer, options.expectedIPs, s.geo)
  }

  /** A reply that does not fit expected_ips is replaced; the replacement is not checked or filtered again. */
  function Validated(s: Setting, domain: string, qtype: uint16, target: string, cached: seq<RR>, msg: Msg, fits: bool,
                     p: Policy, f: Fanout, call: nat): Outcome
  {
    if fits then
      Outcome(Some(msg), [], None, [])
    else if p.options.fallbackGroup != "" then
      match Ask(s, p.options.fallbackGroup, target, qtype, call)
      case Some(resp) => Outcome(Some(Merge(domain, qtype, cached, resp)), [], None, [p.options.fallbackGroup])
      case None => Outcome(None, [], None, [p.options.fallbackGroup])
    else
      EcsRoute(s, domain, qtype, DEFAULT_POLICY.options, f, call)
  }

  /** Ask the policy's group for the tail of the chain, merge it after the cached part, filter. */
  function Merged(s: Setting, domain: string, qtype: uint16, w: WalkResult, p: Policy, call: nat): Option<Msg> {
    match Ask(s, p.group, Target(domain, w), qtype, call)
    case Some(resp) => Some(Filtered(Merge(domain, qtype, w.answers, resp), p.options.disableHTTPS))
    case None => None
  }

  /** The name to ask upstream: the domain as it was given if nothing was cached, else where the walk stands. */
  function Target(domain: string, w: WalkResult): string {
    if w.answers == [] then domain else w.target
  }

  function Answered(s: Setting, domain: string, qtype: uint16, w: WalkResult, p: Policy, f: Fanout,
                    call: nat): Outcome {
    match Merged(s, domain, qtype, w, p, call)
    case None => Outcome(None, [], None, [])
    case Some(m) => Validated(s, domain, qtype, Target(domain, w), w.answers, m, Fits(s, m, p.options), p, f, call + 1)
  }

  /** Below a full hit, for a policy that names a group. */
  function UpstreamRoute(s: Setting, domain: string, qtype: uint16, w: WalkResult, p: Policy, f: Fanout, outer: Writes,
                         call: nat): Outcome
  {
    WithOuter(Answered(s, domain, qtype, w, p, f, call), p, outer)
  }

  /** The reply that Route itself caches, unless there is none or the policy says no. */
  function WithOuter(v: Outcome, p: Policy, outer: Writes): Outcome {
    var asked := [p.group] + v.asked;
    if v.reply == None || p.options.disableCache then v.(asked := asked)
    else v.(asked := asked, cached := v.cached + [(v.reply.value, outer)])
  }

  /** Below a full hit the policy of the domain decides. */
  function MissSpec(s: Setting, domain: string, qtype: uint16, w: WalkResult, f: Fanout, outer: Writes,
                    call: nat): Outcome {
    var p := PolicyFor(s, domain);
    if p.group == BLOCK then Outcome(Some(BlockReply(domain, qtype, p.options.blockType)), [], None, [])
    else if p.group == ECS_FALLBACK then EcsRoute(s, domain, qtype, p.options, f, call)
    else UpstreamRoute(s, domain, qtype, w, p, f, outer, call)
  }

  function RouteSpec(s: Setting, store: Store, domain: string, qtype: uint16, sch: Schedule): Outcome {
    var w := CachedPart(store, domain, qtype, sch);
    if w.needUpstream then MissSpec(s, domain, qtype, w, sch.fanout, sch.outer, sch.firstCall)
    else Outcome(Some(Question(domain, qtype).(answer := w.answers)), [], None, [])
  }

  /** No address of the answer is without a rule that it matches; an answer without addresses is fine too. */
  lemma ExpectedIff(answer: seq<RR>, rules: seq<string>, geo: Geo)
    ensures AllExpected(answer, rules, geo)
       <==> forall x :: x in answer && (x.data.V4? || x.data.V6?) ==> exists r :: r in rules && geo(x.data.addr, r)
  {
    AddressesOf(answer);
    if AllExpected(answer, rules, geo) {
      forall x | x in answer && (x.data.V4? || x.data.V6?)
        ensures exists r :: r in rules && geo(x.data.addr, r)
      {
        AddressIsTaken(answer, x, x.data.addr);
        assert MatchAny(geo, x.data.addr, rules);
      }
    }
  }

  /** Some address of the answer matches some rule. */
  lemma MatchesIff(answer: seq<RR>, rules: seq<string>, geo: Geo)
    ensures (exists ip :: ip in ExtractIPs(answer) && MatchAny(geo, ip, rules))
       <==> exists x, r :: x in answer && (x.data.V4? || x.data.V6?) && r in rules && geo(x.data.addr, r)
  {
    if ip :| ip in ExtractIPs(answer) && MatchAny(geo, ip, rules) {
      var x := AddressHasRecord(answer, ip);
      var r :| r in rules && geo(ip, r);
      assert x.data.addr == ip;
    }
    if x, r :| x in answer && (x.data.V4? || x.data.V6?) && r in rules && geo(x.data.addr, r) {
      AddressIsTaken(answer, x, x.data.addr);
      assert MatchAny(geo, x.data.addr, rules);
    }
  }

  /**
   * What the fan-out learns: direct_site exactly when the direct group gave the reply, which it is asked for
   * exactly when an A or AAAA record received from proxy_ecs matches a rule; proxy_site exactly when a reply
   * came from the other two, proxy first; and nothing exactly when there is no reply.
   */
  lemma LearnsWhoAnswered(s: Setting, domain: string, qtype: uint16, options: Options, f: Fanout, call: nat)
    ensures var out := EcsRoute(s, domain, qtype, options, f, call);
            var ecs := if f.gotEcs then Ask(s, "proxy_ecs", domain, qtype, call) else None;
            var proxy := if f.gotProxy then Ask(s, "proxy", domain, qtype, call + 1) else None;
            var direct := Ask(s, "direct", domain, qtype, call + 2);
            var toDirect := ecs.Some? && exists x, r :: x in ecs.value.answer && (x.data.V4? || x.data.V6?)
                                                        && r in s.rules && s.geo(x.data.addr, r);
            && out.asked == (if toDirect then ["proxy_ecs", "proxy", "direct"] else ["proxy_ecs", "proxy"])
            && (out.learned == Some("direct_site") <==> toDirect && out.reply.Some?)
            && (out.learned == Some("proxy_site") <==> !toDirect && out.reply.Some?)
            && (out.learned == None <==> out.reply == None)
            && var source := if toDirect then direct else if proxy.Some? then proxy else ecs;
               out.reply == match source case Some(m) => Some(Filtered(m, options.disableHTTPS)) case None => None
  {
    var ecs := if f.gotEcs then Ask(s, PROXY_ECS, domain, qtype, call) else None;
    if ecs.Some? {
      MatchesIff(ecs.value.answer, s.rules, s.geo);
    }
    assert DIRECT_SITE != PROXY_SITE by {
      assert |DIRECT_SITE| == 11 && |PROXY_SITE| == 10;
    }
  }

  // ---- what the writes do ----

  lemma {:induction false} CacheWritesElsewhere(store: Store, msg: Msg, maxTTL: Duration, writes: Writes, k: Key)
    requires forall i :: 0 <= i < |writes| ==> KeyAt(writes, i) != k
    ensures var after := CacheWrites(store, msg, maxTTL, writes);
            (k in after <==> k in store) && (k in store ==> after[k] == store[k])
    decreases |writes|
  {
    if writes != [] {
      var n := |writes| - 1;
      assert forall i :: 0 <= i < n ==> KeyAt(writes[..n], i) == KeyAt(writes, i);
      CacheWritesElsewhere(store, msg, maxTTL, writes[..n], k);
      assert KeyAt(writes, n) != k;
    }
  }

  lemma {:induction false} CacheWritesRespectView(a: Store, b: Store, msg: Msg, maxTTL: Duration, writes: Writes,
                                                  from: int)
    requires SameView(a, b, from)
    ensures SameView(CacheWrites(a, msg, maxTTL, writes), CacheWrites(b, msg, maxTTL, writes), from)
    decreases |writes|
  {
    if writes != [] {
      var n := |writes| - 1;
      var w := writes[n];
      CacheWritesRespectView(a, b, msg, maxTTL, writes[..n], from);
      SetRespectsView(CacheWrites(a, msg, maxTTL, writes[..n]), CacheWrites(b, msg, maxTTL, writes[..n]),
                      CacheKey(w.0.name, w.0.rtype), ItemsOf(msg, w.0), maxTTL, w.1, from);
    }
  }

  /** Nobody who cannot tell two stores apart can tell what the same calls have filed into them. */
  lemma {:induction false} WriteAllRespectsView(a: Store, b: Store, maxTTL: Duration, cached: seq<(Msg, Writes)>,
                                                from: int)
    requires SameView(a, b, from)
    ensures SameView(WriteAll(a, maxTTL, cached), WriteAll(b, maxTTL, cached), from)
    decreases |cached|
  {
    if cached != [] {
      var n := |cached| - 1;
      WriteAllRespectsView(a, b, maxTTL, cached[..n], from);
      CacheWritesRespectView(WriteAll(a, maxTTL, cached[..n]), WriteAll(b, maxTTL, cached[..n]), cached[n].0, maxTTL,
                             cached[n].1, from);
    }
  }

  /** Two groups of one type whose names differ only in the trailing dot would share a key. */
  ghost predicate NoClash(answer: seq<RR>) {
    forall g, h :: (g in GroupKeys(answer) && h in GroupKeys(answer)
                    && CacheKey(g.name, g.rtype) == CacheKey(h.name, h.rtype)) ==> g == h
  }

  /** Records as they come off the wire have fully qualified names, and then nothing clashes. */
  lemma WireNamesDoNotClash(answer: seq<RR>)
    requires forall x :: x in answer ==> IsFqdn(x.name)
    ensures NoClash(answer)
  {
    forall g | g in GroupKeys(answer)
      ensures IsFqdn(g.name)
    {
      var i :| 0 <= i < |answer| && KeyOf(answer[i]) == g;
      assert answer[i] in answer;
    }
  }

  lemma OneWrite(store: Store, msg: Msg, maxTTL: Duration, w: (GroupKey, int))
    ensures var after, k := WriteGroup(store, msg, maxTTL, w), CacheKey(w.0.name, w.0.rtype);
            && (ItemsOf(msg, w.0) != [] ==> k in after && after[k] == Stamp(ItemsOf(msg, w.0), maxTTL, w.1))
            && (forall j :: j != k ==> (j in after <==> j in store) && (j in store ==> after[j] == store[j]))
  {
  }

  lemma {:induction false} LastWriteWins(store: Store, msg: Msg, maxTTL: Duration, writes: Writes, i: nat, k: Key,
                                         items: seq<Item>)
    requires i < |writes| && k == KeyAt(writes, i)
    requires items == Stamp(ItemsOf(msg, writes[i].0), maxTTL, writes[i].1) && ItemsOf(msg, writes[i].0) != []
    requires forall j :: i < j < |writes| ==> KeyAt(writes, j) != k
    ensures var after := CacheWrites(store, msg, maxTTL, writes); k in after && after[k] == items
    decreases |writes|
  {
    var n := |writes| - 1;
    OneWrite(CacheWrites(store, msg, maxTTL, writes[..n]), msg, maxTTL, writes[n]);
    if i < n {
      assert forall j :: 0 <= j < n ==> KeyAt(writes[..n], j) == KeyAt(writes, j);
      LastWriteWins(store, msg, maxTTL, writes[..n], i, k, items);
      assert KeyAt(writes, n) != k;
    }
  }

  lemma GroupsToItems(answer: seq<RR>, writes: Writes, lo: int, hi: int, msg: Msg, i: nat)
    requires msg.answer == answer && ValidWrites(answer, writes, lo, hi) && i < |writes|
    ensures writes[i].0 in GroupKeys(answer) && ItemsOf(msg, writes[i].0) != []
  {
    assert writes[i].0 in Written(writes);
    GroupNonEmpty(answer, writes[i].0);
  }

  /**
   * What cacheResponse does to the whole store: afterwards each group's key holds exactly that group, in
   * answer order, clamped and stamped with its own store time, and no other key has changed.
   */
  lemma CacheWritesExactly(store: Store, msg: Msg, maxTTL: Duration, writes: Writes, lo: int, hi: int)
    requires NoClash(msg.answer) && ValidWrites(msg.answer, writes, lo, hi)
    ensures var after := CacheWrites(store, msg, maxTTL, writes);
            && (forall i :: 0 <= i < |writes| ==>
                              && KeyAt(writes, i) in after
                              && after[KeyAt(writes, i)] == Stamp(ItemsOf(msg, writes[i].0), maxTTL, writes[i].1))
            && (forall k :: (forall i :: 0 <= i < |writes| ==> KeyAt(writes, i) != k) ==>
                              (k in after <==> k in store) && (k in store ==> after[k] == store[k]))
  {
    var after := CacheWrites(store, msg, maxTTL, writes);
    forall i | 0 <= i < |writes|
      ensures KeyAt(writes, i) in after
      ensures after[KeyAt(writes, i)] == Stamp(ItemsOf(msg, writes[i].0), maxTTL, writes[i].1)
    {
      GroupsToItems(msg.answer, writes, lo, hi, msg, i);
      forall j | i < j < |writes|
        ensures KeyAt(writes, j) != KeyAt(writes, i)
      {
        GroupsToItems(msg.answer, writes, lo, hi, msg, j);
        assert writes[i].0 != writes[j].0;
      }
      LastWriteWins(store, msg, maxTTL, writes, i, KeyAt(writes, i),
                    Stamp(ItemsOf(msg, writes[i].0), maxTTL, writes[i].1));
    }
    forall k | forall i :: 0 <= i < |writes| ==> KeyAt(writes, i) != k
      ensures (k in after <==> k in store) && (k in store ==> after[k] == store[k])
    {
      CacheWritesElsewhere(store, msg, maxTTL, writes, k);
    }
  }

  /** The groups of an answer, taken in any order without repetition, are a rearrangement of the answer. */
  function Concat(answer: seq<RR>, order: seq<GroupKey>): seq<RR> {
    if order == [] then [] else Concat(answer, order[..|order| - 1]) + GroupOf(answer, order[|order| - 1])
  }

  lemma {:induction false} ConcatGrows(answer: seq<RR>, rr: RR, order: seq<GroupKey>)
    requires forall i, j :: 0 <= i < j < |order| ==> order[i] != order[j]
    ensures multiset(Concat(answer + [rr], order))
         == multiset(Concat(answer, order)) + (if KeyOf(rr) in order then multiset{rr} else multiset{})
    decreases |order|
  {
    if order != [] {
      var n := |order| - 1;
      var g := order[n];
      ConcatGrows(answer, rr, order[..n]);
      ConcatGrowsLast(answer, rr, g);
      InInit(order, KeyOf(rr));
      assert KeyOf(rr) == g ==> KeyOf(rr) !in order[..n];
      MultisetSum(Concat(answer, order[..n]), GroupOf(answer, g), Concat(answer + [rr], order[..n]),
                  GroupOf(answer + [rr], g),
                  rr, KeyOf(rr) in order[..n], KeyOf(rr) == g);
    }
  }

  lemma MultisetSum(a: seq<RR>, b: seq<RR>, a': seq<RR>, b': seq<RR>, x: RR, inA: bool, inB: bool)
    requires multiset(a') == multiset(a) + (if inA then multiset{x} else multiset{})
    requires multiset(b') == multiset(b) + (if inB then multiset{x} else multiset{})
    requires !(inA && inB)
    ensures multiset(a' + b') == multiset(a + b) + (if inA || inB then multiset{x} else multiset{})
  {
  }

  lemma ConcatGrowsLast(answer: seq<RR>, rr: RR, g: GroupKey)
    ensures multiset(GroupOf(answer + [rr], g))
         == multiset(GroupOf(answer, g)) + (if KeyOf(rr) == g then multiset{rr} else multiset{})
  {
    GroupGrows(answer, rr, g);
  }

  lemma GroupGrows(answer: seq<RR>, rr: RR, g: GroupKey)
    ensures GroupOf(answer + [rr], g) == GroupOf(answer, g) + (if KeyOf(rr) == g then [rr] else [])
  {
    assert (answer + [rr])[..|answer|] == answer;
  }

  lemma {:induction false} GroupsPartitionAnswer(answer: seq<RR>, order: seq<GroupKey>)
    requires forall i, j :: 0 <= i < j < |order| ==> order[i] != order[j]
    requires forall x :: x in answer ==> KeyOf(x) in order
    ensures multiset(Concat(answer, order)) == multiset(answer)
    decreases |answer|
  {
    if answer == [] {
      ConcatOfNothing(order);
    } else {
      var n := |answer| - 1;
      assert answer == answer[..n] + [answer[n]];
      GroupsPartitionAnswer(answer[..n], order);
      ConcatGrows(answer[..n], answer[n], order);
    }
  }

  lemma {:induction false} ConcatOfNothing(order: seq<GroupKey>)
    ensures Concat([], order) == []
    decreases |order|
  {
    if order != [] {
      ConcatOfNothing(order[..|order| - 1]);
    }
  }

  // ---- the order of the writes ----

  ghost predicate OrderIrrelevant(msg: Msg, maxTTL: Duration) {
    forall store: Store, a: Writes, b: Writes, t: int ::
      ValidWrites(msg.answer, a, t, t) && ValidWrites(msg.answer, b, t, t) ==>
        CacheWrites(store, msg, maxTTL, a) == CacheWrites(store, msg, maxTTL, b)
  }

  lemma WrittenWithGroup(store: Store, msg: Msg, maxTTL: Duration, writes: Writes, t: int, g: GroupKey)
    requires NoClash(msg.answer) && ValidWrites(msg.answer, writes, t, t) && g in GroupKeys(msg.answer)
    ensures var k, after := CacheKey(g.name, g.rtype), CacheWrites(store, msg, maxTTL, writes);
            k in after && after[k] == Stamp(ItemsOf(msg, g), maxTTL, t)
  {
    assert g in Written(writes);
    var i :| 0 <= i < |writes| && writes[i].0 == g;
    CacheWritesExactly(store, msg, maxTTL, writes, t, t);
    assert KeyAt(writes, i) == CacheKey(g.name, g.rtype);
  }

  lemma WrittenElsewhere(store: Store, msg: Msg, maxTTL: Duration, writes: Writes, t: int, k: Key)
    requires ValidWrites(msg.answer, writes, t, t)
    requires forall g :: g in GroupKeys(msg.answer) ==> CacheKey(g.name, g.rtype) != k
    ensures var after := CacheWrites(store, msg, maxTTL, writes);
            (k in after <==> k in store) && (k in store ==> after[k] == store[k])
  {
    forall i | 0 <= i < |writes|
      ensures KeyAt(writes, i) != k
    {
      assert writes[i].0 in Written(writes);
    }
    CacheWritesElsewhere(store, msg, maxTTL, writes, k);
  }

  lemma SameWrites(store: Store, msg: Msg, maxTTL: Duration, a: Writes, b: Writes, t: int)
    requires NoClash(msg.answer) && ValidWrites(msg.answer, a, t, t) && ValidWrites(msg.answer, b, t, t)
    ensures CacheWrites(store, msg, maxTTL, a) == CacheWrites(store, msg, maxTTL, b)
  {
    var x, y := CacheWrites(store, msg, maxTTL, a), CacheWrites(store, msg, maxTTL, b);
    forall k: Key
      ensures (k in x <==> k in y) && (k in x ==> x[k] == y[k])
    {
      if g :| g in GroupKeys(msg.answer) && CacheKey(g.name, g.rtype) == k {
        WrittenWithGroup(store, msg, maxTTL, a, t, g);
        WrittenWithGroup(store, msg, maxTTL, b, t, g);
      } else {
        WrittenElsewhere(store, msg, maxTTL, a, t, k);
        WrittenElsewhere(store, msg, maxTTL, b, t, k);
      }
    }
    assert x.Keys == y.Keys;
  }

  lemma WrittenFirst(w: (GroupKey, int), rest: Writes)
    requires NoRepeats(rest) && w.0 !in Written(rest)
    ensures Written([w] + rest) == {w.0} + Written(rest) && NoRepeats([w] + rest)
  {
    var writes := [w] + rest;
    assert writes[0].0 == w.0;
    assert forall i :: 0 <= i < |rest| ==> writes[i + 1].0 == rest[i].0;
    assert forall i :: 1 <= i < |writes| ==> writes[i].0 == rest[i - 1].0 && rest[i - 1].0 in Written(rest);
  }

  /** Some order that writes a chosen group last. */
  lemma {:induction false} WritesEndingIn(todo: set<GroupKey>, last: GroupKey, t: int) returns (writes: Writes)
    requires last !in todo
    ensures |writes| > 0 && writes[|writes| - 1] == (last, t)
    ensures Written(writes) == todo + {last} && NoRepeats(writes)
    ensures forall i :: 0 <= i < |writes| ==> writes[i].1 == t
    decreases todo
  {
    if todo == {} {
      writes := [(last, t)];
    } else {
      var g :| g in todo;
      var rest := WritesEndingIn(todo - {g}, last, t);
      writes := [(g, t)] + rest;
      WrittenFirst((g, t), rest);
    }
  }

  lemma WritingLast(msg: Msg, maxTTL: Duration, g: GroupKey) returns (writes: Writes)
    requires g in GroupKeys(msg.answer)
    ensures ValidWrites(msg.answer, writes, 0, 0)
    ensures var after, k := CacheWrites(map[], msg, maxTTL, writes), CacheKey(g.name, g.rtype);
            k in after && |after[k]| > 0 && KeyOf(after[k][0].rr) == g
  {
    writes := WritesEndingIn(GroupKeys(msg.answer) - {g}, g, 0);
    assert GroupKeys(msg.answer) - {g} + {g} == GroupKeys(msg.answer);
    GroupNonEmpty(msg.answer, g);
    LastWriteWins(map[], msg, maxTTL, writes, |writes| - 1, CacheKey(g.name, g.rtype),
                  Stamp(ItemsOf(msg, g), maxTTL, 0));
    GroupMembers(msg.answer, g);
    assert GroupOf(msg.answer, g)[0] in GroupOf(msg.answer, g);
  }

  /** At one store time the iteration order of the groups does not matter, exactly when no names clash. */
  lemma OrderIrrelevantIffNoClash(msg: Msg, maxTTL: Duration)
    ensures OrderIrrelevant(msg, maxTTL) <==> NoClash(msg.answer)
  {
    if NoClash(msg.answer) {
      forall store: Store, a: Writes, b: Writes, t: int
        | ValidWrites(msg.answer, a, t, t) && ValidWrites(msg.answer, b, t, t)
        ensures CacheWrites(store, msg, maxTTL, a) == CacheWrites(store, msg, maxTTL, b)
      {
        SameWrites(store, msg, maxTTL, a, b, t);
      }
    } else {
      var g, h :| g in GroupKeys(msg.answer) && h in GroupKeys(msg.answer) && g != h
                  && CacheKey(g.name, g.rtype) == CacheKey(h.name, h.rtype);
      var a := WritingLast(msg, maxTTL, g);
      var b := WritingLast(msg, maxTTL, h);
      assert CacheWrites(map[], msg, maxTTL, a) != CacheWrites(map[], msg, maxTTL, b);
    }
  }
}
