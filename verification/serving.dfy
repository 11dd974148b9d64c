/** The router object over a whole run: the bridge from the object to the results about runs of calls. */
module Serving {
  import opened Dns
  import opened CacheModel
  import opened ChainWalk
  import opened RouterModel
  import opened Transparency
  import opened ServedTTL
  import opened PolicyOptions
  import opened RouterObject

  /** A call cannot tell apart two stores that show the same from its start on. */
  lemma RouteRespectsView(s: Setting, a: Store, b: Store, domain: string, qtype: uint16, sch: Schedule, from: int,
                          hi: int)
    requires SameView(a, b, from) && from <= sch.now && Ordered(sch.ts, sch.now, hi)
    ensures RouteSpec(s, a, domain, qtype, sch) == RouteSpec(s, b, domain, qtype, sch)
  {
    OrderedBounds(sch.ts, sch.now, hi);
    forall k, t | from <= t
      ensures ViewOf(a)(k, t) == ViewOf(b)(k, t)
    {
      assert LiveAt(a, k, t) == LiveAt(b, k, t);
    }
    WalkRespectsView(ViewOf(a), ViewOf(b), Fqdn(domain), qtype, DEFAULT_DEPTH, sch.now, sch.ts, from);
  }

  /** Purging may have gone on all along: the store it has left still shows what the unpurged one would. */
  lemma StillTheSameView(model: Store, before: Store, after: Store, maxTTL: Duration, cached: seq<(Msg, Writes)>,
                         start: int, end: int)
    requires SameView(model, before, start) && start <= end
    requires SameView(WriteAll(before, maxTTL, cached), after, end)
    ensures SameView(WriteAll(model, maxTTL, cached), after, end)
  {
    WriteAllRespectsView(model, before, maxTTL, cached, start);
    ComposeViews(WriteAll(model, maxTTL, cached), WriteAll(before, maxTTL, cached), after, start, end);
  }

  /** The i-th query of a run got this reply, as one call over the store the calls before it have left. */
  ghost predicate Served(calls: seq<Call>, i: nat, maxTTL: Duration, query: (string, uint16), reply: Option<Msg>)
    requires i < |calls|
  {
    && calls[i].domain == query.0 && calls[i].qtype == query.1
    && reply == CallOutcome(calls[i], StoreAfter(calls[..i], maxTTL)).reply
  }

  ghost predicate AllServed(calls: seq<Call>, maxTTL: Duration, queries: seq<(string, uint16)>,
                            replies: seq<Option<Msg>>) {
    && |replies| == |calls| <= |queries|
    && forall i :: 0 <= i < |calls| ==> Served(calls, i, maxTTL, queries[i], replies[i])
  }

  lemma OneMoreServed(calls: seq<Call>, maxTTL: Duration, queries: seq<(string, uint16)>, replies: seq<Option<Msg>>,
                      c: Call, reply: Option<Msg>)
    requires AllServed(calls, maxTTL, queries, replies) && |calls| < |queries|
    requires Served(calls + [c], |calls|, maxTTL, queries[|calls|], reply)
    ensures AllServed(calls + [c], maxTTL, queries, replies + [reply])
  {
    forall i | 0 <= i < |calls|
      ensures Served(calls + [c], i, maxTTL, queries[i], (replies + [reply])[i])
    {
      assert Served(calls, i, maxTTL, queries[i], replies[i]);
      assert (calls + [c])[..i] == calls[..i];
    }
  }

  /** All calls of the run met these policies and these upstream answers; what was learned may differ. */
  ghost predicate AllUse(calls: seq<Call>, policies: seq<Policy>, answers: Answers) {
    forall c :: c in calls ==> c.setting.policies == policies && c.setting.answers == answers
  }

  /** The next query of the run. */
  method ServeNext(r: Router, queries: seq<(string, uint16)>, replies: seq<Option<Msg>>, ghost calls: seq<Call>,
                   ghost start: int)
    returns (reply: Option<Msg>, ghost c: Call)
    requires r.Valid() && InTime(calls, r.dnsCache.maxTTL, start) && EndOf(calls, start) <= r.clock.now
    requires AllServed(calls, r.dnsCache.maxTTL, queries, replies) && |replies| < |queries|
    requires SameView(StoreAfter(calls, r.dnsCache.maxTTL), r.dnsCache.Abs(), r.clock.now)
    modifies r`pending, r.dnsCache`storage, r.dnsCache`filed, r.clock, r.upstreamMgr`calls, r.upstreamMgr`asked
    ensures r.Valid() && c.until == r.clock.now && c.setting == old(r.Settings())
    ensures InTime(calls + [c], r.dnsCache.maxTTL, start)
    ensures AllServed(calls + [c], r.dnsCache.maxTTL, queries, replies + [reply])
    ensures SameView(StoreAfter(calls + [c], r.dnsCache.maxTTL), r.dnsCache.Abs(), r.clock.now)
  {
    var query := queries[|replies|];
    ghost var model, maxTTL, from := StoreAfter(calls, r.dnsCache.maxTTL), r.dnsCache.maxTTL, r.clock.now;
    ghost var s, before := r.Settings(), r.dnsCache.Abs();
    ghost var sch, out;
    reply, sch, out := r.Route(query.0, query.1);
    c := Call(s, query.0, query.1, sch, r.clock.now);
    RouteRespectsView(s, model, before, query.0, query.1, sch, from, c.until);
    StillTheSameView(model, before, r.dnsCache.Abs(), maxTTL, out.cached, from, c.until);
    OneMoreCall(calls, c, maxTTL, start);
    assert (calls + [c])[..|calls|] == calls;
    OneMoreServed(calls, maxTTL, queries, replies, c, reply);
  }

  /**
   * The router serves queries one after another, starting with an empty cache, while the background writes
   * of learned categories happen at arbitrary moments in between. Whatever lookups purge, every reply is
   * that of a run of calls as the results about runs take it.
   */
  method Serve(r: Router, queries: seq<(string, uint16)>) returns (replies: seq<Option<Msg>>, ghost calls: seq<Call>)
    requires r.Valid() && r.dnsCache.Abs() == map[]
    modifies r`pending, r.dnsCache`storage, r.dnsCache`filed, r.clock, r.upstreamMgr`calls, r.upstreamMgr`asked,
             r.categoryCache
    ensures r.Valid() && |calls| == |queries| && AllServed(calls, r.dnsCache.maxTTL, queries, replies)
    ensures InTime(calls, r.dnsCache.maxTTL, old(r.clock.now)) && AllUse(calls, r.policies, r.upstreamMgr.answers)
    ensures SameView(StoreAfter(calls, r.dnsCache.maxTTL), r.dnsCache.Abs(), r.clock.now)
  {
    replies, calls := [], [];
    ghost var maxTTL, start := r.dnsCache.maxTTL, r.clock.now;
    for i := 0 to |queries|
      invariant r.Valid() && |calls| == i && AllServed(calls, maxTTL, queries, replies)
      invariant InTime(calls, maxTTL, start) && EndOf(calls, start) <= r.clock.now
      invariant AllUse(calls, r.policies, r.upstreamMgr.answers)
      invariant SameView(StoreAfter(calls, maxTTL), r.dnsCache.Abs(), r.clock.now)
    {
      RunSomePending(r);
      var reply;
      ghost var c;
      reply, c := ServeNext(r, queries, replies, calls, start);
      replies, calls := replies + [reply], calls + [c];
    }
  }

  /** Some of the background writes that are due happen, in any order. */
  method RunSomePending(r: Router)
    requires r.Valid()
    modifies r`pending, r.categoryCache
    ensures r.Valid() && r.dnsCache.Abs() == old(r.dnsCache.Abs())
  {
    var n: nat :| n <= |r.pending|;
    for k := 0 to n
      invariant r.Valid() && |r.pending| >= n - k && r.dnsCache.Abs() == old(r.dnsCache.Abs())
    {
      r.RunPending();
    }
  }

  /**
   * With groups that answer from one stable zone, every reply of such a run that is a full hit, or that no
   * policy blocks or strips of HTTPS records, is the zone's own answer to the query, TTLs apart. Other
   * queries of the run may meet any policies.
   */
  lemma ServedRunMeetsZone(zone: Zone, rank: Rank, calls: seq<Call>, maxTTL: Duration, start: int, i: nat,
                           query: (string, uint16), reply: Option<Msg>)
    requires ZoneOk(zone, rank) && InTime(calls, maxTTL, start)
    requires forall c :: c in calls ==> Honest(c.setting, zone, rank)
    requires i < |calls| && Served(calls, i, maxTTL, query, reply) && reply.Some?
    requires Plain(calls[i])
             || !CachedPart(StoreAfter(calls[..i], maxTTL), query.0, query.1, calls[i].schedule).needUpstream
    ensures StripAll(reply.value.answer) == ZoneAnswer(zone, rank, Fqdn(query.0), query.1)
  {
    HonestRunIsOk(zone, rank, calls, maxTTL, start);
    var c := calls[i];
    assert c in calls;
    RunsKeepSound(zone, rank, calls[..i], maxTTL);
    RouteMeetsZone(zone, rank, c.setting, StoreAfter(calls[..i], maxTTL), c.domain, c.qtype, c.schedule, c.until);
  }

  /**
   * And every reply below a full hit under disable_https is the zone's answer without its HTTPS records,
   * unless it replaces one that does not fit expected_ips.
   */
  lemma StrippedRunMeetsZone(zone: Zone, rank: Rank, calls: seq<Call>, maxTTL: Duration, start: int, i: nat,
                             query: (string, uint16), reply: Option<Msg>)
    requires ZoneOk(zone, rank) && InTime(calls, maxTTL, start)
    requires forall c :: c in calls ==> Honest(c.setting, zone, rank)
    requires i < |calls| && Served(calls, i, maxTTL, query, reply) && reply.Some?
    requires var c, w := calls[i], CachedPart(StoreAfter(calls[..i], maxTTL), query.0, query.1, calls[i].schedule);
             var p := PolicyFor(c.setting, query.0);
             && w.needUpstream && p.group != BLOCK && p.options.disableHTTPS
             && !Replaced(c.setting, query.0, query.1, w, p, c.schedule.firstCall)
    ensures IsStripped(zone, rank, reply.value, query.0, query.1)
  {
    HonestRunIsOk(zone, rank, calls, maxTTL, start);
    var c := calls[i];
    assert c in calls;
    RunsKeepSound(zone, rank, calls[..i], maxTTL);
    StrippedReplyMeetsZone(zone, rank, c.setting, StoreAfter(calls[..i], maxTTL), c.domain, c.qtype, c.schedule,
                           c.until);
  }
}
