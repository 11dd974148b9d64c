/** The TTLs that any run of Route calls hands out. */
module ServedTTL {
  import opened Dns
  import opened CacheModel
  import opened ChainWalk
  import opened RouterModel
  import opened Transparency

  function EndOf(calls: seq<Call>, start: int): int {
    if calls == [] then start else calls[|calls| - 1].until
  }

  /** The call starts after the one before it has ended, and looks up before its own end. */
  ghost predicate Starts(c: Call, before: int) {
    before <= c.schedule.now && Ordered(c.schedule.ts, c.schedule.now, c.until)
  }

  /** What the call files is filed after its walk has begun and before its end. */
  ghost predicate Files(c: Call, store: Store) {
    forall x :: x in CallOutcome(c, store).cached ==> ValidWrites(x.0.answer, x.1, c.schedule.now, c.until)
  }

  ghost predicate Consecutive(calls: seq<Call>, start: int) {
    calls == [] || var n := |calls| - 1;
                   Consecutive(calls[..n], start) && Starts(calls[n], EndOf(calls[..n], start))
  }

  ghost predicate Timely(calls: seq<Call>, maxTTL: Duration) {
    calls == [] || var n := |calls| - 1;
                   Timely(calls[..n], maxTTL) && Files(calls[n], StoreAfter(calls[..n], maxTTL))
  }

  /** The calls of the run follow one another in time. No zone, and no honest upstream, is assumed. */
  ghost predicate InTime(calls: seq<Call>, maxTTL: Duration, start: int) {
    Consecutive(calls, start) && Timely(calls, maxTTL)
  }

  lemma OneMoreCall(calls: seq<Call>, c: Call, maxTTL: Duration, start: int)
    requires InTime(calls, maxTTL, start)
    requires Starts(c, EndOf(calls, start)) && Files(c, StoreAfter(calls, maxTTL))
    ensures InTime(calls + [c], maxTTL, start) && EndOf(calls + [c], start) == c.until
    ensures StoreAfter(calls + [c], maxTTL)
         == WriteAll(StoreAfter(calls, maxTTL), maxTTL, CallOutcome(c, StoreAfter(calls, maxTTL)).cached)
  {
    assert (calls + [c])[..|calls|] == calls;
  }

  lemma {:induction false} InTimeAt(calls: seq<Call>, start: int, i: nat)
    requires Consecutive(calls, start) && i < |calls|
    ensures Ordered(calls[i].schedule.ts, calls[i].schedule.now, calls[i].until)
    decreases |calls|
  {
    var n := |calls| - 1;
    if i < n {
      InTimeAt(calls[..n], start, i);
    }
  }

  /** Calls in time whose groups are honest are calls as the results about zones take them. */
  lemma HonestRunIsOk(zone: Zone, rank: Rank, calls: seq<Call>, maxTTL: Duration, start: int)
    requires ZoneOk(zone, rank) && InTime(calls, maxTTL, start)
    requires forall c :: c in calls ==> Honest(c.setting, zone, rank)
    ensures forall c :: c in calls ==> CallOk(c, zone, rank)
  {
    forall c | c in calls
      ensures CallOk(c, zone, rank)
    {
      var i :| 0 <= i < |calls| && calls[i] == c;
      InTimeAt(calls, start, i);
    }
  }

  lemma {:induction false} WritesKeepWellFormed(store: Store, msg: Msg, maxTTL: Duration, writes: Writes, now: int)
    requires WellFormed(store, maxTTL, now)
    requires forall i :: 0 <= i < |writes| ==> writes[i].1 <= now
    ensures WellFormed(CacheWrites(store, msg, maxTTL, writes), maxTTL, now)
    decreases |writes|
  {
    if writes != [] {
      var n := |writes| - 1;
      WritesKeepWellFormed(store, msg, maxTTL, writes[..n], now);
      var g := writes[n].0;
      GroupMembers(msg.answer, g);
      forall x | x in ItemsOf(msg, g)
        ensures CacheKey(x.rr.name, x.rr.rtype) == CacheKey(g.name, g.rtype)
      {
        var i :| 0 <= i < |ItemsOf(msg, g)| && ItemsOf(msg, g)[i] == x;
        assert GroupOf(msg.answer, g)[i] in GroupOf(msg.answer, g);
      }
      SetKeepsWellFormed(CacheWrites(store, msg, maxTTL, writes[..n]), CacheKey(g.name, g.rtype), ItemsOf(msg, g),
                         maxTTL, writes[n].1, now);
    }
  }

  lemma {:induction false} AllWritesKeepWellFormed(store: Store, maxTTL: Duration, cached: seq<(Msg, Writes)>, lo: int,
                                                   now: int)
    requires WellFormed(store, maxTTL, now)
    requires forall x :: x in cached ==> ValidWrites(x.0.answer, x.1, lo, now)
    ensures WellFormed(WriteAll(store, maxTTL, cached), maxTTL, now)
    decreases |cached|
  {
    if cached != [] {
      var n := |cached| - 1;
      AllWritesKeepWellFormed(store, maxTTL, cached[..n], lo, now);
      assert cached[n] in cached;
      WritesKeepWellFormed(WriteAll(store, maxTTL, cached[..n]), cached[n].0, maxTTL, cached[n].1, now);
    }
  }

  /** After every run each entry holds records of its own key, within the TTL limit and stored in the past. */
  lemma {:induction false} RunsKeepWellFormed(calls: seq<Call>, maxTTL: Duration, start: int)
    requires InTime(calls, maxTTL, start)
    ensures WellFormed(StoreAfter(calls, maxTTL), maxTTL, EndOf(calls, start))
    decreases |calls|
  {
    if calls != [] {
      var n := |calls| - 1;
      var c, store := calls[n], StoreAfter(calls[..n], maxTTL);
      RunsKeepWellFormed(calls[..n], maxTTL, start);
      OrderedBounds(c.schedule.ts, c.schedule.now, c.until);
      WellFormedLater(store, maxTTL, EndOf(calls[..n], start), c.until);
      AllWritesKeepWellFormed(store, maxTTL, CallOutcome(c, store).cached, c.schedule.now, c.until);
    }
  }

  lemma EmittedTTLs(store: Store, maxTTL: Duration, k: Key, now: int, at: int, rr: RR)
    requires WellFormed(store, maxTTL, now) && now <= at && rr in Emit(LiveAt(store, k, at), now)
    ensures 1 <= rr.ttl <= maxTTL / SECOND
  {
    var items := LiveAt(store, k, at);
    var i :| 0 <= i < |items| && Emit(items, now)[i] == rr;
    ServedTTLBounds(store, maxTTL, k, now, at, items[i]);
  }

  lemma {:induction false} WalkTTLs(store: Store, maxTTL: Duration, name: string, qtype: uint16, depth: nat,
                                    now: int, ts: seq<Round>, rr: RR)
    requires WellFormed(store, maxTTL, now) && |ts| >= depth
    requires forall r :: r in ts ==> now <= r.typeAt && now <= r.aliasAt
    requires rr in Walk(ViewOf(store), name, qtype, depth, now, ts).answers
    ensures 1 <= rr.ttl <= maxTTL / SECOND
    decreases depth
  {
    assert ts[0] in ts;
    var view := ViewOf(store);
    var k, c := CacheKey(name, qtype), CacheKey(name, TYPE_CNAME);
    var cnames := view(c, ts[0].aliasAt);
    if view(k, ts[0].typeAt) != [] {
      EmittedTTLs(store, maxTTL, k, now, ts[0].typeAt, rr);
    } else if rr in Emit(cnames, now) {
      EmittedTTLs(store, maxTTL, c, now, ts[0].aliasAt, rr);
    } else {
      WalkTTLs(store, maxTTL, Follow(cnames, name), qtype, depth - 1, now, ts[1..], rr);
    }
  }

  /**
   * After every run, whatever the upstreams have answered in it, each record that a call takes from the
   * cache has a TTL of at least one second and at most the cache's limit; so no record of TTL 0 is served.
   */
  lemma EveryServedTTLIsInRange(calls: seq<Call>, c: Call, maxTTL: Duration, start: int, rr: RR)
    requires InTime(calls, maxTTL, start) && Starts(c, EndOf(calls, start))
    requires rr in CachedPart(StoreAfter(calls, maxTTL), c.domain, c.qtype, c.schedule).answers
    ensures 1 <= rr.ttl <= maxTTL / SECOND
  {
    var store, now := StoreAfter(calls, maxTTL), c.schedule.now;
    RunsKeepWellFormed(calls, maxTTL, start);
    WellFormedLater(store, maxTTL, EndOf(calls, start), now);
    OrderedBounds(c.schedule.ts, now, c.until);
    WalkTTLs(store, maxTTL, Fqdn(c.domain), c.qtype, DEFAULT_DEPTH, now, c.schedule.ts, rr);
  }
}
