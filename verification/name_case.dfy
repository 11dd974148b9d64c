/** Cache keys keep the spelling of a name: what is filed under one spelling is not found under another. */
module NameCase {
  import opened Dns
  import opened CacheModel
  import opened ChainWalk
  import opened RouterModel
  import opened RoundTrip
  import Matching

  /** The key of a name is its spelling, but for one dot at the end of a name that has none there. */
  lemma KeyKeepsSpelling(a: string, b: string, qtype: uint16, other: uint16)
    ensures CacheKey(a, qtype) == CacheKey(b, other)
       <==> qtype == other && (a == b
                               || (b == a + "." && (a == "" || a[|a| - 1] != '.'))
                               || (a == b + "." && (b == "" || b[|b| - 1] != '.')))
  {
    if CacheKey(a, qtype) == CacheKey(b, other) {
      assert Fqdn(a)[..|a|] == a && Fqdn(b)[..|b|] == b;
    }
  }

  /** Two names that differ, but only in the case of letters, have different keys. */
  lemma SpellingsHaveDifferentKeys(a: string, b: string, qtype: uint16)
    requires a != b && Matching.ToLower(a) == Matching.ToLower(b)
    ensures CacheKey(a, qtype) != CacheKey(b, qtype)
  {
    assert |a| == |Matching.ToLower(a)| == |b|;
    if |a| > 0 {
      var z := |a| - 1;
      assert Matching.ToLower(a)[z] == Matching.LowerChar(a[z]) && Matching.ToLower(b)[z] == Matching.LowerChar(b[z]);
    }
    assert IsFqdn(a) <==> IsFqdn(b);
    assert Fqdn(a)[..|a|] == a && Fqdn(b)[..|b|] == b;
  }

  /** No record of the answer belongs to this name, and none of it is live in the cache at the walk's readings. */
  ghost predicate NothingOf(store: Store, answer: seq<RR>, name: string, qtype: uint16, ts: seq<Round>) {
    && (forall x :: x in answer ==> Fqdn(x.name) != name)
    && (forall r :: r in ts ==> LiveAt(store, CacheKey(name, qtype), r.typeAt) == []
                                && LiveAt(store, CacheKey(name, TYPE_CNAME), r.aliasAt) == [])
  }

  lemma NotFiledUnder(store: Store, msg: Msg, maxTTL: Duration, writes: Writes, lo: int, hi: int, name: string,
                      qtype: uint16, t: int)
    requires ValidWrites(msg.answer, writes, lo, hi) && IsFqdn(name)
    requires forall x :: x in msg.answer ==> Fqdn(x.name) != name
    ensures LiveAt(CacheWrites(store, msg, maxTTL, writes), CacheKey(name, qtype), t)
         == LiveAt(store, CacheKey(name, qtype), t)
  {
    forall i | 0 <= i < |writes|
      ensures KeyAt(writes, i) != CacheKey(name, qtype)
    {
      assert writes[i].0 in Written(writes);
      var j :| 0 <= j < |msg.answer| && KeyOf(msg.answer[j]) == writes[i].0;
      assert msg.answer[j] in msg.answer;
    }
    CacheWritesElsewhere(store, msg, maxTTL, writes, CacheKey(name, qtype));
  }

  /**
   * Records of a name, filed with whatever else the answer holds into whatever cache and still fresh, are found
   * for a query that spells the name as the records do. A query that spells it otherwise, with nothing live
   * under that spelling, finds nothing: the walk is back where it began and asks upstream.
   */
  lemma FoundOnlyAsSpelled(store: Store, msg: Msg, maxTTL: Duration, writes: Writes, lo: int, hi: int, name: string,
                           qtype: uint16, asked: string, depth: nat, now: int, ts: seq<Round>, until: int)
    requires IsFqdn(name) && GroupOf(msg.answer, GroupKey(name, qtype)) != [] && NoClash(msg.answer)
    requires ValidWrites(msg.answer, writes, lo, hi) && lo <= hi <= now
    requires 0 < depth <= |ts| && Ordered(ts, now, until) && Fresh(msg.answer, maxTTL, lo, until)
    requires Fqdn(asked) != name ==> NothingOf(store, msg.answer, Fqdn(asked), qtype, ts)
    ensures var w := Walk(ViewOf(CacheWrites(store, msg, maxTTL, writes)), Fqdn(asked), qtype, depth, now, ts);
            && (!w.needUpstream <==> Fqdn(asked) == name)
            && (w.needUpstream ==> w == WalkResult([], true, Fqdn(asked)))
  {
    if Fqdn(asked) == name {
      StoreThenResolve(store, msg, maxTTL, writes, lo, hi, [name], qtype, depth, now, ts, until);
    } else {
      assert ts[0] in ts;
      NotFiledUnder(store, msg, maxTTL, writes, lo, hi, Fqdn(asked), qtype, ts[0].typeAt);
      NotFiledUnder(store, msg, maxTTL, writes, lo, hi, Fqdn(asked), TYPE_CNAME, ts[0].aliasAt);
    }
  }

  predicate AsksFirst(out: Outcome, p: Policy) {
    out.asked != [] && out.asked[0] == if p.group == "proxy_ecs_fallback" then "proxy_ecs" else p.group
  }

  lemma FanoutAsksFirst(s: Setting, domain: string, qtype: uint16, options: Options, f: Fanout, call: nat)
    ensures var out := EcsRoute(s, domain, qtype, options, f, call); out.asked != [] && out.asked[0] == PROXY_ECS
  {
  }

  lemma GroupIsAskedFirst(v: Outcome, p: Policy, outer: Writes)
    ensures var out := WithOuter(v, p, outer); out.asked != [] && out.asked[0] == p.group
  {
  }

  lemma BelowFullHitAsks(s: Setting, store: Store, domain: string, qtype: uint16, sch: Schedule)
    requires CachedPart(store, domain, qtype, sch).needUpstream && PolicyFor(s, domain).group != "block"
    ensures AsksFirst(RouteSpec(s, store, domain, qtype, sch), PolicyFor(s, domain))
  {
    var w, p := CachedPart(store, domain, qtype, sch), PolicyFor(s, domain);
    if p.group == ECS_FALLBACK {
      FanoutAsksFirst(s, domain, qtype, p.options, sch.fanout, sch.firstCall);
    } else {
      GroupIsAskedFirst(Answered(s, domain, qtype, w, p, sch.fanout, sch.firstCall), p, sch.outer);
    }
  }

  /**
   * So a query for the same name in another case, with nothing live under that spelling, is not answered from
   * the cache: unless its policy blocks it, its group or the fan-out is asked again.
   */
  lemma OtherCaseAsksAgain(s: Setting, store: Store, msg: Msg, maxTTL: Duration, writes: Writes, lo: int, hi: int,
                           name: string, qtype: uint16, asked: string, sch: Schedule, until: int)
    requires IsFqdn(name) && GroupOf(msg.answer, GroupKey(name, qtype)) != [] && NoClash(msg.answer)
    requires ValidWrites(msg.answer, writes, lo, hi) && lo <= hi <= sch.now
    requires Ordered(sch.ts, sch.now, until) && Fresh(msg.answer, maxTTL, lo, until)
    requires asked != name && Matching.ToLower(asked) == Matching.ToLower(name)
    requires NothingOf(store, msg.answer, Fqdn(asked), qtype, sch.ts)
    ensures PolicyFor(s, asked).group != "block" ==>
              AsksFirst(RouteSpec(s, CacheWrites(store, msg, maxTTL, writes), asked, qtype, sch), PolicyFor(s, asked))
  {
    SpellingsHaveDifferentKeys(asked, name, qtype);
    FoundOnlyAsSpelled(store, msg, maxTTL, writes, lo, hi, name, qtype, asked, DEFAULT_DEPTH, sch.now, sch.ts, until);
    if PolicyFor(s, asked).group != BLOCK {
      BelowFullHitAsks(s, CacheWrites(store, msg, maxTTL, writes), asked, qtype, sch);
    }
  }
}
