/** Storing an answer that is an alias chain and resolving it again. */
module RoundTrip {
  import opened Dns
  import opened CacheModel
  import opened ChainWalk
  import opened RouterModel

  // ---- walking along known entries ----

  function EmitAll(lists: seq<seq<Item>>, now: int): seq<RR> {
    if lists == [] then [] else Emit(lists[0], now) + EmitAll(lists[1..], now)
  }

  /** Owner by owner: the aliases are live and lead to the next owner, the wanted type is live only at the last. */
  ghost predicate PathOf(view: View, owners: seq<string>, lists: seq<seq<Item>>, qtype: uint16, r: Round)
    requires |owners| == |lists| >= 1
  {
    var m := |owners| - 1;
    && (forall i :: 0 <= i < m ==> view(CacheKey(owners[i], qtype), r.typeAt) == [])
    && (forall i :: 0 <= i < m ==> view(CacheKey(owners[i], TYPE_CNAME), r.aliasAt) == lists[i])
    && (forall i :: 0 <= i < m ==> lists[i] != [] && Follow(lists[i], owners[i]) == owners[i + 1])
    && lists[m] != [] && view(CacheKey(owners[m], qtype), r.typeAt) == lists[m]
  }

  lemma {:induction false} WalkAlongPath(view: View, owners: seq<string>, lists: seq<seq<Item>>, qtype: uint16,
                                         depth: nat, now: int, ts: seq<Round>)
    requires 1 <= |owners| == |lists| && |ts| >= depth
    requires forall r :: r in ts ==> PathOf(view, owners, lists, qtype, r)
    ensures Walk(view, owners[0], qtype, depth, now, ts)
         == if |owners| <= depth then WalkResult(EmitAll(lists, now), false, "")
            else WalkResult(EmitAll(lists[..depth], now), true, owners[depth])
    decreases depth
  {
    if depth > 0 {
      assert PathOf(view, owners, lists, qtype, ts[0]);
      if |owners| == 1 {
        assert EmitAll(lists[1..], now) == [];
        assert Emit(lists[0], now) + [] == Emit(lists[0], now);
      } else {
        forall r | r in ts[1..]
          ensures PathOf(view, owners[1..], lists[1..], qtype, r)
        {
          TailOfPath(view, owners, lists, qtype, r);
        }
        WalkAlongPath(view, owners[1..], lists[1..], qtype, depth - 1, now, ts[1..]);
        assert |owners| > depth ==> lists[..depth][1..] == lists[1..][..depth - 1];
      }
    }
  }

  lemma TailOfPath(view: View, owners: seq<string>, lists: seq<seq<Item>>, qtype: uint16, r: Round)
    requires 2 <= |owners| == |lists| && PathOf(view, owners, lists, qtype, r)
    ensures PathOf(view, owners[1..], lists[1..], qtype, r)
  {
  }

  // ---- the answer and its chain ----

  /** The groups along the owners: an alias at each but the last, the wanted type at the last. */
  function ChainGroups(owners: seq<string>, qtype: uint16): (r: seq<GroupKey>)
    ensures |r| == |owners|
    ensures forall i :: 0 <= i < |owners| ==>
                          r[i] == GroupKey(owners[i], if i < |owners| - 1 then TYPE_CNAME else qtype)
  {
    seq(|owners|, i requires 0 <= i < |owners| => GroupKey(owners[i], if i < |owners| - 1 then TYPE_CNAME else qtype))
  }

  /** The answer holds, in whatever order, a chain of aliases along distinct owners and records at its end. */
  ghost predicate HoldsChain(answer: seq<RR>, owners: seq<string>, qtype: uint16) {
    && |owners| >= 1
    && (forall i :: 0 <= i < |owners| ==> IsFqdn(owners[i]))
    && (forall i, j :: 0 <= i < j < |owners| ==> owners[i] != owners[j])
    && (forall i :: 0 <= i < |owners| - 1 ==> AliasTo(GroupOf(answer, GroupKey(owners[i], TYPE_CNAME)), owners[i + 1]))
    && GroupOf(answer, GroupKey(owners[|owners| - 1], qtype)) != []
  }

  predicate AliasTo(rrs: seq<RR>, target: string) {
    |rrs| == 1 && rrs[0].data.Alias? && Fqdn(rrs[0].data.target) == target
  }

  /** When the group of a key was written. */
  function WrittenAt(writes: Writes, g: GroupKey): int
    requires g in Written(writes)
  {
    if writes[|writes| - 1].0 == g then writes[|writes| - 1].1
    else
      InWritten(writes, g);
      WrittenAt(writes[..|writes| - 1], g)
  }

  lemma InWritten(writes: Writes, g: GroupKey)
    requires g in Written(writes) && writes[|writes| - 1].0 != g
    ensures g in Written(writes[..|writes| - 1])
  {
    var i :| 0 <= i < |writes| && writes[i].0 == g;
    assert writes[..|writes| - 1][i].0 == g;
  }

  lemma {:induction false} WrittenAtIndex(writes: Writes, i: nat)
    requires NoRepeats(writes) && i < |writes|
    ensures writes[i].0 in Written(writes) && WrittenAt(writes, writes[i].0) == writes[i].1
    decreases |writes|
  {
    var n := |writes| - 1;
    if i < n {
      assert writes[i].0 != writes[n].0;
      InWritten(writes, writes[i].0);
      assert writes[..n][i] == writes[i];
      WrittenAtIndex(writes[..n], i);
    }
  }

  /** What is served of a group: its records in order, the stored TTL less the whole seconds since the write. */
  function ServedGroup(answer: seq<RR>, g: GroupKey, maxTTL: Duration, stored: int, now: int): (r: seq<RR>)
    requires stored <= now
    requires forall x :: x in answer ==> now < stored + Clamp(x.ttl, maxTTL) * SECOND
  {
    var rrs := GroupOf(answer, g);
    GroupMembers(answer, g);
    seq(|rrs|, i requires 0 <= i < |rrs| =>
      assert rrs[i] in rrs;
      DivAtLeast(now - stored, SECOND, Clamp(rrs[i].ttl, maxTTL));
      rrs[i].(ttl := Clamp(rrs[i].ttl, maxTTL) - (now - stored) / SECOND))
  }

  /** All records are still live at an instant, wherever between lo and hi they were stored. */
  ghost predicate Fresh(answer: seq<RR>, maxTTL: Duration, lo: int, until: int) {
    forall x :: x in answer ==> until < lo + Clamp(x.ttl, maxTTL) * SECOND
  }

  function ServedChain(answer: seq<RR>, groups: seq<GroupKey>, maxTTL: Duration, writes: Writes, lo: int,
                       now: int): seq<RR>
    requires forall g :: g in groups ==> g in Written(writes) && lo <= WrittenAt(writes, g) <= now
    requires forall x :: x in answer ==> now < lo + Clamp(x.ttl, maxTTL) * SECOND
  {
    if groups == [] then []
    else ServedGroup(answer, groups[0], maxTTL, WrittenAt(writes, groups[0]), now)
         + ServedChain(answer, groups[1..], maxTTL, writes, lo, now)
  }

  // ---- the stored entries ----

  function StoredItems(msg: Msg, g: GroupKey, maxTTL: Duration, stored: int): seq<Item> {
    Stamp(ItemsOf(msg, g), maxTTL, stored)
  }

  lemma {:induction false} AllLive(items: seq<Item>, t: int)
    requires forall x :: x in items ==> !x.IsExpired(t)
    ensures Live(items, t) == items
    decreases |items|
  {
    if items != [] {
      var n := |items| - 1;
      assert forall x :: x in items[..n] ==> x in items;
      AllLive(items[..n], t);
      assert items[n] in items;
      assert items == items[..n] + [items[n]];
    }
  }

  /** A group that was written is live as a whole until its smallest clamped TTL runs out. */
  lemma WrittenGroupIsLive(store: Store, msg: Msg, maxTTL: Duration, writes: Writes, lo: int, hi: int, g: GroupKey,
                           t: int)
    requires NoClash(msg.answer) && ValidWrites(msg.answer, writes, lo, hi) && g in GroupKeys(msg.answer)
    requires Fresh(msg.answer, maxTTL, lo, t) && hi <= t
    ensures g in Written(writes) && lo <= WrittenAt(writes, g) <= hi
    ensures LiveAt(CacheWrites(store, msg, maxTTL, writes), CacheKey(g.name, g.rtype), t)
         == StoredItems(msg, g, maxTTL, WrittenAt(writes, g))
  {
    assert g in Written(writes);
    var i :| 0 <= i < |writes| && writes[i].0 == g;
    WrittenAtIndex(writes, i);
    CacheWritesExactly(store, msg, maxTTL, writes, lo, hi);
    assert KeyAt(writes, i) == CacheKey(g.name, g.rtype);
    StoredGroupAllLive(msg, g, maxTTL, writes[i].1, lo, t);
  }

  lemma StoredGroupAllLive(msg: Msg, g: GroupKey, maxTTL: Duration, stored: int, lo: int, t: int)
    requires Fresh(msg.answer, maxTTL, lo, t) && lo <= stored
    ensures Live(StoredItems(msg, g, maxTTL, stored), t) == StoredItems(msg, g, maxTTL, stored)
  {
    var items, rrs := StoredItems(msg, g, maxTTL, stored), GroupOf(msg.answer, g);
    GroupMembers(msg.answer, g);
    forall x: Item | x in items
      ensures !x.IsExpired(t)
    {
      var j :| 0 <= j < |items| && items[j] == x;
      assert rrs[j] in rrs;
    }
    AllLive(items, t);
  }

  /** What a live stored group is served as. */
  lemma EmitStored(msg: Msg, g: GroupKey, maxTTL: Duration, stored: int, now: int)
    requires stored <= now
    requires forall x :: x in msg.answer ==> now < stored + Clamp(x.ttl, maxTTL) * SECOND
    ensures Emit(StoredItems(msg, g, maxTTL, stored), now) == ServedGroup(msg.answer, g, maxTTL, stored, now)
  {
    var items, rrs := StoredItems(msg, g, maxTTL, stored), GroupOf(msg.answer, g);
    GroupMembers(msg.answer, g);
    forall i | 0 <= i < |rrs|
      ensures Emit(items, now)[i] == ServedGroup(msg.answer, g, maxTTL, stored, now)[i]
    {
      assert rrs[i] in rrs;
      DivAtLeast(now - stored, SECOND, Clamp(rrs[i].ttl, maxTTL));
    }
  }

  function StoredLists(msg: Msg, groups: seq<GroupKey>, maxTTL: Duration, writes: Writes): (r: seq<seq<Item>>)
    requires forall g :: g in groups ==> g in Written(writes)
    ensures |r| == |groups|
    ensures forall i :: 0 <= i < |groups| ==> r[i] == StoredItems(msg, groups[i], maxTTL, WrittenAt(writes, groups[i]))
  {
    seq(|groups|, i requires 0 <= i < |groups| => StoredItems(msg, groups[i], maxTTL, WrittenAt(writes, groups[i])))
  }

  lemma {:induction false} EmitStoredLists(msg: Msg, groups: seq<GroupKey>, maxTTL: Duration, writes: Writes, lo: int,
                                           now: int)
    requires forall g :: g in groups ==> g in Written(writes) && lo <= WrittenAt(writes, g) <= now
    requires forall x :: x in msg.answer ==> now < lo + Clamp(x.ttl, maxTTL) * SECOND
    ensures EmitAll(StoredLists(msg, groups, maxTTL, writes), now)
         == ServedChain(msg.answer, groups, maxTTL, writes, lo, now)
    decreases |groups|
  {
    if groups != [] {
      EmitStored(msg, groups[0], maxTTL, WrittenAt(writes, groups[0]), now);
      EmitStoredLists(msg, groups[1..], maxTTL, writes, lo, now);
      assert StoredLists(msg, groups, maxTTL, writes)[1..] == StoredLists(msg, groups[1..], maxTTL, writes);
    }
  }

  // ---- the round trip ----

  /** The wanted type is not live at any owner but the last, neither from the answer nor from before. */
  ghost predicate NothingShadows(store: Store, answer: seq<RR>, owners: seq<string>, qtype: uint16, ts: seq<Round>) {
    forall i :: 0 <= i < |owners| - 1 ==>
                  && (forall g :: g in GroupKeys(answer) ==> CacheKey(g.name, g.rtype) != CacheKey(owners[i], qtype))
                  && (forall r :: r in ts ==> LiveAt(store, CacheKey(owners[i], qtype), r.typeAt) == [])
  }

  lemma ChainGroupsPresent(answer: seq<RR>, owners: seq<string>, qtype: uint16)
    requires HoldsChain(answer, owners, qtype)
    ensures forall g :: g in ChainGroups(owners, qtype) ==> g in GroupKeys(answer)
    ensures forall i, j :: 0 <= i < j < |owners| ==> ChainGroups(owners, qtype)[i] != ChainGroups(owners, qtype)[j]
  {
    var groups := ChainGroups(owners, qtype);
    forall i | 0 <= i < |groups|
      ensures groups[i] in GroupKeys(answer)
    {
      GroupNonEmpty(answer, groups[i]);
      if i < |owners| - 1 {
        assert AliasTo(GroupOf(answer, GroupKey(owners[i], TYPE_CNAME)), owners[i + 1]);
      }
    }
  }

  lemma NothingLiveAt(store: Store, msg: Msg, maxTTL: Duration, writes: Writes, k: Key, t: int)
    requires Written(writes) == GroupKeys(msg.answer)
    requires forall g :: g in GroupKeys(msg.answer) ==> CacheKey(g.name, g.rtype) != k
    requires LiveAt(store, k, t) == []
    ensures LiveAt(CacheWrites(store, msg, maxTTL, writes), k, t) == []
  {
    forall j | 0 <= j < |writes|
      ensures KeyAt(writes, j) != k
    {
      assert writes[j].0 in Written(writes);
    }
    CacheWritesElsewhere(store, msg, maxTTL, writes, k);
  }

  lemma StoredAliasFollows(msg: Msg, maxTTL: Duration, g: GroupKey, stored: int, current: string, target: string)
    requires AliasTo(GroupOf(msg.answer, g), target)
    ensures Follow(StoredItems(msg, g, maxTTL, stored), current) == target
  {
    var items := StoredItems(msg, g, maxTTL, stored);
    assert |items| == 1 && items[0].rr == GroupOf(msg.answer, g)[0];
  }

  lemma StoredPath(store: Store, msg: Msg, maxTTL: Duration, writes: Writes, lo: int, hi: int,
                   owners: seq<string>, qtype: uint16, ts: seq<Round>, r: Round)
    requires NoClash(msg.answer) && ValidWrites(msg.answer, writes, lo, hi) && HoldsChain(msg.answer, owners, qtype)
    requires r in ts && NothingShadows(store, msg.answer, owners, qtype, ts)
    requires hi <= r.typeAt <= r.aliasAt && Fresh(msg.answer, maxTTL, lo, r.aliasAt)
    requires forall g :: g in ChainGroups(owners, qtype) ==> g in Written(writes)
    ensures PathOf(ViewOf(CacheWrites(store, msg, maxTTL, writes)), owners,
                   StoredLists(msg, ChainGroups(owners, qtype), maxTTL, writes), qtype, r)
  {
    var m, groups, after := |owners| - 1, ChainGroups(owners, qtype), CacheWrites(store, msg, maxTTL, writes);
    ChainGroupsPresent(msg.answer, owners, qtype);
    forall i | 0 <= i < m
      ensures LiveAt(after, CacheKey(owners[i], qtype), r.typeAt) == []
    {
      NothingLiveAt(store, msg, maxTTL, writes, CacheKey(owners[i], qtype), r.typeAt);
    }
    forall i | 0 <= i < |groups|
      ensures LiveAt(after, CacheKey(groups[i].name, groups[i].rtype), r.typeAt)
           == LiveAt(after, CacheKey(groups[i].name, groups[i].rtype), r.aliasAt)
           == StoredItems(msg, groups[i], maxTTL, WrittenAt(writes, groups[i])) != []
    {
      assert groups[i] in groups;
      WrittenGroupIsLive(store, msg, maxTTL, writes, lo, hi, groups[i], r.typeAt);
      WrittenGroupIsLive(store, msg, maxTTL, writes, lo, hi, groups[i], r.aliasAt);
      GroupNonEmpty(msg.answer, groups[i]);
    }
    var lists := StoredLists(msg, groups, maxTTL, writes);
    forall i | 0 <= i < m
      ensures Follow(lists[i], owners[i]) == owners[i + 1]
    {
      assert groups[i] == GroupKey(owners[i], TYPE_CNAME);
      StoredAliasFollows(msg, maxTTL, groups[i], WrittenAt(writes, groups[i]), owners[i], owners[i + 1]);
    }
  }

  /**
   * Store, then resolve. After an answer that holds a chain has been cached, and until its smallest clamped
   * TTL runs out, a walk deep enough for all owners of the chain returns exactly the chain: in order, each
   * TTL less the whole seconds since its group was written, no upstream needed. A walk that is not deep
   * enough is cut off and asks upstream for the owner it has reached. With the depth of ten that Route
   * uses, nine aliases are followed and ten are not.
   */
  lemma StoreThenResolve(store: Store, msg: Msg, maxTTL: Duration, writes: Writes, lo: int, hi: int,
                         owners: seq<string>, qtype: uint16, depth: nat, now: int, ts: seq<Round>, until: int)
    requires NoClash(msg.answer) && ValidWrites(msg.answer, writes, lo, hi) && HoldsChain(msg.answer, owners, qtype)
    requires |ts| >= depth && Ordered(ts, now, until) && lo <= hi <= now && Fresh(msg.answer, maxTTL, lo, until)
    requires NothingShadows(store, msg.answer, owners, qtype, ts)
    ensures forall g :: g in ChainGroups(owners, qtype) ==> g in Written(writes) && lo <= WrittenAt(writes, g) <= now
    ensures var w := Walk(ViewOf(CacheWrites(store, msg, maxTTL, writes)), owners[0], qtype, depth, now, ts);
            && (!w.needUpstream <==> |owners| <= depth)
            && (|owners| <= depth ==>
                  && now <= until
                  && w.answers == ServedChain(msg.answer, ChainGroups(owners, qtype), maxTTL, writes, lo, now))
            && (|owners| > depth ==> w.target == owners[depth])
  {
    var groups := ChainGroups(owners, qtype);
    OrderedBounds(ts, now, until);
    ChainGroupsPresent(msg.answer, owners, qtype);
    forall g | g in groups
      ensures g in Written(writes) && lo <= WrittenAt(writes, g) <= now
    {
      WrittenGroupIsLive(store, msg, maxTTL, writes, lo, hi, g, now);
    }
    forall r | r in ts
      ensures PathOf(ViewOf(CacheWrites(store, msg, maxTTL, writes)), owners,
                     StoredLists(msg, groups, maxTTL, writes), qtype, r)
    {
      StoredPath(store, msg, maxTTL, writes, lo, hi, owners, qtype, ts, r);
    }
    WalkAlongPath(ViewOf(CacheWrites(store, msg, maxTTL, writes)), owners, StoredLists(msg, groups, maxTTL, writes),
                  qtype, depth, now, ts);
    EmitStoredLists(msg, groups, maxTTL, writes, lo, now);
  }

  lemma {:induction false} ConcatFront(answer: seq<RR>, order: seq<GroupKey>)
    requires order != []
    ensures Concat(answer, order) == GroupOf(answer, order[0]) + Concat(answer, order[1..])
    decreases |order|
  {
    var n := |order| - 1;
    if n > 0 {
      ConcatFront(answer, order[..n]);
      assert order[..n][1..] == order[1..][..n - 1];
      ConcatAssoc(GroupOf(answer, order[0]), Concat(answer, order[1..][..n - 1]), GroupOf(answer, order[n]));
    } else {
      assert order[..0] == [] && order[1..] == [];
    }
  }

  lemma {:induction false} ServedIsConcat(answer: seq<RR>, groups: seq<GroupKey>, maxTTL: Duration, writes: Writes,
                                          lo: int, now: int)
    requires forall g :: g in groups ==> g in Written(writes) && lo <= WrittenAt(writes, g) <= now
    requires forall x :: x in answer ==> now < lo + Clamp(x.ttl, maxTTL) * SECOND
    ensures StripAll(ServedChain(answer, groups, maxTTL, writes, lo, now)) == StripAll(Concat(answer, groups))
    decreases |groups|
  {
    if groups != [] {
      var served := ServedGroup(answer, groups[0], maxTTL, WrittenAt(writes, groups[0]), now);
      ServedIsConcat(answer, groups[1..], maxTTL, writes, lo, now);
      ConcatFront(answer, groups);
      StripConcat(served, ServedChain(answer, groups[1..], maxTTL, writes, lo, now));
      StripConcat(GroupOf(answer, groups[0]), Concat(answer, groups[1..]));
      assert StripAll(served) == StripAll(GroupOf(answer, groups[0]));
    }
  }

  /** If the answer is nothing but the chain, what is served is a rearrangement of the whole answer, TTLs apart. */
  lemma NothingLostNothingAdded(msg: Msg, maxTTL: Duration, writes: Writes, lo: int, owners: seq<string>,
                                qtype: uint16, now: int)
    requires HoldsChain(msg.answer, owners, qtype)
    requires forall x :: x in msg.answer ==> KeyOf(x) in ChainGroups(owners, qtype)
    requires forall g :: g in ChainGroups(owners, qtype) ==> g in Written(writes) && lo <= WrittenAt(writes, g) <= now
    requires forall x :: x in msg.answer ==> now < lo + Clamp(x.ttl, maxTTL) * SECOND
    ensures exists inOrder :: multiset(inOrder) == multiset(msg.answer)
              && StripAll(ServedChain(msg.answer, ChainGroups(owners, qtype), maxTTL, writes, lo, now))
                 == StripAll(inOrder)
  {
    var groups := ChainGroups(owners, qtype);
    ChainGroupsPresent(msg.answer, owners, qtype);
    GroupsPartitionAnswer(msg.answer, groups);
    ServedIsConcat(msg.answer, groups, maxTTL, writes, lo, now);
    assert multiset(Concat(msg.answer, groups)) == multiset(msg.answer);
  }

  /**
   * A name is served from the cache under any policy, blocking ones included, as long as records of it are
   * fresh that were stored with the answer for another name.
   */
  lemma CachedTailIsServedUnderAnyPolicy(s: Setting, store: Store, msg: Msg, maxTTL: Duration, writes: Writes, lo: int,
                                         hi: int, domain: string, qtype: uint16, sch: Schedule, until: int)
    requires NoClash(msg.answer) && ValidWrites(msg.answer, writes, lo, hi)
    requires GroupOf(msg.answer, GroupKey(Fqdn(domain), qtype)) != []
    requires Ordered(sch.ts, sch.now, until) && lo <= hi <= sch.now && Fresh(msg.answer, maxTTL, lo, until)
    ensures var reply := RouteSpec(s, CacheWrites(store, msg, maxTTL, writes), domain, qtype, sch).reply;
            reply.Some? && StripAll(reply.value.answer) == StripAll(GroupOf(msg.answer, GroupKey(Fqdn(domain), qtype)))
  {
    var owners, g := [Fqdn(domain)], GroupKey(Fqdn(domain), qtype);
    StoreThenResolve(store, msg, maxTTL, writes, lo, hi, owners, qtype, DEFAULT_DEPTH, sch.now, sch.ts, until);
    ServedIsConcat(msg.answer, ChainGroups(owners, qtype), maxTTL, writes, lo, sch.now);
    assert ChainGroups(owners, qtype) == [g];
    ConcatFront(msg.answer, [g]);
    assert [g][1..] == [] && GroupOf(msg.answer, g) + [] == GroupOf(msg.answer, g);
  }
}
