/** The record cache on values: what it holds, what is live, and what each operation does to it. */
module CacheModel {
  import opened Dns

  const SECOND := 1_000_000_000

  /** Truncating division, as Go converts a float number of seconds to an integer. */
  function TruncDiv(a: int, b: int): int
    requires b > 0
  {
    if a >= 0 then a / b else -((-a) / b)
  }

  datatype Item = Item(rr: RR, origTTL: uint32, storedAt: int, rcode: int, authData: bool, recurAvail: bool) {

    predicate IsExpired(now: int) {
      now - storedAt >= origTTL * SECOND
    }

    function RemainingTTL(now: int): nat {
      var remaining := origTTL - TruncDiv(now - storedAt, SECOND);
      if remaining < 0 then 0 else remaining
    }

    /** The first instant at which the item is expired. */
    function Expiry(): int {
      storedAt + origTTL * SECOND
    }

    /** The copy handed to a client: the TTL field is a 32-bit conversion of the remaining time. */
    function Served(now: int): RR {
      rr.(ttl := RemainingTTL(now) % 0x1_0000_0000)
    }
  }

  datatype Key = Key(name: string, rtype: uint16, cls: uint16)

  function CacheKey(qname: string, qtype: uint16): Key {
    Key(Fqdn(qname), qtype, CLASS_INET)
  }

  type Store = map<Key, seq<Item>>

  type Duration = d: int | 0 <= d < 0x1_0000_0000 * SECOND

  function Clamp(ttl: uint32, maxTTL: Duration): uint32 {
    if ttl * SECOND > maxTTL then maxTTL / SECOND else ttl
  }

  function Stamp(items: seq<Item>, maxTTL: Duration, now: int): (r: seq<Item>)
    ensures |r| == |items|
    ensures forall i :: 0 <= i < |items| ==>
                          r[i] == items[i].(origTTL := Clamp(items[i].origTTL, maxTTL), storedAt := now)
  {
    seq(|items|, i requires 0 <= i < |items| =>
      items[i].(origTTL := Clamp(items[i].origTTL, maxTTL), storedAt := now))
  }

  /** The items that are not expired, in order. */
  function Live(items: seq<Item>, now: int): (r: seq<Item>)
    ensures |r| <= |items|
    ensures |r| == |items| ==> r == items
  {
    if items == [] then []
    else
      var n := |items| - 1;
      Live(items[..n], now) + (if items[n].IsExpired(now) then [] else [items[n]])
  }

  function LiveAt(store: Store, k: Key, now: int): seq<Item> {
    if k in store then Live(store[k], now) else []
  }

  /** The pure view the cache is meant to offer: from a key and an instant to live records. */
  type View = (Key, int) -> seq<Item>

  function ViewOf(store: Store): View {
    (k, t) => LiveAt(store, k, t)
  }

  /** Two stores that nobody can tell apart from an instant on. */
  ghost predicate SameView(a: Store, b: Store, from: int) {
    forall k, t :: from <= t ==> LiveAt(a, k, t) == LiveAt(b, k, t)
  }

  function AfterGet(store: Store, k: Key, now: int): Store {
    if k !in store then store
    else
      var valid := Live(store[k], now);
      if valid == [] then store - {k}
      else if |valid| < |store[k]| then store[k := valid]
      else store
  }

  function AfterSet(store: Store, k: Key, items: seq<Item>, maxTTL: Duration, now: int): Store {
    if items == [] then store else store[k := Stamp(items, maxTTL, now)]
  }

  // ---- time ----

  lemma {:induction false} LiveMembers(items: seq<Item>, now: int)
    ensures forall x :: x in Live(items, now) <==> x in items && !x.IsExpired(now)
    decreases |items|
  {
    if items != [] {
      var n := |items| - 1;
      LiveMembers(items[..n], now);
      assert items == items[..n] + [items[n]];
    }
  }

  lemma {:induction false} LiveLater(items: seq<Item>, t: int, u: int)
    requires t <= u
    ensures Live(Live(items, t), u) == Live(items, u)
    decreases |items|
  {
    if items != [] {
      var n := |items| - 1;
      LiveLater(items[..n], t, u);
      var kept := Live(items[..n], t);
      if items[n].IsExpired(t) {
        assert Live(items, t) == kept;
      } else {
        assert Live(items, t) == kept + [items[n]];
        assert (kept + [items[n]])[..|kept|] == kept;
      }
    }
  }

  /** Clean-up during a lookup changes no live view, of any key, at or after its clock reading. */
  lemma EvictionIsInvisible(store: Store, k: Key, now: int)
    ensures SameView(AfterGet(store, k, now), store, now)
  {
    forall j, t | now <= t
      ensures LiveAt(AfterGet(store, k, now), j, t) == LiveAt(store, j, t)
    {
      if j == k && k in store {
        LiveLater(store[k], now, t);
      }
    }
  }

  /** Storing respects views: clients who could not tell two stores apart still cannot. */
  lemma SetRespectsView(a: Store, b: Store, k: Key, items: seq<Item>, maxTTL: Duration, now: int, from: int)
    requires SameView(a, b, from)
    ensures SameView(AfterSet(a, k, items, maxTTL, now), AfterSet(b, k, items, maxTTL, now), from)
  {
    var a', b' := AfterSet(a, k, items, maxTTL, now), AfterSet(b, k, items, maxTTL, now);
    forall j, t | from <= t
      ensures LiveAt(a', j, t) == LiveAt(b', j, t)
    {
      if j == k && items != [] {
        assert a'[k] == b'[k];
      } else {
        assert LiveAt(a', j, t) == LiveAt(a, j, t);
        assert LiveAt(b', j, t) == LiveAt(b, j, t);
      }
    }
  }

  // ---- expiry arithmetic ----

  lemma DivBounds(a: int, b: int)
    requires a >= 0 && b > 0
    ensures (a / b) * b <= a < (a / b) * b + b
  {
  }

  lemma DivAtLeast(a: int, b: int, q: int)
    requires a >= 0 && b > 0 && q >= 0
    ensures a / b >= q <==> a >= q * b
  {
    DivBounds(a, b);
    if a / b >= q {
      MulMonotone(q, a / b, b);
    } else {
      MulMonotone(a / b + 1, q, b);
    }
  }

  lemma MulMonotone(x: int, y: int, b: int)
    requires x <= y && b > 0
    ensures x * b <= y * b
  {
  }

  /**
   * Being expired and having no TTL left are the same thing, except for a TTL-0 item stamped less than a
   * second after the instant asked about.
   */
  lemma ExpiredIffNothingLeft(it: Item, now: int)
    ensures (it.IsExpired(now) <==> it.RemainingTTL(now) == 0)
       <==> !(it.origTTL == 0 && it.storedAt - SECOND < now < it.storedAt)
  {
    var elapsed := now - it.storedAt;
    if elapsed >= 0 {
      DivAtLeast(elapsed, SECOND, it.origTTL);
    } else {
      assert !it.IsExpired(now);
      DivAtLeast(-elapsed, SECOND, 1);
    }
  }

  /**
   * An instant may lie before the store, when a walk has begun before a call that overlaps it stores: the
   * remaining TTL then exceeds what was stored, exactly from one whole second on.
   */
  lemma RemainingExceedsIff(it: Item, now: int)
    ensures it.RemainingTTL(now) > it.origTTL <==> it.storedAt - now >= SECOND
  {
    if now < it.storedAt {
      DivAtLeast(it.storedAt - now, SECOND, 1);
    } else {
      DivBounds(now - it.storedAt, SECOND);
    }
  }

  /** The product computed by the expiry test and by the clamp stays inside a signed 64-bit duration. */
  lemma NanosecondsFit(ttl: uint32)
    ensures 0 <= ttl * SECOND < 0x8000_0000_0000_0000
  {
  }

  /** The clamp keeps a short TTL as it is and cuts a long one to the last whole second the cache allows. */
  lemma ClampBounds(ttl: uint32, maxTTL: Duration)
    ensures Clamp(ttl, maxTTL) * SECOND <= maxTTL
    ensures ttl * SECOND > maxTTL ==> (Clamp(ttl, maxTTL) + 1) * SECOND > maxTTL
    ensures Clamp(ttl, maxTTL) <= ttl
    ensures ttl * SECOND <= maxTTL ==> Clamp(ttl, maxTTL) == ttl
    ensures Clamp(Clamp(ttl, maxTTL), maxTTL) == Clamp(ttl, maxTTL)
  {
    DivBounds(maxTTL, SECOND);
    if ttl * SECOND > maxTTL {
      DivAtLeast(maxTTL, SECOND, ttl);
    }
  }

  /**
   * How long a stored record lives, in nanoseconds: as long as its TTL says, or, if that is more than the cache
   * allows, for the whole seconds that are allowed.
   */
  lemma StoredRecordLives(store: Store, k: Key, items: seq<Item>, maxTTL: Duration, at: int, i: nat, t: int)
    requires i < |items| && at <= t
    ensures var after := AfterSet(store, k, items, maxTTL, at);
            && k in after && |after[k]| == |items| && after[k][i].rr == items[i].rr
            && (after[k][i] in LiveAt(after, k, t) <==>
                && t < at + items[i].origTTL * 1_000_000_000
                && (items[i].origTTL * 1_000_000_000 <= maxTTL || t < at + maxTTL - maxTTL % 1_000_000_000))
  {
    var stamped := Stamp(items, maxTTL, at);
    LiveMembers(stamped, t);
    assert stamped[i] in stamped;
    DivBounds(maxTTL, SECOND);
    if items[i].origTTL * SECOND > maxTTL {
      DivAtLeast(maxTTL, SECOND, items[i].origTTL);
    }
  }

  /** A lookup leaves of its entry just what is live, of an entry with nothing live nothing, and the rest alone. */
  lemma LookupPurges(store: Store, k: Key, now: int)
    ensures var after := AfterGet(store, k, now);
            && (k in after <==> exists x :: x in LiveAt(store, k, now))
            && (k in after ==> after[k] == LiveAt(store, k, now))
            && (forall j :: j != k ==> (j in after <==> j in store) && (j in store ==> after[j] == store[j]))
  {
    if LiveAt(store, k, now) != [] {
      assert LiveAt(store, k, now)[0] in LiveAt(store, k, now);
    }
  }

  // ---- what every reachable store satisfies ----

  ghost predicate ItemFits(x: Item, k: Key, maxTTL: Duration, now: int) {
    CacheKey(x.rr.name, x.rr.rtype) == k && x.origTTL * SECOND <= maxTTL && x.storedAt <= now
  }

  /** Every entry is non-empty, holds records of its own key, within the TTL limit, stored in the past. */
  ghost predicate WellFormed(store: Store, maxTTL: Duration, now: int) {
    forall k :: k in store ==> store[k] != [] && forall x :: x in store[k] ==> ItemFits(x, k, maxTTL, now)
  }

  lemma GetKeepsWellFormed(store: Store, k: Key, maxTTL: Duration, now: int)
    requires WellFormed(store, maxTTL, now)
    ensures WellFormed(AfterGet(store, k, now), maxTTL, now)
  {
    if k in store {
      LiveMembers(store[k], now);
    }
  }

  lemma SetKeepsWellFormed(store: Store, k: Key, items: seq<Item>, maxTTL: Duration, at: int, now: int)
    requires WellFormed(store, maxTTL, now) && at <= now
    requires forall x :: x in items ==> CacheKey(x.rr.name, x.rr.rtype) == k
    ensures WellFormed(AfterSet(store, k, items, maxTTL, at), maxTTL, now)
  {
    var after := AfterSet(store, k, items, maxTTL, at);
    if items != [] {
      forall x: Item | x in after[k]
        ensures ItemFits(x, k, maxTTL, now)
      {
        var i :| 0 <= i < |items| && after[k][i] == x;
        assert items[i] in items;
        ClampBounds(items[i].origTTL, maxTTL);
      }
    }
  }

  lemma WellFormedLater(store: Store, maxTTL: Duration, before: int, now: int)
    requires WellFormed(store, maxTTL, before) && before <= now
    ensures WellFormed(store, maxTTL, now)
  {
    forall k, x | k in store && x in store[k]
      ensures ItemFits(x, k, maxTTL, now)
    {
      assert ItemFits(x, k, maxTTL, before);
    }
  }

  /**
   * What a sequential lookup serves: the TTL is computed for an instant `now` read no later than the
   * instant `at` of the expiry test, and the item was stored before both. Then it is at least 1, at most
   * the cache's limit in seconds, and not changed by the 32-bit conversion.
   */
  lemma ServedTTLBounds(store: Store, maxTTL: Duration, k: Key, now: int, at: int, x: Item)
    requires WellFormed(store, maxTTL, now) && now <= at
    requires x in LiveAt(store, k, at)
    ensures 1 <= x.Served(now).ttl <= maxTTL / SECOND
    ensures x.Served(now).ttl == x.RemainingTTL(now)
    ensures x.origTTL > 0
  {
    LiveMembers(store[k], at);
    assert ItemFits(x, k, maxTTL, now);
    assert !x.IsExpired(now);
    ExpiredIffNothingLeft(x, now);
    DivAtLeast(maxTTL, SECOND, x.origTTL);
  }

  // ---- the key string ----

  function Digit(d: int): char
    requires 0 <= d < 10
  {
    ['0', '1', '2', '3', '4', '5', '6', '7', '8', '9'][d]
  }

  function Decimal(n: nat): (s: string)
    ensures s != [] && forall c :: c in s ==> '0' <= c <= '9'
  {
    if n < 10 then [Digit(n)] else Decimal(n / 10) + [Digit(n % 10)]
  }

  /** The string under which an entry is filed. */
  function KeyString(k: Key): string {
    k.name + ":" + Decimal(k.rtype) + ":" + Decimal(k.cls)
  }

  lemma {:induction false} DecimalInjective(m: nat, n: nat)
    requires Decimal(m) == Decimal(n)
    ensures m == n
    decreases m
  {
    var s := Decimal(m);
    assert m >= 10 ==> s[..|s| - 1] == Decimal(m / 10);
    assert n >= 10 ==> s[..|s| - 1] == Decimal(n / 10);
    if m >= 10 && n >= 10 {
      DecimalInjective(m / 10, n / 10);
      assert s[|s| - 1] == Digit(m % 10) == Digit(n % 10);
    }
  }

  /** The number that a string of decimal digits stands for. */
  function Number(s: string): int {
    if s == "" then 0 else Number(s[..|s| - 1]) * 10 + (s[|s| - 1] as int - '0' as int)
  }

  lemma {:induction false} DecimalReads(n: nat)
    ensures Number(Decimal(n)) == n && (n > 0 ==> Decimal(n)[0] != '0')
  {
    var s := Decimal(n);
    if n < 10 {
      assert s[..0] == "" && s == [Digit(n)];
    } else {
      DecimalReads(n / 10);
      assert s[..|s| - 1] == Decimal(n / 10);
    }
  }

  /** The string is the name, the type and the class, with colons between and without leading zeros. */
  lemma KeyStringReads(qname: string, qtype: uint16) returns (rtype: string)
    requires qname != "" && qname[|qname| - 1] != '.'
    ensures KeyString(CacheKey(qname, qtype)) == qname + ".:" + rtype + ":1"
    ensures Number(rtype) == qtype && rtype != "" && (qtype > 0 ==> rtype[0] != '0')
  {
    rtype := Decimal(qtype);
    DecimalReads(qtype);
    assert qname + "." + ":" == qname + ".:";
  }

  lemma LastColon(a: string, d: string, b: string, e: string)
    requires a + ":" + d == b + ":" + e
    requires forall c :: c in d ==> c != ':'
    requires forall c :: c in e ==> c != ':'
    ensures a == b && d == e
  {
    var s := a + ":" + d;
    assert s[|a|] == ':' && s[|b|] == ':';
    assert forall i :: |a| < i < |s| ==> s[i] != ':' by {
      assert forall i :: |a| < i < |s| ==> s[i] == d[i - |a| - 1] && d[i - |a| - 1] in d;
    }
    assert forall i :: |b| < i < |s| ==> s[i] != ':' by {
      assert forall i :: |b| < i < |s| ==> s[i] == e[i - |b| - 1] && e[i - |b| - 1] in e;
    }
    assert |a| == |b|;
    assert a == s[..|a|] == b;
    assert d == s[|a| + 1..] == e;
  }

  /** No two keys share a string, whatever characters the names hold; so a map on keys models the map. */
  lemma KeyStringInjective(j: Key, k: Key)
    requires KeyString(j) == KeyString(k)
    ensures j == k
  {
    LastColon(j.name + ":" + Decimal(j.rtype), Decimal(j.cls), k.name + ":" + Decimal(k.rtype), Decimal(k.cls));
    DecimalInjective(j.cls, k.cls);
    LastColon(j.name, Decimal(j.rtype), k.name, Decimal(k.rtype));
    DecimalInjective(j.rtype, k.rtype);
  }
}

/** The mutable cache. Entries are objects whose TTL and time stamp are rewritten when they are stored. */
module MemoryCache {
  import opened Dns
  import opened CacheModel

  /** A clock that never runs backwards and may advance by any amount between two readings. */
  class Clock {
    var now: int

    constructor (start: int)
      ensures now == start
    {
      now := start;
    }

    method Read() returns (t: int)
      modifies this
      ensures old(now) <= now == t
    {
      var step: nat :| true;
      now := now + step;
      t := now;
    }
  }

  class RRCacheItem {
    const rr: RR
    var origTTL: uint32
    var storedAt: int
    const rcode: int
    const authData: bool
    const recurAvail: bool

    constructor (rr: RR, origTTL: uint32, storedAt: int, rcode: int, authData: bool, recurAvail: bool)
      ensures Value() == Item(rr, origTTL, storedAt, rcode, authData, recurAvail)
    {
      this.rr, this.origTTL, this.storedAt := rr, origTTL, storedAt;
      this.rcode, this.authData, this.recurAvail := rcode, authData, recurAvail;
    }

    function Value(): Item
      reads this
    {
      Item(rr, origTTL, storedAt, rcode, authData, recurAvail)
    }
  }

  function Values(items: seq<RRCacheItem>): (r: seq<Item>)
    reads items
    ensures |r| == |items|
    ensures forall i :: 0 <= i < |items| ==> r[i] == items[i].Value()
  {
    seq(|items|, i requires 0 <= i < |items| reads items => items[i].Value())
  }

  lemma ValuesAppend(items: seq<RRCacheItem>, x: RRCacheItem)
    ensures Values(items + [x]) == Values(items) + [x.Value()]
  {
  }

  /** The items of a list that are not expired, in order. */
  method FilterExpired(items: seq<RRCacheItem>, now: int) returns (validItems: seq<RRCacheItem>)
    ensures Values(validItems) == Live(Values(items), now)
    ensures forall x :: x in validItems ==> x in items
    ensures |validItems| == |items| ==> validItems == items
  {
    validItems := [];
    for i := 0 to |items|
      invariant Values(validItems) == Live(Values(items)[..i], now)
      invariant |validItems| <= i
      invariant |validItems| == i ==> validItems == items[..i]
      invariant forall x :: x in validItems ==> x in items
    {
      TakeTake(Values(items), i);
      TakeOneMore(items, i);
      if !items[i].Value().IsExpired(now) {
        ValuesAppend(validItems, items[i]);
        validItems := validItems + [items[i]];
      }
    }
    assert Values(items)[..|items|] == Values(items);
  }

  class MemoryDNSCache {
    var storage: map<Key, seq<RRCacheItem>>
    const maxTTL: Duration
    /** Every item the cache has ever filed. */
    ghost var filed: set<RRCacheItem>

    ghost predicate Valid()
      reads this
    {
      forall k, x :: k in storage && x in storage[k] ==> x in filed
    }

    /** The store as a value. */
    ghost function Abs(): Store
      requires Valid()
      reads this, filed
    {
      map k | k in storage :: Values(storage[k])
    }

    /** Whatever leaves the cache and its items alone leaves the store alone. */
    twostate lemma Untouched()
      requires old(Valid()) && unchanged(this) && forall x :: x in filed ==> unchanged(x)
      ensures Valid() && Abs() == old(Abs())
    {
      forall k | k in storage
        ensures Values(storage[k]) == old(Values(storage[k]))
      {
        assert forall i :: 0 <= i < |storage[k]| ==> storage[k][i] in filed;
      }
    }

    constructor (maxTTL: Duration)
      ensures Valid() && Abs() == map[] && this.maxTTL == maxTTL && filed == {}
    {
      this.storage, this.maxTTL, this.filed := map[], maxTTL, {};
    }

    method Put(key: Key, items: seq<RRCacheItem>)
      requires Valid()
      modifies this`storage, this`filed
      ensures Valid() && filed == old(filed) + set x | x in items
      ensures storage == old(storage)[key := items]
      ensures Abs() == old(Abs())[key := Values(items)]
    {
      storage := storage[key := items];
      filed := filed + set x | x in items;
    }

    method Remove(key: Key)
      requires Valid()
      modifies this`storage
      ensures Valid() && Abs() == old(Abs()) - {key}
    {
      storage := storage - {key};
    }

    /** Returns the live items of a key at its clock reading `at`, dropping expired ones on the way. */
    method GetRRs(clock: Clock, qname: string, qtype: uint16)
      returns (items: seq<RRCacheItem>, hit: bool, ghost at: int)
      requires Valid()
      modifies this`storage, this`filed, clock
      ensures Valid() && old(clock.now) <= at == clock.now && filed == old(filed)
      ensures hit <==> items != []
      ensures forall x :: x in items ==> x in filed
      ensures Values(items) == LiveAt(old(Abs()), CacheKey(qname, qtype), at)
      ensures Abs() == AfterGet(old(Abs()), CacheKey(qname, qtype), at)
    {
      var key := CacheKey(qname, qtype);
      ghost var before := Abs();
      at := clock.now;
      if key !in storage {
        return [], false, at;
      }
      items := storage[key];
      var now := clock.Read();
      at := now;
      assert Abs() == before;
      var validItems := FilterExpired(items, now);
      assert Values(validItems) == LiveAt(before, key, now);
      if |validItems| == 0 {
        Remove(key);
        return [], false, at;
      }
      if |validItems| < |items| {
        Put(key, validItems);
      }
      return validItems, true, at;
    }

    /** Clamps and stamps the items in place, then files them under the key. */
    method SetRRs(clock: Clock, qname: string, qtype: uint16, items: seq<RRCacheItem>) returns (ghost at: int)
      requires Valid()
      modifies this`storage, this`filed, clock, items
      ensures Valid() && old(clock.now) <= at == clock.now
      ensures filed == old(filed) + set x | x in items
      ensures storage == if items == [] then old(storage) else old(storage)[CacheKey(qname, qtype) := items]
      ensures Values(items) == Stamp(old(Values(items)), maxTTL, at)
      ensures (forall x :: x in items ==> x !in old(filed)) ==>
                Abs() == AfterSet(old(Abs()), CacheKey(qname, qtype), old(Values(items)), maxTTL, at)
    {
      at := clock.now;
      if |items| == 0 {
        return;
      }
      var key := CacheKey(qname, qtype);
      var now := clock.Read();
      at := now;
      StampAll(items, maxTTL, now);
      if forall x :: x in items ==> x !in filed {
        Untouched();
      }
      Put(key, items);
    }

    /** Files one item under the name, type and class of its own record. */
    method SetSingleRR(clock: Clock, item: RRCacheItem) returns (ghost at: int)
      requires Valid()
      modifies this`storage, this`filed, clock, item
      ensures Valid() && old(clock.now) <= at == clock.now
      ensures storage == old(storage)[Key(item.rr.name, item.rr.rtype, item.rr.cls) := [item]]
      ensures [item.Value()] == Stamp([old(item.Value())], maxTTL, at)
    {
      var key := Key(item.rr.name, item.rr.rtype, item.rr.cls);
      if item.origTTL * SECOND > maxTTL {
        item.origTTL := maxTTL / SECOND;
      }
      var now := clock.Read();
      at := now;
      item.storedAt := now;
      Put(key, [item]);
    }

    method DeleteRRs(qname: string, qtype: uint16)
      requires Valid()
      modifies this`storage
      ensures Valid() && Abs() == old(Abs()) - {CacheKey(qname, qtype)}
    {
      Remove(CacheKey(qname, qtype));
    }

    method Clear()
      modifies this`storage
      ensures Valid() && Abs() == map[]
    {
      storage := map[];
    }
  }

  /** The stamping loop of SetRRs; an item listed twice is stamped once. */
  method StampAll(items: seq<RRCacheItem>, maxTTL: Duration, now: int)
    modifies items
    ensures Values(items) == Stamp(old(Values(items)), maxTTL, now)
  {
    for i := 0 to |items|
      invariant forall x :: x in items[..i] ==> x.origTTL == Clamp(old(x.origTTL), maxTTL) && x.storedAt == now
      invariant forall x :: x in items && x !in items[..i] ==> x.origTTL == old(x.origTTL)
    {
      ClampBounds(old(items[i].origTTL), maxTTL);
      if items[i].origTTL * SECOND > maxTTL {
        items[i].origTTL := maxTTL / SECOND;
      }
      items[i].storedAt := now;
    }
    assert forall i :: 0 <= i < |items| ==> items[i] in items[..|items|];
  }
}
