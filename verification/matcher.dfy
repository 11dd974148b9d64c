/** The category table and the lookup of a domain in it, by its labels from the left. */
module Matching {
  import opened Dns

  type Table = map<string, string>

  /** What Get answers: an absent entry reads as the empty category. */
  function Entry(data: Table, domain: string): string {
    if domain in data then data[domain] else ""
  }

  function LowerChar(c: char): char {
    if 'A' <= c <= 'Z' then c - 'A' + 'a' else c
  }

  function ToLower(s: string): (r: string)
    ensures |r| == |s| && forall i :: 0 <= i < |s| ==> r[i] == LowerChar(s[i])
  {
    seq(|s|, i requires 0 <= i < |s| => LowerChar(s[i]))
  }

  function TrimDot(s: string): string {
    if IsFqdn(s) then s[..|s| - 1] else s
  }

  function Normalise(domain: string): string {
    ToLower(TrimDot(domain))
  }

  // ---- strings.Split and strings.Join on "." ----

  /** The position of the first dot, or the length. */
  function FirstDot(s: string): (i: nat)
    ensures i <= |s| && (i < |s| ==> s[i] == '.')
    ensures forall j :: 0 <= j < i ==> s[j] != '.'
  {
    if s == [] || s[0] == '.' then 0 else 1 + FirstDot(s[1..])
  }

  function Split(s: string): (parts: seq<string>)
    ensures |parts| >= 1
    decreases |s|
  {
    var i := FirstDot(s);
    if i == |s| then [s] else [s[..i]] + Split(s[i + 1..])
  }

  function Join(parts: seq<string>): string {
    if parts == [] then "" else if |parts| == 1 then parts[0] else parts[0] + "." + Join(parts[1..])
  }

  lemma {:induction false} JoinSplit(s: string)
    ensures Join(Split(s)) == s
    decreases |s|
  {
    var i := FirstDot(s);
    if i < |s| {
      JoinSplit(s[i + 1..]);
      assert Split(s)[1..] == Split(s[i + 1..]);
      assert s == s[..i] + "." + s[i + 1..];
    }
  }

  // ---- longest label suffix ----

  /** x is d itself or what is left of d after some of its dots. */
  predicate IsLabelSuffix(x: string, d: string) {
    |x| <= |d| && d[|d| - |x|..] == x && (|x| < |d| ==> d[|d| - |x| - 1] == '.')
  }

  ghost predicate IsLongestEntry(data: Table, d: string, x: string) {
    && IsLabelSuffix(x, d) && Entry(data, x) != ""
    && forall y :: IsLabelSuffix(y, d) && |y| > |x| ==> Entry(data, y) == ""
  }

  /** The category of the longest label suffix that has one. */
  ghost predicate IsMatch(data: Table, d: string, r: Option<string>) {
    match r
    case None => forall x :: IsLabelSuffix(x, d) ==> Entry(data, x) == ""
    case Some(g) => exists x :: IsLongestEntry(data, d, x) && Entry(data, x) == g
  }

  function Best(data: Table, d: string): Option<string>
    decreases |d|
  {
    if Entry(data, d) != "" then Some(Entry(data, d))
    else
      var i := FirstDot(d);
      if i == |d| then None else Best(data, d[i + 1..])
  }

  function MatchSpec(data: Table, domain: string): Option<string> {
    var d := Normalise(domain);
    if d == "" then None else Best(data, d)
  }

  lemma TailOfTail(d: string, i: nat, n: nat)
    requires i <= |d| && n <= |d| - i
    ensures d[i..][|d| - i - n..] == d[|d| - n..]
  {
  }

  predicate NoDotBefore(d: string, i: nat)
    requires i <= |d|
  {
    forall j :: 0 <= j < i ==> d[j] != '.'
  }

  /** A proper label suffix begins after the first dot or later. */
  lemma SuffixIsShort(x: string, d: string, i: nat)
    requires i <= |d| && NoDotBefore(d, i) && x != d && IsLabelSuffix(x, d)
    ensures |x| < |d| - i
  {
    if |x| == |d| {
      assert false;
    }
  }

  lemma SuffixBeyond(x: string, d: string, i: nat)
    requires i < |d| && d[i] == '.' && |x| < |d| - i
    ensures IsLabelSuffix(x, d) <==> IsLabelSuffix(x, d[i + 1..])
  {
    TailOfTail(d, i + 1, |x|);
  }

  lemma NoLongerSuffix(x: string, e: string)
    requires |x| > |e|
    ensures !IsLabelSuffix(x, e)
  {
  }

  lemma SuffixesAfterDotAt(x: string, d: string, i: nat)
    requires x != d && i < |d| && d[i] == '.' && NoDotBefore(d, i)
    ensures IsLabelSuffix(x, d) <==> IsLabelSuffix(x, d[i + 1..])
  {
    if |x| < |d| - i {
      SuffixBeyond(x, d, i);
    } else {
      NoLongerSuffix(x, d[i + 1..]);
      if IsLabelSuffix(x, d) {
        SuffixIsShort(x, d, i);
      }
    }
  }

  /** The proper label suffixes of d are the label suffixes of what follows its first dot. */
  lemma SuffixesAfterFirstDot(x: string, d: string)
    requires x != d
    ensures IsLabelSuffix(x, d) <==> FirstDot(d) < |d| && IsLabelSuffix(x, d[FirstDot(d) + 1..])
  {
    if FirstDot(d) < |d| {
      SuffixesAfterDotAt(x, d, FirstDot(d));
    } else if IsLabelSuffix(x, d) {
      SuffixIsShort(x, d, |d|);
    }
  }

  lemma {:induction false} BestIsLongestSuffix(data: Table, d: string)
    ensures IsMatch(data, d, Best(data, d))
    decreases |d|
  {
    if Entry(data, d) != "" {
      assert IsLongestEntry(data, d, d);
    } else {
      var i := FirstDot(d);
      forall x: string | x != d {
        SuffixesAfterFirstDot(x, d);
      }
      if i < |d| {
        BestIsLongestSuffix(data, d[i + 1..]);
        var r := Best(data, d[i + 1..]);
        if r.Some? {
          var x :| IsLongestEntry(data, d[i + 1..], x) && Entry(data, x) == r.value;
          assert IsLongestEntry(data, d, x);
        }
      }
    }
  }

  /** There is only one such category, so the two definitions pin down the same answer. */
  lemma MatchIsUnique(data: Table, d: string, r: Option<string>)
    requires IsMatch(data, d, r)
    ensures r == Best(data, d)
  {
    BestIsLongestSuffix(data, d);
    if r.Some? {
      var x :| IsLongestEntry(data, d, x) && Entry(data, x) == r.value;
      if Best(data, d).Some? {
        var y :| IsLongestEntry(data, d, y) && Entry(data, y) == Best(data, d).value;
        assert |x| == |y|;
        assert x == d[|d| - |x|..] == y;
      }
    }
  }

  lemma SameLower(a: string, b: string)
    requires |a| == |b| && forall i :: 0 <= i < |a| ==> LowerChar(a[i]) == LowerChar(b[i])
    ensures Normalise(a) == Normalise(b)
  {
    assert |a| > 0 ==> LowerChar(a[|a| - 1]) == LowerChar(b[|b| - 1]);
    assert |TrimDot(a)| == |TrimDot(b)|;
    forall i | 0 <= i < |TrimDot(a)|
      ensures Normalise(a)[i] == Normalise(b)[i]
    {
      assert TrimDot(a)[i] == a[i] && TrimDot(b)[i] == b[i];
    }
  }

  /** Letter case never matters; a trailing dot matters exactly when the name before it ends in a dot too. */
  lemma CaseAndDotInsensitive(data: Table, a: string, b: string)
    ensures (|a| == |b| && forall i :: 0 <= i < |a| ==>
                             || a[i] == b[i]
                             || ('A' <= a[i] <= 'Z' && b[i] == a[i] - 'A' + 'a')
                             || ('A' <= b[i] <= 'Z' && a[i] == b[i] - 'A' + 'a')) ==>
              MatchSpec(data, a) == MatchSpec(data, b)
    ensures Normalise(a + ".") == Normalise(a) <==> a == "" || a[|a| - 1] != '.'
    ensures a == "" || a[|a| - 1] != '.' ==> MatchSpec(data, a + ".") == MatchSpec(data, a)
  {
    assert TrimDot(a + ".") == a;
    if |a| == |b| && forall i :: 0 <= i < |a| ==> LowerChar(a[i]) == LowerChar(b[i]) {
      SameLower(a, b);
    }
    if IsFqdn(a) {
      assert |Normalise(a + ".")| == |a| > |Normalise(a)|;
    }
  }

  /** A name is in normal form exactly if it has no upper-case letter and no dot at its end. */
  lemma NormalIff(domain: string)
    ensures Normalise(domain) == domain
       <==> (forall c :: c in domain ==> !('A' <= c <= 'Z')) && (domain == "" || domain[|domain| - 1] != '.')
  {
    if domain != "" && domain[|domain| - 1] == '.' {
      assert |Normalise(domain)| < |domain|;
    } else {
      assert TrimDot(domain) == domain;
      if i :| 0 <= i < |domain| && 'A' <= domain[i] <= 'Z' {
        assert Normalise(domain)[i] != domain[i] && domain[i] in domain;
      } else {
        assert Normalise(domain) == domain;
      }
    }
  }

  /** An entry in lower case is found for its name, in whatever case and with or without the final dot. */
  lemma LowerCaseIsFound(data: Table, d: string, g: string, asked: string)
    requires d != "" && d[|d| - 1] != '.' && (forall c :: c in d ==> !('A' <= c <= 'Z')) && g != ""
    requires |asked| == |d| && forall i :: 0 <= i < |d| ==>
                                 asked[i] == d[i] || ('a' <= d[i] <= 'z' && asked[i] == d[i] - 'a' + 'A')
    ensures MatchSpec(data[d := g], asked) == MatchSpec(data[d := g], asked + ".") == Some(g)
  {
    forall i | 0 <= i < |d|
      ensures LowerChar(asked[i]) == LowerChar(d[i])
    {
      assert d[i] in d;
    }
    SameLower(asked, d);
    NormalIff(d);
    CaseAndDotInsensitive(data[d := g], asked, d);
  }

  /** The root, with or without its dot, matches nothing. */
  lemma RootMatchesNothing(data: Table)
    ensures MatchSpec(data, "") == None && MatchSpec(data, ".") == None
  {
    assert TrimDot(".") == "";
  }

  // ---- learning ----

  ghost predicate NoLongerEntry(data: Table, d: string, x: string) {
    forall y :: IsLabelSuffix(y, d) && |y| > |x| ==> Entry(data, y) == ""
  }

  lemma NowLongest(data: Table, d: string, g: string, x: string)
    requires g != "" && IsLabelSuffix(d, x) && NoLongerEntry(data, x, d)
    ensures IsLongestEntry(data[d := g], x, d)
  {
    assert forall y :: y != d ==> Entry(data[d := g], y) == Entry(data, y);
  }

  lemma StillLongest(data: Table, d: string, g: string, x: string, y: string)
    requires g != "" && IsLongestEntry(data, x, y) && !(IsLabelSuffix(d, x) && NoLongerEntry(data, x, d))
    ensures IsLongestEntry(data[d := g], x, y)
  {
    assert forall z :: z != d ==> Entry(data[d := g], z) == Entry(data, z);
    if IsLabelSuffix(d, x) {
      var z :| IsLabelSuffix(z, x) && |z| > |d| && Entry(data, z) != "";
      assert |y| >= |z|;
    }
  }

  /** Exactly which lookups a new entry changes, and to what. */
  lemma LearningOne(data: Table, d: string, g: string, x: string)
    requires g != ""
    ensures Best(data[d := g], x) == if IsLabelSuffix(d, x) && NoLongerEntry(data, x, d) then Some(g) else Best(data, x)
  {
    var after := data[d := g];
    BestIsLongestSuffix(data, x);
    assert forall y :: y != d ==> Entry(after, y) == Entry(data, y);
    if IsLabelSuffix(d, x) && NoLongerEntry(data, x, d) {
      assert IsLongestEntry(after, x, d);
      assert IsMatch(after, x, Some(g));
      MatchIsUnique(after, x, Some(g));
    } else {
      var r := Best(data, x);
      if r.Some? {
        var y :| IsLongestEntry(data, x, y) && Entry(data, y) == r.value;
        if IsLabelSuffix(d, x) {
          var z :| IsLabelSuffix(z, x) && |z| > |d| && Entry(data, z) != "";
          assert |y| >= |z|;
        }
        assert IsLongestEntry(after, x, y);
      }
      assert IsMatch(after, x, r);
      MatchIsUnique(after, x, r);
    }
  }

  lemma LowerTail(x: string, d: string)
    requires d != "" && d[|d| - 1] != '.' && forall c :: c in d ==> !('A' <= c <= 'Z')
    ensures Normalise(x + d) == ToLower(x) + d
  {
    assert TrimDot(x + d) == x + d;
    forall i | 0 <= i < |d|
      ensures Normalise(x + d)[|x| + i] == d[i]
    {
      assert d[i] in d;
    }
  }

  lemma OneEntry(d: string, g: string, asked: string)
    requires g != "" && Normalise(asked) != ""
    ensures MatchSpec(map[d := g], asked) == if IsLabelSuffix(d, Normalise(asked)) then Some(g) else None
  {
    BestIsLongestSuffix(map[], Normalise(asked));
    LearningOne(map[], d, g, Normalise(asked));
  }

  lemma SuffixAfter(x: string, d: string)
    ensures IsLabelSuffix(d, x + d) <==> x == "" || x[|x| - 1] == '.'
  {
    assert (x + d)[|x|..] == d;
  }

  /** An entry by itself is found for every name below its own, and for no other name that merely ends like it. */
  lemma FoundAtLabelsOnly(d: string, g: string, x: string)
    requires d != "" && d[|d| - 1] != '.' && (forall c :: c in d ==> !('A' <= c <= 'Z')) && g != ""
    ensures MatchSpec(map[d := g], x + d) == if x == "" || x[|x| - 1] == '.' then Some(g) else None
  {
    LowerTail(x, d);
    OneEntry(d, g, x + d);
    SuffixAfter(ToLower(x), d);
  }

  /**
   * The router learns the domain as it was asked. The next lookup of that domain sees the new category
   * exactly when the domain was lower case and without trailing dot; otherwise nothing has been learned.
   */
  lemma LearnedWhenNormal(data: Table, domain: string, g: string)
    requires g != "" && domain != "" && domain != "."
    ensures MatchSpec(data[domain := g], domain)
         == if (forall c :: c in domain ==> !('A' <= c <= 'Z')) && domain[|domain| - 1] != '.' then Some(g)
            else MatchSpec(data, domain)
  {
    NormalIff(domain);
    LearningOne(data, domain, g, Normalise(domain));
    if Normalise(domain) == domain {
      assert forall y :: IsLabelSuffix(y, domain) ==> |y| <= |domain|;
    }
  }

  lemma SuffixIsLower(x: string, s: string)
    requires IsLabelSuffix(x, ToLower(s))
    ensures forall c :: c in x ==> !('A' <= c <= 'Z')
  {
    assert x == ToLower(s)[|s| - |x|..];
    forall i | 0 <= i < |x|
      ensures !('A' <= x[i] <= 'Z')
    {
      assert x[i] == LowerChar(s[|s| - |x| + i]);
    }
  }

  /** A domain with an upper-case letter is learned under a key that no lookup of any domain reads. */
  lemma UpperCaseIsNeverRead(data: Table, domain: string, g: string, asked: string)
    requires g != "" && exists c :: c in domain && 'A' <= c <= 'Z'
    ensures MatchSpec(data[domain := g], asked) == MatchSpec(data, asked)
  {
    LearningOne(data, domain, g, Normalise(asked));
    if IsLabelSuffix(domain, Normalise(asked)) {
      SuffixIsLower(domain, TrimDot(asked));
      assert false;
    }
  }

  function LearnAll(data: Table, writes: seq<(string, string)>): Table {
    if writes == [] then data
    else LearnAll(data, writes[..|writes| - 1])[writes[|writes| - 1].0 := writes[|writes| - 1].1]
  }

  /** Whatever was learned in between, a changed match is due to a write that is now the longest entry. */
  lemma {:induction false} LearningIsLocal(data: Table, writes: seq<(string, string)>, x: string)
    requires forall w :: w in writes ==> w.1 != ""
    requires Best(LearnAll(data, writes), x) != Best(data, x)
    ensures exists w :: w in writes && IsLongestEntry(LearnAll(data, writes), x, w.0)
    decreases |writes|
  {
    var n := |writes| - 1;
    var before, last := LearnAll(data, writes[..n]), writes[n];
    LearningOne(before, last.0, last.1, x);
    if IsLabelSuffix(last.0, x) && NoLongerEntry(before, x, last.0) {
      NowLongest(before, last.0, last.1, x);
    } else {
      LearningIsLocal(data, writes[..n], x);
      var w :| w in writes[..n] && IsLongestEntry(before, x, w.0);
      StillLongest(before, last.0, last.1, x, w.0);
    }
  }

  // ---- the mutable table and the matcher over it ----

  class MemoryCategoryCache {
    var data: Table

    constructor ()
      ensures data == map[]
    {
      data := map[];
    }

    function Get(domain: string): string
      reads this
    {
      Entry(data, domain)
    }

    method Set(domain: string, category: string)
      modifies this
      ensures data == old(data)[domain := category]
    {
      data := data[domain := category];
    }

    /** Writes the entries in an arbitrary order. */
    method BatchSet(entries: Table)
      modifies this
      ensures data == old(data) + entries
    {
      var todo := entries.Keys;
      while todo != {}
        invariant todo <= entries.Keys
        invariant data == old(data) + (entries - todo)
        decreases todo
      {
        var domain :| domain in todo;
        data := data[domain := entries[domain]];
        todo := todo - {domain};
      }
    }

    method Delete(domain: string)
      modifies this
      ensures data == old(data) - {domain}
    {
      data := data - {domain};
    }

    method Clear()
      modifies this
      ensures data == map[]
    {
      data := map[];
    }
  }

  class Matcher {
    const categoryCache: MemoryCategoryCache

    constructor (categoryCache: MemoryCategoryCache)
      ensures this.categoryCache == categoryCache
    {
      this.categoryCache := categoryCache;
    }

    /** Tries the whole name, then ever shorter tails of its split and re-joined labels. */
    method Match(domain: string) returns (group: string, ok: bool)
      ensures (if ok then Some(group) else None) == MatchSpec(categoryCache.data, domain)
    {
      var d := Normalise(domain);
      if d == "" {
        return "", false;
      }
      group := categoryCache.Get(d);
      if group != "" {
        return group, true;
      }
      var parts := Split(d);
      JoinSplit(d);
      assert parts[0..] == parts;
      BestAtParts(categoryCache.data, parts, 0);
      for i := 1 to |parts|
        invariant SplitFrom(parts, i)
        invariant Best(categoryCache.data, d) == BestFrom(categoryCache.data, parts, i)
      {
        var parent := Join(parts[i..]);
        BestAtParts(categoryCache.data, parts, i);
        group := categoryCache.Get(parent);
        if group != "" {
          return group, true;
        }
      }
      return "", false;
    }

    /** Only the whole name counts. */
    method MatchExact(domain: string) returns (group: string, ok: bool)
      ensures ok <==> Normalise(domain) != "" && Entry(categoryCache.data, Normalise(domain)) != ""
      ensures group == if ok then Entry(categoryCache.data, Normalise(domain)) else ""
    {
      var d := Normalise(domain);
      if d == "" {
        return "", false;
      }
      group := categoryCache.Get(d);
      return group, group != "";
    }
  }

  ghost predicate SplitFrom(parts: seq<string>, i: nat) {
    i < |parts| ==> parts[i..] == Split(Join(parts[i..]))
  }

  ghost function BestFrom(data: Table, parts: seq<string>, i: nat): Option<string> {
    if i < |parts| then Best(data, Join(parts[i..])) else None
  }

  lemma BestAtParts(data: Table, parts: seq<string>, i: nat)
    requires i < |parts| && SplitFrom(parts, i)
    ensures var d := Join(parts[i..]);
            Best(data, d) == if Entry(data, d) != "" then Some(Entry(data, d)) else BestFrom(data, parts, i + 1)
    ensures SplitFrom(parts, i + 1)
  {
    var d := Join(parts[i..]);
    var j := FirstDot(d);
    if j < |d| {
      assert Split(d)[1..] == Split(d[j + 1..]);
      assert parts[i..][1..] == parts[i + 1..];
      JoinSplit(d[j + 1..]);
    }
  }
}
