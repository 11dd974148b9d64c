/** How the clean-up names the files it finds: lexically cleaned paths, as opposed to the path it was given. */
module LogPath {
  function LastSlash(p: string): (i: int)
    ensures -1 <= i < |p|
    ensures i >= 0 ==> p[i] == '/'
    ensures forall j :: i < j < |p| ==> p[j] != '/'
  {
    if p == "" then -1 else if p[|p| - 1] == '/' then |p| - 1 else LastSlash(p[..|p| - 1])
  }

  /** The segments between slashes, empty ones included. */
  function Segments(p: string): (r: seq<string>)
    ensures r != []
    decreases |p|
  {
    var i := LastSlash(p);
    if i < 0 then [p] else Segments(p[..i]) + [p[i + 1..]]
  }

  function Join(segs: seq<string>): string
    requires segs != []
  {
    var n := |segs| - 1;
    if n == 0 then segs[0] else Join(segs[..n]) + "/" + segs[n]
  }

  predicate IsRooted(p: string) {
    p != "" && p[0] == '/'
  }

  // ---- cleaning, joining, directory and base, as the path library does it ----

  /** One more segment: nothing for an empty one or a dot, one less for two dots where there is one to drop. */
  function Step(rooted: bool, out: seq<string>, seg: string): seq<string> {
    if seg == "" || seg == "." then out
    else if seg != ".." then out + [seg]
    else if out != [] && out[|out| - 1] != ".." then out[..|out| - 1]
    else if rooted then out
    else out + [".."]
  }

  function Reduce(rooted: bool, segs: seq<string>): seq<string> {
    if segs == [] then [] else Step(rooted, Reduce(rooted, segs[..|segs| - 1]), segs[|segs| - 1])
  }

  function Print(rooted: bool, out: seq<string>): string {
    if out == [] then if rooted then "/" else "."
    else if rooted then "/" + Join(out) else Join(out)
  }

  function Clean(p: string): string {
    Print(IsRooted(p), Reduce(IsRooted(p), Segments(p)))
  }

  function Dir(p: string): string {
    Clean(p[..LastSlash(p) + 1])
  }

  /** The last segment; a path that ends in a slash does not name a file that could be open as the log. */
  function Base(p: string): string
    requires IsFile(p)
  {
    p[LastSlash(p) + 1..]
  }

  predicate IsFile(p: string) {
    p != "" && p[|p| - 1] != '/'
  }

  /** The path under which a search of the file's directory finds the file itself. */
  function FoundAs(p: string): string
    requires IsFile(p)
  {
    Clean(Dir(p) + "/" + Base(p))
  }

  // ---- segments and slashes ----

  predicate NoSlash(s: string) {
    '/' !in s
  }

  lemma SegmentsAppend(a: string, b: string)
    requires NoSlash(b)
    ensures Segments(a + "/" + b) == Segments(a) + [b]
  {
    var p := a + "/" + b;
    assert p[|a|] == '/' && forall j :: |a| < j < |p| ==> p[j] == b[j - |a| - 1] && p[j] in b;
    assert LastSlash(p) == |a|;
    assert p[..|a|] == a && p[|a| + 1..] == b;
  }

  lemma {:induction false} SegmentsHaveNoSlash(p: string)
    ensures forall s :: s in Segments(p) ==> NoSlash(s)
    decreases |p|
  {
    if LastSlash(p) >= 0 {
      SegmentsHaveNoSlash(p[..LastSlash(p)]);
    }
  }

  lemma {:induction false} JoinSegments(p: string)
    ensures Join(Segments(p)) == p
    decreases |p|
  {
    var i := LastSlash(p);
    if i >= 0 {
      JoinSegments(p[..i]);
      assert Segments(p)[..|Segments(p)| - 1] == Segments(p[..i]);
      assert p == p[..i] + "/" + p[i + 1..];
    }
  }

  lemma {:induction false} SegmentsJoin(segs: seq<string>)
    requires segs != [] && forall s :: s in segs ==> NoSlash(s)
    ensures Segments(Join(segs)) == segs
    decreases |segs|
  {
    var n := |segs| - 1;
    assert segs == segs[..n] + [segs[n]];
    if n > 0 {
      SegmentsJoin(segs[..n]);
      SegmentsAppend(Join(segs[..n]), segs[n]);
    } else {
      assert NoSlash(segs[0]) && LastSlash(segs[0]) == -1;
    }
  }

  lemma {:induction false} JoinRooted(segs: seq<string>)
    requires segs != []
    ensures Join([""] + segs) == "/" + Join(segs)
    decreases |segs|
  {
    var n := |segs| - 1;
    assert ([""] + segs)[..n + 1] == [""] + segs[..n];
    if n > 0 {
      JoinRooted(segs[..n]);
    }
  }

  // ---- what cleaning yields ----

  /** No empty segment, no dot, and two dots only at the front of a relative path. */
  predicate IsNormal(rooted: bool, segs: seq<string>) {
    forall i :: 0 <= i < |segs| ==>
                  && segs[i] != "" && segs[i] != "." && NoSlash(segs[i])
                  && (segs[i] == ".." ==> !rooted && forall j :: 0 <= j < i ==> segs[j] == "..")
  }

  lemma {:induction false} ReduceIsNormal(rooted: bool, segs: seq<string>)
    requires forall s :: s in segs ==> NoSlash(s)
    ensures IsNormal(rooted, Reduce(rooted, segs))
    decreases |segs|
  {
    if segs != [] {
      var n := |segs| - 1;
      var out := Reduce(rooted, segs[..n]);
      ReduceIsNormal(rooted, segs[..n]);
      if segs[n] == ".." && out != [] && out[|out| - 1] == ".." {
        assert forall j :: 0 <= j < |out| ==> out[j] == "..";
      }
    }
  }

  lemma NormalPrefix(rooted: bool, segs: seq<string>)
    requires segs != [] && IsNormal(rooted, segs)
    ensures var n := |segs| - 1; IsNormal(rooted, segs[..n]) && Step(rooted, segs[..n], segs[n]) == segs
  {
    var n := |segs| - 1;
    forall i | 0 <= i < n
      ensures segs[..n][i] == segs[i]
    {
    }
    assert segs == segs[..n] + [segs[n]];
    assert n > 0 && segs[n] == ".." ==> segs[..n][n - 1] == "..";
  }

  lemma {:induction false} ReduceKeepsNormal(rooted: bool, segs: seq<string>)
    requires IsNormal(rooted, segs)
    ensures Reduce(rooted, segs) == segs
    decreases |segs|
  {
    if segs != [] {
      NormalPrefix(rooted, segs);
      ReduceKeepsNormal(rooted, segs[..|segs| - 1]);
    }
  }

  lemma {:induction false} ReduceDropsRoot(rooted: bool, segs: seq<string>)
    ensures Reduce(rooted, [""] + segs) == Reduce(rooted, segs)
    decreases |segs|
  {
    var n := |segs| - 1;
    if n < 0 {
      assert ([""] + segs)[..0] == [];
    } else {
      assert ([""] + segs)[..n + 1] == [""] + segs[..n];
      ReduceDropsRoot(rooted, segs[..n]);
    }
  }

  /** The printed form of normal segments is taken apart again into these. */
  lemma PrintedReduces(rooted: bool, out: seq<string>)
    requires IsNormal(rooted, out)
    ensures var p := Print(rooted, out); p != "" && IsRooted(p) == rooted && Reduce(rooted, Segments(p)) == out
  {
    ReduceKeepsNormal(rooted, out);
    ReduceDropsRoot(rooted, out);
    if out == [] {
      SegmentsAppend("", "");
      assert "" + "/" + "" == "/" && Segments("") == [""] && Segments("/") == [""] + [""];
      assert Segments(".") == ["."];
      assert [""][..0] == [] && ["."][..0] == [] && ([""] + [""])[..1] == [""];
    } else {
      SegmentsJoin(out);
      FirstOfJoin(out);
      if rooted {
        JoinRooted(out);
        SegmentsJoin([""] + out);
      }
    }
  }

  lemma {:induction false} FirstOfJoin(segs: seq<string>)
    requires segs != [] && segs[0] != ""
    ensures Join(segs) != "" && Join(segs)[0] == segs[0][0]
    decreases |segs|
  {
    if |segs| > 1 {
      FirstOfJoin(segs[..|segs| - 1]);
    }
  }

  // ---- the rules of cleaning ----

  lemma ReduceOneMore(rooted: bool, segs: seq<string>, seg: string)
    ensures Reduce(rooted, segs + [seg]) == Step(rooted, Reduce(rooted, segs), seg)
  {
    assert (segs + [seg])[..|segs|] == segs;
  }

  lemma OneFurther(a: seq<string>, more: seq<string>)
    requires more != []
    ensures a + more == a + more[..|more| - 1] + [more[|more| - 1]]
  {
  }

  /** Where two lists of segments reduce alike, they do so with the same segments after them. */
  lemma {:induction false} SameAfter(rooted: bool, a: seq<string>, b: seq<string>, more: seq<string>)
    requires Reduce(rooted, a) == Reduce(rooted, b)
    ensures Reduce(rooted, a + more) == Reduce(rooted, b + more)
    decreases |more|
  {
    if more == [] {
      assert a + more == a && b + more == b;
    } else {
      var n := |more| - 1;
      SameAfter(rooted, a, b, more[..n]);
      OneFurther(a, more);
      OneFurther(b, more);
      ReduceOneMore(rooted, a + more[..n], more[n]);
      ReduceOneMore(rooted, b + more[..n], more[n]);
    }
  }

  /**
   * The rules that the path library documents: empty segments and dots are dropped, two dots take the name
   * before them away, and two dots at the root go nowhere. With CleanIffTidy they leave one result.
   */
  lemma CleaningRules(rooted: bool, before: seq<string>, name: string, after: seq<string>)
    requires name != "" && name != "." && name != ".."
    ensures Reduce(rooted, before + [""] + after) == Reduce(rooted, before + after)
    ensures Reduce(rooted, before + ["."] + after) == Reduce(rooted, before + after)
    ensures Reduce(rooted, before + [name, ".."] + after) == Reduce(rooted, before + after)
    ensures Reduce(true, [".."] + after) == Reduce(true, after)
  {
    ReduceOneMore(rooted, before, "");
    SameAfter(rooted, before + [""], before, after);
    ReduceOneMore(rooted, before, ".");
    SameAfter(rooted, before + ["."], before, after);
    ReduceOneMore(rooted, before, name);
    ReduceOneMore(rooted, before + [name], "..");
    assert before + [name, ".."] == before + [name] + [".."];
    SameAfter(rooted, before + [name, ".."], before, after);
    ReduceOneMore(true, [], "..");
    assert [] + [".."] == [".."] && [] + after == after;
    SameAfter(true, [".."], [], after);
  }

  /** A search of the file's own directory finds the file under its cleaned path. */
  lemma FoundAsIsClean(p: string)
    requires IsFile(p)
    ensures FoundAs(p) == Clean(p)
  {
    var i, b := LastSlash(p), Base(p);
    var d := p[..i + 1];
    var rooted := IsRooted(d);
    var out := Reduce(rooted, Segments(d));
    SegmentsHaveNoSlash(d);
    ReduceIsNormal(rooted, Segments(d));
    PrintedReduces(rooted, out);
    assert NoSlash(b);
    SegmentsAppend(Dir(p), b);
    var whole := Segments(Dir(p)) + [b];
    assert whole[..|whole| - 1] == Segments(Dir(p));
    assert Reduce(rooted, whole) == Step(rooted, out, b);
    assert (Dir(p) + "/" + b)[0] == Dir(p)[0];
    if i < 0 {
      assert d == "" && p[i + 1..] == p && Segments(p) == [p] && Segments("") == [""];
      assert [p][..0] == [] && [""][..0] == [];
      assert NoSlash(p) && !IsRooted(p) by { assert p[0] != '/'; }
    } else {
      SegmentsAppend(p[..i], "");
      assert p[..i] + "/" + "" == d;
      var ds := Segments(p[..i]) + [""];
      assert ds[..|ds| - 1] == Segments(p[..i]);
      assert Segments(p)[..|Segments(p)| - 1] == Segments(p[..i]);
      assert IsRooted(p) == rooted;
    }
  }

  /** What can be seen from a path: cleaning leaves it alone exactly if it is written without anything to clean. */
  predicate IsTidy(p: string) {
    p == "." || if IsRooted(p) then IsNormal(true, Segments(p)[1..]) else IsNormal(false, Segments(p))
  }

  lemma CleanIffTidy(p: string)
    requires IsFile(p)
    ensures Clean(p) == p <==> IsTidy(p)
  {
    if Clean(p) == p {
      PrintedIsTidy(p, Reduce(IsRooted(p), Segments(p)));
    }
    if IsTidy(p) {
      TidyIsClean(p);
    }
  }

  lemma PrintedIsTidy(p: string, out: seq<string>)
    requires IsFile(p) && out == Reduce(IsRooted(p), Segments(p)) && Print(IsRooted(p), out) == p
    ensures IsTidy(p)
  {
    SegmentsHaveNoSlash(p);
    ReduceIsNormal(IsRooted(p), Segments(p));
    if out != [] {
      SegmentsJoin(out);
      if IsRooted(p) {
        JoinRooted(out);
        SegmentsJoin([""] + out);
      }
    }
  }

  lemma TidyIsClean(p: string)
    requires IsFile(p) && IsTidy(p)
    ensures Clean(p) == p
  {
    var segs := Segments(p);
    JoinSegments(p);
    if p == "." {
      assert ["."][..0] == [];
    } else if IsRooted(p) {
      FirstSegment(p, 0);
      assert segs == [""] + segs[1..];
      ReduceKeepsNormal(true, segs[1..]);
      ReduceDropsRoot(true, segs[1..]);
      JoinRooted(segs[1..]);
    } else {
      ReduceKeepsNormal(false, segs);
    }
  }

  /** The first segment of what follows a slash further on is the first segment of what precedes it. */
  lemma {:induction false} FirstSegment(p: string, k: nat)
    requires k < |p| && p[k] == '/' && NoSlash(p[..k])
    ensures |Segments(p)| > 1 && Segments(p)[0] == p[..k]
    decreases |p|
  {
    var i := LastSlash(p);
    var head := p[..i];
    if i == k {
      assert LastSlash(head) == -1;
    } else {
      assert head[..k] == p[..k] && head[k] == '/';
      FirstSegment(head, k);
    }
  }
}
