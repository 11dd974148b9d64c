/** One round of the log clean-up: sort the files by age, then delete the oldest until the rest fits. */
module LogCleanup {
  import opened Dns
  import opened LogPath

  datatype FileInfo = FileInfo(path: string, size: nat, modTime: int)

  /** Asking the system for a file's size and time may fail. */
  type Stat = string -> Option<FileInfo>

  function Total(s: seq<FileInfo>): nat {
    if s == [] then 0 else Total(s[..|s| - 1]) + s[|s| - 1].size
  }

  function Found(files: seq<string>, stat: Stat): seq<FileInfo> {
    if files == [] then []
    else
      var n := |files| - 1;
      Found(files[..n], stat) + match stat(files[n]) case Some(info) => [info] case None => []
  }

  /** The files found are those whose size and time the system tells. */
  lemma {:induction false} FoundMembers(files: seq<string>, stat: Stat)
    ensures forall x :: x in Found(files, stat) <==> exists p :: p in files && stat(p) == Some(x)
  {
    if files != [] {
      var n := |files| - 1;
      FoundMembers(files[..n], stat);
      assert files == files[..n] + [files[n]];
    }
  }

  lemma {:induction false} TotalIsSum(a: seq<FileInfo>, x: FileInfo, b: seq<FileInfo>)
    ensures Total(a + [x] + b) == Total(a) + x.size + Total(b)
    decreases |b|
  {
    if b == [] {
      assert (a + [x] + b)[..|a|] == a;
    } else {
      var n := |b| - 1;
      assert (a + [x] + b)[..|a| + 1 + n] == a + [x] + b[..n];
      TotalIsSum(a, x, b[..n]);
    }
  }

  // ---- sorting ----

  ghost predicate OldestFirst(s: seq<FileInfo>) {
    forall i, j :: 0 <= i < j < |s| ==> s[i].modTime <= s[j].modTime
  }

  /** The first i places hold their final files. */
  ghost predicate SettledTo(s: seq<FileInfo>, i: int) {
    forall k, m :: 0 <= k < i && k < m < |s| ==> s[k].modTime <= s[m].modTime
  }

  lemma SwapKeepsSettled(s: seq<FileInfo>, i: nat, j: nat)
    requires i < j < |s| && SettledTo(s, i)
    ensures SettledTo(s[i := s[j]][j := s[i]], i)
  {
  }

  method Swap(a: array<FileInfo>, i: nat, j: nat)
    requires i < a.Length && j < a.Length
    modifies a
    ensures a[..] == old(a[..])[i := old(a[j])][j := old(a[i])]
    ensures multiset(a[..]) == multiset(old(a[..]))
  {
    a[i], a[j] := a[j], a[i];
  }

  /** The body of the inner loop: the older of two files comes to the earlier place. */
  method OrderPair(a: array<FileInfo>, i: nat, j: nat)
    requires i < j < a.Length && SettledTo(a[..], i)
    modifies a
    ensures SettledTo(a[..], i) && multiset(a[..]) == multiset(old(a[..]))
    ensures a[i].modTime <= a[j].modTime && a[i].modTime <= old(a[i]).modTime
    ensures forall m :: i < m < j ==> a[m] == old(a[m])
  {
    if a[i].modTime > a[j].modTime {
      SwapKeepsSettled(a[..], i, j);
      Swap(a, i, j);
    }
  }

  /** The inner loop: place i ends with an oldest of the files from i on. */
  method SettleOne(a: array<FileInfo>, i: nat)
    requires i < a.Length && SettledTo(a[..], i)
    modifies a
    ensures SettledTo(a[..], i + 1)
    ensures multiset(a[..]) == multiset(old(a[..]))
  {
    for j := i + 1 to a.Length
      invariant SettledTo(a[..], i)
      invariant forall m :: i < m < j ==> a[i].modTime <= a[m].modTime
      invariant multiset(a[..]) == multiset(old(a[..]))
    {
      OrderPair(a, i, j);
    }
  }

  method SortByAge(a: array<FileInfo>)
    modifies a
    ensures OldestFirst(a[..])
    ensures multiset(a[..]) == multiset(old(a[..]))
  {
    var i := 0;
    while i < a.Length - 1
      invariant 0 <= i <= a.Length
      invariant SettledTo(a[..], i)
      invariant multiset(a[..]) == multiset(old(a[..]))
    {
      SettleOne(a, i);
      i := i + 1;
    }
  }

  // ---- deleting ----

  /** What the deleting loop did: the files it tried to remove, those removed, and the total it ended with. */
  datatype Sweep = Sweep(tried: seq<FileInfo>, removed: seq<FileInfo>, total: int)

  function Others(s: seq<FileInfo>, logFile: string): seq<FileInfo> {
    if s == [] then []
    else
      var n := |s| - 1;
      Others(s[..n], logFile) + if s[n].path == logFile then [] else [s[n]]
  }

  function Removable(s: seq<FileInfo>, removes: string -> bool): seq<FileInfo> {
    if s == [] then []
    else
      var n := |s| - 1;
      Removable(s[..n], removes) + if removes(s[n].path) then [s[n]] else []
  }

  /**
   * The files tried are the shortest run of others, in the given order, whose removable members bring the
   * total within the limit, or all the others if no run does; and the total is the start less what went.
   */
  ghost predicate IsShortestRun(r: Sweep, others: seq<FileInfo>, start: int, limit: int, removes: string -> bool) {
    && r.tried <= others && IsNeeded(r, start, limit, removes)
    && (r.total <= limit || r.tried == others)
  }

  /** Every file was tried while the total was above the limit; the total is the start less what went. */
  ghost predicate IsNeeded(r: Sweep, start: int, limit: int, removes: string -> bool) {
    && r.removed == Removable(r.tried, removes) && r.total == start - Total(r.removed)
    && forall n :: 0 <= n < |r.tried| ==> start - Total(Removable(r.tried[..n], removes)) > limit
  }

  method DeleteOldest(fileInfos: seq<FileInfo>, logFile: string, totalSize: int, limitBytes: int,
                      removes: string -> bool)
    returns (r: Sweep)
    ensures IsShortestRun(r, Others(fileInfos, logFile), totalSize, limitBytes, removes)
  {
    r := Sweep([], [], totalSize);
    for k := 0 to |fileInfos|
      invariant r.tried == Others(fileInfos[..k], logFile)
      invariant IsNeeded(r, totalSize, limitBytes, removes)
    {
      OthersGrow(fileInfos, logFile, k);
      if r.total <= limitBytes {
        return;
      }
      var fi := fileInfos[k];
      assert fileInfos[..k + 1][..k] == fileInfos[..k];
      if fi.path != logFile {
        OneMoreTried(r, fi, totalSize, limitBytes, removes);
        if removes(fi.path) {
          r := Sweep(r.tried + [fi], r.removed + [fi], r.total - fi.size);
        } else {
          r := r.(tried := r.tried + [fi]);
        }
      }
    }
    assert fileInfos[..|fileInfos|] == fileInfos;
  }

  lemma OneMoreTried(r: Sweep, fi: FileInfo, start: int, limit: int, removes: string -> bool)
    requires IsNeeded(r, start, limit, removes) && r.total > limit
    ensures removes(fi.path) ==>
              IsNeeded(Sweep(r.tried + [fi], r.removed + [fi], r.total - fi.size), start, limit, removes)
    ensures !removes(fi.path) ==> IsNeeded(r.(tried := r.tried + [fi]), start, limit, removes)
  {
    var tried := r.tried + [fi];
    assert tried[..|r.tried|] == r.tried;
    assert (r.removed + [fi])[..|r.removed|] == r.removed;
    PrefixesOfPrefix(r.tried, tried);
  }

  lemma {:induction false} OthersGrow(s: seq<FileInfo>, logFile: string, k: nat)
    requires k <= |s|
    ensures Others(s[..k], logFile) <= Others(s, logFile)
    decreases |s| - k
  {
    if k == |s| {
      assert s[..k] == s;
    } else {
      OthersGrow(s, logFile, k + 1);
      assert s[..k + 1][..k] == s[..k];
    }
  }

  lemma PrefixesOfPrefix(p: seq<FileInfo>, s: seq<FileInfo>)
    requires p <= s
    ensures forall n :: 0 <= n <= |p| ==> p[..n] == s[..n]
  {
  }

  method Survey(files: seq<string>, stat: Stat) returns (totalSize: nat, infos: seq<FileInfo>)
    ensures infos == Found(files, stat) && totalSize == Total(infos)
  {
    totalSize, infos := 0, [];
    for i := 0 to |files|
      invariant infos == Found(files[..i], stat) && totalSize == Total(infos)
    {
      assert files[..i + 1][..i] == files[..i];
      match stat(files[i]) {
        case Some(info) =>
          assert (infos + [info])[..|infos|] == infos;
          totalSize, infos := totalSize + info.size, infos + [info];
        case None =>
      }
    }
    assert files[..|files|] == files;
  }

  /** One round. The total and the limit are in bytes, the setting in megabytes. */
  method CleanUp(files: seq<string>, stat: Stat, logFile: string, totalSizeLimitMB: int, removes: string -> bool)
    returns (r: Sweep, ghost order: seq<FileInfo>)
    ensures multiset(order) == multiset(Found(files, stat))
    ensures Total(Found(files, stat)) <= totalSizeLimitMB * 1024 * 1024
            ==> r == Sweep([], [], Total(Found(files, stat)))
    ensures Total(Found(files, stat)) > totalSizeLimitMB * 1024 * 1024 ==>
              && OldestFirst(order)
              && IsShortestRun(r, Others(order, logFile), Total(Found(files, stat)), totalSizeLimitMB * 1024 * 1024,
                               removes)
  {
    var totalSize, infos := Survey(files, stat);
    var limitBytes := totalSizeLimitMB * 1024 * 1024;
    r, order := Sweep([], [], totalSize), infos;
    if totalSize > limitBytes {
      var fileInfos := new FileInfo[|infos|](i requires 0 <= i < |infos| => infos[i]);
      assert fileInfos[..] == infos;
      SortByAge(fileInfos);
      order := fileInfos[..];
      r := DeleteOldest(fileInfos[..], logFile, totalSize, limitBytes, removes);
    }
  }

  // ---- what the shortest run means ----

  lemma {:induction false} OthersExcludeActive(s: seq<FileInfo>, logFile: string, x: FileInfo)
    ensures x in Others(s, logFile) <==> x in s && x.path != logFile
  {
    if s != [] {
      OthersExcludeActive(s[..|s| - 1], logFile, x);
      assert s == s[..|s| - 1] + [s[|s| - 1]];
    }
  }

  lemma {:induction false} OthersKeepOrder(s: seq<FileInfo>, logFile: string)
    requires OldestFirst(s)
    ensures OldestFirst(Others(s, logFile))
  {
    if s != [] {
      var n := |s| - 1;
      OthersKeepOrder(s[..n], logFile);
      forall x | x in Others(s[..n], logFile)
        ensures x.modTime <= s[n].modTime
      {
        OthersExcludeActive(s[..n], logFile, x);
      }
    }
  }

  lemma {:induction false} RemovableMembers(s: seq<FileInfo>, removes: string -> bool, x: FileInfo)
    ensures x in Removable(s, removes) <==> x in s && removes(x.path)
  {
    if s != [] {
      RemovableMembers(s[..|s| - 1], removes, x);
      assert s == s[..|s| - 1] + [s[|s| - 1]];
    }
  }

  lemma {:induction false} AllRemovable(s: seq<FileInfo>, removes: string -> bool)
    requires forall x :: x in s ==> removes(x.path)
    ensures Removable(s, removes) == s
  {
    if s != [] {
      AllRemovable(s[..|s| - 1], removes);
      assert s == s[..|s| - 1] + [s[|s| - 1]];
      assert s[|s| - 1] in s;
    }
  }

  /** A file whose path equals logFile is never removed, nor is anything that was not found. */
  lemma LogFileIsKept(r: Sweep, s: seq<FileInfo>, logFile: string, start: int, limit: int, removes: string -> bool,
                      x: FileInfo)
    requires IsShortestRun(r, Others(s, logFile), start, limit, removes) && x in r.removed
    ensures x in s && x.path != logFile
  {
    RemovableMembers(r.tried, removes, x);
    OthersExcludeActive(s, logFile, x);
  }

  /**
   * The active log is found under its cleaned path. So it is exempt from deletion exactly if logFile is
   * written without anything to clean: no empty segment, no dot, no two dots after a name or the root.
   */
  lemma ActiveLogIsExemptIffTidy(s: seq<FileInfo>, logFile: string, x: FileInfo)
    requires IsFile(logFile) && x in s && x.path == FoundAs(logFile)
    ensures x !in Others(s, logFile) <==> IsTidy(logFile)
  {
    OthersExcludeActive(s, logFile, x);
    FoundAsIsClean(logFile);
    CleanIffTidy(logFile);
  }

  /** With a path like ./logs/dns.log the active log, if it alone exceeds the limit, is itself deleted. */
  lemma ActiveLogCanBeRemoved(q: string, size: nat, modTime: int, limit: int, removes: string -> bool)
    returns (r: Sweep)
    requires IsFile("./" + q) && size > limit && removes(FoundAs("./" + q))
    ensures var logFile, x := "./" + q, FileInfo(FoundAs("./" + q), size, modTime);
            r.removed == [x] && IsShortestRun(r, Others([x], logFile), size, limit, removes)
  {
    var logFile, x := "./" + q, FileInfo(FoundAs("./" + q), size, modTime);
    FirstSegment(logFile, 1);
    assert Segments(logFile)[0] == ".";
    ActiveLogIsExemptIffTidy([x], logFile, x);
    r := OneFileGoes(x, logFile, limit, removes);
  }

  lemma OneFileGoes(x: FileInfo, logFile: string, limit: int, removes: string -> bool) returns (r: Sweep)
    requires x in Others([x], logFile) && x.size > limit && removes(x.path)
    ensures r.removed == [x] && IsShortestRun(r, Others([x], logFile), x.size, limit, removes)
  {
    OthersExcludeActive([x], logFile, x);
    r := Sweep([x], [x], 0);
    assert [x][..0] == [] && Others([x], logFile) == [x] && Removable([x], removes) == [x] && Total([x]) == x.size;
  }

  /** Nothing was tried once the total was within the limit: before each removal it was still above. */
  lemma {:induction false} RemovalsWereNeeded(r: Sweep, others: seq<FileInfo>, start: int, limit: int,
                                              removes: string -> bool, k: nat)
    requires IsShortestRun(r, others, start, limit, removes) && k < |r.removed|
    ensures start - Total(r.removed[..k]) > limit
  {
    var n := RemovedAt(r.tried, removes, k);
  }

  lemma {:induction false} RemovedAt(s: seq<FileInfo>, removes: string -> bool, k: nat) returns (n: nat)
    requires k < |Removable(s, removes)|
    ensures n < |s| && Removable(s[..n], removes) == Removable(s, removes)[..k]
  {
    var m := |s| - 1;
    var before := Removable(s[..m], removes);
    if k < |before| {
      n := RemovedAt(s[..m], removes, k);
      assert s[..m][..n] == s[..n];
    } else {
      n := m;
      assert Removable(s, removes)[..k] == before;
    }
  }

  lemma SamePrefix<T>(a: seq<T>, b: seq<T>, s: seq<T>)
    requires a <= s && b <= s && |a| == |b|
    ensures a == b
  {
    assert a == s[..|a|];
    assert b == s[..|b|];
  }

  lemma StillTooMuch(r: Sweep, shorter: seq<FileInfo>, start: int, limit: int, removes: string -> bool)
    requires IsNeeded(r, start, limit, removes) && shorter < r.tried
    ensures start - Total(Removable(shorter, removes)) > limit
  {
    assert r.tried[..|shorter|] == shorter;
  }

  lemma TriesEnough(r: Sweep, r': Sweep, others: seq<FileInfo>, start: int, limit: int, removes: string -> bool)
    requires IsShortestRun(r, others, start, limit, removes) && IsShortestRun(r', others, start, limit, removes)
    ensures |r.tried| >= |r'.tried|
  {
    var n := |r.tried|;
    if n < |r'.tried| {
      StillTooMuch(r', r.tried, start, limit, removes);
      assert false;
    }
  }

  /** The run is determined: two rounds on the same files in the same order do the same. */
  lemma ShortestRunIsUnique(r: Sweep, r': Sweep, others: seq<FileInfo>, start: int, limit: int, removes: string -> bool)
    requires IsShortestRun(r, others, start, limit, removes) && IsShortestRun(r', others, start, limit, removes)
    ensures r == r'
  {
    TriesEnough(r, r', others, start, limit, removes);
    TriesEnough(r', r, others, start, limit, removes);
    SamePrefix(r.tried, r'.tried, others);
  }

  /**
   * When every removal succeeds, the files removed are the oldest ones whose path is not logFile: no such file
   * that stays is older than one that went, and either the rest is within the limit or no other file stays.
   */
  lemma OldestGoFirst(r: Sweep, s: seq<FileInfo>, logFile: string, start: int, limit: int, removes: string -> bool)
    requires OldestFirst(s) && IsShortestRun(r, Others(s, logFile), start, limit, removes)
    requires forall x :: x in Others(s, logFile) ==> removes(x.path)
    ensures var others := Others(s, logFile);
            && r.removed <= others
            && (r.total <= limit || r.removed == others)
            && (forall n :: 0 <= n < |r.removed| ==> start - Total(others[..n]) > limit)
            && forall i, j :: 0 <= i < |r.removed| <= j < |others| ==> others[i].modTime <= others[j].modTime
  {
    var others := Others(s, logFile);
    OthersKeepOrder(s, logFile);
    PrefixesOfPrefix(r.tried, others);
    AllRemovable(r.tried, removes);
    forall n | 0 <= n < |r.removed|
      ensures start - Total(others[..n]) > limit
    {
      AllRemovable(others[..n], removes);
    }
  }
}
