/** Unmounting everything under a volume root before its directory is removed. */
module MountTeardown {
  import opened Common
  import opened StableSort
  import opened Strings

  // ---------------------------------------------------------------- the mount table

  function WithoutReturn(line: string): string {
    if line != [] && line[|line| - 1] == '\r' then line[..|line| - 1] else line
  }

  /** `str::lines`: at line feeds, without a carriage return before them, without a last empty line. */
  function Lines(s: string): seq<string> {
    if s == [] then []
    else
      var line := LineOf(s);
      if |line| == |s| then [s]
      else [WithoutReturn(line)] + Lines(s[|line| + 1..])
  }

  function LineOf(s: string): (line: string)
    ensures |line| <= |s| && line == s[..|line|] && '\n' !in line
    ensures |line| < |s| ==> s[|line|] == '\n'
  {
    if s == [] || s[0] == '\n' then [] else [s[0]] + LineOf(s[1..])
  }

  /** `trim_end_matches('/')`: the longest beginning that does not end in a slash. */
  function TrimSlashes(s: string): (r: string)
    ensures r <= s && (r == [] || r[|r| - 1] != '/')
    ensures forall k :: |r| <= k < |s| ==> s[k] == '/'
  {
    if s != [] && s[|s| - 1] == '/' then TrimSlashes(s[..|s| - 1]) else s
  }

  /** The third space-separated field of a line of `mount` output. */
  function MountPoint(line: string): Option<string> {
    var parts := Split(line, ' ');
    if |parts| < 3 then None else Some(TrimSlashes(parts[2]))
  }

  /** What one mount looks like in that output. */
  function Render(source: string, point: string, rest: string): string {
    source + " on " + point + " type " + rest
  }

  /** A rendered mount is read back, when neither its source nor its mount point holds a space. */
  lemma RenderReadsBack(source: string, point: string, rest: string)
    requires ' ' !in source && ' ' !in point
    ensures MountPoint(source + " on " + point + " type " + rest) == Some(TrimSlashes(point))
  {
    var tail := "type " + rest;
    assert Render(source, point, rest) == source + [' '] + ("on" + [' '] + (point + [' '] + tail));
    SplitWord(source, "on" + [' '] + (point + [' '] + tail), ' ');
    SplitWord("on", point + [' '] + tail, ' ');
    SplitWord(point, tail, ' ');
  }

  /** One mount of the table. */
  datatype Mount = Mount(source: string, point: string, rest: string)

  predicate Readable(m: Mount) {
    && ' ' !in m.source && ' ' !in m.point
    && '\n' !in m.source && '\n' !in m.point && '\n' !in m.rest
  }

  /** What `mount` prints: one line per mount. */
  function RenderTable(mounts: seq<Mount>): string {
    if mounts == [] then ""
    else Render(mounts[0].source, mounts[0].point, mounts[0].rest) + ['\n'] + RenderTable(mounts[1..])
  }

  lemma {:induction false} LineOfStops(line: string, rest: string)
    requires '\n' !in line
    ensures LineOf(line + ['\n'] + rest) == line
  {
    if line == [] {
      assert (line + ['\n'] + rest)[0] == '\n';
    } else {
      LineOfStops(line[1..], rest);
      assert (line + ['\n'] + rest)[1..] == line[1..] + ['\n'] + rest;
      assert line == [line[0]] + line[1..];
    }
  }

  lemma LinesCons(line: string, rest: string)
    requires '\n' !in line
    ensures Lines(line + ['\n'] + rest) == [WithoutReturn(line)] + Lines(rest)
  {
    LineOfStops(line, rest);
    assert (line + ['\n'] + rest)[|line| + 1..] == rest;
  }

  lemma ReturnIsCut(line: string, rest: string)
    requires '\n' !in line
    ensures Lines(line + ['\r', '\n'] + rest) == [line] + Lines(rest)
  {
    var ended := line + ['\r'];
    LinesCons(ended, rest);
    assert line + ['\r', '\n'] + rest == ended + ['\n'] + rest;
    assert WithoutReturn(ended) == line;
  }

  lemma LastLine(line: string)
    requires '\n' !in line
    ensures Lines(line) == if line == [] then [] else [line]
  {
  }

  /** Reading lines, case by case: a line ends at a line feed, less one carriage return, or with the text. */
  lemma LinesExactly(line: string, rest: string)
    requires '\n' !in line
    ensures Lines(line + ['\r', '\n'] + rest) == [line] + Lines(rest)
    ensures (line == [] || line[|line| - 1] != '\r') ==> Lines(line + ['\n'] + rest) == [line] + Lines(rest)
    ensures Lines(line) == if line == [] then [] else [line]
  {
    ReturnIsCut(line, rest);
    LastLine(line);
    LinesCons(line, rest);
  }

  lemma RenderWithoutReturn(m: Mount)
    ensures WithoutReturn(Render(m.source, m.point, m.rest)) == Render(m.source, m.point, WithoutReturn(m.rest))
  {
    var line := Render(m.source, m.point, m.rest);
    var head := m.source + " on " + m.point + " type ";
    assert line == head + m.rest;
    assert m.rest == [] ==> line[|line| - 1] == ' ';
  }

  lemma TableCons(m: Mount, rest: string)
    requires Readable(m)
    ensures Lines(Render(m.source, m.point, m.rest) + ['\n'] + rest)
         == [Render(m.source, m.point, WithoutReturn(m.rest))] + Lines(rest)
  {
    LinesCons(Render(m.source, m.point, m.rest), rest);
    RenderWithoutReturn(m);
  }

  lemma {:induction false} TableLines(mounts: seq<Mount>)
    requires forall k :: 0 <= k < |mounts| ==> Readable(mounts[k])
    ensures |Lines(RenderTable(mounts))| == |mounts|
    ensures forall k :: 0 <= k < |mounts| ==>
              MountPoint(Lines(RenderTable(mounts))[k]) == Some(TrimSlashes(mounts[k].point))
  {
    if mounts != [] {
      var m, rest := mounts[0], mounts[1..];
      TableLines(rest);
      TableCons(m, RenderTable(rest));
      assert MountPoint(Render(m.source, m.point, WithoutReturn(m.rest))) == Some(TrimSlashes(m.point)) by {
        RenderReadsBack(m.source, m.point, WithoutReturn(m.rest));
      }
    }
  }

  // ---------------------------------------------------------------- at or below a root

  /** What the source tests: equal, or starting with the root and a slash. */
  predicate UnderRoot(point: string, root: string) {
    point == root || root + "/" <= point
  }

  /** What it means: the root's components are the first components of the mount point. */
  predicate AtOrBelow(point: string, root: string) {
    Split(root, '/') <= Split(point, '/')
  }

  predicate StrictlyBelow(point: string, root: string) {
    Split(root, '/') < Split(point, '/')
  }

  lemma StrictlyBelowIsLonger(point: string, root: string)
    requires AtOrBelow(point, root)
    ensures UnderRoot(point, root)
    ensures StrictlyBelow(point, root) ==> |root| < |point|
  {
    var p, q := Split(root, '/'), Split(point, '/');
    JoinSplit(root, '/');
    JoinSplit(point, '/');
    if p == q {
    } else {
      JoinAppend(p, q[|p|..], '/');
      assert q == p + q[|p|..];
      assert point == root + "/" + Join(q[|p|..], '/');
    }
  }

  /** The string test respects path components: `/data/pods-old` is not below `/data/pods`. */
  lemma UnderRootIsByComponent(point: string, root: string)
    ensures UnderRoot(point, root) <==> AtOrBelow(point, root)
  {
    if AtOrBelow(point, root) { StrictlyBelowIsLonger(point, root); }
    if root + "/" <= point {
      var rest := point[|root| + 1..];
      assert point == root + ['/'] + rest;
      SplitAppend(root, rest, '/');
    }
  }

  // ---------------------------------------------------------------- the list of mounts to take down

  function Roots(roots: seq<string>): seq<string> {
    if roots == [] then []
    else Roots(roots[..|roots| - 1])
         + if TrimSlashes(roots[|roots| - 1]) == "" then [] else [TrimSlashes(roots[|roots| - 1])]
  }

  predicate UnderSome(point: string, roots: seq<string>) {
    exists i :: 0 <= i < |roots| && UnderRoot(point, roots[i])
  }

  /** The mount points under a root, in table order, each once. */
  function Collected(lines: seq<string>, roots: seq<string>): seq<string> {
    if lines == [] then []
    else
      var before := Collected(lines[..|lines| - 1], roots);
      var point := MountPoint(lines[|lines| - 1]);
      if point.Some? && UnderSome(point.value, roots) && point.value !in before then before + [point.value] else before
  }

  predicate LongerFirst(a: string, b: string) {
    |a| >= |b|
  }

  method FindMountPointsUnderRoots(output: string, roots: seq<string>) returns (points: seq<string>)
    ensures points == Sort(Collected(Lines(output), Roots(roots)), LongerFirst)
  {
    var normalized := [];
    for i := 0 to |roots|
      invariant normalized == Roots(roots[..i])
    {
      var root := TrimSlashes(roots[i]);
      if root != "" { normalized := normalized + [root]; }
      assert roots[..i + 1][..i] == roots[..i];
    }
    assert roots[..|roots|] == roots;
    var lines := Lines(output);
    var seen: set<string> := {};
    var found := [];
    for i := 0 to |lines|
      invariant found == Collected(lines[..i], normalized)
      invariant seen == set p | p in found
    {
      var point := MountPoint(lines[i]);
      if point.Some? && UnderSome(point.value, normalized) && point.value !in seen {
        seen := seen + {point.value};
        found := found + [point.value];
      }
      assert lines[..i + 1][..i] == lines[..i];
    }
    assert lines[..|lines|] == lines;
    points := Sort(found, LongerFirst);
  }

  lemma {:induction false} RootsLaws(roots: seq<string>)
    ensures forall r :: r in Roots(roots) <==> r != "" && exists i :: 0 <= i < |roots| && TrimSlashes(roots[i]) == r
  {
    if roots != [] {
      var n := |roots| - 1;
      var front := roots[..n];
      RootsLaws(front);
      forall r ensures r in Roots(roots) <==> r != "" && exists i :: 0 <= i < |roots| && TrimSlashes(roots[i]) == r {
        if r in Roots(front) {
          var i :| 0 <= i < |front| && TrimSlashes(front[i]) == r;
          assert TrimSlashes(roots[i]) == r;
        }
        if r != "" && exists i :: 0 <= i < |roots| && TrimSlashes(roots[i]) == r {
          var i :| 0 <= i < |roots| && TrimSlashes(roots[i]) == r;
          if i < n { assert TrimSlashes(front[i]) == r; }
        }
      }
    }
  }

  /** The table reports a mount at `point`. */
  ghost predicate Reported(lines: seq<string>, point: string) {
    exists i :: 0 <= i < |lines| && MountPoint(lines[i]) == Some(point)
  }

  /** A whole table of mounts without spaces or line feeds is read back: exactly its mount points are reported. */
  lemma TableReadsBack(mounts: seq<Mount>, point: string)
    requires forall k :: 0 <= k < |mounts| ==> Readable(mounts[k])
    ensures Reported(Lines(RenderTable(mounts)), point) <==>
            exists k :: 0 <= k < |mounts| && TrimSlashes(mounts[k].point) == point
  {
    TableLines(mounts);
    var lines := Lines(RenderTable(mounts));
    if Reported(lines, point) {
      var k :| 0 <= k < |lines| && MountPoint(lines[k]) == Some(point);
      assert TrimSlashes(mounts[k].point) == point;
    }
    if k :| 0 <= k < |mounts| && TrimSlashes(mounts[k].point) == point {
      assert MountPoint(lines[k]) == Some(point);
    }
  }

  lemma {:induction false} CollectedLaws(lines: seq<string>, roots: seq<string>)
    ensures NoDuplicates(Collected(lines, roots))
    ensures forall p :: p in Collected(lines, roots) <==> Reported(lines, p) && UnderSome(p, roots)
  {
    if lines != [] {
      var n := |lines| - 1;
      var front := lines[..n];
      CollectedLaws(front, roots);
      forall p ensures p in Collected(lines, roots) <==> Reported(lines, p) && UnderSome(p, roots) {
        if Reported(front, p) {
          var i :| 0 <= i < |front| && MountPoint(front[i]) == Some(p);
          assert MountPoint(lines[i]) == Some(p);
        }
        if Reported(lines, p) {
          var i :| 0 <= i < |lines| && MountPoint(lines[i]) == Some(p);
          if i < n { assert MountPoint(front[i]) == Some(p); }
        }
      }
    }
  }

  lemma LongerFirstIsOrder()
    ensures TotalPreorder(LongerFirst)
  {
  }

  lemma {:induction false} NoDuplicatesCountsOne<T>(s: seq<T>)
    requires NoDuplicates(s)
    ensures forall x :: x in multiset(s) ==> multiset(s)[x] == 1
  {
    if s != [] {
      var n := |s| - 1;
      NoDuplicatesCountsOne(s[..n]);
      assert s == s[..n] + [s[n]];
      assert s[n] !in s[..n];
    }
  }

  lemma RepeatCountsTwice<T>(s: seq<T>, a: nat, b: nat)
    requires a < b < |s| && s[a] == s[b]
    ensures multiset(s)[s[a]] >= 2
  {
    assert s == s[..b] + ([s[b]] + s[b + 1..]);
    assert s[..b][a] == s[a];
  }

  /** Rearranging a sequence without repetitions makes none. */
  lemma RearrangedNoDuplicates<T>(s: seq<T>, t: seq<T>)
    requires NoDuplicates(s) && multiset(s) == multiset(t)
    ensures NoDuplicates(t)
  {
    NoDuplicatesCountsOne(s);
    forall a, b | 0 <= a < b < |t| ensures t[a] != t[b] {
      assert t[a] in multiset(t);
      if t[a] == t[b] { RepeatCountsTwice(t, a, b); }
    }
  }

  /** At or below one of the roots, by path component. */
  predicate BelowSome(p: string, roots: seq<string>) {
    exists i :: 0 <= i < |roots| && TrimSlashes(roots[i]) != "" && AtOrBelow(p, TrimSlashes(roots[i]))
  }

  lemma UnderSomeIsByComponent(p: string, roots: seq<string>)
    ensures UnderSome(p, Roots(roots)) <==> BelowSome(p, roots)
  {
    RootsLaws(roots);
    if UnderSome(p, Roots(roots)) {
      var k :| 0 <= k < |Roots(roots)| && UnderRoot(p, Roots(roots)[k]);
      assert Roots(roots)[k] in Roots(roots);
      var i :| 0 <= i < |roots| && TrimSlashes(roots[i]) == Roots(roots)[k];
      UnderRootIsByComponent(p, TrimSlashes(roots[i]));
    }
    if BelowSome(p, roots) {
      var i :| 0 <= i < |roots| && TrimSlashes(roots[i]) != "" && AtOrBelow(p, TrimSlashes(roots[i]));
      UnderRootIsByComponent(p, TrimSlashes(roots[i]));
      assert TrimSlashes(roots[i]) in Roots(roots);
      var k :| 0 <= k < |Roots(roots)| && Roots(roots)[k] == TrimSlashes(roots[i]);
      assert UnderRoot(p, Roots(roots)[k]);
    }
  }

  lemma TeardownMembers(output: string, roots: seq<string>)
    ensures var points := Sort(Collected(Lines(output), Roots(roots)), LongerFirst);
            && NoDuplicates(points)
            && forall p :: p in points <==> Reported(Lines(output), p) && BelowSome(p, roots)
  {
    var found := Collected(Lines(output), Roots(roots));
    var points := Sort(found, LongerFirst);
    CollectedLaws(Lines(output), Roots(roots));
    LongerFirstIsOrder();
    SortSorts(found, LongerFirst);
    RearrangedNoDuplicates(found, points);
    forall p ensures p in points <==> Reported(Lines(output), p) && BelowSome(p, roots) {
      assert p in points <==> p in multiset(points);
      assert p in found <==> p in multiset(found);
      UnderSomeIsByComponent(p, roots);
    }
  }

  lemma LongerComesFirst(found: seq<string>, i: nat, j: nat)
    requires var points := Sort(found, LongerFirst); i < |points| && j < |points| && |points[i]| > |points[j]|
    ensures i < j
  {
    LongerFirstIsOrder();
    SortSorts(found, LongerFirst);
  }

  lemma DeeperComesFirst(found: seq<string>, i: nat, j: nat)
    requires var points := Sort(found, LongerFirst);
             i < |points| && j < |points| && StrictlyBelow(points[i], points[j])
    ensures i < j
  {
    LongerFirstIsOrder();
    SortSorts(found, LongerFirst);
    StrictlyBelowIsLonger(Sort(found, LongerFirst)[i], Sort(found, LongerFirst)[j]);
  }

  /**
     The teardown list is exactly the reported mounts at or below a root, by path component, each
     once, and every mount comes after all mounts strictly below it.
   */
  lemma TeardownListIsRight(output: string, roots: seq<string>)
    ensures var points := Sort(Collected(Lines(output), Roots(roots)), LongerFirst);
            && NoDuplicates(points)
            && (forall p :: p in points <==> Reported(Lines(output), p) && BelowSome(p, roots))
            && (forall i, j :: 0 <= i < |points| && 0 <= j < |points| && StrictlyBelow(points[i], points[j]) ==> i < j)
            && (forall i, j :: 0 <= i < |points| && 0 <= j < |points| && points[j] + "/" <= points[i] ==> i < j)
  {
    TeardownMembers(output, roots);
    var found := Collected(Lines(output), Roots(roots));
    forall i, j | 0 <= i < |Sort(found, LongerFirst)| && 0 <= j < |Sort(found, LongerFirst)|
                  && StrictlyBelow(Sort(found, LongerFirst)[i], Sort(found, LongerFirst)[j])
      ensures i < j
    {
      DeeperComesFirst(found, i, j);
    }
    forall i, j | 0 <= i < |Sort(found, LongerFirst)| && 0 <= j < |Sort(found, LongerFirst)|
                  && Sort(found, LongerFirst)[j] + "/" <= Sort(found, LongerFirst)[i]
      ensures i < j
    {
      LongerComesFirst(found, i, j);
    }
  }

  /** For a table of mounts without spaces or line feeds: exactly its mount points at or below a root are taken down. */
  lemma TeardownOfTable(mounts: seq<Mount>, roots: seq<string>, point: string)
    requires forall k :: 0 <= k < |mounts| ==> Readable(mounts[k])
    ensures point in Sort(Collected(Lines(RenderTable(mounts)), Roots(roots)), LongerFirst) <==>
            BelowSome(point, roots) && exists k :: 0 <= k < |mounts| && TrimSlashes(mounts[k].point) == point
  {
    TeardownMembers(RenderTable(mounts), roots);
    TableReadsBack(mounts, point);
  }

  /** A path that has nothing to trim. */
  predicate Plain(s: string) {
    s != "" && s[|s| - 1] != '/'
  }

  lemma PlainIsTrimmed(s: string)
    requires s == "" || s[|s| - 1] != '/'
    ensures TrimSlashes(s) == s
  {
  }

  /** For plain roots and mount points: exactly the mounts of the table at a root, or below it after a slash. */
  lemma TeardownOfPlainTable(mounts: seq<Mount>, roots: seq<string>, point: string)
    requires forall k :: 0 <= k < |mounts| ==> Readable(mounts[k]) && Plain(mounts[k].point)
    requires forall i :: 0 <= i < |roots| ==> Plain(roots[i])
    ensures point in Sort(Collected(Lines(RenderTable(mounts)), Roots(roots)), LongerFirst) <==>
            && (exists k :: 0 <= k < |mounts| && mounts[k].point == point)
            && (exists i :: 0 <= i < |roots| && (point == roots[i] || roots[i] + "/" <= point))
  {
    TeardownOfTable(mounts, roots, point);
    forall k | 0 <= k < |mounts| ensures TrimSlashes(mounts[k].point) == mounts[k].point {
      PlainIsTrimmed(mounts[k].point);
    }
    forall i | 0 <= i < |roots|
      ensures TrimSlashes(roots[i]) == roots[i] != ""
      ensures AtOrBelow(point, roots[i]) <==> point == roots[i] || roots[i] + "/" <= point
    {
      PlainIsTrimmed(roots[i]);
      UnderRootIsByComponent(point, roots[i]);
    }
  }

  // ---------------------------------------------------------------- taking them down

  /** The points whose unmount failed, in order. */
  function Failures(points: seq<string>, umount: (nat, string) -> bool): seq<string> {
    if points == [] then []
    else
      var n := |points| - 1;
      Failures(points[..n], umount) + if umount(n, points[n]) then [] else [points[n]]
  }

  lemma {:induction false} FailureIsAmong(points: seq<string>, umount: (nat, string) -> bool, k: nat)
    requires k < |points| && !umount(k, points[k])
    ensures points[k] in Failures(points, umount)
  {
    var n := |points| - 1;
    if k < n { FailureIsAmong(points[..n], umount, k); }
  }

  lemma {:induction false} FailureFailed(points: seq<string>, umount: (nat, string) -> bool, p: string) returns (k: nat)
    requires p in Failures(points, umount)
    ensures k < |points| && points[k] == p && !umount(k, p)
  {
    var n := |points| - 1;
    if p in Failures(points[..n], umount) {
      k := FailureFailed(points[..n], umount, p);
    } else {
      k := n;
    }
  }

  lemma {:induction false} FailuresCount(points: seq<string>, umount: (nat, string) -> bool)
    ensures |Failures(points, umount)| == |set k: nat | k < |points| && !umount(k, points[k])|
  {
    if points != [] {
      var n := |points| - 1;
      FailuresCount(points[..n], umount);
      assert (set k: nat | k < |points| && !umount(k, points[k]))
          == (set k: nat | k < n && !umount(k, points[..n][k])) + if umount(n, points[n]) then {} else {n};
    }
  }

  /** Try every mount point in order, whatever happens to the others. */
  method UnmountMountPoints(points: seq<string>, umount: (nat, string) -> bool)
    returns (ok: bool, attempted: seq<string>, failures: seq<string>)
    ensures attempted == points && failures == Failures(points, umount)
    ensures forall p :: p in failures <==> exists k: nat :: k < |points| && points[k] == p && !umount(k, p)
    ensures |failures| == |set k: nat | k < |points| && !umount(k, points[k])|
    ensures ok <==> forall k: nat :: k < |points| ==> umount(k, points[k])
  {
    attempted, failures := [], [];
    var count := 0;
    for k := 0 to |points|
      invariant attempted == points[..k] && failures == Failures(points[..k], umount)
      invariant count + |failures| == k
      invariant failures == [] <==> forall j: nat :: j < k ==> umount(j, points[j])
    {
      attempted := attempted + [points[k]];
      if umount(k, points[k]) { count := count + 1; } else { failures := failures + [points[k]]; }
      assert points[..k + 1][..k] == points[..k];
    }
    assert points[..|points|] == points;
    FailuresCount(points, umount);
    forall p ensures p in failures <==> exists k: nat :: k < |points| && points[k] == p && !umount(k, p) {
      if p in failures { var k := FailureFailed(points, umount, p); }
      if k: nat :| k < |points| && points[k] == p && !umount(k, p) { FailureIsAmong(points, umount, k); }
    }
    ok := failures == [];
  }

  /** What a cleanup meets; `None` is a call that failed. */
  datatype Host = Host(
    root: string,
    present: Option<bool>,
    canonical: Option<string>,
    mountOutput: Option<string>,
    umount: (nat, string) -> bool,
    removes: bool)

  function CleanupRoots(h: Host): seq<string> {
    [h.root] + if h.canonical.Some? then [h.canonical.value] else []
  }

  function TeardownList(h: Host): seq<string>
    requires h.mountOutput.Some?
  {
    Sort(Collected(Lines(h.mountOutput.value), Roots(CleanupRoots(h))), LongerFirst)
  }

  /** `cleanup_volume_root_with_runner`; `removing` tells whether it went on to remove the directory. */
  method CleanupVolumeRoot(h: Host) returns (ok: bool, attempted: seq<string>, removing: bool)
    ensures removing <==>
            && h.present == Some(true) && h.mountOutput.Some?
            && forall k: nat :: k < |TeardownList(h)| ==> h.umount(k, TeardownList(h)[k])
    ensures ok <==> h.present == Some(false) || (removing && h.removes)
    ensures attempted == if h.present == Some(true) && h.mountOutput.Some? then TeardownList(h) else []
  {
    attempted, removing := [], false;
    if h.present != Some(true) { return h.present == Some(false), attempted, removing; }
    var roots := [h.root];
    if h.canonical.Some? { roots := roots + [h.canonical.value]; }
    if h.mountOutput.None? { return false, attempted, removing; }
    var points := FindMountPointsUnderRoots(h.mountOutput.value, roots);
    assert roots == CleanupRoots(h) && points == TeardownList(h);
    var failures;
    ok, attempted, failures := UnmountMountPoints(points, h.umount);
    if !ok { return; }
    removing := true;
    ok := h.removes;
  }

  /**
     The directory is removed only after every reported mount at or below it, under its own or its
     canonical name, was unmounted, children first.
   */
  lemma RemovalIsSafe(h: Host, attempted: seq<string>, point: string)
    requires h.mountOutput.Some? && attempted == TeardownList(h)
    requires forall k: nat :: k < |TeardownList(h)| ==> h.umount(k, TeardownList(h)[k])
    requires Reported(Lines(h.mountOutput.value), point)
    requires || (TrimSlashes(h.root) != "" && AtOrBelow(point, TrimSlashes(h.root)))
             || (h.canonical.Some? && TrimSlashes(h.canonical.value) != ""
                 && AtOrBelow(point, TrimSlashes(h.canonical.value)))
    ensures exists k: nat :: k < |attempted| && attempted[k] == point && h.umount(k, point)
                             && forall j: nat :: j < |attempted| && StrictlyBelow(attempted[j], point) ==> j < k
  {
    TeardownListIsRight(h.mountOutput.value, CleanupRoots(h));
    var i := if TrimSlashes(h.root) != "" && AtOrBelow(point, TrimSlashes(h.root)) then 0 else 1;
    assert TrimSlashes(CleanupRoots(h)[i]) != "" && AtOrBelow(point, TrimSlashes(CleanupRoots(h)[i]));
    assert BelowSome(point, CleanupRoots(h));
    var k: nat :| k < |attempted| && attempted[k] == point;
    assert h.umount(k, attempted[k]);
  }

  lemma PlainBelow(point: string, root: string)
    requires Plain(root) && (point == root || root + "/" <= point)
    ensures TrimSlashes(root) != "" && AtOrBelow(point, TrimSlashes(root))
  {
    PlainIsTrimmed(root);
    UnderRootIsByComponent(point, root);
  }

  lemma PlainIsReported(mounts: seq<Mount>, m: nat)
    requires forall k :: 0 <= k < |mounts| ==> Readable(mounts[k])
    requires m < |mounts| && Plain(mounts[m].point)
    ensures Reported(Lines(RenderTable(mounts)), mounts[m].point)
  {
    PlainIsTrimmed(mounts[m].point);
    TableReadsBack(mounts, mounts[m].point);
  }

  /** The same for plain paths: a mount of the table at the root, or below it after a slash, was unmounted before. */
  lemma PlainRemovalIsSafe(h: Host, mounts: seq<Mount>, attempted: seq<string>, m: nat)
    requires h.mountOutput == Some(RenderTable(mounts)) && attempted == TeardownList(h)
    requires forall k: nat :: k < |TeardownList(h)| ==> h.umount(k, TeardownList(h)[k])
    requires forall k :: 0 <= k < |mounts| ==> Readable(mounts[k])
    requires m < |mounts| && Plain(mounts[m].point) && Plain(h.root) && (h.canonical.Some? ==> Plain(h.canonical.value))
    requires var point := mounts[m].point;
             || point == h.root || h.root + "/" <= point
             || (h.canonical.Some? && (point == h.canonical.value || h.canonical.value + "/" <= point))
    ensures exists k: nat :: k < |attempted| && attempted[k] == mounts[m].point && h.umount(k, mounts[m].point)
                             && forall j: nat :: j < |attempted| && attempted[k] + "/" <= attempted[j] ==> j < k
  {
    var point := mounts[m].point;
    PlainIsReported(mounts, m);
    if point == h.root || h.root + "/" <= point {
      PlainBelow(point, h.root);
    } else {
      PlainBelow(point, h.canonical.value);
    }
    RemovalIsSafe(h, attempted, point);
    TeardownListIsRight(h.mountOutput.value, CleanupRoots(h));
  }
}
