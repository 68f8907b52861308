/** The positions of the extraction tree, and what the walk's bounds and its output say of
them: a position is the way down from the root, child by child. */
module Positions {
  import opened Collections
  import opened Unpack

  type Path = seq<nat>

  /** The file at a position, if there is one. */
  ghost function At<F(!new)>(a: Archive<F>, f: F, p: Path): Option<F>
    decreases |p|, 1
  {
    if p == [] then Some(f) else if a.extract(f).Fault? then None else Below(a, a.extract(f).children, p)
  }

  ghost function Below<F(!new)>(a: Archive<F>, fs: seq<F>, p: Path): Option<F>
    requires p != []
    decreases |p|, 0
  {
    if p[0] < |fs| then At(a, fs[p[0]], p[1..]) else None
  }

  // ---- the bounds -------------------------------------------------------------------------

  /** No position is deeper than `h`, and every file extracts. */
  ghost predicate Shallow<F(!new)>(a: Archive<F>, f: F, h: int) {
    forall p: Path :: |p| <= h + 1 && At(a, f, p).Some? ==> |p| <= h && a.extract(At(a, f, p).value).Files?
  }

  lemma ShallowChild<F(!new)>(a: Archive<F>, f: F, h: int, i: nat)
    requires Shallow(a, f, h) && a.extract(f).Files? && i < |a.extract(f).children|
    ensures Shallow(a, a.extract(f).children[i], h - 1)
  {
    var c := a.extract(f).children[i];
    forall p: Path | |p| <= h && At(a, c, p).Some?
      ensures |p| <= h - 1 && a.extract(At(a, c, p).value).Files?
    {
      assert ([i] + p)[1..] == p;
      assert At(a, f, [i] + p) == At(a, c, p);
    }
  }

  /** The depth cap, position by position: a tree fits exactly when nothing lies deeper than
  the cap and every file in it extracts. */
  lemma {:induction false} FitsIff<F(!new)>(a: Archive<F>, f: F, h: int)
    requires h >= -1
    ensures Fits(a, f, h) <==> Shallow(a, f, h)
    decreases h + 1
  {
    assert At(a, f, []) == Some(f);
    if h >= 0 && a.extract(f).Files? {
      var children := a.extract(f).children;
      forall i | 0 <= i < |children|
        ensures Fits(a, children[i], h - 1) <==> Shallow(a, children[i], h - 1)
      {
        FitsIff(a, children[i], h - 1);
      }
      if Fits(a, f, h) {
        assert forall i :: 0 <= i < |children| ==> children[i] in children;
        ShallowFromChildren(a, f, h);
      }
      if Shallow(a, f, h) {
        forall i | 0 <= i < |children|
          ensures Fits(a, children[i], h - 1)
        {
          ShallowChild(a, f, h, i);
        }
      }
    }
  }

  lemma ShallowFromChildren<F(!new)>(a: Archive<F>, f: F, h: int)
    requires h >= 0 && a.extract(f).Files?
    requires forall i :: 0 <= i < |a.extract(f).children| ==> Shallow(a, a.extract(f).children[i], h - 1)
    ensures Shallow(a, f, h)
  {
    var children := a.extract(f).children;
    forall p: Path | |p| <= h + 1 && At(a, f, p).Some?
      ensures |p| <= h && a.extract(At(a, f, p).value).Files?
    {
      if p != [] {
        assert At(a, f, p) == Below(a, children, p);
        assert Shallow(a, children[p[0]], h - 1);
        assert At(a, f, p) == At(a, children[p[0]], p[1..]);
      }
    }
  }

  // ---- listings of positions ----------------------------------------------------------------

  /** The first branch where they part goes to the left for `p`, or `p` is above `q`. */
  predicate PathLess(p: Path, q: Path) {
    q != [] && (p == [] || p[0] < q[0] || (p[0] == q[0] && PathLess(p[1..], q[1..])))
  }

  /** In the order in which a depth-first walk comes to them, so none twice. */
  ghost predicate DepthFirst(paths: seq<Path>) {
    forall i, j :: 0 <= i < j < |paths| ==> PathLess(paths[i], paths[j])
  }

  ghost function Prefixed(k: nat, paths: seq<Path>): seq<Path> {
    seq(|paths|, i requires 0 <= i < |paths| => [k] + paths[i])
  }

  /** Positions among the first `n` children. */
  ghost predicate Under(paths: seq<Path>, n: nat) {
    forall i :: 0 <= i < |paths| ==> paths[i] != [] && paths[i][0] < n
  }

  lemma PrefixedMember(k: nat, paths: seq<Path>, p: Path)
    ensures p in Prefixed(k, paths) <==> p != [] && p[0] == k && p[1..] in paths
  {
    if p != [] && p[0] == k && p[1..] in paths {
      var i :| 0 <= i < |paths| && paths[i] == p[1..];
      assert p == [k] + p[1..];
      assert Prefixed(k, paths)[i] == p;
    }
    if p in Prefixed(k, paths) {
      var i :| 0 <= i < |paths| && p == [k] + paths[i];
      assert p[1..] == paths[i];
    }
  }

  lemma DepthFirstMore(front: seq<Path>, k: nat, last: seq<Path>)
    requires DepthFirst(front) && Under(front, k) && DepthFirst(last)
    ensures DepthFirst(front + Prefixed(k, last)) && Under(front + Prefixed(k, last), k + 1)
  {
    var all := front + Prefixed(k, last);
    forall i, j | 0 <= i < j < |all|
      ensures PathLess(all[i], all[j])
    {
      if i >= |front| {
        assert all[i][1..] == last[i - |front|] && all[j][1..] == last[j - |front|];
      }
    }
  }

  // ---- the leaves ---------------------------------------------------------------------------

  /** An empty container, which is what the walk takes for a leaf. */
  ghost predicate LeafFile<F(!new)>(a: Archive<F>, x: Option<F>) {
    x.Some? && a.extract(x.value) == Files([])
  }

  ghost predicate LeafPaths<F(!new)>(a: Archive<F>, f: F, h: int, paths: seq<Path>) {
    DepthFirst(paths) && forall p: Path :: p in paths <==> |p| <= h && LeafFile(a, At(a, f, p))
  }

  ghost predicate LeafPathsBelow<F(!new)>(a: Archive<F>, fs: seq<F>, h: int, paths: seq<Path>) {
    && DepthFirst(paths) && Under(paths, |fs|)
    && forall p: Path :: p in paths <==> p != [] && |p| - 1 <= h && LeafFile(a, Below(a, fs, p))
  }

  /** The way to the container. */
  function Up(p: Path): Path
    requires p != []
  {
    p[..|p| - 1]
  }

  /** Each sub-blob is the file at its position. */
  ghost predicate FilesAt<F(!new)>(a: Archive<F>, f: F, blobs: seq<SubBlob<F>>, paths: seq<Path>) {
    |blobs| == |paths| && forall i :: 0 <= i < |paths| ==> At(a, f, paths[i]) == Some(blobs[i].file)
  }

  ghost predicate FilesBelow<F(!new)>(a: Archive<F>, fs: seq<F>, blobs: seq<SubBlob<F>>, paths: seq<Path>) {
    |blobs| == |paths| && forall i :: 0 <= i < |paths| ==> paths[i] != [] && Below(a, fs, paths[i]) == Some(blobs[i].file)
  }

  /** Parents are numbers in this range, and the same exactly for the same container. */
  ghost predicate ParentsMatch<F>(blobs: seq<SubBlob<F>>, paths: seq<Path>, low: nat, high: nat)
    requires |blobs| == |paths|
  {
    && (forall i :: 0 <= i < |paths| && paths[i] != [] ==> blobs[i].parent.Some? && low <= blobs[i].parent.value < high)
    && (forall i, j :: 0 <= i < |paths| && 0 <= j < |paths| && paths[i] != [] && paths[j] != [] ==>
          (blobs[i].parent == blobs[j].parent <==> Up(paths[i]) == Up(paths[j])))
  }

  /** The direct children of the container carry its number, deeper ones a later number. */
  ghost predicate ParentsBelow<F>(blobs: seq<SubBlob<F>>, paths: seq<Path>, container: nat, low: nat)
    requires |blobs| == |paths|
  {
    forall i :: 0 <= i < |paths| && paths[i] != [] ==>
      && (|paths[i]| == 1 ==> blobs[i].parent == Some(container))
      && (|paths[i]| > 1 ==> blobs[i].parent.Some? && low <= blobs[i].parent.value)
  }

  lemma LeafPathsAppend<F(!new)>(a: Archive<F>, fs: seq<F>, h: int, front: seq<Path>, last: seq<Path>)
    requires fs != [] && LeafPathsBelow(a, fs[..|fs| - 1], h, front) && LeafPaths(a, fs[|fs| - 1], h, last)
    ensures LeafPathsBelow(a, fs, h, front + Prefixed(|fs| - 1, last))
  {
    var k: nat := |fs| - 1;
    DepthFirstMore(front, k, last);
    forall p: Path
      ensures p in front + Prefixed(k, last) <==> p != [] && |p| - 1 <= h && LeafFile(a, Below(a, fs, p))
    {
      PrefixedMember(k, last, p);
      if p != [] && p[0] < k {
        assert Below(a, fs, p) == Below(a, fs[..k], p);
      }
    }
  }

  lemma FilesAppend<F(!new)>(a: Archive<F>, fs: seq<F>, b: seq<SubBlob<F>>, front: seq<Path>, c: seq<SubBlob<F>>, last: seq<Path>)
    requires fs != [] && Under(front, |fs| - 1)
    requires FilesBelow(a, fs[..|fs| - 1], b, front) && FilesAt(a, fs[|fs| - 1], c, last)
    ensures FilesBelow(a, fs, b + c, front + Prefixed(|fs| - 1, last))
  {
    var k: nat := |fs| - 1;
    var all := front + Prefixed(k, last);
    forall i | 0 <= i < |all|
      ensures all[i] != [] && Below(a, fs, all[i]) == Some((b + c)[i].file)
    {
      if i < |front| {
        assert Below(a, fs, front[i]) == Below(a, fs[..k], front[i]);
      } else {
        assert all[i][1..] == last[i - |front|];
      }
    }
  }

  /** The parents of two sub-blobs agree just when their containers do. */
  ghost predicate Siblings<F>(x: SubBlob<F>, p: Path, y: SubBlob<F>, q: Path)
    requires p != [] && q != []
  {
    x.parent == y.parent <==> Up(p) == Up(q)
  }

  lemma UpOfPrefixed(k: nat, p: Path)
    ensures Up([k] + p) == if p == [] then [] else [k] + Up(p)
  {
  }

  lemma SiblingsAcross<F>(x: SubBlob<F>, p: Path, y: SubBlob<F>, q: Path, k: nat, container: nat, mid: nat)
    requires p != [] && p[0] < k && container < mid
    requires x.parent.Some? && container <= x.parent.value < mid && (|p| > 1 ==> container < x.parent.value)
    requires |p| == 1 ==> x.parent == Some(container)
    requires if q == [] then y.parent == Some(container) else y.parent.Some? && mid <= y.parent.value
    ensures Siblings(x, p, y, [k] + q) && Siblings(y, [k] + q, x, p)
  {
    UpOfPrefixed(k, q);
    if |p| > 1 && q != [] {
      assert Up(p)[0] == p[0] && ([k] + Up(q))[0] == k;
    }
  }

  lemma SiblingsWithin<F>(x: SubBlob<F>, p: Path, y: SubBlob<F>, q: Path, k: nat, container: nat, mid: nat)
    requires container < mid
    requires if p == [] then x.parent == Some(container) else x.parent.Some? && mid <= x.parent.value
    requires if q == [] then y.parent == Some(container) else y.parent.Some? && mid <= y.parent.value
    requires p != [] && q != [] ==> Siblings(x, p, y, q)
    ensures Siblings(x, [k] + p, y, [k] + q)
  {
    UpOfPrefixed(k, p);
    UpOfPrefixed(k, q);
    if p != [] && q != [] {
      assert ([k] + Up(p))[1..] == Up(p) && ([k] + Up(q))[1..] == Up(q);
    }
  }

  lemma BelowAppend<F>(b: seq<SubBlob<F>>, front: seq<Path>, c: seq<SubBlob<F>>, last: seq<Path>, k: nat,
                       container: nat, low: nat, mid: nat, high: nat)
    requires |b| == |front| && |c| == |last| && container < low <= mid <= high
    requires ParentsBelow(b, front, container, low)
    requires ParentsMatch(c, last, mid, high) && (forall i :: 0 <= i < |last| && last[i] == [] ==> c[i].parent == Some(container))
    ensures ParentsBelow(b + c, front + Prefixed(k, last), container, low)
  {
    var all, blobs := front + Prefixed(k, last), b + c;
    forall i | |front| <= i < |all|
      ensures |all[i]| == 1 ==> blobs[i].parent == Some(container)
      ensures |all[i]| > 1 ==> blobs[i].parent.Some? && low <= blobs[i].parent.value
    {
      assert all[i] == [k] + last[i - |front|] && blobs[i] == c[i - |front|];
    }
  }

  lemma PairMatches<F>(b: seq<SubBlob<F>>, front: seq<Path>, c: seq<SubBlob<F>>, last: seq<Path>, k: nat,
                       container: nat, low: nat, mid: nat, high: nat, i: nat, j: nat)
    requires |b| == |front| && |c| == |last| && Under(front, k) && container < low <= mid <= high
    requires ParentsMatch(b, front, container, mid) && ParentsBelow(b, front, container, low)
    requires ParentsMatch(c, last, mid, high) && (forall i :: 0 <= i < |last| && last[i] == [] ==> c[i].parent == Some(container))
    requires i < |front| + |last| && j < |front| + |last|
    ensures var all, blobs := front + Prefixed(k, last), b + c;
      all[i] != [] && all[j] != [] && Siblings(blobs[i], all[i], blobs[j], all[j])
  {
    var n := |front|;
    if i < n && j < n {
    } else if i < n {
      SiblingsAcross(b[i], front[i], c[j - n], last[j - n], k, container, mid);
    } else if j < n {
      SiblingsAcross(b[j], front[j], c[i - n], last[i - n], k, container, mid);
    } else {
      SiblingsWithin(c[i - n], last[i - n], c[j - n], last[j - n], k, container, mid);
    }
  }

  lemma RangeAppend<F>(b: seq<SubBlob<F>>, front: seq<Path>, c: seq<SubBlob<F>>, last: seq<Path>, k: nat,
                       container: nat, mid: nat, high: nat, i: nat)
    requires |b| == |front| && |c| == |last| && Under(front, k) && container < mid <= high
    requires ParentsMatch(b, front, container, mid) && ParentsMatch(c, last, mid, high)
    requires forall i :: 0 <= i < |last| && last[i] == [] ==> c[i].parent == Some(container)
    requires i < |front| + |last|
    ensures (b + c)[i].parent.Some? && container <= (b + c)[i].parent.value < high
  {
    if i >= |front| {
      assert (b + c)[i] == c[i - |front|];
    }
  }

  lemma ParentsAppend<F>(b: seq<SubBlob<F>>, front: seq<Path>, c: seq<SubBlob<F>>, last: seq<Path>, k: nat,
                         container: nat, low: nat, mid: nat, high: nat)
    requires |b| == |front| && |c| == |last| && Under(front, k) && container < low <= mid <= high
    requires ParentsMatch(b, front, container, mid) && ParentsBelow(b, front, container, low)
    requires ParentsMatch(c, last, mid, high) && (forall i :: 0 <= i < |last| && last[i] == [] ==> c[i].parent == Some(container))
    ensures ParentsMatch(b + c, front + Prefixed(k, last), container, high)
  {
    var all, blobs := front + Prefixed(k, last), b + c;
    forall i, j | 0 <= i < |all| && 0 <= j < |all|
      ensures all[i] != [] && all[j] != [] && Siblings(blobs[i], all[i], blobs[j], all[j])
    {
      PairMatches(b, front, c, last, k, container, low, mid, high, i, j);
    }
    forall i | 0 <= i < |all|
      ensures blobs[i].parent.Some? && container <= blobs[i].parent.value < high
    {
      RangeAppend(b, front, c, last, k, container, mid, high, i);
    }
    MatchFromParts(blobs, all, container, high);
  }

  lemma MatchFromParts<F>(blobs: seq<SubBlob<F>>, paths: seq<Path>, low: nat, high: nat)
    requires |blobs| == |paths|
    requires forall i :: 0 <= i < |paths| ==> blobs[i].parent.Some? && low <= blobs[i].parent.value < high
    requires forall i, j :: 0 <= i < |paths| && 0 <= j < |paths| ==>
               paths[i] != [] && paths[j] != [] && Siblings(blobs[i], paths[i], blobs[j], paths[j])
    ensures ParentsMatch(blobs, paths, low, high)
  {
    forall i, j | 0 <= i < |paths| && 0 <= j < |paths| && paths[i] != [] && paths[j] != []
      ensures blobs[i].parent == blobs[j].parent <==> Up(paths[i]) == Up(paths[j])
    {
      assert Siblings(blobs[i], paths[i], blobs[j], paths[j]);
    }
  }

  // ---- what is emitted ------------------------------------------------------------------------

  /** The positions of what is emitted: the leaves of the tree in depth-first order, each with
  its file, and with the same parent exactly for the same container. */
  ghost predicate EmittedAt<F(!new)>(a: Archive<F>, f: F, h: int, e: Emission<F>, parent: Option<nat>, id: nat, paths: seq<Path>) {
    && LeafPaths(a, f, h, paths) && FilesAt(a, f, e.blobs, paths) && id <= e.next
    && ParentsMatch(e.blobs, paths, id, e.next)
    && forall i :: 0 <= i < |paths| && paths[i] == [] ==> e.blobs[i].parent == parent
  }

  ghost predicate EmittedBelow<F(!new)>(a: Archive<F>, fs: seq<F>, h: int, e: Emission<F>, container: nat, id: nat, paths: seq<Path>) {
    && LeafPathsBelow(a, fs, h, paths) && FilesBelow(a, fs, e.blobs, paths) && id <= e.next
    && ParentsMatch(e.blobs, paths, container, e.next) && ParentsBelow(e.blobs, paths, container, id)
  }

  lemma {:induction false} EmitPositions<F(!new)>(a: Archive<F>, f: F, h: int, parent: Option<nat>, id: nat) returns (paths: seq<Path>)
    requires Fits(a, f, h)
    ensures EmittedAt(a, f, h, Emit(a, f, h, parent, id), parent, id, paths)
    decreases h + 1, 0
  {
    var children := a.extract(f).children;
    if children == [] {
      paths := [[]];
      LeafItself(a, f, h);
    } else {
      paths := EmitAllPositions(a, children, h - 1, id, id + 1);
      NodeEmitted(a, f, h, EmitAll(a, children, h - 1, id, id + 1), parent, id, paths);
    }
  }

  lemma NodeEmitted<F(!new)>(a: Archive<F>, f: F, h: int, e: Emission<F>, parent: Option<nat>, id: nat, paths: seq<Path>)
    requires a.extract(f).Files? && a.extract(f).children != []
    requires EmittedBelow(a, a.extract(f).children, h - 1, e, id, id + 1, paths)
    ensures EmittedAt(a, f, h, e, parent, id, paths)
  {
    NodePositions(a, f, h, paths);
    forall i | 0 <= i < |paths|
      ensures At(a, f, paths[i]) == Some(e.blobs[i].file)
    {
      assert paths[i] != [];
    }
  }

  lemma LeafItself<F(!new)>(a: Archive<F>, f: F, h: int)
    requires h >= 0 && a.extract(f) == Files([])
    ensures LeafPaths(a, f, h, [[]])
  {
    forall p: Path
      ensures p in [[]] <==> |p| <= h && LeafFile(a, At(a, f, p))
    {
      assert At(a, f, []) == Some(f);
      assert p != [] ==> At(a, f, p) == None;
    }
  }

  lemma NodePositions<F(!new)>(a: Archive<F>, f: F, h: int, paths: seq<Path>)
    requires a.extract(f).Files? && a.extract(f).children != []
    requires LeafPathsBelow(a, a.extract(f).children, h - 1, paths)
    ensures LeafPaths(a, f, h, paths)
  {
    forall p: Path
      ensures p in paths <==> |p| <= h && LeafFile(a, At(a, f, p))
    {
      assert p != [] ==> At(a, f, p) == Below(a, a.extract(f).children, p);
    }
  }

  lemma {:induction false} EmitAllPositions<F(!new)>(a: Archive<F>, fs: seq<F>, h: int, container: nat, id: nat) returns (paths: seq<Path>)
    requires h >= -1 && container < id && forall c :: c in fs ==> Fits(a, c, h)
    ensures EmittedBelow(a, fs, h, EmitAll(a, fs, h, container, id), container, id, paths)
    decreases h + 1, 1, |fs|
  {
    if fs == [] {
      paths := [];
    } else {
      var k: nat := |fs| - 1;
      var front := EmitAll(a, fs[..k], h, container, id);
      var last := Emit(a, fs[k], h, Some(container), front.next);
      var p := EmitAllPositions(a, fs[..k], h, container, id);
      var q := EmitPositions(a, fs[k], h, Some(container), front.next);
      paths := p + Prefixed(k, q);
      LeafPathsAppend(a, fs, h, p, q);
      FilesAppend(a, fs, front.blobs, p, last.blobs, q);
      ParentsAppend(front.blobs, p, last.blobs, q, k, container, id, front.next, last.next);
      BelowAppend(front.blobs, p, last.blobs, q, k, container, id, front.next, last.next);
    }
  }

  lemma {:induction false} AboveIsThere<F(!new)>(a: Archive<F>, f: F, p: Path, n: nat)
    requires At(a, f, p).Some? && n <= |p|
    ensures At(a, f, p[..n]).Some?
    decreases |p|
  {
    if n > 0 {
      var children := a.extract(f).children;
      AboveIsThere(a, children[p[0]], p[1..], n - 1);
      assert p[..n][1..] == p[1..][..n - 1];
    }
  }

  /** In a tree that fits no position lies deeper than the cap. */
  lemma NothingDeeper<F(!new)>(a: Archive<F>, f: F, h: int, p: Path)
    requires h >= -1 && Fits(a, f, h) && At(a, f, p).Some?
    ensures |p| <= h
  {
    FitsIff(a, f, h);
    if |p| > h {
      AboveIsThere(a, f, p, h + 1);
    }
  }

  /** A walk that succeeds yields exactly the leaves of the tree, wherever they lie, in
  depth-first order, each with its file; two have the same parent exactly when they came out
  of the same container. */
  lemma WalkYieldsLeaves<F(!new)>(a: Archive<F>, root: F) returns (paths: seq<Path>)
    requires Fits(a, root, 8)
    ensures var blobs := Emit(a, root, 8, None, 0).blobs;
      && DepthFirst(paths) && FilesAt(a, root, blobs, paths)
      && (forall p: Path :: p in paths <==> LeafFile(a, At(a, root, p)))
      && (forall i, j :: 0 <= i < |paths| && 0 <= j < |paths| && paths[i] != [] && paths[j] != [] ==>
            Siblings(blobs[i], paths[i], blobs[j], paths[j]))
      && (forall i :: 0 <= i < |paths| ==> (blobs[i].parent == None <==> paths[i] == []))
  {
    paths := EmitPositions(a, root, 8, None, 0);
    forall p: Path
      ensures p in paths <==> LeafFile(a, At(a, root, p))
    {
      if At(a, root, p).Some? {
        NothingDeeper(a, root, 8, p);
      }
    }
  }

  // ---- the total size ---------------------------------------------------------------------------

  function Total(sizes: seq<nat>): nat {
    if sizes == [] then 0 else Total(sizes[..|sizes| - 1]) + sizes[|sizes| - 1]
  }

  lemma {:induction false} TotalAppend(a: seq<nat>, b: seq<nat>)
    ensures Total(a + b) == Total(a) + Total(b)
  {
    if b == [] {
      assert a + b == a;
    } else {
      TotalAppend(a, b[..|b| - 1]);
      assert (a + b)[..|a + b| - 1] == a + b[..|b| - 1];
    }
  }

  /** Every position below the list's files within the levels, and the size of its file. */
  ghost predicate SizesBelow<F(!new)>(a: Archive<F>, fs: seq<F>, h: int, paths: seq<Path>, sizes: seq<nat>) {
    && DepthFirst(paths) && Under(paths, |fs|) && |sizes| == |paths|
    && (forall p: Path :: p in paths <==> p != [] && |p| - 1 <= h && Below(a, fs, p).Some?)
    && (forall i :: 0 <= i < |paths| ==> paths[i] != [] && Below(a, fs, paths[i]).Some? && sizes[i] == a.size(Below(a, fs, paths[i]).value))
  }

  /** The same below one file. */
  ghost predicate SizesUnder<F(!new)>(a: Archive<F>, f: F, h: int, paths: seq<Path>, sizes: seq<nat>) {
    && DepthFirst(paths) && |sizes| == |paths|
    && (forall p: Path :: p in paths <==> p != [] && |p| <= h && At(a, f, p).Some?)
    && (forall i :: 0 <= i < |paths| ==> At(a, f, paths[i]).Some? && sizes[i] == a.size(At(a, f, paths[i]).value))
  }

  lemma {:induction false} SizesOf<F(!new)>(a: Archive<F>, f: F, h: int) returns (paths: seq<Path>, sizes: seq<nat>)
    requires Fits(a, f, h)
    ensures SizesUnder(a, f, h, paths, sizes) && TotalSize(a, f, h) == Total(sizes)
    decreases h + 1, 0
  {
    paths, sizes := SizesOfAll(a, a.extract(f).children, h - 1);
    assert forall p: Path :: p != [] ==> At(a, f, p) == Below(a, a.extract(f).children, p);
  }

  /** The file itself, then everything below it. */
  lemma {:induction false} WithItself<F(!new)>(a: Archive<F>, f: F, h: int, paths: seq<Path>, sizes: seq<nat>)
    requires h >= 0 && SizesUnder(a, f, h, paths, sizes)
    ensures var ps, ss := [[]] + paths, [a.size(f)] + sizes;
      && DepthFirst(ps) && |ss| == |ps|
      && (forall p: Path :: p in ps <==> |p| <= h && At(a, f, p).Some?)
      && (forall i :: 0 <= i < |ps| ==> At(a, f, ps[i]).Some? && ss[i] == a.size(At(a, f, ps[i]).value))
  {
    assert At(a, f, []) == Some(f);
    assert [] !in paths;
    assert forall i :: 0 <= i < |paths| ==> paths[i] in paths;
  }

  lemma {:induction false} PositionsAppend<F(!new)>(a: Archive<F>, fs: seq<F>, h: int, front: seq<Path>, last: seq<Path>, p: Path)
    requires fs != []
    requires p in front <==> p != [] && |p| - 1 <= h && Below(a, fs[..|fs| - 1], p).Some?
    requires p != [] ==> (p[1..] in last <==> |p| - 1 <= h && At(a, fs[|fs| - 1], p[1..]).Some?)
    ensures p in front + Prefixed(|fs| - 1, last) <==> p != [] && |p| - 1 <= h && Below(a, fs, p).Some?
  {
    var k: nat := |fs| - 1;
    PrefixedMember(k, last, p);
    if p != [] && p[0] < k {
      assert Below(a, fs, p) == Below(a, fs[..k], p);
    }
  }

  lemma {:induction false} SizeAppend<F(!new)>(a: Archive<F>, fs: seq<F>, h: int, front: seq<Path>, ss: seq<nat>, last: seq<Path>, ts: seq<nat>, i: nat)
    requires fs != [] && |ss| == |front| && |ts| == |last| && Under(front, |fs| - 1) && i < |front| + |last|
    requires i < |front| ==> var x := Below(a, fs[..|fs| - 1], front[i]); x.Some? && ss[i] == a.size(x.value)
    requires i >= |front| ==> var x := At(a, fs[|fs| - 1], last[i - |front|]); x.Some? && ts[i - |front|] == a.size(x.value)
    ensures var all := front + Prefixed(|fs| - 1, last);
      all[i] != [] && Below(a, fs, all[i]).Some? && (ss + ts)[i] == a.size(Below(a, fs, all[i]).value)
  {
    var k: nat := |fs| - 1;
    if i < |front| {
      assert Below(a, fs, front[i]) == Below(a, fs[..k], front[i]);
    } else {
      var p := last[i - |front|];
      assert ([k] + p)[1..] == p;
      assert Below(a, fs, [k] + p) == At(a, fs[k], p);
    }
  }

  lemma {:induction false} SizesAppend<F(!new)>(a: Archive<F>, fs: seq<F>, h: int, front: seq<Path>, ss: seq<nat>, last: seq<Path>, ts: seq<nat>)
    requires fs != [] && SizesBelow(a, fs[..|fs| - 1], h, front, ss)
    requires DepthFirst(last) && |ts| == |last|
    requires forall p: Path :: p in last <==> |p| <= h && At(a, fs[|fs| - 1], p).Some?
    requires forall i :: 0 <= i < |last| ==> At(a, fs[|fs| - 1], last[i]).Some? && ts[i] == a.size(At(a, fs[|fs| - 1], last[i]).value)
    ensures SizesBelow(a, fs, h, front + Prefixed(|fs| - 1, last), ss + ts)
  {
    var all := front + Prefixed(|fs| - 1, last);
    DepthFirstMore(front, |fs| - 1, last);
    forall p: Path
      ensures p in all <==> p != [] && |p| - 1 <= h && Below(a, fs, p).Some?
    {
      PositionsAppend(a, fs, h, front, last, p);
    }
    forall i | 0 <= i < |all|
      ensures all[i] != [] && Below(a, fs, all[i]).Some? && (ss + ts)[i] == a.size(Below(a, fs, all[i]).value)
    {
      SizeAppend(a, fs, h, front, ss, last, ts, i);
    }
  }

  lemma {:induction false} SizesOfAll<F(!new)>(a: Archive<F>, fs: seq<F>, h: int) returns (paths: seq<Path>, sizes: seq<nat>)
    requires h >= -1 && forall c :: c in fs ==> Fits(a, c, h)
    ensures SizesBelow(a, fs, h, paths, sizes) && TotalSizes(a, fs, h) == Total(sizes)
    decreases h + 1, 1, |fs|
  {
    if fs == [] {
      paths, sizes := [], [];
    } else {
      var k: nat := |fs| - 1;
      var p, ss := SizesOfAll(a, fs[..k], h);
      var q, ts := SizesOf(a, fs[k], h);
      WithItself(a, fs[k], h, q, ts);
      paths, sizes := p + Prefixed(k, [[]] + q), ss + ([a.size(fs[k])] + ts);
      SizesAppend(a, fs, h, p, ss, [[]] + q, [a.size(fs[k])] + ts);
      TotalAppend(ss, [a.size(fs[k])] + ts);
      TotalAppend([a.size(fs[k])], ts);
      assert [a.size(fs[k])][..0] == [];
    }
  }

  /** The size that the ratio limits is the sum of the sizes of the files at all positions
  below the root, each counted once. */
  lemma TotalSizeIs<F(!new)>(a: Archive<F>, root: F, h: int) returns (paths: seq<Path>, sizes: seq<nat>)
    requires h >= 0 && Fits(a, root, h)
    ensures DepthFirst(paths) && (forall p: Path :: p in paths <==> p != [] && At(a, root, p).Some?)
    ensures |sizes| == |paths| && forall i :: 0 <= i < |paths| ==> At(a, root, paths[i]).Some? && sizes[i] == a.size(At(a, root, paths[i]).value)
    ensures TotalSize(a, root, h) == Total(sizes)
  {
    paths, sizes := SizesOf(a, root, h);
    forall p: Path
      ensures p in paths <==> p != [] && At(a, root, p).Some?
    {
      if At(a, root, p).Some? {
        NothingDeeper(a, root, h, p);
      }
    }
  }
}
