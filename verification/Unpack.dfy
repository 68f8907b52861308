/** The recursive extraction walk: one running output total and a depth cap over an
arbitrary extractor, related to a declarative bound on the extraction tree. */
module Unpack {
  import opened Collections

  const RECURSION_DEPTH_CAP: int := 8
  const DECOMPRESSION_RATIO_LIMIT: int := 100

  /** Why an extraction was given up; `Extractor` stands for the defences inside the
  extractor itself. */
  datatype Layer = RecursionDepth | DecompressionRatio | Extractor(reason: string)

  /** What the extractor does with a file; no files means a leaf. */
  datatype Extraction<F> = Files(children: seq<F>) | Fault(layer: Layer)

  datatype Archive<!F> = Archive(extract: F -> Extraction<F>, size: F -> nat)

  predicate DepthOk(depth: int) {
    depth <= RECURSION_DEPTH_CAP
  }

  predicate RatioOk(outputBytes: int, inputBytes: int) {
    inputBytes <= 0 || outputBytes <= inputBytes * DECOMPRESSION_RATIO_LIMIT
  }

  // ---- the extraction tree, declaratively ---------------------------------------

  /** The tree below `f` is at most `h` levels high and extracts without a fault. */
  ghost predicate Fits<F(!new)>(a: Archive<F>, f: F, h: int)
    decreases h + 1
  {
    h >= 0
    && a.extract(f).Files?
    && forall c :: c in a.extract(f).children ==> Fits(a, c, h - 1)
  }

  /** The bytes of everything extracted below `f`. */
  ghost function TotalSize<F(!new)>(a: Archive<F>, f: F, h: int): nat
    requires Fits(a, f, h)
    decreases h + 1, 0
  {
    TotalSizes(a, a.extract(f).children, h - 1)
  }

  ghost function TotalSizes<F(!new)>(a: Archive<F>, fs: seq<F>, h: int): nat
    requires h >= -1 && forall c :: c in fs ==> Fits(a, c, h)
    decreases h + 1, 1, |fs|
  {
    if fs == [] then 0
    else
      var front, last := fs[..|fs| - 1], fs[|fs| - 1];
      TotalSizes(a, front, h) + a.size(last) + TotalSize(a, last, h)
  }

  /** The leaves of the first `h` levels in depth-first order. */
  ghost function Leaves<F(!new)>(a: Archive<F>, f: F, h: int): seq<F>
    decreases h + 1, 0
  {
    if h < 0 || a.extract(f).Fault? then []
    else if a.extract(f).children == [] then [f]
    else LeavesOf(a, a.extract(f).children, h - 1)
  }

  ghost function LeavesOf<F(!new)>(a: Archive<F>, fs: seq<F>, h: int): seq<F>
    requires h >= -1
    decreases h + 1, 1, |fs|
  {
    if fs == [] then [] else LeavesOf(a, fs[..|fs| - 1], h) + Leaves(a, fs[|fs| - 1], h)
  }

  lemma {:induction false} SizesPrefix<F(!new)>(a: Archive<F>, fs: seq<F>, h: int, i: nat)
    requires h >= -1 && i <= |fs| && forall c :: c in fs ==> Fits(a, c, h)
    ensures TotalSizes(a, fs[..i], h) <= TotalSizes(a, fs, h)
  {
    if i < |fs| {
      SizesPrefix(a, fs[..|fs| - 1], h, i);
      assert fs[..|fs| - 1][..i] == fs[..i];
    } else {
      assert fs[..i] == fs;
    }
  }

  /** Extracting `fs` on top of what was already produced stays within all bounds. */
  ghost predicate Affordable<F(!new)>(a: Archive<F>, fs: seq<F>, h: int, produced: int, input: int)
    requires h >= -1
  {
    (forall c :: c in fs ==> Fits(a, c, h)) && RatioOk(produced + TotalSizes(a, fs, h), input)
  }

  lemma AffordablePrefix<F(!new)>(a: Archive<F>, fs: seq<F>, h: int, produced: int, input: int, i: nat)
    requires h >= -1 && i <= |fs| && Affordable(a, fs, h, produced, input)
    ensures Affordable(a, fs[..i], h, produced, input)
  {
    SizesPrefix(a, fs, h, i);
  }

  lemma AffordableNext<F(!new)>(a: Archive<F>, fs: seq<F>, h: int, produced: int, input: int, i: nat)
    requires h >= -1 && i < |fs| && Affordable(a, fs[..i], h, produced, input)
    ensures Affordable(a, fs[..i + 1], h, produced, input) <==>
      Fits(a, fs[i], h)
      && RatioOk(produced + TotalSizes(a, fs[..i], h) + a.size(fs[i]) + TotalSize(a, fs[i], h), input)
    ensures Fits(a, fs[i], h) ==>
      TotalSizes(a, fs[..i + 1], h) == TotalSizes(a, fs[..i], h) + a.size(fs[i]) + TotalSize(a, fs[i], h)
  {
    assert fs[..i + 1][..i] == fs[..i];
    assert fs[..i + 1] == fs[..i] + [fs[i]];
  }

  /** A file that contains itself fits no height. */
  lemma {:induction false} SelfContainingNeverFits<F(!new)>(a: Archive<F>, f: F, h: int)
    requires a.extract(f).Files? && f in a.extract(f).children
    ensures !Fits(a, f, h)
    decreases h + 1
  {
    if h >= 0 {
      SelfContainingNeverFits(a, f, h - 1);
    }
  }

  // ---- what is emitted ---------------------------------------------------------------

  /** A leaf with its id and the id of the container it came out of. Ids number the nodes
  of the tree in the order they are opened. */
  datatype SubBlob<+F> = SubBlob(id: nat, file: F, parent: Option<nat>)

  datatype Emission<+F> = Emission(blobs: seq<SubBlob<F>>, next: nat)

  /** The leaves of the first `h` levels with their ids and parents, numbering from `id`. */
  ghost function Emit<F(!new)>(a: Archive<F>, f: F, h: int, parent: Option<nat>, id: nat): Emission<F>
    decreases h + 1, 0
  {
    if h < 0 || a.extract(f).Fault? then Emission([], id)
    else if a.extract(f).children == [] then Emission([SubBlob(id, f, parent)], id + 1)
    else EmitAll(a, a.extract(f).children, h - 1, id, id + 1)
  }

  ghost function EmitAll<F(!new)>(a: Archive<F>, fs: seq<F>, h: int, container: nat, id: nat): Emission<F>
    requires h >= -1
    decreases h + 1, 1, |fs|
  {
    if fs == [] then Emission([], id)
    else
      var front := EmitAll(a, fs[..|fs| - 1], h, container, id);
      var last := Emit(a, fs[|fs| - 1], h, Some(container), front.next);
      Emission(front.blobs + last.blobs, last.next)
  }

  ghost function FilesOf<F>(blobs: seq<SubBlob<F>>): seq<F> {
    seq(|blobs|, i requires 0 <= i < |blobs| => blobs[i].file)
  }

  ghost predicate Increasing<F>(blobs: seq<SubBlob<F>>, low: nat, high: nat) {
    && (forall i :: 0 <= i < |blobs| ==> low <= blobs[i].id < high)
    && (forall i, j :: 0 <= i < j < |blobs| ==> blobs[i].id < blobs[j].id)
  }

  /** The files are the leaves, the ids grow, and every parent is older than its leaf. */
  ghost predicate WellEmitted<F>(e: Emission<F>, id: nat, leaves: seq<F>) {
    && FilesOf(e.blobs) == leaves && id <= e.next && Increasing(e.blobs, id, e.next)
    && forall i :: 0 <= i < |e.blobs| && e.blobs[i].parent.Some? ==> e.blobs[i].parent.value < e.blobs[i].id
  }

  lemma FilesOfAppend<F>(a: seq<SubBlob<F>>, b: seq<SubBlob<F>>)
    ensures FilesOf(a + b) == FilesOf(a) + FilesOf(b)
  {
  }

  lemma WellEmittedAppend<F>(front: Emission<F>, last: Emission<F>, id: nat, a: seq<F>, b: seq<F>)
    requires WellEmitted(front, id, a) && WellEmitted(last, front.next, b)
    ensures WellEmitted(Emission(front.blobs + last.blobs, last.next), id, a + b)
  {
    FilesOfAppend(front.blobs, last.blobs);
  }

  lemma {:induction false} EmitIsWell<F(!new)>(a: Archive<F>, f: F, h: int, parent: Option<nat>, id: nat)
    requires parent.Some? ==> parent.value < id
    ensures WellEmitted(Emit(a, f, h, parent, id), id, Leaves(a, f, h))
    decreases h + 1, 0
  {
    if h >= 0 && a.extract(f).Files? && a.extract(f).children != [] {
      EmitAllIsWell(a, a.extract(f).children, h - 1, id, id + 1);
    }
  }

  lemma {:induction false} EmitAllIsWell<F(!new)>(a: Archive<F>, fs: seq<F>, h: int, container: nat, id: nat)
    requires h >= -1 && container < id
    ensures WellEmitted(EmitAll(a, fs, h, container, id), id, LeavesOf(a, fs, h))
    decreases h + 1, 1, |fs|
  {
    if fs != [] {
      var front := EmitAll(a, fs[..|fs| - 1], h, container, id);
      EmitAllIsWell(a, fs[..|fs| - 1], h, container, id);
      EmitIsWell(a, fs[|fs| - 1], h, Some(container), front.next);
      WellEmittedAppend(front, Emit(a, fs[|fs| - 1], h, Some(container), front.next), id,
                        LeavesOf(a, fs[..|fs| - 1], h), Leaves(a, fs[|fs| - 1], h));
    }
  }

  lemma {:induction false} EmitAllPrefix<F(!new)>(a: Archive<F>, fs: seq<F>, h: int, container: nat, id: nat, i: nat)
    requires h >= -1 && i <= |fs|
    ensures EmitAll(a, fs[..i], h, container, id).blobs <= EmitAll(a, fs, h, container, id).blobs
  {
    if i < |fs| {
      EmitAllPrefix(a, fs[..|fs| - 1], h, container, id, i);
      assert fs[..|fs| - 1][..i] == fs[..i];
    } else {
      assert fs[..i] == fs;
    }
  }

  lemma EmitAllNext<F(!new)>(a: Archive<F>, fs: seq<F>, h: int, container: nat, id: nat, i: nat)
    requires h >= -1 && i < |fs|
    ensures var front := EmitAll(a, fs[..i], h, container, id);
      var last := Emit(a, fs[i], h, Some(container), front.next);
      EmitAll(a, fs[..i + 1], h, container, id) == Emission(front.blobs + last.blobs, last.next)
  {
    assert fs[..i + 1][..i] == fs[..i];
  }

  lemma AppendAssociates<T>(base: seq<T>, a: seq<T>, b: seq<T>)
    ensures base + a + b == base + (a + b)
  {
  }

  lemma PrefixOfMore<T>(out: seq<T>, base: seq<T>, part: seq<T>, whole: seq<T>)
    requires out <= base + part && part <= whole
    ensures out <= base + whole
  {
    assert forall i :: 0 <= i < |out| ==> out[i] == (base + part)[i] == (base + whole)[i];
  }

  // ---- the walk ----------------------------------------------------------------------

  class Walker<F(!new)> {
    const archive: Archive<F>
    const inputSize: nat
    var producedTotal: nat
    var nextId: nat
    var emitted: seq<SubBlob<F>>

    constructor (archive: Archive<F>, inputSize: nat)
      ensures this.archive == archive && this.inputSize == inputSize
      ensures producedTotal == 0 && nextId == 0 && emitted == [] && Valid()
    {
      this.archive, this.inputSize := archive, inputSize;
      producedTotal, nextId, emitted := 0, 0, [];
    }

    /** The output was within the ratio so far. */
    ghost predicate Valid()
      reads this
    {
      RatioOk(producedTotal, inputSize)
    }

    /** One node at the given depth. No error exactly when the tree below fits under the
    cap and its total size within what the ratio leaves; then its leaves are emitted in
    order, otherwise a prefix of them. */
    method Recurse(f: F, parent: Option<nat>, depth: nat) returns (error: Option<Layer>)
      requires Valid() && depth <= RECURSION_DEPTH_CAP + 1
      modifies this
      ensures var h := RECURSION_DEPTH_CAP - depth;
        && var e := Emit(archive, f, h, parent, old(nextId));
        && (error.None? <==>
            Fits(archive, f, h) && RatioOk(old(producedTotal) + TotalSize(archive, f, h), inputSize))
        && (error.None? ==>
            && Valid() && producedTotal == old(producedTotal) + TotalSize(archive, f, h)
            && emitted == old(emitted) + e.blobs && nextId == e.next)
        && old(emitted) <= emitted <= old(emitted) + e.blobs
      decreases RECURSION_DEPTH_CAP + 1 - depth, 1
    {
      if !DepthOk(depth) {
        return Some(RecursionDepth);
      }
      var extraction := archive.extract(f);
      if extraction.Fault? {
        return Some(extraction.layer);
      }
      if extraction.children == [] {
        emitted, nextId := emitted + [SubBlob(nextId, f, parent)], nextId + 1;
        return None;
      }
      var container := nextId;
      nextId := nextId + 1;
      error := RecurseChildren(extraction.children, container, depth);
    }

    /** One child: count its bytes, check the cumulative ratio, descend. */
    method Descend(f: F, container: nat, depth: nat) returns (error: Option<Layer>)
      requires Valid() && depth <= RECURSION_DEPTH_CAP
      modifies this
      ensures var h := RECURSION_DEPTH_CAP - depth - 1;
        && var e := Emit(archive, f, h, Some(container), old(nextId));
        && (error.None? <==>
            Fits(archive, f, h) && RatioOk(old(producedTotal) + archive.size(f) + TotalSize(archive, f, h), inputSize))
        && (error.None? ==>
            && Valid() && producedTotal == old(producedTotal) + archive.size(f) + TotalSize(archive, f, h)
            && emitted == old(emitted) + e.blobs && nextId == e.next)
        && old(emitted) <= emitted <= old(emitted) + e.blobs
      decreases RECURSION_DEPTH_CAP + 1 - depth, 0, 0
    {
      producedTotal := producedTotal + archive.size(f);
      if !RatioOk(producedTotal, inputSize) {
        return Some(DecompressionRatio);
      }
      error := Recurse(f, Some(container), depth + 1);
    }

    /** The loop over a container's children. */
    method RecurseChildren(children: seq<F>, container: nat, depth: nat) returns (error: Option<Layer>)
      requires Valid() && depth <= RECURSION_DEPTH_CAP
      modifies this
      ensures var h := RECURSION_DEPTH_CAP - depth - 1;
        && var e := EmitAll(archive, children, h, container, old(nextId));
        && (error.None? <==> Affordable(archive, children, h, old(producedTotal), inputSize))
        && (error.None? ==>
            && Valid() && producedTotal == old(producedTotal) + TotalSizes(archive, children, h)
            && emitted == old(emitted) + e.blobs && nextId == e.next)
        && old(emitted) <= emitted <= old(emitted) + e.blobs
      decreases RECURSION_DEPTH_CAP + 1 - depth, 0, 1
    {
      ghost var h := RECURSION_DEPTH_CAP - depth - 1;
      ghost var id := nextId;
      for i := 0 to |children|
        invariant Valid()
        invariant Affordable(archive, children[..i], h, old(producedTotal), inputSize)
        invariant producedTotal == old(producedTotal) + TotalSizes(archive, children[..i], h)
        invariant nextId == EmitAll(archive, children[..i], h, container, id).next
        invariant emitted == old(emitted) + EmitAll(archive, children[..i], h, container, id).blobs
      {
        ghost var front := EmitAll(archive, children[..i], h, container, id);
        AffordableNext(archive, children, h, old(producedTotal), inputSize, i);
        EmitAllNext(archive, children, h, container, id, i);
        AppendAssociates(old(emitted), front.blobs, Emit(archive, children[i], h, Some(container), front.next).blobs);
        error := Descend(children[i], container, depth);
        if error.Some? {
          EmitAllPrefix(archive, children, h, container, id, i + 1);
          PrefixOfMore(emitted, old(emitted), EmitAll(archive, children[..i + 1], h, container, id).blobs,
                       EmitAll(archive, children, h, container, id).blobs);
          if Affordable(archive, children, h, old(producedTotal), inputSize) {
            AffordablePrefix(archive, children, h, old(producedTotal), inputSize, i + 1);
          }
          return;
        }
      }
      assert children[..|children|] == children;
      error := None;
    }

    /** The whole walk of one job. It succeeds if and only if the extraction tree is at
    most eight levels high, extracts without a fault, and (for a non-empty input) in all
    holds at most a hundred times the input. What was emitted is then exactly the leaves,
    depth first, each with the container it came out of, and otherwise a prefix of them;
    in either case no id is given out twice. */
    method Walk(root: F) returns (error: Option<Layer>)
      requires Valid() && producedTotal == 0 && emitted == [] && nextId == 0
      modifies this
      ensures error.None? <==>
        Fits(archive, root, 8) && (inputSize == 0 || TotalSize(archive, root, 8) <= 100 * inputSize)
      ensures error.None? ==> emitted == Emit(archive, root, 8, None, 0).blobs && FilesOf(emitted) == Leaves(archive, root, 8)
      ensures emitted <= Emit(archive, root, 8, None, 0).blobs && FilesOf(emitted) <= Leaves(archive, root, 8)
      ensures Increasing(emitted, 0, Emit(archive, root, 8, None, 0).next)
    {
      error := Recurse(root, None, 0);
      EmitIsWell(archive, root, 8, None, 0);
      PrefixWellEmitted(emitted, Emit(archive, root, 8, None, 0), Leaves(archive, root, 8));
    }
  }

  lemma PrefixWellEmitted<F>(blobs: seq<SubBlob<F>>, e: Emission<F>, leaves: seq<F>)
    requires WellEmitted(e, 0, leaves) && blobs <= e.blobs
    ensures Increasing(blobs, 0, e.next) && FilesOf(blobs) <= leaves
    ensures blobs == e.blobs ==> FilesOf(blobs) == leaves
  {
    assert forall i :: 0 <= i < |blobs| ==> blobs[i] == e.blobs[i] && FilesOf(blobs)[i] == FilesOf(e.blobs)[i];
  }
}
