/** Workspace negotiation: every candidate of a find is dry-run validated against a descriptor's
    metadata, and the workspace sizes of those that pass are folded into one value. The fold
    starts at 0 and treats a current value of 0 as unset, so under the MIN preference a
    zero-sized candidate is overwritten by the next validated one. */
module Workspaces {
  import opened Types
  import opened Solutions
  import opened Descriptors
  import opened Finds
  import opened Queries

  function Min(x: nat, y: nat): nat { if x <= y then x else y }

  function Max(x: nat, y: nat): nat { if x >= y then x else y }

  /** One step of the fold: an unset (zero) current value takes the new size; otherwise MIN keeps
      the smaller and every other preference the larger. */
  function Combine(pref: WorksizePref, acc: nat, x: nat): nat {
    if acc == 0 then x
    else if pref == WorkspaceMin then Min(acc, x)
    else Max(acc, x)
  }

  /** The fold of `sizes`, left to right, from the current value `acc`. Its result is the start
      value or one of the sizes. */
  function FoldFrom(pref: WorksizePref, acc: nat, sizes: seq<nat>): (r: nat)
    ensures r == acc || r in sizes
    decreases |sizes|
  {
    if |sizes| == 0 then acc
    else Combine(pref, FoldFrom(pref, acc, sizes[..|sizes| - 1]), sizes[|sizes| - 1])
  }

  /** The negotiated size of a sequence of validated sizes: the fold from 0. */
  function Fold(pref: WorksizePref, sizes: seq<nat>): nat {
    FoldFrom(pref, 0, sizes)
  }

  /** Reference definition: the largest size, 0 for none. */
  function MaxSize(sizes: seq<nat>): (r: nat)
    ensures forall x :: x in sizes ==> x <= r
    ensures |sizes| == 0 ==> r == 0
    ensures |sizes| > 0 ==> r in sizes
    decreases |sizes|
  {
    if |sizes| == 0 then 0
    else
      assert sizes == sizes[..|sizes| - 1] + [sizes[|sizes| - 1]];
      Max(MaxSize(sizes[..|sizes| - 1]), sizes[|sizes| - 1])
  }

  /** Reference definition: the smallest size. */
  function MinSize(sizes: seq<nat>): (r: nat)
    requires |sizes| > 0
    ensures forall x :: x in sizes ==> r <= x
    ensures r in sizes
    decreases |sizes|
  {
    if |sizes| == 1 then sizes[0]
    else
      assert sizes == sizes[..|sizes| - 1] + [sizes[|sizes| - 1]];
      Min(MinSize(sizes[..|sizes| - 1]), sizes[|sizes| - 1])
  }

  /** The workspace sizes of the candidates that pass dry-run validation, in candidate order.
      It is empty exactly when no candidate validates. */
  function ValidatedSizes(k: Kernels, cands: seq<OpaquePtr>, p: Problem): (r: seq<nat>)
    ensures |r| <= |cands|
    ensures |r| == 0 <==> forall i :: 0 <= i < |cands| ==> !k.initArgs(cands[i].target, p)
    decreases |cands|
  {
    if |cands| == 0 then []
    else
      var s := cands[|cands| - 1].target;
      var front := ValidatedSizes(k, cands[..|cands| - 1], p);
      assert forall i :: 0 <= i < |cands| - 1 ==> cands[..|cands| - 1][i] == cands[i];
      if k.initArgs(s, p) then front + [k.workspaceSize(s, p)] else front
  }

  /** The validated sizes are exactly the workspace sizes of the validating candidates. */
  lemma {:induction false} ValidatedSizesMembers(k: Kernels, cands: seq<OpaquePtr>, p: Problem)
    ensures forall x :: x in ValidatedSizes(k, cands, p) <==>
      exists i :: 0 <= i < |cands| && k.initArgs(cands[i].target, p) && x == k.workspaceSize(cands[i].target, p)
    decreases |cands|
  {
    if |cands| > 0 {
      var front := cands[..|cands| - 1];
      ValidatedSizesMembers(k, front, p);
      assert forall i :: 0 <= i < |front| ==> front[i] == cands[i];
    }
  }

  /** The validating candidates, in candidate order. */
  function Validating(k: Kernels, cands: seq<OpaquePtr>, p: Problem): seq<OpaquePtr> {
    Filter((c: OpaquePtr) => k.initArgs(c.target, p), cands)
  }

  /** The validated sizes are, position by position, the workspace sizes of the validating
      candidates in candidate order. */
  lemma {:induction false} ValidatedSizesInOrder(k: Kernels, cands: seq<OpaquePtr>, p: Problem)
    ensures |ValidatedSizes(k, cands, p)| == |Validating(k, cands, p)|
    ensures forall j :: 0 <= j < |ValidatedSizes(k, cands, p)| ==>
      ValidatedSizes(k, cands, p)[j] == k.workspaceSize(Validating(k, cands, p)[j].target, p)
    decreases |cands|
  {
    if |cands| > 0 {
      var front, last := cands[..|cands| - 1], cands[|cands| - 1];
      assert cands == front + [last];
      ValidatedSizesInOrder(k, front, p);
      FilterSnoc((c: OpaquePtr) => k.initArgs(c.target, p), front, last);
    }
  }

  /** Appending one size performs one fold step. */
  lemma FoldSnoc(pref: WorksizePref, acc: nat, sizes: seq<nat>, x: nat)
    ensures FoldFrom(pref, acc, sizes + [x]) == Combine(pref, FoldFrom(pref, acc, sizes), x)
  {
  }

  /** Folding a concatenation is folding the second part from the result of the first. */
  lemma {:induction false} FoldAppend(pref: WorksizePref, acc: nat, s: seq<nat>, t: seq<nat>)
    ensures FoldFrom(pref, acc, s + t) == FoldFrom(pref, FoldFrom(pref, acc, s), t)
    decreases |t|
  {
    if |t| == 0 {
      assert s + t == s;
    } else {
      var t' := t[..|t| - 1];
      var x := t[|t| - 1];
      assert t == t' + [x];
      assert s + t == (s + t') + [x];
      FoldAppend(pref, acc, s, t');
      FoldSnoc(pref, acc, s + t', x);
      FoldSnoc(pref, FoldFrom(pref, acc, s), t', x);
    }
  }

  /** Under every preference other than MIN the fold is the true maximum: the 0 start value is
      harmless because max(0, x) == x. */
  lemma {:induction false} MaxFoldIsMax(pref: WorksizePref, sizes: seq<nat>)
    requires pref != WorkspaceMin
    ensures Fold(pref, sizes) == MaxSize(sizes)
    decreases |sizes|
  {
    if |sizes| > 0 {
      MaxFoldIsMax(pref, sizes[..|sizes| - 1]);
    }
  }

  /** Under MIN, as long as no validated size is 0, the fold is the true minimum. */
  lemma {:induction false} MinFoldIsMinWithoutZeros(sizes: seq<nat>)
    requires |sizes| > 0
    requires forall x :: x in sizes ==> x > 0
    ensures Fold(WorkspaceMin, sizes) == MinSize(sizes)
    decreases |sizes|
  {
    if |sizes| > 1 {
      var front := sizes[..|sizes| - 1];
      assert forall x :: x in front ==> x in sizes;
      MinFoldIsMinWithoutZeros(front);
    }
  }

  /** Under MIN a validated size of 0 resets the fold: whatever came before it is forgotten and
      the result is that of the sizes after it alone. */
  lemma MinFoldResetsAtZero(s: seq<nat>, t: seq<nat>)
    ensures Fold(WorkspaceMin, s + [0] + t) == Fold(WorkspaceMin, t)
  {
    FoldAppend(WorkspaceMin, 0, s + [0], t);
    FoldSnoc(WorkspaceMin, 0, s, 0);
  }

  /** The MIN result is never above the MAX result for the same validated sizes. */
  lemma MinFoldAtMostMaxFold(sizes: seq<nat>)
    ensures Fold(WorkspaceMin, sizes) <= Fold(WorkspaceMax, sizes)
  {
  }

  /** What the negotiated size is under each preference, relative to the reference definitions. */
  lemma FoldSummary(pref: WorksizePref, sizes: seq<nat>)
    ensures |sizes| == 0 ==> Fold(pref, sizes) == 0
    ensures pref != WorkspaceMin ==> Fold(pref, sizes) == MaxSize(sizes)
    ensures pref == WorkspaceMin ==> Fold(pref, sizes) == 0 || Fold(pref, sizes) in sizes
    ensures pref == WorkspaceMin ==> Fold(pref, sizes) <= MaxSize(sizes)
    ensures pref == WorkspaceMin && |sizes| > 0 && (forall x :: x in sizes ==> x > 0) ==>
      Fold(pref, sizes) == MinSize(sizes)
  {
    if pref != WorkspaceMin {
      MaxFoldIsMax(pref, sizes);
    } else {
      MinFoldAtMostMaxFold(sizes);
      MaxFoldIsMax(WorkspaceMax, sizes);
      if |sizes| > 0 && forall x :: x in sizes ==> x > 0 {
        MinFoldIsMinWithoutZeros(sizes);
      }
    }
  }

  /** The null checks of the workspace query pass. */
  predicate PointersPresent(handle: Option<Handle>, desc: Option<ContractionDescriptor>,
                            find: Option<ContractionFind>, workspaceSize: Option<nat>) {
    handle.Some? && desc.Some? && find.Some? && workspaceSize.Some?
  }

  /** Query the workspace size for a descriptor over a find's candidates. `workspaceSize` is the
      out-pointer with its current value. There is no device check; once the pointers are
      non-null the call succeeds. The descriptor and the find are only read. */
  method ContractionGetWorkspaceSize(
    k: Kernels, handle: Option<Handle>, desc: Option<ContractionDescriptor>,
    find: Option<ContractionFind>, pref: WorksizePref, workspaceSize: Option<nat>)
    returns (status: Status, size: Option<nat>)
    requires PointersPresent(handle, desc, find, workspaceSize) && |find.value.candidates| > 0 ==>
      desc.value.Valid()
    ensures !PointersPresent(handle, desc, find, workspaceSize) ==>
      status == NotInitialized && size == workspaceSize
    ensures PointersPresent(handle, desc, find, workspaceSize) ==> status == Success && size.Some?
    // no candidates: the descriptor is never read and the size is 0
    ensures status == Success && |find.value.candidates| == 0 ==> size == Some(0)
    ensures status == Success && |find.value.candidates| > 0 ==>
      var sizes := ValidatedSizes(k, find.value.candidates, ProblemOf(desc.value));
      && size.value == Fold(pref, sizes)
      // nothing validates: 0
      && ((forall i :: 0 <= i < |find.value.candidates| ==>
             !k.initArgs(find.value.candidates[i].target, ProblemOf(desc.value))) ==> size.value == 0)
      // MAX (and any preference other than MIN): the largest validated size
      && (pref != WorkspaceMin ==> size.value == MaxSize(sizes))
      // MIN: one of the validated sizes or 0, and the true minimum when no size is 0
      && (pref == WorkspaceMin ==> size.value == 0 || size.value in sizes)
      && (pref == WorkspaceMin ==> size.value <= MaxSize(sizes))
      && (pref == WorkspaceMin && |sizes| > 0 && (forall x :: x in sizes ==> x > 0) ==>
            size.value == MinSize(sizes))
  {
    if !PointersPresent(handle, desc, find, workspaceSize) {
      return NotInitialized, workspaceSize;
    }
    var cands := find.value.candidates;
    if |cands| == 0 {
      return Success, Some(0);
    }
    var p := ProblemOf(desc.value);
    var ws: nat := 0;
    var i := 0;
    while i < |cands|
      invariant 0 <= i <= |cands|
      invariant ws == Fold(pref, ValidatedSizes(k, cands[..i], p))
    {
      var s := cands[i].target;
      var before := ValidatedSizes(k, cands[..i], p);
      assert cands[..i + 1][..i] == cands[..i];
      if k.initArgs(s, p) {
        FoldSnoc(pref, 0, before, k.workspaceSize(s, p));
        if ws == 0 {
          ws := k.workspaceSize(s, p);
        } else if pref == WorkspaceMin {
          ws := Min(ws, k.workspaceSize(s, p));
        } else {
          ws := Max(ws, k.workspaceSize(s, p));
        }
      }
      i := i + 1;
    }
    assert cands[..i] == cands;
    FoldSummary(pref, ValidatedSizes(k, cands, p));
    return Success, Some(ws);
  }
}
