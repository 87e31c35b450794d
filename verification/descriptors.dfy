/** Contraction descriptor construction: argument checks in their fixed order, sorting the
    problem into one of the four contraction kinds, and the stored tensor, alignment and
    mode-list slots. Also the problem metadata every later call derives from a descriptor. */
module Descriptors {
  import opened Types
  import opened Solutions

  /** A contraction descriptor. `tensors` and `alignments` always have the four slots A, B, C, D;
      `modes` holds three lists (A, B, D) for a scale contraction and four (A, B, C, D) for a
      bilinear one. */
  datatype ContractionDescriptor = ContractionDescriptor(
    opId: ContractionOpId,
    compute: ComputeType,
    tensors: seq<TensorDesc>,
    alignments: seq<nat>,
    modes: seq<seq<int>>)
  {
    /** The slots every consumer of a descriptor indexes. */
    predicate Valid() {
      |tensors| == 4 && |alignments| == 4 && |modes| >= 3
    }
  }

  /** The arguments of descriptor construction. Tensor descriptors and mode arrays are
      pointers; `desc` is the out-pointer with the current content of its pointee. */
  datatype DescriptorArgs = DescriptorArgs(
    handle: Option<Handle>,
    desc: Option<ContractionDescriptor>,
    descA: Option<TensorDesc>, modeA: Option<seq<int>>, alignA: nat,
    descB: Option<TensorDesc>, modeB: Option<seq<int>>, alignB: nat,
    descC: Option<TensorDesc>, modeC: Option<seq<int>>, alignC: nat,
    descD: Option<TensorDesc>, modeD: Option<seq<int>>, alignD: nat,
    compute: ComputeType)
  {
    /** One of the pointers the call cannot do without is null. */
    predicate AnyRequiredNull() {
      handle.None? || desc.None? || descA.None? || descB.None? || descD.None?
    }

    /** A non-identity operator is requested on A, B or D, or on a non-null C. */
    predicate AnyNonIdentity() {
      (descA.Some? && descA.value.unaryOp != OpIdentity)
      || (descB.Some? && descB.value.unaryOp != OpIdentity)
      || (descD.Some? && descD.value.unaryOp != OpIdentity)
      || (descC.Some? && descC.value.unaryOp != OpIdentity)
    }

    /** The arguments pass every check, so the descriptor is built. */
    predicate Admissible() {
      !AnyRequiredNull() && !AnyNonIdentity()
    }

    /** The C operand takes part: both its descriptor and its mode array are non-null. */
    predicate HasC() {
      descC.Some? && modeC.Some?
    }

    /** Every mode array that is copied holds at least as many labels as its tensor's rank. */
    predicate ModesReadable() {
      && (descA.Some? ==> Covers(descA.value, modeA))
      && (descB.Some? ==> Covers(descB.value, modeB))
      && (descD.Some? ==> Covers(descD.value, modeD))
      && (HasC() ==> Covers(descC.value, modeC))
    }
  }

  /** A mode array can be read for a tensor: it holds `rank` labels, or nothing is read. */
  predicate Covers(t: TensorDesc, mode: Option<seq<int>>) {
    t.Rank() == 0 || (mode.Some? && t.Rank() <= |mode.value|)
  }

  /** The mode list stored for a tensor: the first `rank` labels of its mode array. */
  function ModeList(t: TensorDesc, mode: Option<seq<int>>): (r: seq<int>)
    requires Covers(t, mode)
    ensures |r| == t.Rank()
    ensures forall i :: 0 <= i < t.Rank() ==> r[i] == mode.value[i]
  {
    if t.Rank() == 0 then [] else mode.value[..t.Rank()]
  }

  /** The contraction kind for a problem with or without a C operand. */
  function ClassifyOp(hasC: bool, compute: ComputeType): (op: ContractionOpId)
    ensures op.IsScale() <==> !hasC
    ensures op.IsComplex() <==> compute.IsComplex()
  {
    if hasC then (if compute.IsComplex() then BilinearComplex else Bilinear)
    else (if compute.IsComplex() then ScaleComplex else Scale)
  }

  /** The tensor stored in the C slot of a scale descriptor: no type, and zero lengths and
      strides, as many as D has. */
  function PlaceholderC(d: TensorDesc): (t: TensorDesc)
    ensures t.dtype == NoneType && t.unaryOp == OpIdentity
    ensures |t.lengths| == |d.lengths| && |t.strides| == |d.strides|
    ensures forall i :: 0 <= i < |t.lengths| ==> t.lengths[i] == 0
    ensures forall i :: 0 <= i < |t.strides| ==> t.strides[i] == 0
  {
    TensorDesc(NoneType, seq(|d.lengths|, _ => 0), seq(|d.strides|, _ => 0), OpIdentity)
  }

  /** Build a contraction descriptor. Null pointers are reported before unsupported operators,
      an error leaves the out-descriptor as it was, and a successful call stores a descriptor
      whose kind and slots follow from whether C takes part and whether the compute type is
      complex. */
  function InitContractionDescriptor(a: DescriptorArgs): (r: Step<Option<ContractionDescriptor>>)
    requires a.Admissible() ==> a.ModesReadable()
    // error precedence, with the out-descriptor left as it was
    ensures a.AnyRequiredNull() ==> r == Step(NotInitialized, a.desc)
    ensures !a.AnyRequiredNull() && a.AnyNonIdentity() ==> r == Step(NotSupported, a.desc)
    ensures r.status == Success <==> a.Admissible()
    ensures r.status != Success ==> r.state == a.desc
    ensures r.status in {Success, NotInitialized, NotSupported}
    // classification
    ensures r.status == Success ==> r.state.Some? && r.state.value.Valid()
    ensures r.status == Success ==> (r.state.value.opId.IsScale() <==> (a.descC.None? || a.modeC.None?))
    ensures r.status == Success ==> (r.state.value.opId.IsComplex() <==> a.compute.IsComplex())
    ensures r.status == Success ==> r.state.value.compute == a.compute
    // the operand slots shared by both kinds
    ensures r.status == Success ==>
      var d := r.state.value;
      && d.tensors[0] == a.descA.value && d.tensors[1] == a.descB.value && d.tensors[3] == a.descD.value
      && d.alignments[0] == a.alignA && d.alignments[1] == a.alignB && d.alignments[3] == a.alignD
      && |d.modes[0]| == a.descA.value.Rank() && |d.modes[1]| == a.descB.value.Rank()
      && (forall i :: 0 <= i < |d.modes[0]| ==> d.modes[0][i] == a.modeA.value[i])
      && (forall i :: 0 <= i < |d.modes[1]| ==> d.modes[1][i] == a.modeB.value[i])
    // scale: three mode lists (A, B, D), a typeless zero-filled C slot sized to D, alignment C is 0
    ensures r.status == Success && !a.HasC() ==>
      var d := r.state.value;
      && |d.modes| == 3
      && |d.modes[2]| == a.descD.value.Rank()
      && (forall i :: 0 <= i < |d.modes[2]| ==> d.modes[2][i] == a.modeD.value[i])
      && d.tensors[2].dtype == NoneType
      && |d.tensors[2].lengths| == |a.descD.value.lengths|
      && |d.tensors[2].strides| == |a.descD.value.strides|
      && (forall i :: 0 <= i < |d.tensors[2].lengths| ==> d.tensors[2].lengths[i] == 0)
      && (forall i :: 0 <= i < |d.tensors[2].strides| ==> d.tensors[2].strides[i] == 0)
      && d.alignments[2] == 0
    // bilinear: four mode lists (A, B, C, D) and the caller's C slot and alignment
    ensures r.status == Success && a.HasC() ==>
      var d := r.state.value;
      && |d.modes| == 4
      && d.tensors[2] == a.descC.value && d.alignments[2] == a.alignC
      && |d.modes[2]| == a.descC.value.Rank() && |d.modes[3]| == a.descD.value.Rank()
      && (forall i :: 0 <= i < |d.modes[2]| ==> d.modes[2][i] == a.modeC.value[i])
      && (forall i :: 0 <= i < |d.modes[3]| ==> d.modes[3][i] == a.modeD.value[i])
  {
    if a.AnyRequiredNull() then Step(NotInitialized, a.desc)
    else if a.AnyNonIdentity() then Step(NotSupported, a.desc)
    else
      var dA, dB, dD := a.descA.value, a.descB.value, a.descD.value;
      var op := ClassifyOp(a.HasC(), a.compute);
      if !a.HasC() then
        Step(Success, Some(ContractionDescriptor(
          op, a.compute,
          [dA, dB, PlaceholderC(dD), dD],
          [a.alignA, a.alignB, 0, a.alignD],
          [ModeList(dA, a.modeA), ModeList(dB, a.modeB), ModeList(dD, a.modeD)])))
      else
        var dC := a.descC.value;
        Step(Success, Some(ContractionDescriptor(
          op, a.compute,
          [dA, dB, dC, dD],
          [a.alignA, a.alignB, a.alignC, a.alignD],
          [ModeList(dA, a.modeA), ModeList(dB, a.modeB), ModeList(dC, a.modeC), ModeList(dD, a.modeD)])))
  }

  /** The operand metadata handed to kernels and selection models. Every call passes the mode
      list at index 2 for BOTH the C slot and the D slot; the list at index 3 is never read. */
  function ProblemOf(d: ContractionDescriptor): (p: Problem)
    requires d.Valid()
    ensures p.a.lengths == d.tensors[0].lengths && p.a.modes == d.modes[0]
    ensures p.b.lengths == d.tensors[1].lengths && p.b.modes == d.modes[1]
    ensures p.c.lengths == d.tensors[2].lengths && p.d.lengths == d.tensors[3].lengths
    ensures p.c.modes == d.modes[2] && p.d.modes == d.modes[2]
    ensures p.a.strides == d.tensors[0].strides && p.b.strides == d.tensors[1].strides
    ensures p.c.strides == d.tensors[2].strides && p.d.strides == d.tensors[3].strides
  {
    Problem(
      Operand(d.tensors[0].lengths, d.tensors[0].strides, d.modes[0]),
      Operand(d.tensors[1].lengths, d.tensors[1].strides, d.modes[1]),
      Operand(d.tensors[2].lengths, d.tensors[2].strides, d.modes[2]),
      Operand(d.tensors[3].lengths, d.tensors[3].strides, d.modes[2]))
  }

  /** The dtype tuple a descriptor is narrowed by: the four slot types and the compute type. */
  function KeyOf(d: ContractionDescriptor): (k: TypeKey)
    requires d.Valid()
    ensures k.typeA == d.tensors[0].dtype && k.typeB == d.tensors[1].dtype
    ensures k.typeC == d.tensors[2].dtype && k.typeD == d.tensors[3].dtype
    ensures k.compute == d.compute
  {
    TypeKey(d.tensors[0].dtype, d.tensors[1].dtype, d.tensors[2].dtype, d.tensors[3].dtype, d.compute)
  }

  /** For a freshly built descriptor the D slot of every downstream call receives D's own mode
      list in the scale case, but C's mode list in the bilinear case. */
  lemma DSlotModes(a: DescriptorArgs)
    requires a.Admissible() && a.ModesReadable()
    ensures InitContractionDescriptor(a).state.Some?
    ensures var p := ProblemOf(InitContractionDescriptor(a).state.value);
      && (!a.HasC() ==> p.d.modes == ModeList(a.descD.value, a.modeD))
      && (a.HasC() ==> p.d.modes == ModeList(a.descC.value, a.modeC))
  {
  }

  /** A scale descriptor narrows to kernels whose C slot type is `NoneType`. */
  lemma ScaleKeyHasNoC(a: DescriptorArgs)
    requires a.Admissible() && a.ModesReadable() && !a.HasC()
    ensures InitContractionDescriptor(a).state.Some?
    ensures KeyOf(InitContractionDescriptor(a).state.value).typeC == NoneType
  {
  }
}
