/** Kernel solutions as seen by the front end: opaque records tagged with the problem class
    they serve, the behaviour the external kernel library gives them, and the helpers that
    convert between the untyped pointer vectors stored in API objects and typed solution
    vectors. */
module Solutions {
  import opened Types

  /** The dtype tuple a solution is tagged with. Slots follow the descriptor's tensor slots:
      `typeC` is slot 2 (the C operand, `NoneType` for a scale kernel), `typeD` is slot 3. */
  datatype TypeKey = TypeKey(typeA: DataType, typeB: DataType, typeC: DataType, typeD: DataType, compute: ComputeType)

  /** A kernel solution: its unique id and its tag. Two solutions are the same object exactly
      when these agree. */
  datatype Solution = Solution(uid: nat, opId: ContractionOpId, types: TypeKey)

  /** The shape metadata of one operand slot as handed to a kernel. */
  datatype Operand = Operand(lengths: seq<nat>, strides: seq<nat>, modes: seq<int>)

  /** The metadata of a whole problem, slots A, B, C, D in order. */
  datatype Problem = Problem(a: Operand, b: Operand, c: Operand, d: Operand)

  /** The arguments of one kernel invocation; `timeKernel` is the timing flag of the stream
      configuration. */
  datatype Launch = Launch(
    alpha: Ptr, a: Ptr, b: Ptr, beta: Ptr, c: Ptr, d: Ptr,
    problem: Problem, workspace: Ptr, workspaceSize: nat, stream: nat, timeKernel: bool)

  /** What a selection model returns: a status and a winner that may be null. */
  datatype Selection = Selection(status: Status, winner: Option<Solution>)

  /** A registry map from uid to solution, listed in its iteration order. */
  type SolutionMap = seq<(nat, Solution)>

  /** The behaviour the kernel library supplies, as uninterpreted total functions:
      the dry-run argument check, the workspace size after it, the kernel call, and the two
      selection models (brute force takes the narrowed vector, actor-critic the narrowed map). */
  datatype Kernels = Kernels(
    initArgs: (Solution, Problem) -> bool,
    workspaceSize: (Solution, Problem) -> nat,
    run: (Solution, Launch) -> Status,
    bruteForce: (seq<Solution>, TypeKey, Problem, nat) -> Selection,
    actorCritic: (SolutionMap, TypeKey, Problem, nat) -> Selection)

  /** An untyped pointer stored in an API object; it designates a solution. */
  datatype OpaquePtr = OpaquePtr(target: Solution)

  /** Cast every untyped pointer of a vector back to the solution it designates. */
  function ToSolutionVec(v: seq<OpaquePtr>): (r: seq<Solution>)
    ensures |r| == |v|
    ensures forall i :: 0 <= i < |v| ==> r[i] == v[i].target
    decreases |v|
  {
    if |v| == 0 then [] else [v[0].target] + ToSolutionVec(v[1..])
  }

  /** Erase the type of every solution pointer of a vector. */
  function ToVoidVec(v: seq<Solution>): (r: seq<OpaquePtr>)
    ensures |r| == |v|
    ensures forall i :: 0 <= i < |v| ==> r[i].target == v[i]
    decreases |v|
  {
    if |v| == 0 then [] else [OpaquePtr(v[0])] + ToVoidVec(v[1..])
  }

  /** The solutions of a map, in its iteration order. */
  function MapToSolutionVec(m: SolutionMap): (r: seq<Solution>)
    ensures |r| == |m|
    ensures forall i :: 0 <= i < |m| ==> r[i] == m[i].1
    decreases |m|
  {
    if |m| == 0 then [] else [m[0].1] + MapToSolutionVec(m[1..])
  }

  /** The solutions of a map as untyped pointers, in its iteration order. */
  function MapToVoidVec(m: SolutionMap): (r: seq<OpaquePtr>)
    ensures |r| == |m|
    ensures forall i :: 0 <= i < |m| ==> r[i].target == m[i].1
    decreases |m|
  {
    if |m| == 0 then [] else [OpaquePtr(m[0].1)] + MapToVoidVec(m[1..])
  }

  /** Erasing and recovering the type gives back the original vector. */
  lemma SolutionVecRoundTrip(v: seq<Solution>)
    ensures ToSolutionVec(ToVoidVec(v)) == v
  {
  }

  /** Recovering and erasing the type gives back the original pointer vector. */
  lemma VoidVecRoundTrip(v: seq<OpaquePtr>)
    ensures ToVoidVec(ToSolutionVec(v)) == v
  {
  }

  /** The map overloads agree with the vector overloads: taking a map's pointers is the same as
      taking its solutions and erasing their type. */
  lemma MapOverloadsAgree(m: SolutionMap)
    ensures MapToVoidVec(m) == ToVoidVec(MapToSolutionVec(m))
    ensures ToSolutionVec(MapToVoidVec(m)) == MapToSolutionVec(m)
  {
  }
}
