# hipTensor contraction front end — a Dafny model

This project models the selection-and-dispatch front end of hipTensor's tensor contraction
(`D = alpha·A∘B [+ beta·C]`): the five status-returning entry points of
`library/src/contraction/hiptensor_contraction.cpp` and the four helpers that convert between
the untyped `void*` candidate vectors stored in API objects and typed solution vectors.

Descriptor, find and plan construction are pure functions from their arguments and the current
content of their out-object to a `Step(status, new content)`. The workspace query is a method with
a loop that returns the status and the new content of its size out-pointer. Execution has no
out-object and returns a bare status.

- `Descriptors.InitContractionDescriptor` checks null pointers (NOT_INITIALIZED), then
  non-identity unary operators (NOT_SUPPORTED), sorts the problem into SCALE, SCALE_COMPLEX,
  BILINEAR or BILINEAR_COMPLEX, and stores tensors, alignments and mode lists (three lists
  and a typeless, zero-filled C slot for a scale contraction; four lists for a bilinear one).
- `Finds.InitContractionFind` checks null pointers, device affinity and the algorithm value,
  stores the algorithm, then fails with INTERNAL_ERROR on an empty registry or stores every
  registered solution as a candidate.
- `Workspaces.ContractionGetWorkspaceSize` dry-runs every candidate and folds the workspace
  sizes of those that validate, by min (MIN) or max (any other preference). The fold starts at
  0 and treats 0 as "unset": under MIN a zero-sized candidate is overwritten by the next one.
- `Plans.InitContractionPlan` checks null pointers and device affinity, narrows the candidates
  by contraction kind and dtype tuple, runs the selection model the find names, and binds
  descriptor and winner only on success.
- `Execution.Contraction` checks handle/plan, then alpha/A/B/D, then a bound solution, then
  device affinity, and returns the solution's own status unchanged.

Pointers are `Option`s (`None` is `nullptr`); handles are reduced to a device id; the current
device is a parameter. Solutions are records carrying a uid and their tag (kind and dtype
tuple). Their behaviour is the record `Solutions.Kernels` of uninterpreted functions. It holds
the dry-run `initArgs`, `workspaceSize`, the kernel call and the two selection models
(brute force and actor-critic). It is passed as a parameter and has no contract. The registry
is a given uid-to-solution map, listed in iteration order.

Every downstream call hands the mode list at index 2 to both the C slot and the D slot, and the
model does the same (`Descriptors.ProblemOf`). For a scale descriptor that list is D's own (only
three lists are stored). For a bilinear descriptor it is C's list, and D's list at index 3 is
never read. `Descriptors.DSlotModes` states both cases.

Behaviour worth knowing when reading the contracts:
- Execution never examines C or beta, so a bilinear plan run with a null C is not refused with
  INVALID_VALUE; the call reaches the solution (`Execution.CAndBetaNeverChecked`).
- Only find, plan and execution check device affinity. Descriptor construction and the workspace
  query do not.
- Find checks the algorithm value before the registry, and stores the algorithm even when it then
  fails on an empty registry.
- The MIN workspace is not the arithmetic minimum when a validated size is 0
  (`Workspaces.MinFoldResetsAtZero`).

## Model

| member | source | states |
|---|---|---|
| Solutions.ToSolutionVec | library/src/contraction/hiptensor_contraction.cpp:40-47 | casting a pointer vector back keeps its length and order, element i designating the i-th solution |
| Solutions.ToVoidVec | library/src/contraction/hiptensor_contraction.cpp:57-62 | erasing the type keeps length and order |
| Solutions.MapToSolutionVec | library/src/contraction/hiptensor_contraction.cpp:49-55 | the map overload yields one solution per entry, in iteration order |
| Solutions.MapToVoidVec | library/src/contraction/hiptensor_contraction.cpp:64-69 | the map overload yields one pointer per entry, in iteration order |
| Solutions.SolutionVecRoundTrip | library/src/contraction/hiptensor_contraction.cpp:40-62 | `toContractionSolutionVec(toVoidVec(v)) == v` |
| Solutions.VoidVecRoundTrip | library/src/contraction/hiptensor_contraction.cpp:40-62 | `toVoidVec(toContractionSolutionVec(p)) == p` |
| Solutions.MapOverloadsAgree | library/src/contraction/hiptensor_contraction.cpp:49-69 | the map overloads agree with the vector overloads applied to the map's solutions |
| Queries.Filter | library/src/contraction/hiptensor_contraction.cpp:509-511 | a narrowing step keeps exactly the accepted candidates and never lengthens the vector |
| Queries.FilterIsSubsequence | library/src/contraction/hiptensor_contraction.cpp:509-511 | narrowing preserves the candidates' relative order |
| Queries.FilterSnoc | library/src/contraction/hiptensor_contraction.cpp:509-511 | narrowing a vector extended by one candidate extends the result by it exactly when it is accepted |
| Queries.FilterTwice | library/src/contraction/hiptensor_contraction.cpp:509-511 | two chained narrowings equal one narrowing by the conjunction |
| Queries.Entries | library/src/contraction/hiptensor_contraction.cpp:509-513 | the query result as a uid-keyed map has one entry per candidate, keyed by its uid |
| Queries.NarrowingKeepsMatches | library/src/contraction/hiptensor_contraction.cpp:509-511 | kind-then-dtype narrowing keeps, in order, exactly the candidates matching both |
| Queries.EntriesRoundTrip | library/src/contraction/hiptensor_contraction.cpp:509-513 | reading the narrowed map back gives the narrowed vector |
| Descriptors.ModeList | library/src/contraction/hiptensor_contraction.cpp:167-172 | a stored mode list holds the first rank labels of the caller's array |
| Descriptors.ClassifyOp | library/src/contraction/hiptensor_contraction.cpp:174-207 | SCALE* exactly without C, COMPLEX exactly for the C32F and C64F compute types |
| Descriptors.PlaceholderC | library/src/contraction/hiptensor_contraction.cpp:182-184 | the scale C slot has no type and zero lengths and strides, as many as D has |
| Descriptors.InitContractionDescriptor | library/src/contraction/hiptensor_contraction.cpp:119-218 | NOT_INITIALIZED before NOT_SUPPORTED (also for a non-identity op on C with null modeC); out-descriptor unchanged on error; success iff both checks pass; kind classification; slot, alignment and mode-list shape for both kinds |
| Descriptors.ProblemOf | library/src/contraction/hiptensor_contraction.cpp:380-397 | the metadata handed to kernels carries each slot's lengths and strides, and gives mode list 2 to both the C and the D slot |
| Descriptors.KeyOf | library/src/contraction/hiptensor_contraction.cpp:502-506 | the narrowing key is the four slot types and the compute type |
| Descriptors.DSlotModes | library/src/contraction/hiptensor_contraction.cpp:161-215 | after construction the D slot receives D's list for a scale problem but C's list for a bilinear one |
| Descriptors.ScaleKeyHasNoC | library/src/contraction/hiptensor_contraction.cpp:178-187 | a scale descriptor narrows to kernels whose C type is NONE |
| Finds.InitContractionFind | library/src/contraction/hiptensor_contraction.cpp:240-315 | order NOT_INITIALIZED, ARCH_MISMATCH, INVALID_VALUE, INTERNAL_ERROR; an empty registry still stores the algorithm but keeps the candidates; success iff every check passes, with all registry solutions in order |
| Finds.FindHoldsRegistry | library/src/contraction/hiptensor_contraction.cpp:287-305 | a successful find's candidates, cast back, are the registry's solutions |
| Workspaces.FoldFrom | library/src/contraction/hiptensor_contraction.cpp:400-414 | the folded value is the start value or one of the folded sizes |
| Workspaces.ValidatedSizes | library/src/contraction/hiptensor_contraction.cpp:377-399 | no validated sizes exactly when no candidate passes the dry run |
| Workspaces.ValidatedSizesMembers | library/src/contraction/hiptensor_contraction.cpp:377-403 | the validated sizes are exactly the `workspaceSize()` values of the candidates that pass `initArgs` |
| Workspaces.ValidatedSizesInOrder | library/src/contraction/hiptensor_contraction.cpp:377-414 | position j of the validated sizes is the size of the j-th validating candidate, in candidate order |
| Workspaces.FoldSnoc | library/src/contraction/hiptensor_contraction.cpp:400-414 | each validated candidate performs one fold step |
| Workspaces.FoldAppend | library/src/contraction/hiptensor_contraction.cpp:375-416 | folding a concatenation continues from the first part's result |
| Workspaces.MaxFoldIsMax | library/src/contraction/hiptensor_contraction.cpp:400-413 | under every non-MIN preference the fold is the true maximum (0 for none) |
| Workspaces.MinFoldIsMinWithoutZeros | library/src/contraction/hiptensor_contraction.cpp:400-409 | under MIN with no zero size the fold is the true minimum |
| Workspaces.MinFoldResetsAtZero | library/src/contraction/hiptensor_contraction.cpp:400-409 | under MIN a zero size erases everything before it |
| Workspaces.MinFoldAtMostMaxFold | library/src/contraction/hiptensor_contraction.cpp:400-413 | the MIN result never exceeds the MAX result |
| Workspaces.FoldSummary | library/src/contraction/hiptensor_contraction.cpp:375-414 | from 0: 0 for no sizes; MAX is the largest size; MIN is 0 or a size, at most the largest, and the least when none is 0 |
| Workspaces.ContractionGetWorkspaceSize | library/src/contraction/hiptensor_contraction.cpp:340-418 | any null pointer gives NOT_INITIALIZED with nothing written; otherwise SUCCESS with no device check; 0 with no candidates (the descriptor unread) or when nothing validates; MAX is the largest validated size; MIN is 0 or a validated size, at most the largest, and the least when none is 0 |
| Plans.Narrowed | library/src/contraction/hiptensor_contraction.cpp:500-513 | the narrowed candidates are exactly the find's candidates matching kind and dtype tuple, filtered in order |
| Plans.Select | library/src/contraction/hiptensor_contraction.cpp:522-571 | DEFAULT and DEFAULT_PATIENT run brute force on the vector, ACTOR_CRITIC on the map, anything else leaves INTERNAL_ERROR with no winner |
| Plans.InitContractionPlan | library/src/contraction/hiptensor_contraction.cpp:444-606 | order NOT_INITIALIZED, ARCH_MISMATCH, then the model's status; plan unchanged unless SUCCESS, then bound to the descriptor and the winner |
| Execution.Precheck | library/src/contraction/hiptensor_contraction.cpp:678-746 | the call passes its checks exactly when handle, plan, alpha, A, B, D and the solution are present and the device matches |
| Execution.LaunchOf | library/src/contraction/hiptensor_contraction.cpp:748-835 | the kernel receives the plan's metadata, the caller's alpha, A, B, beta, C, D, workspace and stream, and timing exactly under performance tracing |
| Execution.Contraction | library/src/contraction/hiptensor_contraction.cpp:678-857 | order NOT_INITIALIZED, INVALID_VALUE, INTERNAL_ERROR, ARCH_MISMATCH; then the solution's status verbatim |
| Execution.CAndBetaNeverChecked | library/src/contraction/hiptensor_contraction.cpp:699-718 | the checks come out the same whatever C and beta are |
| Execution.WrongDeviceNeverRuns | library/src/contraction/hiptensor_contraction.cpp:731-746 | with a handle on another device the call returns the first failing check's status, never the solution's |
| Pipeline.Square32IsScale | library/src/contraction/hiptensor_contraction.cpp:161-187 | 4×4 fp32 A, B, D without C give a real SCALE descriptor with three mode lists |
| Pipeline.ScalePlanRunsWithoutC | library/src/contraction/hiptensor_contraction.cpp:699-835 | a plan built from a scale descriptor runs with null C and beta, and its D slot sees D's modes |

## Left out

- Logging: the logger, message formatting and the reading of alpha and beta for the trace (done only
  once the plan is non-null). They only produce strings.
- Workspaces.ContractionGetWorkspaceSize: with a null `workspaceSize` the source dereferences it in
  the entry trace at line 337, before its null check at line 340, which is undefined behaviour. The
  model returns NOT_INITIALIZED, as the check at lines 340-373 intends.
- HIP events around selection and the selection latency: device timing with no effect on any
  status or stored value.
- Performance metrics of a traced execution (FLOPs, TFLOPS, bandwidth): floating point, logged only.
- Selection model internals: brute force and actor-critic are uninterpreted. Properties that belong
  to the selection models are not stated: an empty narrowed set giving INTERNAL_ERROR, and a single
  validating candidate always winning.
- Plans.InitContractionPlan: does not state that an empty narrowed set fails with INTERNAL_ERROR,
  because that status comes from the selection model, whose code is not part of this model.
- Solution behaviour (`initArgs`, `workspaceSize`, the call operator, uid, kernel name, problem
  dimensions): external kernel library, modelled as uninterpreted functions of the solution and the
  metadata. `workspaceSize()` depends on the last `initArgs` in the source; the model passes the
  same metadata explicitly.
- Stream configuration repeat counts (cold and hot runs): only the timing flag is modelled.
- Handles and devices: `Handle::toHandle` and `HipDevice` become a device id and a current-device
  parameter. The registry singleton's one-time initialisation becomes a given solution map.
- Query internals: the registry's query code is not part of this model. In the source the narrowed
  result is an `unordered_map` keyed by uid, read back through the map overloads of the conversion
  helpers (lines 49-55 and 64-69) at lines 513 and 552. The source therefore leaves unspecified the
  order in which brute force sees the candidates; listing the map in candidate order is this
  model's assumption. Narrowing is modelled as an order-preserving filter, and duplicate uids are
  not collapsed (registry uids are taken to be distinct).
- The tensor descriptor struct's definition is not part of this model. The placeholder C slot's
  unary operator is taken to be the identity default; nothing here reads it.
- Enumeration values: only the identity test of the operator enumeration and the three
  recognised algorithms matter, so the other members are grouped (`OpNonIdentity`, `AlgoOther`,
  `OtherType`).
- Integer widths: alignments (32-bit) and workspace sizes (64-bit) are `nat`. They are copied,
  compared or min/max-combined, never added, so no wrap-around can arise.
- Undefined behaviour in the source is excluded by preconditions. This covers a mode array
  shorter than its tensor's rank, and a descriptor whose slots were never initialised, but only on
  the paths that read those slots: plan construction past its device check, and the workspace
  query when the find has at least one candidate.
- Execution requires that a plan with a bound solution holds a complete descriptor. This is not
  undefined behaviour in the source but the invariant every plan keeps: plan construction binds a
  solution only together with a valid descriptor (`Plans.InitContractionPlan` ensures it).
- A selection model reporting SUCCESS with a null winner would crash the source's success trace.
  The model binds the null winner, which execution then refuses with INTERNAL_ERROR.
- Concurrency: calls are modelled one at a time; sharing a handle across threads is left to callers.
- The device test helpers and the permutation instance registration file: GPU numerics and
  registration boilerplate outside the contraction front end.
