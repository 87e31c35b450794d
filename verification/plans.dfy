/** Plan construction: narrow a find's candidates to the descriptor's kind and dtype tuple, run
    the selection model the find names, and bind descriptor and winner into the plan only when
    the model succeeds. */
module Plans {
  import opened Types
  import opened Solutions
  import opened Queries
  import opened Descriptors
  import opened Finds

  /** A plan: a copy of the descriptor and the selected solution (null until bound). */
  datatype ContractionPlan = ContractionPlan(desc: ContractionDescriptor, solution: Option<Solution>)
  {
    /** Whenever a solution is bound, the descriptor beside it has every slot. */
    predicate WellBound() {
      solution.Some? ==> desc.Valid()
    }
  }

  /** The query a plan runs over a find's candidates, exposed as the query's uid-keyed map. */
  function NarrowedMap(find: ContractionFind, d: ContractionDescriptor): SolutionMap
    requires d.Valid()
  {
    Entries(QueryTypes(QueryOp(ToSolutionVec(find.candidates), d.opId), KeyOf(d)))
  }

  /** The narrowed candidates: the find's candidates that match the descriptor's kind and dtype
      tuple (slot types 0 to 3 and the compute type), in their original order. */
  function Narrowed(find: ContractionFind, d: ContractionDescriptor): (r: seq<Solution>)
    requires d.Valid()
    ensures r == Filter((s: Solution) => Matches(s, d.opId, KeyOf(d)), ToSolutionVec(find.candidates))
    ensures IsSubsequence(r, ToSolutionVec(find.candidates))
    ensures forall s :: s in r <==> s in ToSolutionVec(find.candidates) && Matches(s, d.opId, KeyOf(d))
    ensures forall s :: s in r ==> s.opId == d.opId && s.types.compute == d.compute
  {
    var cands := ToSolutionVec(find.candidates);
    NarrowingKeepsMatches(cands, d.opId, KeyOf(d));
    EntriesRoundTrip(QueryTypes(QueryOp(cands, d.opId), KeyOf(d)));
    MapToSolutionVec(NarrowedMap(find, d))
  }

  /** The selection model the find's stored algorithm names; an unrecognised algorithm leaves the
      result at its initial value, an internal error with no winner. */
  function Select(k: Kernels, find: ContractionFind, d: ContractionDescriptor, workspaceSize: nat): (sel: Selection)
    requires d.Valid()
    ensures find.algo.IsBruteForce() ==>
      sel == k.bruteForce(Narrowed(find, d), KeyOf(d), ProblemOf(d), workspaceSize)
    ensures find.algo == AlgoActorCritic ==>
      sel == k.actorCritic(NarrowedMap(find, d), KeyOf(d), ProblemOf(d), workspaceSize)
    ensures !find.algo.IsKnown() ==> sel == Selection(InternalError, None)
  {
    if find.algo.IsBruteForce() then
      k.bruteForce(Narrowed(find, d), KeyOf(d), ProblemOf(d), workspaceSize)
    else if find.algo == AlgoActorCritic then
      k.actorCritic(NarrowedMap(find, d), KeyOf(d), ProblemOf(d), workspaceSize)
    else
      Selection(InternalError, None)
  }

  /** The null checks of plan construction pass. */
  predicate PointersPresent(handle: Option<Handle>, plan: Option<ContractionPlan>,
                            desc: Option<ContractionDescriptor>, find: Option<ContractionFind>) {
    handle.Some? && plan.Some? && desc.Some? && find.Some?
  }

  /** Initialise a plan. Checks run in the order null pointers, then device affinity; afterwards
      the selection model's status is returned. The plan changes only on success, and then holds
      the descriptor and the model's winner. */
  function InitContractionPlan(
    k: Kernels, handle: Option<Handle>, currentDevice: int, plan: Option<ContractionPlan>,
    desc: Option<ContractionDescriptor>, find: Option<ContractionFind>, workspaceSize: nat)
    : (r: Step<Option<ContractionPlan>>)
    requires PointersPresent(handle, plan, desc, find) && currentDevice == handle.value.device ==>
      desc.value.Valid()
    ensures !PointersPresent(handle, plan, desc, find) ==> r == Step(NotInitialized, plan)
    ensures PointersPresent(handle, plan, desc, find) && currentDevice != handle.value.device ==>
      r == Step(ArchMismatch, plan)
    ensures r.status != Success ==> r.state == plan
    ensures PointersPresent(handle, plan, desc, find) && currentDevice == handle.value.device ==>
      var sel := Select(k, find.value, desc.value, workspaceSize);
      && r.status == sel.status
      && (!find.value.algo.IsKnown() ==> r.status == InternalError)
      && (r.status == Success ==> r.state == Some(ContractionPlan(desc.value, sel.winner)))
    ensures r.status == Success ==> r.state.Some? && r.state.value.desc == desc.value && r.state.value.WellBound()
  {
    if !PointersPresent(handle, plan, desc, find) then Step(NotInitialized, plan)
    else if currentDevice != handle.value.device then Step(ArchMismatch, plan)
    else
      var sel := Select(k, find.value, desc.value, workspaceSize);
      if sel.status != Success then Step(sel.status, plan)
      else Step(Success, Some(ContractionPlan(desc.value, sel.winner)))
  }
}
