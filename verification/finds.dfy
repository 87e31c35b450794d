/** Find construction: binds a selection algorithm to the whole registry of solutions. Kind and
    dtype narrowing is deferred to plan construction. */
module Finds {
  import opened Types
  import opened Solutions

  /** A find object: the stored selection algorithm and the candidates as untyped pointers. */
  datatype ContractionFind = ContractionFind(algo: Algo, candidates: seq<OpaquePtr>)

  /** Initialise a find. `registry` is the process-wide solution map in its iteration order and
      `currentDevice` the device active on the calling thread. Checks run in the order null
      pointers, device affinity, algorithm value, empty registry; the algorithm is stored before
      the registry is examined. */
  function InitContractionFind(
    handle: Option<Handle>, currentDevice: int, find: Option<ContractionFind>,
    algo: Algo, registry: SolutionMap): (r: Step<Option<ContractionFind>>)
    ensures handle.None? || find.None? ==> r == Step(NotInitialized, find)
    ensures handle.Some? && find.Some? && currentDevice != handle.value.device ==>
      r == Step(ArchMismatch, find)
    ensures handle.Some? && find.Some? && currentDevice == handle.value.device && !algo.IsKnown() ==>
      r == Step(InvalidValue, find)
    // an empty registry is an internal error, but the algorithm has already been written
    ensures r.status == InternalError <==>
      handle.Some? && find.Some? && currentDevice == handle.value.device && algo.IsKnown() && |registry| == 0
    ensures r.status == InternalError ==>
      r.state == Some(ContractionFind(algo, find.value.candidates))
    // on success the candidates are every registered solution, in registry order
    ensures r.status == Success <==>
      handle.Some? && find.Some? && currentDevice == handle.value.device && algo.IsKnown() && |registry| > 0
    ensures r.status == Success ==>
      && r.state.Some? && r.state.value.algo == algo
      && |r.state.value.candidates| == |registry|
      && (forall i :: 0 <= i < |registry| ==> r.state.value.candidates[i].target == registry[i].1)
    ensures r.status !in {Success, InternalError} ==> r.state == find
  {
    if handle.None? || find.None? then Step(NotInitialized, find)
    else if currentDevice != handle.value.device then Step(ArchMismatch, find)
    else if algo.IsKnown() then
      var withAlgo := find.value.(algo := algo);
      if |registry| == 0 then Step(InternalError, Some(withAlgo))
      else Step(Success, Some(withAlgo.(candidates := MapToVoidVec(registry))))
    else Step(InvalidValue, find)
  }

  /** A successful find holds exactly the registry's solutions once they are cast back. */
  lemma FindHoldsRegistry(handle: Option<Handle>, currentDevice: int, find: Option<ContractionFind>,
                          algo: Algo, registry: SolutionMap)
    requires InitContractionFind(handle, currentDevice, find, algo, registry).status == Success
    ensures ToSolutionVec(InitContractionFind(handle, currentDevice, find, algo, registry).state.value.candidates)
            == MapToSolutionVec(registry)
  {
  }
}
