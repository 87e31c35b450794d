/** Execution dispatch: precondition checks in a fixed order, then the bound solution is invoked
    with the plan's frozen metadata and its status is returned unchanged. */
module Execution {
  import opened Types
  import opened Solutions
  import opened Descriptors
  import opened Plans

  /** The caller's scalars and buffers, the workspace and the stream. */
  datatype ExecArgs = ExecArgs(
    alpha: Ptr, a: Ptr, b: Ptr, beta: Ptr, c: Ptr, d: Ptr,
    workspace: Ptr, workspaceSize: nat, stream: nat)
  {
    /** alpha, A, B and D are non-null; C and beta are not required. */
    predicate RequiredPresent() {
      alpha != Null && a != Null && b != Null && d != Null
    }
  }

  /** The first failing precondition, if any: handle and plan, then alpha, A, B and D, then a
      bound solution, then device affinity. C and beta are never examined. */
  function Precheck(handle: Option<Handle>, currentDevice: int, plan: Option<ContractionPlan>, args: ExecArgs)
    : (e: Option<Status>)
    ensures e.None? <==>
      handle.Some? && plan.Some? && args.RequiredPresent()
      && plan.value.solution.Some? && currentDevice == handle.value.device
    ensures e.Some? ==> e.value in {NotInitialized, InvalidValue, InternalError, ArchMismatch}
  {
    if handle.None? || plan.None? then Some(NotInitialized)
    else if !args.RequiredPresent() then Some(InvalidValue)
    else if plan.value.solution.None? then Some(InternalError)
    else if currentDevice != handle.value.device then Some(ArchMismatch)
    else None
  }

  /** The kernel invocation for a plan: the plan's metadata (mode list 2 in both the C and the D
      slot), the caller's buffers, and timing switched on exactly when performance tracing is. */
  function LaunchOf(plan: ContractionPlan, args: ExecArgs, perfTrace: bool): (l: Launch)
    requires plan.desc.Valid()
    ensures l.problem == ProblemOf(plan.desc) && l.timeKernel == perfTrace
    ensures l.alpha == args.alpha && l.a == args.a && l.b == args.b
    ensures l.beta == args.beta && l.c == args.c && l.d == args.d
    ensures l.workspace == args.workspace && l.workspaceSize == args.workspaceSize && l.stream == args.stream
  {
    Launch(args.alpha, args.a, args.b, args.beta, args.c, args.d,
           ProblemOf(plan.desc), args.workspace, args.workspaceSize, args.stream, perfTrace)
  }

  /** Execute a plan. `perfTrace` is whether the performance-trace log level is active. */
  function Contraction(k: Kernels, handle: Option<Handle>, currentDevice: int,
                       plan: Option<ContractionPlan>, args: ExecArgs, perfTrace: bool): (r: Status)
    requires plan.Some? ==> plan.value.WellBound()
    ensures handle.None? || plan.None? ==> r == NotInitialized
    ensures handle.Some? && plan.Some? && !args.RequiredPresent() ==> r == InvalidValue
    ensures handle.Some? && plan.Some? && args.RequiredPresent() && plan.value.solution.None? ==>
      r == InternalError
    ensures (handle.Some? && plan.Some? && args.RequiredPresent() && plan.value.solution.Some?
             && currentDevice != handle.value.device) ==> r == ArchMismatch
    // past the checks, whatever the solution reports (insufficient workspace, internal error, ...)
    // is returned as it is
    ensures Precheck(handle, currentDevice, plan, args).None? ==>
      r == k.run(plan.value.solution.value, LaunchOf(plan.value, args, perfTrace))
  {
    match Precheck(handle, currentDevice, plan, args)
    case Some(e) => e
    case None => k.run(plan.value.solution.value, LaunchOf(plan.value, args, perfTrace))
  }

  /** Null C and beta never make a call fail before the solution runs, whatever the plan's kind:
      the checks come out the same for any C and beta. */
  lemma CAndBetaNeverChecked(handle: Option<Handle>, currentDevice: int, plan: Option<ContractionPlan>,
                             args: ExecArgs, c: Ptr, beta: Ptr)
    ensures Precheck(handle, currentDevice, plan, args.(c := c, beta := beta))
            == Precheck(handle, currentDevice, plan, args)
  {
  }

  /** With a handle bound to a device other than the active one the call always ends in one of
      its checks (device mismatch once the earlier ones pass) and the solution is not run. */
  lemma WrongDeviceNeverRuns(k: Kernels, handle: Option<Handle>, currentDevice: int,
                             plan: Option<ContractionPlan>, args: ExecArgs, perfTrace: bool)
    requires plan.Some? ==> plan.value.WellBound()
    requires handle.Some? && handle.value.device != currentDevice
    ensures Contraction(k, handle, currentDevice, plan, args, perfTrace) in
      {NotInitialized, InvalidValue, InternalError, ArchMismatch}
    ensures Precheck(handle, currentDevice, plan, args).Some?
    ensures Contraction(k, handle, currentDevice, plan, args, perfTrace)
            == Precheck(handle, currentDevice, plan, args).value
  {
  }
}
