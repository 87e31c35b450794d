/** The entry points chained the way a client drives them: descriptor, find, plan, execution. */
module Pipeline {
  import opened Types
  import opened Solutions
  import opened Descriptors
  import opened Finds
  import opened Plans
  import opened Execution

  /** Descriptor arguments for `D = alpha·A∘B` over 4×4 fp32 tensors without a C operand. */
  function Square32(): (a: DescriptorArgs)
    ensures a.Admissible() && a.ModesReadable() && !a.HasC()
  {
    var t := TensorDesc(R32F, [4, 4], [1, 4], OpIdentity);
    DescriptorArgs(Some(Handle(0)), Some(ContractionDescriptor(Scale, ComputeNone, [], [], [])),
                   Some(t), Some([0, 1]), 4,
                   Some(t), Some([1, 2]), 4,
                   None, None, 0,
                   Some(t), Some([0, 2]), 4,
                   Compute32F)
  }

  /** The fp32 example is sorted into the real scale kind and keeps its three mode lists. */
  lemma Square32IsScale()
    ensures InitContractionDescriptor(Square32()).status == Success
    ensures InitContractionDescriptor(Square32()).state.value.opId == Scale
    ensures InitContractionDescriptor(Square32()).state.value.modes == [[0, 1], [1, 2], [0, 2]]
  {
    var d := InitContractionDescriptor(Square32()).state.value;
    assert d.modes[0] == [0, 1] && d.modes[1] == [1, 2] && d.modes[2] == [0, 2];
  }

  /** A plan built on the active device from a freshly built scale descriptor runs with null C
      and beta: the call returns whatever the bound solution reports, and that solution sees D's
      own mode list in the D slot. */
  lemma ScalePlanRunsWithoutC(k: Kernels, device: int, a: DescriptorArgs, find: ContractionFind,
                              plan: ContractionPlan, budget: nat, args: ExecArgs, perfTrace: bool)
    requires a.Admissible() && a.ModesReadable() && !a.HasC()
    requires InitContractionPlan(k, Some(Handle(device)), device, Some(plan),
                                 InitContractionDescriptor(a).state, Some(find), budget).status == Success
    requires args.RequiredPresent() && args.c == Null && args.beta == Null
    ensures var built := InitContractionPlan(k, Some(Handle(device)), device, Some(plan),
                                             InitContractionDescriptor(a).state, Some(find), budget).state;
      && built.Some? && built.value.desc.opId.IsScale()
      && (built.value.solution.None? ==>
            Contraction(k, Some(Handle(device)), device, built, args, perfTrace) == InternalError)
      && (built.value.solution.Some? ==>
            && Contraction(k, Some(Handle(device)), device, built, args, perfTrace)
               == k.run(built.value.solution.value, LaunchOf(built.value, args, perfTrace))
            && LaunchOf(built.value, args, perfTrace).problem.d.modes == ModeList(a.descD.value, a.modeD))
  {
  }
}
