/** Vocabulary shared by the contraction front end: status codes, the enumerations
    the entry points test, handles, pointers and tensor descriptors. */
module Types {

  /** A pointer that may be null. `Some(v)` is a non-null pointer whose pointee holds `v`. */
  datatype Option<+T> = None | Some(value: T)

  /** A raw buffer address (alpha, beta, A, B, C, D, workspace); the front end only ever compares it with null. */
  datatype Ptr = Null | Addr(addr: nat)

  /** The library's status enumeration. */
  datatype Status =
    | Success
    | NotInitialized
    | AllocFailed
    | InvalidValue
    | ArchMismatch
    | ExecutionFailed
    | InternalError
    | NotSupported
    | CkError
    | HipError
    | InsufficientWorkspace
    | InsufficientDriver
    | IoError

  /** The result of an entry point: the status it returns and the new content of the object
      its out-pointer designates. */
  datatype Step<S> = Step(status: Status, state: S)

  /** Element types of tensors; `NoneType` marks the absent C operand. `OtherType` stands for
      every further member of the runtime's data-type enumeration. */
  datatype DataType = NoneType | R16F | R16BF | R32F | R64F | C32F | C64F | OtherType(code: int)

  /** Compute precisions. */
  datatype ComputeType =
    | Compute16F | Compute16BF | Compute32F | Compute64F
    | Compute8U | Compute8I | Compute32U | Compute32I
    | ComputeC32F | ComputeC64F | ComputeNone
  {
    /** The two complex compute precisions. */
    predicate IsComplex() {
      this == ComputeC32F || this == ComputeC64F
    }
  }

  /** Element-wise unary operators; only the identity test matters here, so every other
      operator is `OpNonIdentity` with its enumeration code. */
  datatype UnaryOp = OpIdentity | OpNonIdentity(code: int)

  /** The contraction kinds a descriptor is sorted into. */
  datatype ContractionOpId = Scale | Bilinear | ScaleComplex | BilinearComplex
  {
    /** `D = alpha·A∘B`, without a C operand. */
    predicate IsScale() {
      this == Scale || this == ScaleComplex
    }

    predicate IsComplex() {
      this == ScaleComplex || this == BilinearComplex
    }
  }

  /** Selection algorithms; `AlgoOther` is any value of the enumeration outside the three
      that the front end recognises. */
  datatype Algo = AlgoDefault | AlgoDefaultPatient | AlgoActorCritic | AlgoOther(code: int)
  {
    predicate IsBruteForce() {
      this == AlgoDefault || this == AlgoDefaultPatient
    }

    predicate IsKnown() {
      IsBruteForce() || this == AlgoActorCritic
    }
  }

  /** Workspace preference passed to the workspace query. */
  datatype WorksizePref = WorkspaceMin | WorkspaceRecommended | WorkspaceMax

  /** A library handle, reduced to the device it is bound to. */
  datatype Handle = Handle(device: int)

  /** A tensor descriptor: element type, lengths, strides and the unary operator applied
      to the operand. */
  datatype TensorDesc = TensorDesc(dtype: DataType, lengths: seq<nat>, strides: seq<nat>, unaryOp: UnaryOp)
  {
    function Rank(): nat {
      |lengths|
    }
  }
}
