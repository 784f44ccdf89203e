/** Status codes and limits shared by every layer. */
module Types {
  datatype Status =
    | Ok
    | NeedMoreData
    | OutputBufferTooSmall
    | InvalidArgument
    | InvalidFlag
    | InvalidFrameFormat
    | InvalidFrameType
    | InvalidFrameLength
    | InvalidAddress
    | InvalidControlField
    | InvalidHeaderChecksum
    | InvalidFrameChecksum
    | FrameTooLarge
    | InformationFieldTooLarge
    | SegmentationError
    | SegmentationIncomplete
    | SegmentationOverflow
    | UnsupportedFrame
    | UnsupportedAddress
    | UnsupportedFeature

  datatype Option<+T> = None | Some(value: T)

  /** A call that either yields a value or reports a status other than Ok. */
  datatype Result<+T> = Success(value: T) | Failure(status: Status) {
    predicate IsFailure() {
      Failure?
    }

    function PropagateFailure<U>(): Result<U>
      requires Failure?
    {
      Failure(status)
    }

    function Extract(): T
      requires Success?
    {
      value
    }

    function Code(): Status {
      if Success? then Ok else status
    }
  }

  /** A zero field stands for the codec default. */
  datatype Limits = Limits(
    maximumFrameSize: nat,
    maximumInformationFieldSize: nat,
    maximumReassembledInformationSize: nat)

  function DefaultLimits(): Limits {
    Limits(2049, 0, 65535)
  }

  function Min(a: nat, b: nat): nat {
    if a <= b then a else b
  }
}
