/** What a push reports and why it resets (src/hdlc/hdlc_stream_decoder.cpp), by the bytes themselves. */
module StreamErrors {
  import opened Types
  import opened Bits
  import opened Codec
  import opened FrameErrors
  import opened Stream

  /** Refusing a frame is never reported as Ok. */
  lemma RefusedNotOk(input: seq<Byte>, limits: Limits)
    ensures DecodeFrame(input, limits) != Failure(Ok)
  {
    if InEnvelope(input, limits) {
      DecodeLast(input, limits, EffectiveMaximumFrameSize(limits));
      ReadNotOk(input);
    } else {
      OutsideEnvelope(input, limits, EffectiveMaximumFrameSize(limits));
      EnvelopeErrors(input, limits);
    }
  }

  lemma ReadNotOk(input: seq<Byte>)
    requires |input| >= 8
    ensures ReadFrame(input) != Failure(Ok)
  {
  }

  lemma FoundNotOk(o: Options, buffer: seq<Byte>)
    ensures Look(o, buffer) != Fail(Ok)
  {
    var b := SkipNoise(buffer);
    if |b| >= 3 && |b| >= AnnouncedSize(b) {
      RefusedNotOk(b[..AnnouncedSize(b)], o.limits);
    }
  }

  lemma {:induction false} ResetNotOk(o: Options, buffer: seq<Byte>)
    ensures Drain(o, buffer).failure != Some(Ok)
    decreases |buffer|
  {
    FoundNotOk(o, buffer);
    var found := Look(o, buffer);
    if found.Take? {
      ResetNotOk(o, found.rest);
    }
  }

  /** Without a reset a push reports Ok if and only if it returns frames, and NeedMoreData if and only if
      it returns none. With a reset it reports the reason, which is never Ok. */
  lemma StatusExact(o: Options, buffer: seq<Byte>)
    ensures var x := Drain(o, buffer);
      && (x.failure == None ==> (PushStatus(x) == Ok <==> x.frames != []) && (PushStatus(x) == NeedMoreData <==> x.frames == []))
      && (x.failure != None ==> x.failure == Some(PushStatus(x)) && PushStatus(x) != Ok)
  {
    ResetNotOk(o, buffer);
  }

  // ----- Reasons for a reset

  /** At the front of a buffer that is empty or starts with a flag: what is waited for, what is reported,
      and when the frame is decoded. */
  lemma InspectCases(o: Options, b: seq<Byte>)
    requires b == [] || b[0] == 0x7e
    ensures |b| < 3 || (Begins(b, o.limits) && |b| < Announced(b)) ==> Inspect(o, b) == Wait(b)
    ensures |b| >= 3 && !TypeThree(b) ==> Inspect(o, b) == Fail(InvalidFrameFormat)
    ensures |b| >= 3 && TypeThree(b) && Announced(b) < 8 ==> Inspect(o, b) == Fail(InvalidFrameLength)
    ensures |b| >= 3 && TypeThree(b) && Announced(b) >= 8 && Announced(b) > FrameLimit(o.limits) ==>
      Inspect(o, b) == Fail(FrameTooLarge)
    ensures |b| >= 3 && Begins(b, o.limits) && |b| >= Announced(b) ==>
      Inspect(o, b) ==
        match DecodeFrame(b[..Announced(b)], o.limits)
        case Failure(status) => Fail(status)
        case Success(frame) => Take(frame, b[Announced(b)..])
  {
    if |b| >= 3 {
      AnnouncedFormat(b);
    }
  }

  /** Bytes in front of the first flag are reported as InvalidFlag, or skipped. */
  lemma NoiseCases(o: Options, noise: seq<Byte>, b: seq<Byte>)
    requires 0x7e !in noise && (b == [] || b[0] == 0x7e)
    ensures Look(o, noise + b) == if o.noise == ReportError && noise != [] then Fail(InvalidFlag) else Inspect(o, b)
  {
    SkipTo(noise + b, |noise|);
    assert (noise + b)[..|noise|] == noise && (noise + b)[|noise|..] == b;
  }

  /** A push takes out the frames that it finds, and then keeps what it waits for or resets with what is
      wrong at that point. */
  lemma {:induction false} PushEnds(o: Options, buffer: seq<Byte>)
    ensures match Look(o, Stop(o, buffer))
      case Wait(b) => Drain(o, buffer).failure == None && Drain(o, buffer).buffer == b
      case Fail(status) => Drain(o, buffer).failure == Some(status) && Drain(o, buffer).buffer == []
      case Take(_, _) => false
    decreases |buffer|
  {
    var found := Look(o, buffer);
    if found.Take? {
      PushEnds(o, found.rest);
    }
  }
}
