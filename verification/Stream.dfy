/** The incremental stream decoder (src/hdlc/hdlc_stream_decoder.cpp). */
module Stream {
  import opened Types
  import opened Addressing
  import opened Bits
  import opened Codec

  datatype NoisePolicy = IgnoreUntilOpeningFlag | ReportError

  datatype Options = Options(limits: Limits, noise: NoisePolicy)

  // ----- What a push does to the buffer, as a function

  /** The buffer from its first flag on. */
  function SkipNoise(buffer: seq<Byte>): (r: seq<Byte>)
    ensures |r| <= |buffer|
    ensures r == [] || r[0] == FLAG
    decreases |buffer|
  {
    if buffer == [] || buffer[0] == FLAG then buffer else SkipNoise(buffer[1..])
  }

  /** What the decoder finds at the front of its buffer. */
  datatype Finding =
    | Wait(buffer: seq<Byte>)
    | Fail(status: Status)
    | Take(frame: Frame, rest: seq<Byte>)

  function AnnouncedSize(buffer: seq<Byte>): nat
    requires |buffer| >= 3
  {
    ReadFormat(buffer) % 0x800 + 2
  }

  function Inspect(o: Options, b: seq<Byte>): (r: Finding)
    ensures r.Take? ==> |r.rest| + 8 <= |b|
  {
    if |b| < 3 then Wait(b)
    else if ReadFormat(b) / 0x1000 != 10 then Fail(InvalidFrameFormat)
    else if AnnouncedSize(b) < 8 then Fail(InvalidFrameLength)
    else if AnnouncedSize(b) > EffectiveMaximumFrameSize(o.limits) then Fail(FrameTooLarge)
    else if |b| < AnnouncedSize(b) then Wait(b)
    else
      var r := DecodeFrame(b[..AnnouncedSize(b)], o.limits);
      if r.Failure? then Fail(r.status) else Take(r.value, b[AnnouncedSize(b)..])
  }

  function Look(o: Options, buffer: seq<Byte>): (r: Finding)
    ensures r.Take? ==> |r.rest| + 8 <= |buffer|
  {
    var b := SkipNoise(buffer);
    if o.noise == ReportError && b != buffer then Fail(InvalidFlag) else Inspect(o, b)
  }

  /** The frames found, the bytes kept for later, and the status of a reset if one happened. */
  datatype Outcome = Outcome(frames: seq<Frame>, buffer: seq<Byte>, failure: Option<Status>)

  function Prepend(frames: seq<Frame>, o: Outcome): Outcome {
    o.(frames := frames + o.frames)
  }

  function Drain(o: Options, buffer: seq<Byte>): Outcome
    decreases |buffer|
  {
    match Look(o, buffer)
    case Wait(b) => Outcome([], b, None)
    case Fail(s) => Outcome([], [], Some(s))
    case Take(f, rest) => Prepend([f], Drain(o, rest))
  }

  function PushStatus(x: Outcome): Status {
    match x.failure
    case Some(s) => s
    case None => if x.frames == [] then NeedMoreData else Ok
  }

  // ----- The decoder

  method FindFlag(buffer: seq<Byte>) returns (index: nat)
    ensures index <= |buffer| && FLAG !in buffer[..index]
    ensures index < |buffer| ==> buffer[index] == FLAG
  {
    index := 0;
    while index < |buffer| && buffer[index] != FLAG
      invariant index <= |buffer| && FLAG !in buffer[..index]
    {
      index := index + 1;
    }
  }

  lemma {:induction false} SkipNoiseAt(noise: seq<Byte>, rest: seq<Byte>)
    requires FLAG !in noise
    ensures SkipNoise(noise + rest) == SkipNoise(rest)
    decreases |noise|
  {
    if noise == [] {
      assert noise + rest == rest;
    } else {
      assert (noise + rest)[1..] == noise[1..] + rest;
      SkipNoiseAt(noise[1..], rest);
    }
  }

  lemma SkipTo(buffer: seq<Byte>, flag: nat)
    requires flag <= |buffer| && FLAG !in buffer[..flag]
    requires flag < |buffer| ==> buffer[flag] == FLAG
    ensures SkipNoise(buffer) == buffer[flag..]
    ensures SkipNoise(buffer) == buffer <==> flag == 0
  {
    SkipNoiseAt(buffer[..flag], buffer[flag..]);
    assert buffer == buffer[..flag] + buffer[flag..];
  }

  lemma PrependTwice(a: seq<Frame>, b: seq<Frame>, x: Outcome)
    ensures Prepend(a, Prepend(b, x)) == Prepend(a + b, x)
  {
    assert a + (b + x.frames) == a + b + x.frames;
  }

  class StreamDecoder {
    const options: Options
    var buffer: seq<Byte>

    constructor (options: Options)
      ensures this.options == options && buffer == []
    {
      this.options := options;
      buffer := [];
    }

    /** Consumes a chunk and returns every frame completed by it. */
    method Push(data: seq<Byte>) returns (status: Status, frames: seq<Frame>)
      modifies this`buffer
      ensures var x := Drain(options, old(buffer) + data);
        frames == x.frames && buffer == x.buffer && status == PushStatus(x)
    {
      frames := [];
      buffer := buffer + data;
      ghost var all := buffer;
      while true
        invariant Prepend(frames, Drain(options, buffer)) == Drain(options, all)
        decreases |buffer|
      {
        var flag := FindFlag(buffer);
        SkipTo(buffer, flag);
        if options.noise == ReportError && flag != 0 {
          Reset();
          return InvalidFlag, frames;
        }
        var found := FrontOf(buffer[flag..]);
        match found {
          case Wait(rest) =>
            buffer := rest;
            return (if frames == [] then NeedMoreData else Ok), frames;
          case Fail(s) =>
            Reset();
            return s, frames;
          case Take(frame, rest) =>
            PrependTwice(frames, [frame], Drain(options, rest));
            frames := frames + [frame];
            buffer := rest;
        }
      }
    }

    /** The checks made once the buffer is empty or starts with a flag. */
    method FrontOf(b: seq<Byte>) returns (r: Finding)
      ensures r == Inspect(options, b)
    {
      if |b| < 3 {
        return Wait(b);
      }
      var frameFormat := ReadFormat(b);
      if frameFormat / 0x1000 != 10 {
        return Fail(InvalidFrameFormat);
      }
      var formatFieldLength := frameFormat % 0x800;
      var fullFrameSize := formatFieldLength + 2;
      if formatFieldLength < 6 {
        return Fail(InvalidFrameLength);
      }
      if fullFrameSize > EffectiveMaximumFrameSize(options.limits) {
        return Fail(FrameTooLarge);
      }
      if |b| < fullFrameSize {
        return Wait(b);
      }
      var decoded := DecodeFrame(b[..fullFrameSize], options.limits);
      if decoded.Failure? {
        return Fail(decoded.status);
      }
      return Take(decoded.value, b[fullFrameSize..]);
    }

    method Reset()
      modifies this`buffer
      ensures buffer == []
    {
      buffer := [];
    }
  }

  // ----- Chunks do not matter

  lemma InspectExtend(o: Options, b: seq<Byte>, more: seq<Byte>)
    ensures match Inspect(o, b)
      case Wait(_) => true
      case Fail(s) => Inspect(o, b + more) == Fail(s)
      case Take(f, rest) => Inspect(o, b + more) == Take(f, rest + more)
  {
    if |b| >= 3 && |b| >= AnnouncedSize(b) {
      assert (b + more)[..AnnouncedSize(b)] == b[..AnnouncedSize(b)];
      assert (b + more)[AnnouncedSize(b)..] == b[AnnouncedSize(b)..] + more;
    }
  }

  lemma {:induction false} SkipNoiseExtend(a: seq<Byte>, b: seq<Byte>)
    ensures SkipNoise(a + b) == SkipNoise(SkipNoise(a) + b)
    ensures SkipNoise(a) != [] ==> SkipNoise(a + b) == SkipNoise(a) + b
    ensures SkipNoise(a) != a ==> SkipNoise(a + b) != a + b
    decreases |a|
  {
    if a == [] {
      assert a + b == b;
    } else if a[0] != FLAG {
      assert (a + b)[1..] == a[1..] + b;
      SkipNoiseExtend(a[1..], b);
      assert |SkipNoise(a + b)| < |a + b|;
    }
  }

  lemma LookExtend(o: Options, a: seq<Byte>, b: seq<Byte>)
    ensures match Look(o, a)
      case Wait(w) => Look(o, a + b) == Look(o, w + b)
      case Fail(s) => Look(o, a + b) == Fail(s)
      case Take(f, rest) => Look(o, a + b) == Take(f, rest + b)
  {
    var w := SkipNoise(a);
    SkipNoiseExtend(a, b);
    InspectExtend(o, w, b);
    if w == [] {
      assert w + b == b;
    }
  }

  /** Pushing a and then b is pushing a + b: the same frames, the same bytes kept and the same end.
      If a fails, a + b fails in the same way with the same frames already produced. */
  lemma {:induction false} Chunking(o: Options, a: seq<Byte>, b: seq<Byte>)
    ensures var x := Drain(o, a);
      Drain(o, a + b) == if x.failure.Some? then x else Prepend(x.frames, Drain(o, x.buffer + b))
    decreases |a|
  {
    FrontExtend(o, a, b);
    var look := Look(o, a);
    if look.Take? {
      Chunking(o, look.rest, b);
      FirstTaken(look.frame, Drain(o, look.rest), Drain(o, Drain(o, look.rest).buffer + b));
    } else if look.Wait? {
      PrependNothing(Drain(o, look.buffer + b));
    }
  }

  /** The first thing found decides how both drains begin. */
  lemma FrontExtend(o: Options, a: seq<Byte>, b: seq<Byte>)
    ensures var look := Look(o, a);
      && (look.Wait? ==> Drain(o, a) == Outcome([], look.buffer, None) && Drain(o, a + b) == Drain(o, look.buffer + b))
      && (look.Fail? ==> Drain(o, a).failure.Some? && Drain(o, a + b) == Drain(o, a))
      && (look.Take? ==> Drain(o, a) == Prepend([look.frame], Drain(o, look.rest))
                         && Drain(o, a + b) == Prepend([look.frame], Drain(o, look.rest + b)))
  {
    LookExtend(o, a, b);
  }

  lemma PrependNothing(x: Outcome)
    ensures Prepend([], x) == x
  {
    assert [] + x.frames == x.frames;
  }

  /** A frame taken first comes first, whether or not the rest continues. */
  lemma FirstTaken(f: Frame, x: Outcome, next: Outcome)
    ensures var y := Prepend([f], x);
      Prepend([f], if x.failure.Some? then x else Prepend(x.frames, next))
        == (if y.failure.Some? then y else Prepend(y.frames, next)) && y.buffer == x.buffer
  {
    PrependTwice([f], x.frames, next);
  }

  // ----- A reset that looks like waiting

  /** An address that could still go on. */
  predicate Unfinished(data: seq<Byte>) {
    |data| < 4 && forall i :: 0 <= i < |data| ==> data[i] % 2 == 0
  }

  /** The fields end inside one of the addresses. */
  predicate Truncated(fields: seq<Byte>) {
    var d := DecodeAddress(fields);
    Unfinished(fields) || (d.Success? && d.value.consumed <= |fields| && Unfinished(fields[d.value.consumed..]))
  }

  /** The front of the buffer is a complete frame, by its flags and its length, with truncated addresses. */
  predicate CutShort(o: Options, b: seq<Byte>) {
    && |b| >= 3 && b[0] == FLAG && ReadFormat(b) / 0x1000 == 10
    && 8 <= AnnouncedSize(b) <= EffectiveMaximumFrameSize(o.limits) && AnnouncedSize(b) <= |b|
    && b[AnnouncedSize(b) - 1] == FLAG && Truncated(b[3..AnnouncedSize(b) - 1])
  }

  lemma AddressWaits(data: seq<Byte>)
    ensures DecodeAddress(data) == Failure(NeedMoreData) <==> Unfinished(data)
  {
    if Unfinished(data) {
      assert forall i :: 0 <= i < |data| ==> data[i] % 2 != 1;
    }
  }

  lemma HeadWaits(fields: seq<Byte>)
    ensures ReadHead(fields) == Failure(NeedMoreData) <==> Truncated(fields)
  {
    AddressWaits(fields);
    var d := DecodeAddress(fields);
    if d.Success? {
      AddressCanonical(fields);
      AddressWaits(fields[d.value.consumed..]);
    }
  }

  lemma FrameWaits(input: seq<Byte>)
    requires |input| >= 8
    ensures ReadFrame(input) == Failure(NeedMoreData) <==> Truncated(input[3..|input| - 1])
  {
    HeadWaits(input[3..|input| - 1]);
  }

  lemma DecodeWaits(input: seq<Byte>, limits: Limits)
    requires 8 <= |input| <= EffectiveMaximumFrameSize(limits)
    requires ReadFormat(input) / 0x1000 == 10 && ReadFormat(input) % 0x800 == |input| - 2
    ensures DecodeFrame(input, limits) == Failure(NeedMoreData) <==>
      input[0] == FLAG && input[|input| - 1] == FLAG && Truncated(input[3..|input| - 1])
  {
    FrameWaits(input);
  }

  /** The decoder discards the front of its buffer as unfinished if and only if it is cut short. */
  lemma InspectWaits(o: Options, b: seq<Byte>)
    ensures Inspect(o, b) == Fail(NeedMoreData) <==> CutShort(o, b)
  {
    if |b| >= 3 && ReadFormat(b) / 0x1000 == 10 && 8 <= AnnouncedSize(b) <= EffectiveMaximumFrameSize(o.limits)
       && AnnouncedSize(b) <= |b| {
      var n := AnnouncedSize(b);
      assert b[..n][3..n - 1] == b[3..n - 1];
      DecodeWaits(b[..n], o.limits);
    }
  }

  /** What is left of the buffer when a push has taken out all the frames it finds. */
  function Stop(o: Options, buffer: seq<Byte>): seq<Byte>
    decreases |buffer|
  {
    var found := Look(o, buffer);
    if found.Take? then Stop(o, found.rest) else buffer
  }

  /** At that point there is no reported noise, and behind any ignored noise a frame is cut short. */
  predicate StopsCutShort(o: Options, buffer: seq<Byte>) {
    var b := SkipNoise(Stop(o, buffer));
    (o.noise == ReportError ==> b == Stop(o, buffer)) && CutShort(o, b)
  }

  lemma {:induction false} DrainWaits(o: Options, buffer: seq<Byte>)
    ensures Drain(o, buffer).failure == Some(NeedMoreData) <==> StopsCutShort(o, buffer)
    decreases |buffer|
  {
    var found := Look(o, buffer);
    InspectWaits(o, SkipNoise(buffer));
    if found.Take? {
      DrainWaits(o, found.rest);
    }
  }

  /** NeedMoreData does not tell whether bytes were kept. A push that returns it has discarded its
      bytes if and only if the frames found were followed by a complete one whose addresses are
      truncated; a longer buffer could not have completed that one. */
  lemma ResetReportedAsWaiting(o: Options, buffer: seq<Byte>)
    ensures var x := Drain(o, buffer);
      && (PushStatus(x) == NeedMoreData && x.failure.Some? <==> StopsCutShort(o, buffer))
      && (StopsCutShort(o, buffer) ==> x.buffer == [] && PushStatus(x) == NeedMoreData)
  {
    DrainWaits(o, buffer);
    BufferInvariant(o, buffer);
  }

  /** It happens: this complete frame, whose source address never ends, is discarded with the same
      status as a frame that is still arriving. */
  lemma ResetReportedAsWaitingWitness(o: Options)
    requires o.limits == DefaultLimits()
    ensures var x := Drain(o, [FLAG, 0xa0, 0x06, 0x03, 0x00, 0x00, 0x00, FLAG]);
      x.failure.Some? && x.buffer == [] && PushStatus(x) == NeedMoreData
    ensures var y := Drain(o, [FLAG, 0xa0]);
      y.failure.None? && y.buffer == [FLAG, 0xa0] && PushStatus(y) == NeedMoreData
  {
    WitnessCutShort(o, [FLAG, 0xa0, 0x06, 0x03, 0x00, 0x00, 0x00, FLAG]);
  }

  lemma WitnessCutShort(o: Options, b: seq<Byte>)
    requires o.limits == DefaultLimits() && b == [FLAG, 0xa0, 0x06, 0x03, 0x00, 0x00, 0x00, FLAG]
    ensures Drain(o, b) == Outcome([], [], Some(NeedMoreData))
  {
    var fields := b[3..7];
    assert fields == [0x03, 0x00, 0x00, 0x00] && fields[1..] == [0x00, 0x00, 0x00];
    assert ReadFormat(b) == 0xa006;
    assert CutShort(o, b);
    InspectWaits(o, b);
  }

  function Flatten(chunks: seq<seq<Byte>>): seq<Byte> {
    if chunks == [] then [] else chunks[0] + Flatten(chunks[1..])
  }

  /** A decoder fed chunk by chunk, up to the first reset. */
  function PushAll(o: Options, buffer: seq<Byte>, chunks: seq<seq<Byte>>): Outcome
    decreases |chunks|
  {
    if chunks == [] then Outcome([], buffer, None)
    else
      var x := Drain(o, buffer + chunks[0]);
      if x.failure.Some? then x else Prepend(x.frames, PushAll(o, x.buffer, chunks[1..]))
  }

  // ----- The buffer between pushes

  /** Nothing, or a flag with too little behind it for the frame that its header announces. */
  predicate Waiting(o: Options, w: seq<Byte>) {
    w == [] ||
    (w[0] == FLAG &&
     (|w| >= 3 ==>
        && ReadFormat(w) / 0x1000 == 10
        && 8 <= AnnouncedSize(w) <= EffectiveMaximumFrameSize(o.limits)
        && |w| < AnnouncedSize(w)))
  }

  lemma LookWaiting(o: Options, a: seq<Byte>)
    ensures Look(o, a).Wait? ==> Waiting(o, Look(o, a).buffer)
    ensures Waiting(o, a) <==> Look(o, a) == Wait(a)
  {
  }

  /** After every push without a reset the buffer is waiting, it is small, and what left it made
      frames of at least eight bytes each. After a reset it is empty. */
  lemma {:induction false} BufferInvariant(o: Options, a: seq<Byte>)
    ensures var x := Drain(o, a);
      && Waiting(o, x.buffer)
      && (x.failure.Some? ==> x.buffer == [])
      && (|x.buffer| >= 3 ==> |x.buffer| < Min(EffectiveMaximumFrameSize(o.limits), 2049))
      && 8 * |x.frames| + |x.buffer| <= |a|
    decreases |a|
  {
    LookWaiting(o, a);
    match Look(o, a)
    case Wait(w) =>
      if |w| >= 3 {
        assert AnnouncedSize(w) <= 0x7ff + 2;
      }
    case Fail(s) =>
    case Take(f, rest) =>
      BufferInvariant(o, rest);
  }

  /** A waiting buffer holds no complete frame, and only such a buffer stays as it is. */
  lemma WaitingDrains(o: Options, w: seq<Byte>)
    ensures Waiting(o, w) <==> Drain(o, w) == Outcome([], w, None)
  {
    LookWaiting(o, w);
  }

  /** However the bytes are cut into chunks, the outcome is that of one push. */
  lemma {:induction false} ChunkingAll(o: Options, buffer: seq<Byte>, chunks: seq<seq<Byte>>)
    requires Waiting(o, buffer)
    ensures PushAll(o, buffer, chunks) == Drain(o, buffer + Flatten(chunks))
    decreases |chunks|
  {
    if chunks == [] {
      assert buffer + Flatten(chunks) == buffer;
      WaitingDrains(o, buffer);
    } else {
      var front, rest := buffer + chunks[0], Flatten(chunks[1..]);
      assert buffer + Flatten(chunks) == front + rest;
      Chunking(o, front, rest);
      BufferInvariant(o, front);
      ChunkingAll(o, Drain(o, front).buffer, chunks[1..]);
    }
  }

  // ----- Framing inverts printing

  /** What a sender puts on the line for a frame: nothing if its length cannot be announced. */
  function Print(f: Frame): seq<Byte> {
    if Printable(f) then Wire(f) else []
  }

  /** A frame on the line, with the noise in front of it. */
  datatype Item = Item(noise: seq<Byte>, frame: Frame)

  function Line(items: seq<Item>, trailing: seq<Byte>): seq<Byte>
  {
    if items == [] then trailing else items[0].noise + (Print(items[0].frame) + Line(items[1..], trailing))
  }

  function FramesOf(items: seq<Item>): seq<Frame> {
    if items == [] then [] else [items[0].frame] + FramesOf(items[1..])
  }

  /** Noise holds no flag, and there is none where it is reported. */
  predicate Tolerated(o: Options, noise: seq<Byte>) {
    FLAG !in noise && (o.noise == ReportError ==> noise == [])
  }

  predicate Sendable(o: Options, i: Item) {
    Tolerated(o, i.noise) && EncodeStatus(i.frame, o.limits) == Ok
  }

  predicate AllSendable(o: Options, items: seq<Item>) {
    forall i :: 0 <= i < |items| ==> Sendable(o, items[i])
  }

  lemma InspectFrame(o: Options, f: Frame, rest: seq<Byte>)
    requires EncodeStatus(f, o.limits) == Ok
    ensures Inspect(o, Print(f) + rest) == Take(f, rest)
  {
    var b := Wire(f) + rest;
    FormatOnWire(f);
    DecodeWire(f, o.limits);
    assert ReadFormat(b) == ReadFormat(Wire(f));
    assert b[..|Wire(f)|] == Wire(f) && b[|Wire(f)|..] == rest;
  }

  lemma LookAtFrame(o: Options, i: Item, rest: seq<Byte>)
    requires Sendable(o, i)
    ensures Look(o, i.noise + (Print(i.frame) + rest)) == Take(i.frame, rest)
  {
    var b := Print(i.frame) + rest;
    SkipNoiseAt(i.noise, b);
    InspectFrame(o, i.frame, rest);
    assert i.noise == [] ==> i.noise + b == b;
  }

  /** Any list of encodable frames, put on the line one after the other, is decoded to exactly that
      list, leaves nothing behind, and is reported with Ok. Flags inside the frames do no harm, and
      under the ignoring policy neither does noise between them. */
  lemma {:induction false} LineDecodes(o: Options, items: seq<Item>, trailing: seq<Byte>)
    requires AllSendable(o, items)
    requires Tolerated(o, trailing)
    ensures Drain(o, Line(items, trailing)) == Outcome(FramesOf(items), [], None)
    ensures PushStatus(Drain(o, Line(items, trailing))) == if items == [] then NeedMoreData else Ok
    decreases |items|
  {
    if items == [] {
      SkipNoiseAt(trailing, []);
      assert trailing + [] == trailing;
    } else {
      LookAtFrame(o, items[0], Line(items[1..], trailing));
      LineDecodes(o, items[1..], trailing);
    }
  }

  /** The same, however the line is cut into chunks. */
  lemma ChunkedLineDecodes(o: Options, items: seq<Item>, trailing: seq<Byte>, chunks: seq<seq<Byte>>)
    requires AllSendable(o, items)
    requires Tolerated(o, trailing)
    requires Flatten(chunks) == Line(items, trailing)
    ensures PushAll(o, [], chunks) == Outcome(FramesOf(items), [], None)
  {
    ChunkingAll(o, [], chunks);
    assert [] + Flatten(chunks) == Flatten(chunks);
    LineDecodes(o, items, trailing);
  }
}
