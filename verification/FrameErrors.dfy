/** Why the codec refuses what it refuses, by the bytes and sizes themselves. */
module FrameErrors {
  import opened Types
  import opened Bits
  import opened Crc
  import opened Addressing
  import opened ControlField
  import opened Codec
  import opened CodecBuffers

  // ----- Encoding

  /** The largest frame, 2049 bytes unless a limit is given. */
  function FrameLimit(limits: Limits): nat {
    if limits.maximumFrameSize == 0 then 2049 else limits.maximumFrameSize
  }

  /** Two flags, two bytes of format, the addresses, the control byte and a checksum; with Information one
      more checksum and the Information. */
  function FrameBytes(f: Frame): nat {
    7 + f.destination.size + f.source.size + (if f.information == [] then 0 else 2 + |f.information|)
  }

  /** The Information is too large for the limit that is given for it or, without one, for a frame. */
  predicate Overfull(f: Frame, limits: Limits) {
    if limits.maximumInformationFieldSize != 0 then |f.information| > limits.maximumInformationFieldSize
    else f.information != [] && FrameBytes(f) > FrameLimit(limits)
  }

  /** Too much Information is reported first, then a length that cannot be announced, then a frame above
      the limit, and last a buffer that is too small. */
  lemma EncodeErrors(f: Frame, limits: Limits, size: nat)
    ensures EncodeStatus(f, limits) == InformationFieldTooLarge <==> Overfull(f, limits)
    ensures EncodeStatus(f, limits) == InvalidFrameLength <==> !Overfull(f, limits) && FrameBytes(f) > 2049
    ensures EncodeStatus(f, limits) == FrameTooLarge <==>
      !Overfull(f, limits) && FrameLimit(limits) < FrameBytes(f) <= 2049
    ensures BufferStatus(f, limits, size) == OutputBufferTooSmall <==>
      !Overfull(f, limits) && size < FrameBytes(f) <= 2049 && FrameBytes(f) <= FrameLimit(limits)
    ensures EncodeStatus(f, limits) != Ok ==> BufferStatus(f, limits, size) == EncodeStatus(f, limits)
    ensures EncodeStatus(f, limits) in {Ok, InformationFieldTooLarge, InvalidFrameLength, FrameTooLarge}
    ensures EncodeFrame(f, limits).Code() == EncodeStatus(f, limits)
  {
  }

  // ----- The envelope

  predicate TypeThree(input: seq<Byte>)
    requires |input| >= 2
  {
    input[1] / 0x10 == 10
  }

  /** The whole size that the format field announces. */
  function Announced(input: seq<Byte>): nat
    requires |input| >= 3
  {
    var high: nat, low: nat := input[1], input[2];
    high % 8 * 0x100 + low + 2
  }

  lemma AnnouncedFormat(input: seq<Byte>)
    requires |input| >= 3
    ensures ReadFormat(input) / 0x1000 == 10 <==> TypeThree(input)
    ensures ReadFormat(input) % 0x800 + 2 == Announced(input)
    ensures ReadFormat(input) / 0x800 % 2 == 1 <==> input[1] / 8 % 2 == 1
  {
    FormatParts(input[1], input[2]);
  }

  lemma FormatParts(high: nat, low: nat)
    requires high < 0x100 && low < 0x100
    ensures (0x100 * high + low) / 0x1000 == high / 0x10
    ensures (0x100 * high + low) % 0x800 == high % 8 * 0x100 + low
    ensures (0x100 * high + low) / 0x800 == high / 8
  {
  }

  /** An opening flag, the right type, and a size that a frame can have. */
  predicate Begins(input: seq<Byte>, limits: Limits)
    requires |input| >= 3
  {
    input[0] == 0x7e && TypeThree(input) && 8 <= Announced(input) <= FrameLimit(limits)
  }

  /** The first thing wrong with the envelope, exactly. */
  lemma EnvelopeErrors(input: seq<Byte>, limits: Limits)
    ensures var r := ReadEnvelope(input, limits);
      && (r == Failure(NeedMoreData) <==> |input| < 4 || (Begins(input, limits) && |input| < Announced(input)))
      && (r == Failure(InvalidFlag) <==>
            && |input| >= 4
            && (input[0] != 0x7e
                || (Begins(input, limits) && |input| == Announced(input) && input[|input| - 1] != 0x7e)))
      && (r == Failure(InvalidFrameFormat) <==> |input| >= 4 && input[0] == 0x7e && !TypeThree(input))
      && (r == Failure(InvalidFrameLength) <==>
            && |input| >= 4 && input[0] == 0x7e && TypeThree(input)
            && (Announced(input) < 8 || (Begins(input, limits) && |input| > Announced(input))))
      && (r == Failure(FrameTooLarge) <==>
            && |input| >= 4 && input[0] == 0x7e && TypeThree(input)
            && Announced(input) >= 8 && Announced(input) > FrameLimit(limits))
      && (r.Success? <==> InEnvelope(input, limits))
  {
    if |input| >= 3 {
      AnnouncedFormat(input);
    }
  }

  /** The bytes between two flags, of the announced size. */
  predicate InEnvelope(input: seq<Byte>, limits: Limits) {
    |input| >= 4 && Begins(input, limits) && |input| == Announced(input) && input[|input| - 1] == 0x7e
  }

  lemma OutsideEnvelope(input: seq<Byte>, limits: Limits, capacity: nat)
    requires !InEnvelope(input, limits)
    ensures ReadEnvelope(input, limits).Failure?
    ensures Decode(input, limits, capacity) == Failure(ReadEnvelope(input, limits).status)
  {
    EnvelopeErrors(input, limits);
  }

  // ----- The fields

  /** What follows the format field, up to the closing flag. */
  function Fields(input: seq<Byte>): seq<Byte>
    requires |input| >= 8
  {
    input[3..|input| - 1]
  }

  lemma HeadRefused(input: seq<Byte>, limits: Limits, capacity: nat)
    requires InEnvelope(input, limits) && ReadHead(Fields(input)).Failure?
    ensures Decode(input, limits, capacity) == Failure(ReadHead(Fields(input)).status)
  {
    EnvelopeErrors(input, limits);
  }

  /** An address that cannot be read is reported as it is, the destination before the source. */
  lemma AddressRefused(input: seq<Byte>, limits: Limits, capacity: nat, a: HdlcAddress, rest: seq<Byte>)
    requires InEnvelope(input, limits)
    ensures DecodeAddress(Fields(input)).Failure? ==>
      Decode(input, limits, capacity) == Failure(DecodeAddress(Fields(input)).status)
    ensures Fields(input) == EncodeAddress(a) + rest && DecodeAddress(rest).Failure? ==>
      Decode(input, limits, capacity) == Failure(DecodeAddress(rest).status)
  {
    if DecodeAddress(Fields(input)).Failure? {
      HeadRefused(input, limits, capacity);
    }
    if Fields(input) == EncodeAddress(a) + rest && DecodeAddress(rest).Failure? {
      SourceRefused(a, rest);
      HeadRefused(input, limits, capacity);
    }
  }

  lemma SourceRefused(a: HdlcAddress, rest: seq<Byte>)
    requires DecodeAddress(rest).Failure?
    ensures ReadHead(EncodeAddress(a) + rest) == Failure(DecodeAddress(rest).status)
  {
    AddressRoundTrip(a, rest);
    assert (EncodeAddress(a) + rest)[a.size..] == rest;
  }

  lemma AfterAddresses(a: HdlcAddress, b: HdlcAddress, tail: seq<Byte>)
    ensures ReadHead(EncodeAddress(a) + (EncodeAddress(b) + tail)) ==
      if |tail| < 3 then Failure(InvalidFrameLength)
      else if !Decodable(tail[0]) then Failure(InvalidControlField)
      else Success(Head(a, b, Control(tail[0]), 3 + a.size + b.size))
  {
    var rest := EncodeAddress(b) + tail;
    AddressRoundTrip(a, rest);
    AddressRoundTrip(b, tail);
    assert (EncodeAddress(a) + rest)[a.size..] == rest;
    assert |tail| >= 1 ==> rest[b.size] == tail[0];
  }

  /** Nothing behind the addresses but less than a control byte and a checksum, or a control byte that
      stands for no frame. */
  lemma ControlRefused(input: seq<Byte>, limits: Limits, capacity: nat, a: HdlcAddress, b: HdlcAddress, tail: seq<Byte>)
    requires InEnvelope(input, limits) && Fields(input) == EncodeAddress(a) + (EncodeAddress(b) + tail)
    ensures |tail| < 3 ==> Decode(input, limits, capacity) == Failure(InvalidFrameLength)
    ensures |tail| >= 3 && !Decodable(tail[0]) ==> Decode(input, limits, capacity) == Failure(InvalidControlField)
  {
    AfterAddresses(a, b, tail);
    if |tail| < 3 || !Decodable(tail[0]) {
      HeadRefused(input, limits, capacity);
    }
  }

  // ----- The checksums

  /** The two bytes are the checksum of this part of the input, low byte first. */
  predicate Checks(part: seq<Byte>, low: Byte, high: Byte) {
    Checksum(part) == Join(low, high)
  }

  /** What is decided behind the control byte, in this order: a stray byte, the header checksum, the frame
      checksum, the caller's buffer, the Information limit. */
  function Verdict(frame: Frame, limits: Limits, capacity: nat, stray: bool, header: bool, whole: bool): Result<Frame> {
    if stray then Failure(InvalidFrameLength)
    else if !header then Failure(InvalidHeaderChecksum)
    else if !whole then Failure(InvalidFrameChecksum)
    else if |frame.information| > capacity then Failure(OutputBufferTooSmall)
    else if Overfull(frame, limits) then Failure(InformationFieldTooLarge)
    else Success(frame)
  }

  lemma ReadBehind(input: seq<Byte>, a: HdlcAddress, b: HdlcAddress, tail: seq<Byte>)
    requires |input| >= 8 && Fields(input) == EncodeAddress(a) + (EncodeAddress(b) + tail)
    requires |tail| >= 3 && Decodable(tail[0])
    ensures 3 + a.size + b.size <= |input| - 4
    ensures ReadFrame(input) ==
      var content, size := input[1..|input| - 3], 3 + a.size + b.size;
      var information := ReadInformation(content, size);
      if information.Failure? then Failure(information.status)
      else if !Checks(content, input[|input| - 3], input[|input| - 2]) then Failure(InvalidFrameChecksum)
      else Success(Frame(ReadFormat(input) / 0x800 % 2 == 1, a, b, Control(tail[0]), information.value))
  {
    AfterAddresses(a, b, tail);
  }

  lemma InformationBehind(input: seq<Byte>, size: nat)
    requires |input| >= 8 && size <= |input| - 4
    ensures ReadInformation(input[1..|input| - 3], size) ==
      if |input| - 4 == size then Success([])
      else if |input| - 4 == size + 1 then Failure(InvalidFrameLength)
      else if !Checks(input[1..size + 1], input[size + 1], input[size + 2]) then Failure(InvalidHeaderChecksum)
      else Success(input[size + 3..|input| - 3])
  {
    var content := input[1..|input| - 3];
    assert content[..size] == input[1..size + 1];
    if |content| >= size + 2 {
      assert content[size + 2..] == input[size + 3..|input| - 3];
    }
  }

  lemma DecodeLast(input: seq<Byte>, limits: Limits, capacity: nat)
    requires InEnvelope(input, limits)
    ensures Decode(input, limits, capacity) ==
      match ReadFrame(input)
      case Failure(status) => Failure(status)
      case Success(frame) =>
        if |frame.information| > capacity then Failure(OutputBufferTooSmall)
        else if Overfull(frame, limits) then Failure(InformationFieldTooLarge)
        else Success(frame)
  {
    EnvelopeErrors(input, limits);
    if ReadFrame(input).Success? {
      OverfullExact(ReadFrame(input).value, limits);
    }
  }

  lemma OverfullExact(f: Frame, limits: Limits)
    ensures Overfull(f, limits) <==> |f.information| > EffectiveMaximumInformationFieldSize(f, limits)
  {
  }

  lemma ReadDecided(input: seq<Byte>, a: HdlcAddress, b: HdlcAddress, tail: seq<Byte>)
    requires |input| >= 8 && Fields(input) == EncodeAddress(a) + (EncodeAddress(b) + tail)
    requires |tail| >= 3 && Decodable(tail[0])
    ensures 4 + a.size + b.size <= |input| - 3
    ensures var size, more := 4 + a.size + b.size, |input| - 3 - (4 + a.size + b.size);
      ReadFrame(input) ==
        if more == 1 then Failure(InvalidFrameLength)
        else if more >= 2 && !Checks(input[1..size], input[size], input[size + 1]) then Failure(InvalidHeaderChecksum)
        else if !Checks(input[1..|input| - 3], input[|input| - 3], input[|input| - 2]) then Failure(InvalidFrameChecksum)
        else Success(Frame(input[1] / 8 % 2 == 1, a, b, Control(tail[0]), if more < 2 then [] else input[size + 2..|input| - 3]))
  {
    ReadBehind(input, a, b, tail);
    AnnouncedFormat(input);
    InformationBehind(input, 3 + a.size + b.size);
  }

  /** The whole decision for a frame with readable addresses and control byte. More is what stands between
      the control byte and the frame checksum: nothing, or a header checksum and the Information. */
  lemma DecodeBehind(input: seq<Byte>, limits: Limits, capacity: nat, a: HdlcAddress, b: HdlcAddress, tail: seq<Byte>)
    requires InEnvelope(input, limits) && Fields(input) == EncodeAddress(a) + (EncodeAddress(b) + tail)
    requires |tail| >= 3 && Decodable(tail[0])
    ensures 4 + a.size + b.size <= |input| - 3
    ensures var size, more := 4 + a.size + b.size, |input| - 3 - (4 + a.size + b.size);
      var information := if more < 2 then [] else input[size + 2..|input| - 3];
      Decode(input, limits, capacity) ==
        Verdict(Frame(input[1] / 8 % 2 == 1, a, b, Control(tail[0]), information), limits, capacity,
                more == 1, more >= 2 ==> Checks(input[1..size], input[size], input[size + 1]),
                Checks(input[1..|input| - 3], input[|input| - 3], input[|input| - 2]))
  {
    ReadDecided(input, a, b, tail);
    DecodeLast(input, limits, capacity);
  }
}
