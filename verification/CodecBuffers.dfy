/** The codec as it runs: the encoder writes through a moving offset, the decoder reads through one
    (src/hdlc/hdlc_codec.cpp). Each method is proved to compute the function of module Codec. */
module CodecBuffers {
  import opened Types
  import opened Bits
  import opened Crc
  import opened Addressing
  import opened ControlField
  import opened Codec

  /** Copies bytes into the buffer at offset. */
  method Put(output: array<Byte>, offset: nat, bytes: seq<Byte>)
    requires offset + |bytes| <= output.Length
    modifies output
    ensures output[..offset + |bytes|] == old(output[..offset]) + bytes
    ensures forall k :: offset + |bytes| <= k < output.Length ==> output[k] == old(output[k])
  {
    for i := 0 to |bytes|
      invariant output[..offset] == old(output[..offset])
      invariant output[offset..offset + i] == bytes[..i]
      invariant forall k :: offset + i <= k < output.Length ==> output[k] == old(output[k])
    {
      output[offset + i] := bytes[i];
    }
    assert output[..offset + |bytes|] == output[..offset] + output[offset..offset + |bytes|];
  }

  function BufferStatus(frame: Frame, limits: Limits, size: nat): Status {
    if EncodeStatus(frame, limits) != Ok then EncodeStatus(frame, limits)
    else if size < FormatFieldLength(frame) + 2 then OutputBufferTooSmall
    else Ok
  }

  method EncodeFrameToBuffer(frame: Frame, limits: Limits, output: array<Byte>) returns (status: Status, written: nat)
    modifies output
    ensures status == BufferStatus(frame, limits, output.Length)
    ensures status != Ok ==> written == 0 && output[..] == old(output[..])
    ensures status == Ok ==> written == |Wire(frame)| && output[..] == Wire(frame) + old(output[written..])
  {
    status := BufferStatus(frame, limits, output.Length);
    if status != Ok {
      return status, 0;
    }
    var offset := WriteHeader(frame, output);
    offset := WritePayload(output, offset, Header(frame), frame.information);
    offset := WriteTrailer(output, offset, Content(frame));
    assert output[..] == output[..offset] + output[offset..];
    return Ok, offset;
  }

  /** The header checksum and the Information bytes, unless there are none. */
  method WritePayload(output: array<Byte>, start: nat, ghost header: seq<Byte>, information: seq<Byte>)
    returns (offset: nat)
    requires 1 <= start && start + 2 + |information| <= output.Length && output[..start] == [FLAG] + header
    modifies output
    ensures offset == start + |Payload(header, information)|
    ensures output[..offset] == [FLAG] + (header + Payload(header, information))
    ensures forall k :: offset <= k < output.Length ==> output[k] == old(output[k])
  {
    offset := start;
    if information != [] {
      assert output[1..start] == header;
      var hcs := CalculateHdlcCrc(output[1..start]);
      var payload := Stored(hcs) + information;
      Put(output, offset, payload);
      offset := offset + |payload|;
      assert [FLAG] + header + payload == [FLAG] + (header + payload);
    } else {
      assert header + Payload(header, information) == header;
    }
  }

  /** The frame checksum and the closing flag. */
  method WriteTrailer(output: array<Byte>, end: nat, ghost content: seq<Byte>) returns (offset: nat)
    requires 1 <= end && end + 3 <= output.Length && output[..end] == [FLAG] + content
    modifies output
    ensures offset == end + 3 && output[..offset] == Enclose(content)
    ensures forall k :: offset <= k < output.Length ==> output[k] == old(output[k])
  {
    assert output[1..end] == content;
    var fcs := CalculateHdlcCrc(output[1..end]);
    Put(output, end, Stored(fcs) + [FLAG]);
    offset := end + 3;
    assert output[..offset] == [FLAG] + content + (Stored(fcs) + [FLAG]);
  }

  method WriteHeader(frame: Frame, output: array<Byte>) returns (offset: nat)
    requires Printable(frame) && 1 + HeaderSize(frame) <= output.Length
    modifies output
    ensures offset == 1 + HeaderSize(frame)
    ensures output[..offset] == [FLAG] + Header(frame)
    ensures forall k :: offset <= k < output.Length ==> output[k] == old(output[k])
  {
    offset := WriteFormat(frame, output);
    offset := WriteFields(frame, output, offset);
    InFront([FLAG], FormatField(frame.segmented, FormatFieldLength(frame)), EncodeAddress(frame.destination),
            EncodeAddress(frame.source), [frame.control.raw]);
  }

  lemma InFront(flag: seq<Byte>, format: seq<Byte>, d: seq<Byte>, s: seq<Byte>, c: seq<Byte>)
    ensures flag + format + d + s + c == flag + (format + d + s + c)
  {
  }

  /** The opening flag and the format field. */
  method WriteFormat(frame: Frame, output: array<Byte>) returns (offset: nat)
    requires Printable(frame) && 3 <= output.Length
    modifies output
    ensures offset == 3
    ensures output[..offset] == [FLAG] + FormatField(frame.segmented, FormatFieldLength(frame))
    ensures forall k :: offset <= k < output.Length ==> output[k] == old(output[k])
  {
    Put(output, 0, [FLAG]);
    Put(output, 1, FormatField(frame.segmented, FormatFieldLength(frame)));
    offset := 3;
  }

  /** Both addresses and the control byte. */
  method WriteFields(frame: Frame, output: array<Byte>, start: nat) returns (offset: nat)
    requires start + frame.destination.size + frame.source.size + 1 <= output.Length
    modifies output
    ensures offset == start + frame.destination.size + frame.source.size + 1
    ensures output[..offset] == old(output[..start]) + EncodeAddress(frame.destination) + EncodeAddress(frame.source)
      + [frame.control.raw]
    ensures forall k :: offset <= k < output.Length ==> output[k] == old(output[k])
  {
    offset := start;
    var status, addressSize := Encode(frame.destination, output, offset);
    offset := offset + addressSize;
    status, addressSize := Encode(frame.source, output, offset);
    offset := offset + addressSize;
    Put(output, offset, [frame.control.raw]);
    offset := offset + 1;
  }

  method EncodeFrameToVector(frame: Frame, limits: Limits) returns (r: Result<seq<Byte>>)
    ensures r == EncodeFrame(frame, limits)
  {
    var output := new Byte[EffectiveMaximumFrameSize(limits)](i => 0);
    var status, written := EncodeFrameToBuffer(frame, limits, output);
    if status != Ok {
      return Failure(status);
    }
    return Success(output[..written]);
  }

  method DecodeFrameFromBuffer(input: seq<Byte>, limits: Limits, informationBuffer: array<Byte>) returns (r: Result<Frame>)
    modifies informationBuffer
    ensures r == Decode(input, limits, informationBuffer.Length)
    ensures r.Failure? ==> informationBuffer[..] == old(informationBuffer[..])
    ensures r.Success? ==> |r.value.information| <= informationBuffer.Length
    ensures r.Success? ==> informationBuffer[..|r.value.information|] == r.value.information
    ensures r.Success? ==> forall k :: |r.value.information| <= k < informationBuffer.Length ==>
                                         informationBuffer[k] == old(informationBuffer[k])
  {
    r := CheckFrame(input, limits, informationBuffer.Length);
    if r.Failure? {
      return;
    }
    Put(informationBuffer, 0, r.value.information);
  }

  /** All checks, before anything is copied. */
  method CheckFrame(input: seq<Byte>, limits: Limits, capacity: nat) returns (r: Result<Frame>)
    ensures r == Decode(input, limits, capacity)
    ensures r.Success? ==> |r.value.information| <= capacity
  {
    var envelope := CheckEnvelope(input, limits);
    if envelope.Failure? {
      return Failure(envelope.status);
    }
    r := ReadFields(input);
    if r.Failure? {
      return;
    }
    var frame := r.value;
    if |frame.information| > capacity {
      return Failure(OutputBufferTooSmall);
    }
    if |frame.information| > EffectiveMaximumInformationFieldSize(frame, limits) {
      return Failure(InformationFieldTooLarge);
    }
  }

  method CheckEnvelope(input: seq<Byte>, limits: Limits) returns (r: Result<nat>)
    ensures r == ReadEnvelope(input, limits)
  {
    if |input| < 4 {
      return Failure(NeedMoreData);
    }
    if input[0] != FLAG {
      return Failure(InvalidFlag);
    }
    var frameFormat := ReadFormat(input);
    if frameFormat / 0x1000 != 10 {
      return Failure(InvalidFrameFormat);
    }
    var formatFieldLength := frameFormat % 0x800;
    var fullFrameSize := formatFieldLength + 2;
    if formatFieldLength < 6 {
      return Failure(InvalidFrameLength);
    }
    if fullFrameSize > EffectiveMaximumFrameSize(limits) {
      return Failure(FrameTooLarge);
    }
    if |input| < fullFrameSize {
      return Failure(NeedMoreData);
    }
    if |input| != fullFrameSize {
      return Failure(InvalidFrameLength);
    }
    if input[fullFrameSize - 1] != FLAG {
      return Failure(InvalidFlag);
    }
    return Success(formatFieldLength);
  }

  /** The fields of a frame whose flags and length are in order. */
  method ReadFields(input: seq<Byte>) returns (r: Result<Frame>)
    requires |input| >= 8
    ensures r == ReadFrame(input)
  {
    var head := ReadHeadFields(input[3..|input| - 1]);
    if head.Failure? {
      return Failure(head.status);
    }
    var information := ReadContent(input[1..|input| - 3], head.value.size);
    if information.Failure? {
      return Failure(information.status);
    }
    var fcs := CalculateHdlcCrc(input[1..|input| - 3]);
    if fcs != Join(input[|input| - 3], input[|input| - 2]) {
      return Failure(InvalidFrameChecksum);
    }
    var segmented := ReadFormat(input) / 0x800 % 2 == 1;
    return Success(Frame(segmented, head.value.destination, head.value.source, head.value.control, information.value));
  }

  method ReadHeadFields(fields: seq<Byte>) returns (r: Result<Head>)
    ensures r == ReadHead(fields)
  {
    var offset := 0;
    var parsed := FromBytes(fields[offset..]);
    assert fields[0..] == fields;
    if parsed.Failure? {
      return Failure(parsed.status);
    }
    AddressCanonical(fields);
    var destination := parsed.value.address;
    offset := offset + parsed.value.consumed;
    parsed := FromBytes(fields[offset..]);
    if parsed.Failure? {
      return Failure(parsed.status);
    }
    AddressCanonical(fields[offset..]);
    var source := parsed.value.address;
    offset := offset + parsed.value.consumed;
    if offset + 3 > |fields| {
      return Failure(InvalidFrameLength);
    }
    var control := DecodeControl(fields[offset]);
    if control.Failure? {
      return Failure(control.status);
    }
    return Success(Head(destination, source, control.value, 2 + offset + 1));
  }

  method ReadContent(content: seq<Byte>, headerSize: nat) returns (r: Result<seq<Byte>>)
    requires headerSize <= |content|
    ensures r == ReadInformation(content, headerSize)
  {
    var bytesBeforeFcs := |content| - headerSize;
    if bytesBeforeFcs == 1 {
      return Failure(InvalidFrameLength);
    }
    if bytesBeforeFcs == 0 {
      return Success([]);
    }
    var hcs := CalculateHdlcCrc(content[..headerSize]);
    if hcs != Join(content[headerSize], content[headerSize + 1]) {
      return Failure(InvalidHeaderChecksum);
    }
    return Success(content[headerSize + 2..]);
  }

  method DecodeFrameToVector(input: seq<Byte>, limits: Limits) returns (r: Result<Frame>)
    ensures r == DecodeFrame(input, limits)
  {
    var information := new Byte[EffectiveMaximumFrameSize(limits)](i => 0);
    r := DecodeFrameFromBuffer(input, limits, information);
  }
}
