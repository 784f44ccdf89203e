/** The frame codec as functions on byte strings (src/hdlc/hdlc_codec.cpp). */
module Codec {
  import opened Types
  import opened Bits
  import opened Crc
  import opened Addressing
  import opened ControlField

  const FLAG: Byte := 0x7e
  const MAXIMUM_FORMAT_FIELD_LENGTH := 2047

  datatype Frame = Frame(
    segmented: bool,
    destination: HdlcAddress,
    source: HdlcAddress,
    control: HdlcControl,
    information: seq<Byte>)

  function EffectiveMaximumFrameSize(limits: Limits): (r: nat)
    ensures r > 0
  {
    if limits.maximumFrameSize == 0 then 2049 else limits.maximumFrameSize
  }

  /** Frame format, both addresses and control. */
  function HeaderSize(f: Frame): nat {
    2 + f.destination.size + f.source.size + 1
  }

  function EffectiveMaximumInformationFieldSize(f: Frame, limits: Limits): nat {
    if limits.maximumInformationFieldSize != 0 then limits.maximumInformationFieldSize
    else if EffectiveMaximumFrameSize(limits) < 2 + HeaderSize(f) + 2 + 2 then 0
    else EffectiveMaximumFrameSize(limits) - 2 - HeaderSize(f) - 2 - 2
  }

  function FormatFieldLength(f: Frame): nat {
    HeaderSize(f) + (if f.information == [] then 0 else 2) + |f.information| + 2
  }

  function EncodeStatus(f: Frame, limits: Limits): Status {
    if |f.information| > EffectiveMaximumInformationFieldSize(f, limits) then InformationFieldTooLarge
    else if FormatFieldLength(f) > MAXIMUM_FORMAT_FIELD_LENGTH then InvalidFrameLength
    else if FormatFieldLength(f) + 2 > EffectiveMaximumFrameSize(limits) then FrameTooLarge
    else Ok
  }

  // ----- The frame on the wire

  predicate Printable(f: Frame) {
    FormatFieldLength(f) <= MAXIMUM_FORMAT_FIELD_LENGTH
  }

  /** Type 3, the segmentation bit and the length, high byte first. */
  function FormatField(segmented: bool, length: nat): (bytes: seq<Byte>)
    requires length <= MAXIMUM_FORMAT_FIELD_LENGTH
    ensures |bytes| == 2
  {
    var format := 0xa000 + (if segmented then 0x800 else 0) + length;
    [format / 0x100, format % 0x100]
  }

  /** A checksum, low byte first. */
  function Stored(checksum: Word): (bytes: seq<Byte>)
    ensures |bytes| == 2
  {
    [LowByte(checksum), HighByte(checksum)]
  }

  function HeaderWith(f: Frame, length: nat): (bytes: seq<Byte>)
    requires length <= MAXIMUM_FORMAT_FIELD_LENGTH
    ensures |bytes| == HeaderSize(f)
  {
    FormatField(f.segmented, length) + EncodeAddress(f.destination) + EncodeAddress(f.source) + [f.control.raw]
  }

  function Header(f: Frame): (bytes: seq<Byte>)
    requires Printable(f)
    ensures |bytes| == HeaderSize(f)
  {
    HeaderWith(f, FormatFieldLength(f))
  }

  /** A header checksum and the Information bytes, or nothing. */
  function Payload(header: seq<Byte>, information: seq<Byte>): seq<Byte> {
    if information == [] then [] else Stored(Checksum(header)) + information
  }

  /** Everything between the flags except the frame checksum. */
  function Content(f: Frame): (bytes: seq<Byte>)
    requires Printable(f)
    ensures |bytes| == FormatFieldLength(f) - 2
  {
    Header(f) + Payload(Header(f), f.information)
  }

  function Enclose(content: seq<Byte>): (bytes: seq<Byte>)
    ensures |bytes| == |content| + 4
  {
    [FLAG] + content + Stored(Checksum(content)) + [FLAG]
  }

  function Wire(f: Frame): (bytes: seq<Byte>)
    requires Printable(f)
    ensures |bytes| == FormatFieldLength(f) + 2
  {
    Enclose(Content(f))
  }

  function EncodeFrame(f: Frame, limits: Limits): (r: Result<seq<Byte>>)
    ensures r.Success? ==> |r.value| <= EffectiveMaximumFrameSize(limits)
    ensures r.Code() != OutputBufferTooSmall
  {
    if EncodeStatus(f, limits) == Ok then Success(Wire(f)) else Failure(EncodeStatus(f, limits))
  }

  // ----- Reading a frame

  function ReadFormat(input: seq<Byte>): nat
    requires |input| >= 3
  {
    HighFirst(input[1], input[2])
  }

  /** The announced length, once flags, type and sizes are in order. */
  function ReadEnvelope(input: seq<Byte>, limits: Limits): (r: Result<nat>)
    ensures r.Success? ==> |input| == r.value + 2 <= EffectiveMaximumFrameSize(limits) && r.value >= 6
    ensures r.Code() != OutputBufferTooSmall
  {
    if |input| < 4 then Failure(NeedMoreData)
    else if input[0] != FLAG then Failure(InvalidFlag)
    else if ReadFormat(input) / 0x1000 != 10 then Failure(InvalidFrameFormat)
    else
      var length := ReadFormat(input) % 0x800;
      if length < 6 then Failure(InvalidFrameLength)
      else if length + 2 > EffectiveMaximumFrameSize(limits) then Failure(FrameTooLarge)
      else if |input| < length + 2 then Failure(NeedMoreData)
      else if |input| != length + 2 then Failure(InvalidFrameLength)
      else if input[length + 1] != FLAG then Failure(InvalidFlag)
      else Success(length)
  }

  datatype Head = Head(destination: HdlcAddress, source: HdlcAddress, control: HdlcControl, size: nat)

  /** Both addresses and the control byte, from what follows the format field up to the closing
      flag; size counts the whole header. */
  function ReadHead(fields: seq<Byte>): (r: Result<Head>)
    ensures r.Code() != OutputBufferTooSmall
    ensures r.Success? ==> r.value.size == 2 + r.value.destination.size + r.value.source.size + 1 <= |fields|
  {
    var d :- DecodeAddress(fields);
    AddressCanonical(fields);
    var rest := fields[d.consumed..];
    var s :- DecodeAddress(rest);
    AddressCanonical(rest);
    // The control byte must leave room for the frame checksum.
    if |rest| < s.consumed + 3 then Failure(InvalidFrameLength)
    else
      var c :- DecodeControl(rest[s.consumed]);
      Success(Head(d.address, s.address, c, 2 + d.consumed + s.consumed + 1))
  }

  /** The Information field of a content whose header takes size bytes. */
  function ReadInformation(content: seq<Byte>, size: nat): (r: Result<seq<Byte>>)
    requires size <= |content|
    ensures r.Success? ==> |r.value| <= |content|
    ensures r.Code() != OutputBufferTooSmall
  {
    if |content| == size then Success([])
    else if |content| == size + 1 then Failure(InvalidFrameLength)
    else if Checksum(content[..size]) != Join(content[size], content[size + 1]) then Failure(InvalidHeaderChecksum)
    else Success(content[size + 2..])
  }

  /** The frame between flags of which the first and the last are in place. */
  function ReadFrame(input: seq<Byte>): (r: Result<Frame>)
    requires |input| >= 8
    ensures r.Success? ==> |r.value.information| <= |input|
    ensures r.Code() != OutputBufferTooSmall
  {
    var content := input[1..|input| - 3];
    var head :- ReadHead(input[3..|input| - 1]);
    var information :- ReadInformation(content, head.size);
    if Checksum(content) != Join(input[|input| - 3], input[|input| - 2]) then Failure(InvalidFrameChecksum)
    else Success(Frame(ReadFormat(input) / 0x800 % 2 == 1, head.destination, head.source, head.control, information))
  }

  /** Decoding with room for capacity Information bytes. */
  function Decode(input: seq<Byte>, limits: Limits, capacity: nat): (r: Result<Frame>)
    ensures r.Code() == OutputBufferTooSmall ==> capacity < EffectiveMaximumFrameSize(limits)
  {
    var _ :- ReadEnvelope(input, limits);
    var frame :- ReadFrame(input);
    if |frame.information| > capacity then Failure(OutputBufferTooSmall)
    else if |frame.information| > EffectiveMaximumInformationFieldSize(frame, limits) then
      Failure(InformationFieldTooLarge)
    else Success(frame)
  }

  /** The convenience call sizes its own buffer, which is never too small. */
  function DecodeFrame(input: seq<Byte>, limits: Limits): (r: Result<Frame>)
    ensures r.Code() != OutputBufferTooSmall
  {
    Decode(input, limits, EffectiveMaximumFrameSize(limits))
  }

  // ----- Decoding inverts encoding

  lemma FormatRoundTrip(segmented: bool, length: nat)
    requires length <= MAXIMUM_FORMAT_FIELD_LENGTH
    ensures var b := FormatField(segmented, length);
      var format := HighFirst(b[0], b[1]);
      format / 0x1000 == 10 && format % 0x800 == length && (format / 0x800 % 2 == 1 <==> segmented)
  {
  }

  /** A header with this length, in front of any payload, says what it was made from. */
  lemma FormatEnclosed(f: Frame, length: nat, payload: seq<Byte>)
    requires length <= MAXIMUM_FORMAT_FIELD_LENGTH
    ensures var input := Enclose(HeaderWith(f, length) + payload);
      && ReadFormat(input) / 0x1000 == 10 && ReadFormat(input) % 0x800 == length
      && (ReadFormat(input) / 0x800 % 2 == 1 <==> f.segmented)
  {
    var input := Enclose(HeaderWith(f, length) + payload);
    FormatRoundTrip(f.segmented, length);
    assert input[1..3] == FormatField(f.segmented, length);
    assert input[1] == input[1..3][0] && input[2] == input[1..3][1];
  }

  lemma FormatOnWire(f: Frame)
    requires Printable(f)
    ensures ReadFormat(Wire(f)) / 0x1000 == 10 && ReadFormat(Wire(f)) % 0x800 == FormatFieldLength(f)
    ensures ReadFormat(Wire(f)) / 0x800 % 2 == 1 <==> f.segmented
  {
    FormatEnclosed(f, FormatFieldLength(f), Payload(Header(f), f.information));
  }

  lemma EnvelopeRoundTrip(f: Frame, limits: Limits)
    requires Printable(f)
    ensures ReadEnvelope(Wire(f), limits) ==
      if FormatFieldLength(f) + 2 > EffectiveMaximumFrameSize(limits) then Failure(FrameTooLarge)
      else Success(FormatFieldLength(f))
  {
    FormatOnWire(f);
  }

  lemma HeadRoundTrip(d: HdlcAddress, s: HdlcAddress, c: HdlcControl, tail: seq<Byte>)
    requires |tail| >= 2
    ensures ReadHead(EncodeAddress(d) + EncodeAddress(s) + [c.raw] + tail)
         == Success(Head(d, s, c, 2 + d.size + s.size + 1))
  {
    var x, y := EncodeAddress(d), EncodeAddress(s);
    var fields := x + y + [c.raw] + tail;
    AddressRoundTrip(d, y + [c.raw] + tail);
    assert fields == x + (y + [c.raw] + tail);
    AddressRoundTrip(s, [c.raw] + tail);
    assert fields[|x|..] == y + ([c.raw] + tail);
  }

  lemma InformationRoundTrip(header: seq<Byte>, information: seq<Byte>)
    ensures ReadInformation(header + Payload(header, information), |header|) == Success(information)
  {
    if information != [] {
      JoinSplit(Checksum(header), 0, 0);
      PayloadParts(header, Stored(Checksum(header)), information);
    }
  }

  lemma PayloadParts(header: seq<Byte>, check: seq<Byte>, information: seq<Byte>)
    requires |check| == 2
    ensures var content := header + (check + information);
      && content[..|header|] == header && content[|header| + 2..] == information
      && content[|header|] == check[0] && content[|header| + 1] == check[1]
  {
  }

  lemma Skip(flag: seq<Byte>, format: seq<Byte>, d: seq<Byte>, s: seq<Byte>, c: seq<Byte>, p: seq<Byte>, check: seq<Byte>)
    ensures var input := flag + (format + d + s + c + p) + check + flag;
      input[|flag| + |format|..|input| - |flag|] == d + s + c + (p + check)
  {
  }

  /** The address and control fields between the flags. */
  lemma HeadEnclosed(f: Frame, length: nat, payload: seq<Byte>)
    requires length <= MAXIMUM_FORMAT_FIELD_LENGTH
    ensures var input := Enclose(HeaderWith(f, length) + payload);
      ReadHead(input[3..|input| - 1]) == Success(Head(f.destination, f.source, f.control, HeaderSize(f)))
  {
    var check := Stored(Checksum(HeaderWith(f, length) + payload));
    Skip([FLAG], FormatField(f.segmented, length), EncodeAddress(f.destination), EncodeAddress(f.source),
         [f.control.raw], payload, check);
    HeadRoundTrip(f.destination, f.source, f.control, payload + check);
  }

  lemma HeadOnWire(f: Frame)
    requires Printable(f)
    ensures ReadHead(Wire(f)[3..|Wire(f)| - 1]) == Success(Head(f.destination, f.source, f.control, HeaderSize(f)))
  {
    HeadEnclosed(f, FormatFieldLength(f), Payload(Header(f), f.information));
  }

  lemma Enclosed(content: seq<Byte>)
    ensures var input := Enclose(content);
      && input[1..|content| + 1] == content
      && Join(input[|content| + 1], input[|content| + 2]) == Checksum(content)
  {
    JoinSplit(Checksum(content), 0, 0);
    BetweenFlags(content, Stored(Checksum(content)));
  }

  lemma BetweenFlags(content: seq<Byte>, check: seq<Byte>)
    requires |check| == 2
    ensures var input := [FLAG] + content + check + [FLAG];
      input[1..|content| + 1] == content && input[|content| + 1] == check[0] && input[|content| + 2] == check[1]
  {
  }

  /** What is read between the flags, given what each part of the input reads as. */
  lemma ReadParts(input: seq<Byte>, content: seq<Byte>, f: Frame)
    requires |input| >= 8 && content == input[1..|input| - 3]
    requires ReadFormat(input) / 0x800 % 2 == 1 <==> f.segmented
    requires ReadHead(input[3..|input| - 1]) == Success(Head(f.destination, f.source, f.control, HeaderSize(f)))
    requires HeaderSize(f) <= |content| && ReadInformation(content, HeaderSize(f)) == Success(f.information)
    requires Checksum(content) == Join(input[|input| - 3], input[|input| - 2])
    ensures ReadFrame(input) == Success(f)
  {
  }

  lemma WireSize(f: Frame)
    requires Printable(f)
    ensures |Wire(f)| == FormatFieldLength(f) + 2 == |Content(f)| + 4 && FormatFieldLength(f) >= 6
  {
  }

  lemma ContentInformation(f: Frame)
    requires Printable(f)
    ensures HeaderSize(f) <= |Content(f)| && ReadInformation(Content(f), HeaderSize(f)) == Success(f.information)
  {
    InformationRoundTrip(Header(f), f.information);
  }

  lemma ReadWire(f: Frame)
    requires Printable(f)
    ensures |Wire(f)| >= 8 && ReadFrame(Wire(f)) == Success(f)
  {
    WireSize(f);
    FormatOnWire(f);
    HeadOnWire(f);
    ContentInformation(f);
    EnclosedContent(f);
    ReadParts(Wire(f), Content(f), f);
  }

  lemma EnclosedContent(f: Frame)
    requires Printable(f) && |Wire(f)| == |Content(f)| + 4
    ensures var input := Wire(f);
      && Content(f) == input[1..|input| - 3]
      && Checksum(Content(f)) == Join(input[|input| - 3], input[|input| - 2])
  {
    Enclosed(Content(f));
  }

  /** Every encodable frame is read back, by any decoder whose limits admit it. */
  lemma DecodeWire(f: Frame, limits: Limits)
    requires Printable(f)
    ensures DecodeFrame(Wire(f), limits) ==
      if FormatFieldLength(f) + 2 > EffectiveMaximumFrameSize(limits) then Failure(FrameTooLarge)
      else if |f.information| > EffectiveMaximumInformationFieldSize(f, limits) then Failure(InformationFieldTooLarge)
      else Success(f)
  {
    EnvelopeRoundTrip(f, limits);
    ReadWire(f);
  }

  /** The round trip under one set of limits. */
  lemma DecodeAfterEncode(f: Frame, limits: Limits)
    requires EncodeFrame(f, limits).Success?
    ensures DecodeFrame(EncodeFrame(f, limits).value, limits) == Success(f)
  {
    DecodeWire(f, limits);
  }

  /** The default limits read whatever any limits let through. */
  lemma DefaultsAdmit(f: Frame)
    requires Printable(f)
    ensures DecodeFrame(Wire(f), DefaultLimits()) == Success(f)
  {
    DecodeWire(f, DefaultLimits());
  }

  // ----- Encoding inverts decoding

  lemma FormatCanonical(high: Byte, low: Byte)
    requires HighFirst(high, low) / 0x1000 == 10
    ensures FormatField(HighFirst(high, low) / 0x800 % 2 == 1, HighFirst(high, low) % 0x800) == [high, low]
  {
    var format := HighFirst(high, low);
    assert format == 0xa000 + 0x800 * (format / 0x800 % 2) + format % 0x800;
  }

  lemma HeadCanonical(fields: seq<Byte>)
    requires ReadHead(fields).Success?
    ensures var h := ReadHead(fields).value;
      fields[..h.size - 2] == EncodeAddress(h.destination) + EncodeAddress(h.source) + [h.control.raw]
  {
    AddressCanonical(fields);
    var d := DecodeAddress(fields).value;
    var rest := fields[d.consumed..];
    AddressCanonical(rest);
    var s := DecodeAddress(rest).value;
    TwoPrefixes(fields, d.consumed, s.consumed);
  }

  lemma TwoPrefixes(fields: seq<Byte>, m: nat, n: nat)
    requires m + n < |fields|
    ensures fields[..m + n + 1] == fields[..m] + fields[m..][..n] + [fields[m..][n]]
  {
  }

  lemma HeaderCanonical(input: seq<Byte>, head: Head)
    requires |input| >= 8 && ReadFormat(input) / 0x1000 == 10 && ReadFormat(input) % 0x800 == |input| - 2
    requires ReadHead(input[3..|input| - 1]) == Success(head)
    ensures input[1..1 + head.size] == FormatField(ReadFormat(input) / 0x800 % 2 == 1, |input| - 2)
      + EncodeAddress(head.destination) + EncodeAddress(head.source) + [head.control.raw]
  {
    FormatCanonical(input[1], input[2]);
    HeadCanonical(input[3..|input| - 1]);
    SplitHeader(input, head.size);
    var x, y, z := EncodeAddress(head.destination), EncodeAddress(head.source), [head.control.raw];
    assert [input[1], input[2]] + (x + y + z) == [input[1], input[2]] + x + y + z;
  }

  lemma SplitHeader(input: seq<Byte>, size: nat)
    requires 2 <= size && 1 + size < |input|
    ensures input[1..1 + size] == [input[1], input[2]] + input[3..|input| - 1][..size - 2]
  {
  }

  lemma EncloseCanonical(input: seq<Byte>)
    requires |input| >= 4 && input[0] == FLAG && input[|input| - 1] == FLAG
    requires Checksum(input[1..|input| - 3]) == Join(input[|input| - 3], input[|input| - 2])
    ensures input == Enclose(input[1..|input| - 3])
  {
    var content := input[1..|input| - 3];
    JoinSplit(Checksum(content), input[|input| - 3], input[|input| - 2]);
    assert input == [FLAG] + content + [input[|input| - 3], input[|input| - 2]] + [FLAG];
  }

  /** Everything in an accepted frame is as printing it again would put it. */
  lemma ReadCanonical(input: seq<Byte>)
    requires |input| >= 8 && ReadFrame(input).Success?
    requires ReadFormat(input) / 0x1000 == 10 && ReadFormat(input) % 0x800 == |input| - 2
    ensures var f, content := ReadFrame(input).value, input[1..|input| - 3];
      && HeaderSize(f) <= |content|
      && Checksum(content) == Join(input[|input| - 3], input[|input| - 2])
      && content[..HeaderSize(f)] == HeaderWith(f, |input| - 2)
      && ReadInformation(content, HeaderSize(f)) == Success(f.information)
  {
    var head := ReadHead(input[3..|input| - 1]).value;
    HeaderCanonical(input, head);
    assert input[1..|input| - 3][..head.size] == input[1..1 + head.size];
  }

  /** The Information field is empty although a header checksum precedes it. */
  predicate RedundantHeaderChecksum(f: Frame, input: seq<Byte>) {
    |input| == HeaderSize(f) + 6
  }

  /** Re-encoding what was decoded always succeeds. It reproduces the bytes exactly, unless a header
      checksum was followed by an empty Information field; then it yields the same frame in the
      form that is two bytes shorter. */
  lemma EncodeAfterDecode(input: seq<Byte>, limits: Limits)
    requires DecodeFrame(input, limits).Success?
    ensures var f := DecodeFrame(input, limits).value;
      && EncodeFrame(f, limits).Success?
      && (EncodeFrame(f, limits).value == input <==> !RedundantHeaderChecksum(f, input))
      && (RedundantHeaderChecksum(f, input) ==> f.information == [] && |EncodeFrame(f, limits).value| == |input| - 2)
      && DecodeFrame(EncodeFrame(f, limits).value, limits) == Success(f)
  {
    var f, content := ReadFrame(input).value, input[1..|input| - 3];
    ReadCanonical(input);
    PrintCanonical(f, input, content);
    DecodeWire(f, limits);
  }

  /** The other form of a frame without Information: a header checksum in front of the empty field. */
  function RedundantForm(f: Frame): (bytes: seq<Byte>)
    requires f.information == []
    ensures |bytes| == HeaderSize(f) + 6
  {
    var header := HeaderWith(f, HeaderSize(f) + 4);
    Enclose(header + Stored(Checksum(header)))
  }

  /** The decoder accepts that form wherever it is within the frame limit, although the encoder never
      prints it. */
  lemma RedundantAccepted(f: Frame, limits: Limits)
    requires f.information == [] && HeaderSize(f) + 6 <= EffectiveMaximumFrameSize(limits)
    ensures DecodeFrame(RedundantForm(f), limits) == Success(f)
  {
    RedundantEnvelope(f, limits);
    RedundantRead(f);
    DecodeParts(RedundantForm(f), limits, f);
  }

  lemma DecodeParts(input: seq<Byte>, limits: Limits, f: Frame)
    requires |input| >= 8 && ReadEnvelope(input, limits).Success? && ReadFrame(input) == Success(f)
    requires f.information == []
    ensures DecodeFrame(input, limits) == Success(f)
  {
  }

  lemma RedundantRead(f: Frame)
    requires f.information == []
    ensures ReadFrame(RedundantForm(f)) == Success(f)
  {
    var header := HeaderWith(f, HeaderSize(f) + 4);
    var payload := Stored(Checksum(header));
    FormatEnclosed(f, HeaderSize(f) + 4, payload);
    HeadEnclosed(f, HeaderSize(f) + 4, payload);
    Enclosed(header + payload);
    RedundantInformation(header);
    ReadParts(RedundantForm(f), header + payload, f);
  }

  lemma RedundantInformation(header: seq<Byte>)
    ensures ReadInformation(header + Stored(Checksum(header)), |header|) == Success([])
  {
    var content := header + Stored(Checksum(header));
    assert content[..|header|] == header;
    JoinSplit(Checksum(header), 0, 0);
  }

  lemma RedundantEnvelope(f: Frame, limits: Limits)
    requires f.information == [] && HeaderSize(f) + 6 <= EffectiveMaximumFrameSize(limits)
    ensures ReadEnvelope(RedundantForm(f), limits) == Success(HeaderSize(f) + 4)
  {
    FormatEnclosed(f, HeaderSize(f) + 4, Stored(Checksum(HeaderWith(f, HeaderSize(f) + 4))));
    EnvelopeParts(RedundantForm(f), limits, HeaderSize(f) + 4);
  }

  lemma EnvelopeParts(input: seq<Byte>, limits: Limits, length: nat)
    requires |input| == length + 2 <= EffectiveMaximumFrameSize(limits) && length >= 6
    requires input[0] == FLAG && input[|input| - 1] == FLAG
    requires ReadFormat(input) / 0x1000 == 10 && ReadFormat(input) % 0x800 == length
    ensures ReadEnvelope(input, limits) == Success(length)
  {
  }

  /** The exact preimage of a frame: under any limits its own encoding decodes to it if it is encodable,
      the redundant form does if the frame has no Information and that form fits, and nothing else does. */
  lemma DecodePreimage(f: Frame, limits: Limits, input: seq<Byte>)
    ensures DecodeFrame(input, limits) == Success(f) <==>
      || EncodeFrame(f, limits) == Success(input)
      || (f.information == [] && HeaderSize(f) + 6 <= EffectiveMaximumFrameSize(limits) && input == RedundantForm(f))
  {
    if DecodeFrame(input, limits) == Success(f) {
      EncodeAfterDecode(input, limits);
      if RedundantHeaderChecksum(f, input) {
        RedundantUnique(f, limits, input);
      }
    }
    if EncodeFrame(f, limits) == Success(input) {
      DecodeAfterEncode(f, limits);
    }
    if f.information == [] && HeaderSize(f) + 6 <= EffectiveMaximumFrameSize(limits) {
      RedundantAccepted(f, limits);
    }
  }

  lemma RedundantUnique(f: Frame, limits: Limits, input: seq<Byte>)
    requires DecodeFrame(input, limits) == Success(f) && RedundantHeaderChecksum(f, input) && f.information == []
    ensures HeaderSize(f) + 6 <= EffectiveMaximumFrameSize(limits) && input == RedundantForm(f)
  {
    var content := input[1..|input| - 3];
    ReadCanonical(input);
    RedundantContent(f, input, content);
  }

  lemma RedundantContent(f: Frame, input: seq<Byte>, content: seq<Byte>)
    requires |input| == HeaderSize(f) + 6 && content == input[1..|input| - 3] && f.information == []
    requires input[0] == FLAG && input[|input| - 1] == FLAG
    requires content[..HeaderSize(f)] == HeaderWith(f, |input| - 2)
    requires ReadInformation(content, HeaderSize(f)) == Success([])
    requires Checksum(content) == Join(input[|input| - 3], input[|input| - 2])
    ensures input == RedundantForm(f)
  {
    RedundantBody(HeaderWith(f, HeaderSize(f) + 4), content);
    EncloseCanonical(input);
  }

  lemma RedundantBody(header: seq<Byte>, content: seq<Byte>)
    requires |content| == |header| + 2 && content[..|header|] == header
    requires ReadInformation(content, |header|) == Success([])
    ensures content == header + Stored(Checksum(header))
  {
    JoinSplit(Checksum(header), content[|header|], content[|header| + 1]);
    SplitContent(content, |header|);
  }

  /** Printing a frame with these parts reproduces the bytes or drops the redundant header checksum. */
  lemma PrintCanonical(f: Frame, input: seq<Byte>, content: seq<Byte>)
    requires 8 <= |input| <= MAXIMUM_FORMAT_FIELD_LENGTH + 2 && content == input[1..|input| - 3]
    requires input[0] == FLAG && input[|input| - 1] == FLAG
    requires HeaderSize(f) <= |content| && content[..HeaderSize(f)] == HeaderWith(f, |input| - 2)
    requires ReadInformation(content, HeaderSize(f)) == Success(f.information)
    requires Checksum(content) == Join(input[|input| - 3], input[|input| - 2])
    ensures Printable(f)
    ensures if RedundantHeaderChecksum(f, input) then f.information == [] && |Wire(f)| == |input| - 2 else Wire(f) == input
  {
    LengthCanonical(f, content);
    if RedundantHeaderChecksum(f, input) {
      WireSize(f);
    } else {
      ContentCanonical(f, content, HeaderWith(f, |input| - 2));
      EncloseCanonical(input);
      WireCanonical(f, input, content);
    }
  }

  lemma WireCanonical(f: Frame, input: seq<Byte>, content: seq<Byte>)
    requires Printable(f) && FormatFieldLength(f) == |content| + 2 == |input| - 2 && input == Enclose(content)
    requires content == HeaderWith(f, |input| - 2) + Payload(HeaderWith(f, |input| - 2), f.information)
    ensures Wire(f) == input
  {
    SameContent(f, content);
  }

  lemma SameContent(f: Frame, content: seq<Byte>)
    requires Printable(f) && FormatFieldLength(f) == |content| + 2
    requires content == HeaderWith(f, |content| + 2) + Payload(HeaderWith(f, |content| + 2), f.information)
    ensures Wire(f) == Enclose(content)
  {
  }

  lemma LengthCanonical(f: Frame, content: seq<Byte>)
    requires HeaderSize(f) <= |content| && ReadInformation(content, HeaderSize(f)) == Success(f.information)
    ensures FormatFieldLength(f) == if |content| == HeaderSize(f) + 2 then |content| else |content| + 2
    ensures |content| == HeaderSize(f) + 2 ==> f.information == []
  {
  }

  lemma ContentCanonical(f: Frame, content: seq<Byte>, header: seq<Byte>)
    requires |header| <= |content| && |content| != |header| + 2
    requires content[..|header|] == header
    requires ReadInformation(content, |header|) == Success(f.information)
    ensures content == header + Payload(header, f.information)
  {
    if |content| == |header| {
      assert content == content[..|header|];
    } else {
      JoinSplit(Checksum(header), content[|header|], content[|header| + 1]);
      SplitContent(content, |header|);
    }
  }

  lemma SplitContent(content: seq<Byte>, size: nat)
    requires size + 2 <= |content|
    ensures content == content[..size] + ([content[size], content[size + 1]] + content[size + 2..])
  {
  }

  /** The encoder refuses exactly what no accepted byte string stands for: under any limits, a frame
      is encodable if and only if some input decodes to it. */
  lemma EncoderExact(f: Frame, limits: Limits)
    ensures EncodeFrame(f, limits).Success? <==> exists input :: DecodeFrame(input, limits) == Success(f)
  {
    if EncodeFrame(f, limits).Success? {
      DecodeAfterEncode(f, limits);
    }
    forall input | DecodeFrame(input, limits) == Success(f)
      ensures EncodeFrame(f, limits).Success?
    {
      EncodeAfterDecode(input, limits);
    }
  }

  /** What is encodable, by the bytes: the length can be announced, the frame is within the frame
      limit, and an Information limit, if one is given, is kept. The limit that is derived when none
      is given never refuses a frame that would fit. */
  lemma EncodableExact(f: Frame, limits: Limits)
    ensures EncodeFrame(f, limits).Success? <==>
      && Printable(f) && |Wire(f)| <= EffectiveMaximumFrameSize(limits)
      && (limits.maximumInformationFieldSize != 0 ==> |f.information| <= limits.maximumInformationFieldSize)
  {
    assert Printable(f) ==> |Wire(f)| == FormatFieldLength(f) + 2;
  }

  /** No two encodable frames have the same bytes. */
  lemma EncodeInjective(f: Frame, g: Frame, limits: Limits)
    requires EncodeFrame(f, limits).Success? && EncodeFrame(f, limits) == EncodeFrame(g, limits)
    ensures f == g
  {
    DecodeAfterEncode(f, limits);
    DecodeAfterEncode(g, limits);
  }

  /** Every encoded frame stands between two bytes 0x7e. */
  lemma FlagsOnWire(f: Frame, limits: Limits)
    requires EncodeFrame(f, limits).Success?
    ensures var bytes := EncodeFrame(f, limits).value;
      |bytes| >= 9 && bytes[0] == 0x7e && bytes[|bytes| - 1] == 0x7e
  {
    WireSize(f);
  }

  /** And nothing is accepted without them. */
  lemma FlagsRequired(input: seq<Byte>, limits: Limits)
    requires DecodeFrame(input, limits).Success?
    ensures |input| >= 8 && input[0] == 0x7e && input[|input| - 1] == 0x7e
  {
  }

  /** What is encoded depends on the limits only through the effective frame limit and the explicit
      Information limit, and so does what is decoded. */
  lemma LimitsMatter(f: Frame, input: seq<Byte>, x: Limits, y: Limits)
    requires EffectiveMaximumFrameSize(x) == EffectiveMaximumFrameSize(y)
    requires x.maximumInformationFieldSize == y.maximumInformationFieldSize
    ensures EncodeFrame(f, x) == EncodeFrame(f, y)
    ensures DecodeFrame(input, x) == DecodeFrame(input, y)
  {
    assert ReadEnvelope(input, x) == ReadEnvelope(input, y);
  }

  /** A limit of zero stands for the default. */
  lemma ZeroLimits(f: Frame, input: seq<Byte>)
    ensures EncodeFrame(f, Limits(0, 0, 0)) == EncodeFrame(f, DefaultLimits())
    ensures DecodeFrame(input, Limits(0, 0, 0)) == DecodeFrame(input, DefaultLimits())
  {
    LimitsMatter(f, input, Limits(0, 0, 0), DefaultLimits());
  }
}
