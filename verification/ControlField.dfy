/** The HDLC control field (src/hdlc/hdlc_control.cpp). */
module ControlField {
  import opened Types
  import opened Bits

  datatype FrameKind = Information | Supervisory | Unnumbered

  datatype SupervisoryKind = ReceiveReady | ReceiveNotReady | Reject | SelectiveReject

  datatype UnnumberedKind = Snrm | Ua | Disc | Dm | Frmr | Ui

  /** The byte with its Poll/Final bit cleared. */
  function WithoutPollFinal(value: Byte): Byte {
    value - 0x10 * (value / 0x10 % 2)
  }

  predicate IsSupportedUnnumbered(value: Byte) {
    var v := WithoutPollFinal(value);
    v == 0x83 || v == 0x63 || v == 0x43 || v == 0x0f || v == 0x87 || v == 0x03
  }

  predicate Decodable(value: Byte) {
    value % 2 == 0 || value % 4 == 1 || IsSupportedUnnumbered(value)
  }

  datatype ControlValue = Control(raw: Byte) {
    function Kind(): FrameKind {
      if raw % 2 == 0 then Information else if raw % 4 == 1 then Supervisory else Unnumbered
    }

    predicate PollFinal() {
      raw / 0x10 % 2 == 1
    }

    /** N(S), zero where the frame carries none. */
    function SendSequence(): nat {
      if Kind() == Information then raw / 2 % 8 else 0
    }

    /** N(R), zero where the frame carries none. */
    function ReceiveSequence(): nat {
      if Kind() == Unnumbered then 0 else raw / 0x20
    }

    /** Bits 2 and 3 of a supervisory frame. */
    function SupervisoryCommand(): Result<SupervisoryKind> {
      if Kind() != Supervisory then Failure(InvalidFrameType) else
      match raw / 4 % 4
      case 0 => Success(ReceiveReady)
      case 1 => Success(ReceiveNotReady)
      case 2 => Success(Reject)
      case _ => Success(SelectiveReject)
    }

    function UnnumberedCommand(): Result<UnnumberedKind> {
      if Kind() != Unnumbered then Failure(InvalidFrameType) else
      var v := WithoutPollFinal(raw);
      if v == 0x83 then Success(Snrm)
      else if v == 0x63 then Success(Ua)
      else if v == 0x43 then Success(Disc)
      else if v == 0x0f then Success(Dm)
      else if v == 0x87 then Success(Frmr)
      else if v == 0x03 then Success(Ui)
      else Failure(InvalidControlField)
    }
  }

  // A control object is only ever made by decoding a byte, or is the default zero byte.
  type HdlcControl = c: ControlValue | Decodable(c.raw) witness Control(0)

  function DecodeControl(value: Byte): Result<HdlcControl> {
    if Decodable(value) then Success(Control(value)) else Failure(InvalidControlField)
  }

  // ----- The bytes themselves

  /** The commands by their bytes, with the Poll/Final bit and without it. */
  lemma UnnumberedBytes(c: ControlValue)
    ensures c.UnnumberedCommand() == Success(Snrm) <==> c.raw in {0x83, 0x93}
    ensures c.UnnumberedCommand() == Success(Ua) <==> c.raw in {0x63, 0x73}
    ensures c.UnnumberedCommand() == Success(Disc) <==> c.raw in {0x43, 0x53}
    ensures c.UnnumberedCommand() == Success(Dm) <==> c.raw in {0x0f, 0x1f}
    ensures c.UnnumberedCommand() == Success(Frmr) <==> c.raw in {0x87, 0x97}
    ensures c.UnnumberedCommand() == Success(Ui) <==> c.raw in {0x03, 0x13}
    ensures c.UnnumberedCommand() == Failure(InvalidFrameType) <==> c.raw % 4 != 3
    ensures c.UnnumberedCommand() == Failure(InvalidControlField) <==> c.raw % 4 == 3 && !Decodable(c.raw)
  {
  }

  /** The control bytes that a frame may carry. */
  lemma DecodableBytes(value: Byte)
    ensures DecodeControl(value) == if value % 4 != 3 || value in {0x83, 0x93, 0x63, 0x73, 0x43, 0x53, 0x0f, 0x1f, 0x87, 0x97, 0x03, 0x13}
      then Success(Control(value)) else Failure(InvalidControlField)
  {
  }

  /** Numbered control bytes, put together from their fields: kind, N(S) or the supervisory command,
      P/F and N(R). */
  lemma NumberedBytes(c: ControlValue, low: nat, pollFinal: bool, nr: nat)
    requires nr < 8 && c.raw == 0x20 * nr + (if pollFinal then 0x10 else 0) + low && low < 0x10
    ensures c.PollFinal() == pollFinal
    ensures low % 2 == 0 ==> c.Kind() == Information && c.SendSequence() == low / 2 && c.ReceiveSequence() == nr
    ensures low % 4 == 1 ==> c.Kind() == Supervisory && c.SendSequence() == 0 && c.ReceiveSequence() == nr
    ensures low == 0x1 ==> c.SupervisoryCommand() == Success(ReceiveReady)
    ensures low == 0x5 ==> c.SupervisoryCommand() == Success(ReceiveNotReady)
    ensures low == 0x9 ==> c.SupervisoryCommand() == Success(Reject)
    ensures low == 0xd ==> c.SupervisoryCommand() == Success(SelectiveReject)
    ensures low % 4 != 1 ==> c.SupervisoryCommand() == Failure(InvalidFrameType)
    ensures low % 4 == 3 ==> c.Kind() == Unnumbered && c.SendSequence() == 0 && c.ReceiveSequence() == 0
  {
    ControlParts(c.raw, low, if pollFinal then 1 else 0, nr);
  }

  lemma ControlParts(raw: nat, low: nat, p: nat, nr: nat)
    requires low < 0x10 && p < 2 && raw == 0x20 * nr + 0x10 * p + low
    ensures raw / 0x20 == nr && raw / 0x10 % 2 == p
    ensures raw % 2 == low % 2 && raw % 4 == low % 4 && raw / 2 % 8 == low / 2 && raw / 4 % 4 == low / 4
  {
    LowParts(raw, 2 * nr + p, low);
    assert raw / 0x20 == nr;
  }

  lemma LowParts(raw: nat, high: nat, low: nat)
    requires low < 0x10 && raw == 0x10 * high + low
    ensures raw / 0x10 == high && raw % 2 == low % 2 && raw % 4 == low % 4
    ensures raw / 2 % 8 == low / 2 && raw / 4 % 4 == low / 4
  {
    Halved(raw / 2, 8, high, low / 2);
    Halved(raw / 4, 4, high, low / 4);
  }

  lemma Halved(n: nat, d: nat, high: nat, low: nat)
    requires (d == 8 || d == 4) && low < d && n == d * high + low
    ensures n % d == low
  {
  }
}
