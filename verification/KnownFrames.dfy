/** Frames of the test suite, byte by byte: the bytes that the encoder prints and the session builds. */
module KnownFrames {
  import opened Types
  import opened Bits
  import opened Crc
  import opened Polynomials
  import opened Addressing
  import opened Codec
  import opened Negotiation
  import opened SessionModel

  // ----- Hexadecimal digits

  datatype Hex = Hex(b0: Digit, b1: Digit, b2: Digit, b3: Digit)

  const H0 := Hex(O, O, O, O)
  const H1 := Hex(I, O, O, O)
  const H2 := Hex(O, I, O, O)
  const H3 := Hex(I, I, O, O)
  const H4 := Hex(O, O, I, O)
  const H5 := Hex(I, O, I, O)
  const H6 := Hex(O, I, I, O)
  const H7 := Hex(I, I, I, O)
  const H8 := Hex(O, O, O, I)
  const H9 := Hex(I, O, O, I)
  const HA := Hex(O, I, O, I)
  const HB := Hex(I, I, O, I)
  const HC := Hex(O, O, I, I)
  const HD := Hex(I, O, I, I)
  const HE := Hex(O, I, I, I)
  const HF := Hex(I, I, I, I)

  function Value(d: Digit): nat {
    if d.I? then 1 else 0
  }

  function HexValue(h: Hex): nat {
    Value(h.b0) + 2 * Value(h.b1) + 4 * Value(h.b2) + 8 * Value(h.b3)
  }

  /** The register with these digits, highest first. */
  function Hexes(a: Hex, b: Hex, c: Hex, d: Hex): Reg {
    Reg(d.b0, d.b1, d.b2, d.b3, c.b0, c.b1, c.b2, c.b3, b.b0, b.b1, b.b2, b.b3, a.b0, a.b1, a.b2, a.b3)
  }

  /** The register after one more byte, which these digits spell. */
  function Fed(r: Reg, high: Hex, low: Hex): Reg {
    Turn4(Turn4(Sum(r, Hexes(H0, H0, high, low))))
  }

  function HexBits(h: Hex): (d: Bitstring)
    ensures |d| == 4
  {
    [h.b0.I?, h.b1.I?, h.b2.I?, h.b3.I?]
  }

  lemma HexNumber(h: Hex, rest: Bitstring)
    ensures Number(HexBits(h) + rest) == HexValue(h) + 16 * Number(rest)
  {
    var d := HexBits(h) + rest;
    var d1, d2, d3 := d[1..], d[2..], d[3..];
    assert d1[1..] == d2 && d2[1..] == d3 && d3[1..] == rest;
    assert Number(d3) == Value(h.b3) + 2 * Number(rest);
    assert Number(d2) == Value(h.b2) + 2 * Number(d3);
    assert Number(d1) == Value(h.b1) + 2 * Number(d2);
  }

  lemma HexByte(b: Byte, high: Hex, low: Hex)
    requires b == 16 * HexValue(high) + HexValue(low)
    ensures ByteBits(b) == HexBits(low) + HexBits(high)
  {
    HexNumber(high, []);
    HexNumber(low, HexBits(high));
    assert HexBits(high) + [] == HexBits(high);
    DigitsNumber(HexBits(low) + HexBits(high));
  }

  lemma ByteIs(b: Byte, high: Hex, low: Hex)
    requires b == 16 * HexValue(high) + HexValue(low)
    ensures Is(Hexes(H0, H0, high, low), ByteBits(b) + Zeros(8))
  {
    HexByte(b, high, low);
  }

  lemma Turn8Is(r: Reg, w: Word)
    requires Is(r, w)
    ensures Is(Turn4(Turn4(r)), StepN(8, w))
  {
    Turn4Is(r, w);
    Turn4Is(Turn4(r), StepN(4, w));
    StepNAdd(4, 4, w);
  }

  /** Feeding a byte, digit by digit. */
  lemma FedIs(r: Reg, data: seq<Byte>, b: Byte, high: Hex, low: Hex)
    requires Is(r, Register(data)) && b == 16 * HexValue(high) + HexValue(low)
    ensures Is(Fed(r, high, low), Register(data + [b]))
  {
    ByteIs(b, high, low);
    SumIs(r, Register(data), Hexes(H0, H0, high, low), ByteBits(b) + Zeros(8));
    Turn8Is(Sum(r, Hexes(H0, H0, high, low)), Xor(Register(data), ByteBits(b) + Zeros(8)));
    FeedByte(Register(data), b);
    BitsOfAppend(data, [b]);
    assert [b][1..] == [] && BitsOf([b]) == ByteBits(b) + [];
    assert ByteBits(b) + [] == ByteBits(b);
    SerialAppend(INITIAL, BitsOf(data), ByteBits(b));
  }

  /** What is in the register after the first i bytes. */
  predicate Reads(r: Reg, data: seq<Byte>, i: nat) {
    i <= |data| && Is(r, Register(data[..i]))
  }

  lemma Nothing(data: seq<Byte>)
    ensures Reads(ONES, data, 0)
  {
    assert data[..0] == [];
    OnesIs();
  }

  lemma Next(r: Reg, data: seq<Byte>, i: nat, high: Hex, low: Hex, next: Reg)
    requires Reads(r, data, i) && i < |data| && data[i] == 16 * HexValue(high) + HexValue(low)
    requires Fed(r, high, low) == next
    ensures Reads(next, data, i + 1)
  {
    FedIs(r, data[..i], data[i], high, low);
    assert data[..i] + [data[i]] == data[..i + 1];
  }

  // ----- The checksums

  /** Format field for eight bytes, server address 1/17 in two bytes, client address 100 in one. */
  predicate Front(m: seq<Byte>) {
    |m| == 8 && m[0] == 0xa0 && m[1] == 0x08 && m[2] == 0x02 && m[3] == 0x23 && m[4] == 0xc9
  }

  predicate SnrmBytes(m: seq<Byte>) {
    Front(m) && m[5] == 0x93 && m[6] == 0xe4 && m[7] == 0x43
  }

  predicate DiscBytes(m: seq<Byte>) {
    Front(m) && m[5] == 0x53 && m[6] == 0xe8 && m[7] == 0x85
  }

  predicate ReadyBytes(m: seq<Byte>) {
    Front(m) && m[5] == 0x11 && m[6] == 0xfe && m[7] == 0xe4
  }

  lemma Front1(m: seq<Byte>)
    requires Front(m)
    ensures Reads(Hexes(HA, HA, H8, HD), m, 1)
  {
    Nothing(m);
    Next(ONES, m, 0, HA, H0, Hexes(HA, HA, H8, HD));
  }

  lemma Front2(m: seq<Byte>)
    requires Front(m)
    ensures Reads(Hexes(HD, H3, H0, HF), m, 2)
  {
    Front1(m);
    Next(Hexes(HA, HA, H8, HD), m, 1, H0, H8, Hexes(HD, H3, H0, HF));
  }

  lemma Front3(m: seq<Byte>)
    requires Front(m)
    ensures Reads(Hexes(HD, HB, H3, H6), m, 3)
  {
    Front2(m);
    Next(Hexes(HD, H3, H0, HF), m, 2, H0, H2, Hexes(HD, HB, H3, H6));
  }

  lemma Front4(m: seq<Byte>)
    requires Front(m)
    ensures Reads(Hexes(H4, H7, HF, H7), m, 4)
  {
    Front3(m);
    Next(Hexes(HD, HB, H3, H6), m, 3, H2, H3, Hexes(H4, H7, HF, H7));
  }

  lemma Front5(m: seq<Byte>)
    requires Front(m)
    ensures Reads(Hexes(HD, H8, HB, HA), m, 5)
  {
    Front4(m);
    Next(Hexes(H4, H7, HF, H7), m, 4, HC, H9, Hexes(HD, H8, HB, HA));
  }

  lemma Snrm6(m: seq<Byte>)
    requires SnrmBytes(m)
    ensures Reads(Hexes(HB, HC, H1, HB), m, 6)
  {
    Front5(m);
    Next(Hexes(HD, H8, HB, HA), m, 5, H9, H3, Hexes(HB, HC, H1, HB));
  }

  lemma Snrm7(m: seq<Byte>)
    requires SnrmBytes(m)
    ensures Reads(Hexes(H0, HF, HC, H4), m, 7)
  {
    Snrm6(m);
    Next(Hexes(HB, HC, H1, HB), m, 6, HE, H4, Hexes(H0, HF, HC, H4));
  }

  lemma Snrm8(m: seq<Byte>)
    requires SnrmBytes(m)
    ensures Reads(Hexes(HF, H0, HB, H8), m, 8)
  {
    Snrm7(m);
    Next(Hexes(H0, HF, HC, H4), m, 7, H4, H3, Hexes(HF, H0, HB, H8));
  }

  lemma Disc6(m: seq<Byte>)
    requires DiscBytes(m)
    ensures Reads(Hexes(H7, HA, H1, H7), m, 6)
  {
    Front5(m);
    Next(Hexes(HD, H8, HB, HA), m, 5, H5, H3, Hexes(H7, HA, H1, H7));
  }

  lemma Disc7(m: seq<Byte>)
    requires DiscBytes(m)
    ensures Reads(Hexes(H0, HF, H0, H2), m, 7)
  {
    Disc6(m);
    Next(Hexes(H7, HA, H1, H7), m, 6, HE, H8, Hexes(H0, HF, H0, H2));
  }

  lemma Disc8(m: seq<Byte>)
    requires DiscBytes(m)
    ensures Reads(Hexes(HF, H0, HB, H8), m, 8)
  {
    Disc7(m);
    Next(Hexes(H0, HF, H0, H2), m, 7, H8, H5, Hexes(HF, H0, HB, H8));
  }

  lemma Ready6(m: seq<Byte>)
    requires ReadyBytes(m)
    ensures Reads(Hexes(H1, HB, H0, H1), m, 6)
  {
    Front5(m);
    Next(Hexes(HD, H8, HB, HA), m, 5, H1, H1, Hexes(H1, HB, H0, H1));
  }

  lemma Ready7(m: seq<Byte>)
    requires ReadyBytes(m)
    ensures Reads(Hexes(H0, HF, H6, H3), m, 7)
  {
    Ready6(m);
    Next(Hexes(H1, HB, H0, H1), m, 6, HF, HE, Hexes(H0, HF, H6, H3));
  }

  lemma Ready8(m: seq<Byte>)
    requires ReadyBytes(m)
    ensures Reads(Hexes(HF, H0, HB, H8), m, 8)
  {
    Ready7(m);
    Next(Hexes(H0, HF, H6, H3), m, 7, HE, H4, Hexes(HF, H0, HB, H8));
  }

  /** The residue after the last byte says that the last two are the checksum. */
  lemma GoodEnd(m: seq<Byte>)
    requires |m| == 8 && Reads(Hexes(HF, H0, HB, H8), m, 8)
    ensures Checksum(m[..6]) == Join(m[6], m[7]) && Stored(Checksum(m[..6])) == [m[6], m[7]]
  {
    ResidueIs();
    assert Hexes(HF, H0, HB, H8) == GOOD && m[..8] == m;
    SameWord(GOOD, Register(m), RESIDUE);
    assert m == m[..6] + [m[6], m[7]];
    ResidueConstant(m[..6], m[6], m[7]);
    JoinSplit(Checksum(m[..6]), m[6], m[7]);
  }

  // ----- The frames

  /** Logical device 1, physical device 17, and client 100. */
  const SERVER: HdlcAddress := Address(145, 2)
  const CLIENT: HdlcAddress := Address(100, 1)

  lemma KnownAddresses()
    ensures MakeServerAddress(1, 17) == Success(SERVER)
    ensures EncodeAddress(SERVER) == [0x02, 0x23] && EncodeAddress(CLIENT) == [0xc9]
  {
    Pow128Values();
    TwoGroups(SERVER);
    OneGroup(CLIENT);
  }

  /** From client 100 to the server, with this control byte and without Information. */
  predicate Bare(f: Frame, raw: Byte) {
    !f.segmented && f.destination == SERVER && f.source == CLIENT && f.control.raw == raw && f.information == []
  }

  lemma BareContent(f: Frame, raw: Byte)
    requires Bare(f, raw)
    ensures Printable(f) && Content(f) == [0xa0, 0x08, 0x02, 0x23, 0xc9, raw]
  {
    KnownAddresses();
    assert FormatField(f.segmented, 8) == [0xa0, 0x08];
    assert Header(f) == [0xa0, 0x08] + [0x02, 0x23] + [0xc9] + [raw];
  }

  lemma BareWire(f: Frame, content: seq<Byte>, low: Byte, high: Byte)
    requires Printable(f) && Content(f) == content && Stored(Checksum(content)) == [low, high]
    ensures Wire(f) == [0x7e] + content + [low, high] + [0x7e]
  {
  }

  lemma BareFits(f: Frame, raw: Byte, limits: Limits)
    requires Bare(f, raw) && limits == DefaultLimits()
    ensures EncodeStatus(f, limits) == Ok
  {
  }

  /** Eight bytes between two flags. */
  lemma Spell(bytes: seq<Byte>, m: seq<Byte>)
    requires |bytes| == 10 && bytes[0] == 0x7e && bytes[9] == 0x7e && m == bytes[1..9]
    ensures [0x7e] + m[..6] + [m[6], m[7]] + [0x7e] == bytes
  {
  }

  lemma SixBytes(m: seq<Byte>, raw: Byte)
    requires Front(m) && m[5] == raw
    ensures m[..6] == [0xa0, 0x08, 0x02, 0x23, 0xc9, raw]
  {
  }

  lemma BareEncodes(f: Frame, raw: Byte, limits: Limits, bytes: seq<Byte>, m: seq<Byte>)
    requires Bare(f, raw) && limits == DefaultLimits()
    requires |bytes| == 10 && bytes[0] == 0x7e && bytes[9] == 0x7e && m == bytes[1..9]
    requires Front(m) && m[5] == raw && Reads(Hexes(HF, H0, HB, H8), m, 8)
    ensures EncodeFrame(f, limits) == Success(bytes)
  {
    BareFits(f, raw, limits);
    BareContent(f, raw);
    SixBytes(m, raw);
    GoodEnd(m);
    BareWire(f, m[..6], m[6], m[7]);
    Spell(bytes, m);
  }

  /** SNRM, RR and DISC, in all their bytes. */
  lemma KnownSnrm(f: Frame, limits: Limits, bytes: seq<Byte>)
    requires Bare(f, 0x93) && limits == DefaultLimits()
    requires bytes == [0x7e, 0xa0, 0x08, 0x02, 0x23, 0xc9, 0x93, 0xe4, 0x43, 0x7e]
    ensures EncodeFrame(f, limits) == Success(bytes)
  {
    Snrm8(bytes[1..9]);
    BareEncodes(f, 0x93, limits, bytes, bytes[1..9]);
  }

  lemma KnownReady(f: Frame, limits: Limits, bytes: seq<Byte>)
    requires Bare(f, 0x11) && limits == DefaultLimits()
    requires bytes == [0x7e, 0xa0, 0x08, 0x02, 0x23, 0xc9, 0x11, 0xfe, 0xe4, 0x7e]
    ensures EncodeFrame(f, limits) == Success(bytes)
  {
    Ready8(bytes[1..9]);
    BareEncodes(f, 0x11, limits, bytes, bytes[1..9]);
  }

  lemma KnownDisc(f: Frame, limits: Limits, bytes: seq<Byte>)
    requires Bare(f, 0x53) && limits == DefaultLimits()
    requires bytes == [0x7e, 0xa0, 0x08, 0x02, 0x23, 0xc9, 0x53, 0xe8, 0x85, 0x7e]
    ensures EncodeFrame(f, limits) == Success(bytes)
  {
    Disc8(bytes[1..9]);
    BareEncodes(f, 0x53, limits, bytes, bytes[1..9]);
  }

  /** What a client with the default capability puts on the line: its request for a connection, and once
      connected its first receive-ready and its request to disconnect. */
  lemma KnownSession(o: Options, s: Session)
    requires o.role == Client && o.clientAddress == CLIENT && o.serverAddress == SERVER && o.limits == DefaultLimits()
    requires o.capability == Capability(128, 128, 1, 1)
    requires s.options == o && s.phase == Connected && s.vr == 0
    ensures BuildConnectRequest(Start(o), o.capability != DefaultCapability(), []).output
         == [0x7e, 0xa0, 0x08, 0x02, 0x23, 0xc9, 0x93, 0xe4, 0x43, 0x7e]
    ensures BuildReceiveReady(s, true).output == [0x7e, 0xa0, 0x08, 0x02, 0x23, 0xc9, 0x11, 0xfe, 0xe4, 0x7e]
    ensures BuildDisconnectRequest(s, []).output == [0x7e, 0xa0, 0x08, 0x02, 0x23, 0xc9, 0x53, 0xe8, 0x85, 0x7e]
  {
    KnownSnrm(FrameTo(o, SNRM, []), o.limits, [0x7e, 0xa0, 0x08, 0x02, 0x23, 0xc9, 0x93, 0xe4, 0x43, 0x7e]);
    KnownReady(FrameTo(o, ReceiveReadyControl(0, true), []), o.limits, [0x7e, 0xa0, 0x08, 0x02, 0x23, 0xc9, 0x11, 0xfe, 0xe4, 0x7e]);
    KnownDisc(FrameTo(o, DISC, []), o.limits, [0x7e, 0xa0, 0x08, 0x02, 0x23, 0xc9, 0x53, 0xe8, 0x85, 0x7e]);
  }
}
