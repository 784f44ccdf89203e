/** Where detection ends: which damage behind the header checksum is accepted. */
module UndetectedDamage {
  import opened Types
  import opened Bits
  import opened Crc
  import opened CrcDetection
  import opened Codec
  import opened FrameDamage

  // ----- The shortest pattern that is lost

  /** The generator polynomial, highest power first: 17 bits. */
  function Generator(): Bitstring {
    [true] + POLYNOMIAL
  }

  lemma FirstBit()
    ensures Step(Mix(Zeros(16), true)) == POLYNOMIAL
  {
    var s := Mix(Zeros(16), true);
    assert Shift(s) == Zeros(16);
    XorZeros(POLYNOMIAL);
    assert Xor(Zeros(16), POLYNOMIAL) == Xor(POLYNOMIAL, Zeros(16));
  }

  /** Four wrong bits within 17 consecutive ones can cancel: the bounds of three bits and of 16
      consecutive ones are exact. */
  lemma GeneratorLost()
    ensures |Generator()| == 17 && Weight(Generator()) == 4
    ensures Syndrome(Generator()) == Zeros(16)
  {
    FirstBit();
    assert Generator()[1..] == POLYNOMIAL;
    FeedDigits(POLYNOMIAL, POLYNOMIAL, 16);
    assert POLYNOMIAL[..16] == POLYNOMIAL && POLYNOMIAL[16..] + Zeros(16) == Zeros(16);
    XorZeros(POLYNOMIAL);
    XorZeros(Serial(POLYNOMIAL, POLYNOMIAL));
    StepNZero(16, Zeros(16));
    PolynomialWeight();
  }

  // ----- Damage behind the header checksum

  /** The frame that the damaged bytes stand for if they are accepted. */
  function Altered(f: Frame, b: seq<Byte>): Frame
    requires |b| >= HeaderSize(f) + 6
  {
    f.(information := b[HeaderSize(f) + 3..|b| - 3])
  }

  /** A byte string that agrees with an encoded frame up to and including the header checksum, and in
      its length and last flag. */
  predicate SameFront(f: Frame, b: seq<Byte>) {
    && Printable(f) && f.information != []
    && |b| == HeaderSize(f) + 6 + |f.information| == |Wire(f)| && b[|b| - 1] == FLAG
    && b[..HeaderSize(f) + 3] == Wire(f)[..HeaderSize(f) + 3]
  }

  /** The content of a byte string with this header and header checksum in front. */
  lemma FrontContent(header: seq<Byte>, check: seq<Byte>, information: seq<Byte>, last: seq<Byte>, b: seq<Byte>)
    requires |check| == |last| == 2 && information != []
    requires var a := [FLAG] + (header + (check + information)) + last + [FLAG];
      |b| == |a| && b[..|header| + 3] == a[..|header| + 3]
    ensures b[0] == FLAG && b[1..|b| - 3] == header + (check + b[|header| + 3..|b| - 3])
  {
    var a := [FLAG] + (header + (check + information)) + last + [FLAG];
    assert a[..|header| + 3] == [FLAG] + header + check;
    assert b[..|header| + 3][1..] == b[1..|header| + 3];
    assert ([FLAG] + header + check)[1..] == header + check;
    assert b[1..|b| - 3] == b[1..|header| + 3] + b[|header| + 3..|b| - 3];
  }

  lemma WireParts(f: Frame)
    requires Printable(f) && f.information != []
    ensures Wire(f) == [FLAG] + (Header(f) + (Stored(Checksum(Header(f))) + f.information)) + Stored(Checksum(Content(f))) + [FLAG]
  {
  }

  /** Equally many Information bytes leave the header as it is. */
  lemma SameHeader(f: Frame, information: seq<Byte>)
    requires Printable(f) && f.information != [] && |information| == |f.information|
    ensures var g := f.(information := information);
      && Printable(g) && Header(g) == Header(f)
      && Content(g) == Header(f) + (Stored(Checksum(Header(f))) + information)
  {
  }

  /** The same in parts: flags, header and header checksum of the frame, around other Information. */
  predicate Behind(f: Frame, b: seq<Byte>) {
    && Printable(f) && f.information != []
    && |b| == HeaderSize(f) + 6 + |f.information| && b[0] == FLAG && b[|b| - 1] == FLAG
    && b[1..|b| - 3] == Header(f) + (Stored(Checksum(Header(f))) + b[HeaderSize(f) + 3..|b| - 3])
  }

  lemma FrontSplit(f: Frame, b: seq<Byte>)
    requires SameFront(f, b)
    ensures Behind(f, b)
  {
    WireSize(f);
    WireParts(f);
    FrontContent(Header(f), Stored(Checksum(Header(f))), f.information, Stored(Checksum(Content(f))), b);
  }

  /** With the right checksum the damaged bytes are the encoding of the altered frame. */
  lemma FrontEncodes(f: Frame, b: seq<Byte>)
    requires Behind(f, b)
    requires Checksum(b[1..|b| - 3]) == Join(b[|b| - 3], b[|b| - 2])
    ensures |Altered(f, b).information| == |f.information|
    ensures Printable(Altered(f, b)) && Wire(Altered(f, b)) == b
  {
    EncodesAs(f, b, b[HeaderSize(f) + 3..|b| - 3]);
  }

  lemma EncodesAs(f: Frame, b: seq<Byte>, information: seq<Byte>)
    requires Printable(f) && f.information != [] && |information| == |f.information|
    requires |b| >= 4 && b[0] == FLAG && b[|b| - 1] == FLAG
    requires b[1..|b| - 3] == Header(f) + (Stored(Checksum(Header(f))) + information)
    requires Checksum(b[1..|b| - 3]) == Join(b[|b| - 3], b[|b| - 2])
    ensures Printable(f.(information := information)) && Wire(f.(information := information)) == b
  {
    SameHeader(f, information);
    EncloseCanonical(b);
    Enclosing(f.(information := information), b);
  }

  lemma Enclosing(g: Frame, b: seq<Byte>)
    requires |b| >= 4 && Printable(g) && Content(g) == b[1..|b| - 3] && b == Enclose(b[1..|b| - 3])
    ensures Wire(g) == b
  {
  }

  /** Which damage behind the header checksum is accepted, exactly: that whose error pattern leaves the
      register at zero. What is then decoded is the altered frame. */
  lemma AcceptedExactly(f: Frame, b: seq<Byte>, limits: Limits)
    requires EncodeStatus(f, limits) == Ok && SameFront(f, b)
    ensures DecodeFrame(b, limits).Success? <==>
      Syndrome(Xor(BitsOf(Interior(Wire(f))), BitsOf(Interior(b)))) == Zeros(16)
    ensures DecodeFrame(b, limits).Success? ==> DecodeFrame(b, limits) == Success(Altered(f, b))
  {
    FrontSplit(f, b);
    DecodeWire(f, limits);
    AcceptedResidue(Wire(f), limits);
    SameRegister(Interior(Wire(f)), Interior(b));
    if DecodeFrame(b, limits).Success? {
      AcceptedEnvelope(b, limits);
      AcceptedResidue(b, limits);
      AlteredDecodes(f, b, limits);
    } else if Register(Interior(b)) == Good() {
      InteriorSplit(b);
      ResidueLaw(b[1..|b| - 3], b[|b| - 3], b[|b| - 2]);
      AlteredDecodes(f, b, limits);
    }
  }

  lemma AlteredDecodes(f: Frame, b: seq<Byte>, limits: Limits)
    requires EncodeStatus(f, limits) == Ok && Behind(f, b)
    requires Checksum(b[1..|b| - 3]) == Join(b[|b| - 3], b[|b| - 2])
    ensures DecodeFrame(b, limits) == Success(Altered(f, b))
  {
    FrontEncodes(f, b);
    AlteredFits(f, Altered(f, b), limits);
    DecodeWire(Altered(f, b), limits);
  }

  lemma AlteredFits(f: Frame, g: Frame, limits: Limits)
    requires EncodeStatus(f, limits) == Ok && f.information != []
    requires HeaderSize(g) == HeaderSize(f) && |g.information| == |f.information|
    ensures EncodeStatus(g, limits) == Ok
  {
  }

  // ----- Four wrong bits

  function Bytes(d: Bitstring): (bytes: seq<Byte>)
    requires |d| % 8 == 0
    ensures |bytes| == |d| / 8
  {
    if d == [] then [] else [ByteOf(d[..8])] + Bytes(d[8..])
  }

  lemma {:induction false} BytesInverse(d: Bitstring)
    requires |d| % 8 == 0
    ensures BitsOf(Bytes(d)) == d
    decreases |d|
  {
    if d != [] {
      BytesInverse(d[8..]);
      ByteBitsInverse(0, d[..8]);
      assert Bytes(d)[1..] == Bytes(d[8..]);
      assert d[..8] + d[8..] == d;
    }
  }

  /** The generator over the last byte of the Information field and the checksum behind it. */
  function LastThree(): (d: Bitstring)
    ensures |d| == 24
  {
    Generator() + Zeros(7)
  }

  /** The bytes with these four bits flipped in front of the closing flag. */
  function FourFlipped(a: seq<Byte>): (b: seq<Byte>)
    requires |a| >= 5
    ensures |b| == |a|
  {
    var n := |a| - 4;
    a[..n] + Bytes(Xor(BitsOf(a[n..n + 3]), LastThree())) + [a[n + 3]]
  }

  lemma FrontXor(p: Bitstring, x: Bitstring, y: Bitstring)
    requires |x| == |y|
    ensures Xor(p + x, p + y) == Zeros(|p|) + Xor(x, y)
  {
  }

  lemma FlippedOutside(a: seq<Byte>, k: nat)
    requires |a| >= 5 && k <= |a| - 4
    ensures var b := FourFlipped(a); b[..k] == a[..k] && b[0] == a[0] && b[|b| - 1] == a[|a| - 1]
  {
  }

  lemma InteriorParts(front: seq<Byte>, three: seq<Byte>, flag: Byte)
    requires |front| >= 1 && |three| == 3
    ensures Interior(front + three + [flag]) == front[1..] + three
  {
  }

  lemma FlippedInterior(a: seq<Byte>)
    requires |a| >= 5
    ensures Xor(BitsOf(Interior(a)), BitsOf(Interior(FourFlipped(a)))) == Zeros(8 * (|a| - 5)) + LastThree()
  {
    var n := |a| - 4;
    var front, last := a[..n], a[n..n + 3];
    var flipped := Bytes(Xor(BitsOf(last), LastThree()));
    assert a == front + last + [a[n + 3]];
    InteriorParts(front, last, a[n + 3]);
    InteriorParts(front, flipped, a[n + 3]);
    BitsOfAppend(front[1..], last);
    BitsOfAppend(front[1..], flipped);
    BytesInverse(Xor(BitsOf(last), LastThree()));
    XorCancels(BitsOf(last), LastThree());
    FrontXor(BitsOf(front[1..]), BitsOf(last), BitsOf(flipped));
  }

  lemma FlippedFront(f: Frame)
    requires Printable(f) && f.information != []
    ensures |Wire(f)| >= 5 && SameFront(f, FourFlipped(Wire(f)))
  {
    WireSize(f);
    WireParts(f);
    FlippedOutside(Wire(f), HeaderSize(f) + 3);
    FrontFrom(f, Wire(f), FourFlipped(Wire(f)));
  }

  lemma FrontFrom(f: Frame, a: seq<Byte>, b: seq<Byte>)
    requires Printable(f) && f.information != [] && a == Wire(f)
    requires |b| == |a| == HeaderSize(f) + 6 + |f.information| && b[|b| - 1] == a[|a| - 1] == FLAG
    requires b[..HeaderSize(f) + 3] == a[..HeaderSize(f) + 3]
    ensures SameFront(f, b)
  {
  }

  /** The Hamming distance is exactly 4 at every frame with Information: some four wrong bits in its
      encoding are accepted, under the limits that it was encoded under. */
  lemma FourBitsAccepted(f: Frame, limits: Limits)
    requires EncodeStatus(f, limits) == Ok && f.information != []
    ensures |Wire(f)| >= 5
    ensures Weight(Xor(BitsOf(Wire(f)), BitsOf(FourFlipped(Wire(f))))) == 4
    ensures DecodeFrame(FourFlipped(Wire(f)), limits).Success?
  {
    FlippedFront(f);
    FourLost(Wire(f));
    AcceptedExactly(f, FourFlipped(Wire(f)), limits);
  }

  lemma FourLost(a: seq<Byte>)
    requires |a| >= 5
    ensures Weight(Xor(BitsOf(a), BitsOf(FourFlipped(a)))) == 4
    ensures Syndrome(Xor(BitsOf(Interior(a)), BitsOf(Interior(FourFlipped(a))))) == Zeros(16)
  {
    FlippedOutside(a, 0);
    FlippedInterior(a);
    PatternLost(8 * (|a| - 5));
    InteriorDifference(a, FourFlipped(a));
  }

  lemma PatternLost(n: nat)
    ensures Syndrome(Zeros(n) + LastThree()) == Zeros(16)
    ensures Weight(Zeros(8) + ((Zeros(n) + LastThree()) + Zeros(8))) == 4
  {
    GeneratorLost();
    PaddedSyndrome(n, Generator(), 7);
    StepNZero(7, Zeros(16));
    WeightAppend(Zeros(8), (Zeros(n) + LastThree()) + Zeros(8));
    WeightAppend(Zeros(n) + LastThree(), Zeros(8));
    WeightAppend(Zeros(n), LastThree());
    WeightAppend(Generator(), Zeros(7));
    WeightZeros(7);
    WeightZeros(8);
    WeightZeros(n);
  }
}
