/** The 16-bit frame check sequence of RFC 1662 Appendix C.2, as src/hdlc/hdlc_crc.cpp computes it.
    The specification feeds the shift register one bit at a time; the methods feed it one byte at a
    time, as the source does. */
module Crc {
  import opened Bits

  // 0xffff, and 0x8408 with its lowest hexadecimal digit first.
  const INITIAL: Word := Ones(16)
  const POLYNOMIAL: Word := Digits(8, 4) + Digits(0, 4) + Digits(4, 4) + Digits(8, 4)

  // 0xf0b8, the register after a message and its checksum.
  const RESIDUE: Word := Digits(8, 4) + Digits(11, 4) + Digits(0, 4) + Digits(15, 4)

  function Shift(s: Word): Word {
    s[1..] + [false]
  }

  /** One turn of the register. */
  function Step(s: Word): Word {
    if s[0] then Xor(Shift(s), POLYNOMIAL) else Shift(s)
  }

  function StepN(n: nat, s: Word): Word {
    if n == 0 then s else StepN(n - 1, Step(s))
  }

  /** One message bit mixed into the lowest bit of the register. */
  function Mix(s: Word, b: bool): Word {
    s[0 := s[0] != b]
  }

  /** The register after a run of bits, starting from s. */
  function Serial(s: Word, bits: Bitstring): Word
    decreases |bits|
  {
    if bits == [] then s else Serial(Step(Mix(s, bits[0])), bits[1..])
  }

  function Register(data: seq<Byte>): Word {
    Serial(INITIAL, BitsOf(data))
  }

  function Checksum(data: seq<Byte>): Word {
    Xor(Register(data), INITIAL)
  }

  lemma {:induction false} SerialAppend(s: Word, a: Bitstring, b: Bitstring)
    ensures Serial(s, a + b) == Serial(Serial(s, a), b)
    decreases |a|
  {
    if a == [] {
      assert a + b == b;
    } else {
      assert (a + b)[1..] == a[1..] + b;
      SerialAppend(Step(Mix(s, a[0])), a[1..], b);
    }
  }

  lemma {:induction false} StepNAdd(m: nat, n: nat, s: Word)
    ensures StepN(m + n, s) == StepN(n, StepN(m, s))
    decreases m
  {
    if m != 0 { StepNAdd(m - 1, n, Step(s)); }
  }

  /** The lowest pending digit can be mixed in alone; the others wait. */
  lemma Peel(s: Word, x: Word)
    ensures Step(Xor(s, x)) == Xor(Step(Mix(s, x[0])), Shift(x))
  {
  }

  /** Feeding the first k digits of x one by one is mixing in the whole of x and turning k times,
      up to the digits of x that still wait. */
  lemma {:induction false} FeedDigits(s: Word, x: Word, k: nat)
    requires k <= 16
    ensures StepN(k, Xor(s, x)) == Xor(Serial(s, x[..k]), x[k..] + Zeros(k))
    decreases k
  {
    if k == 0 {
      assert x[0..] + Zeros(0) == x;
    } else {
      Peel(s, x);
      FeedDigits(Step(Mix(s, x[0])), Shift(x), k - 1);
      assert x[..k][1..] == Shift(x)[..k - 1];
      assert Shift(x)[k - 1..] + Zeros(k - 1) == x[k..] + Zeros(k);
    }
  }

  /** Mixing in a byte whole and turning eight times feeds its bits. */
  lemma FeedByte(s: Word, b: Byte)
    ensures StepN(8, Xor(s, ByteBits(b) + Zeros(8))) == Serial(s, ByteBits(b))
  {
    var x: Word := ByteBits(b) + Zeros(8);
    FeedDigits(s, x, 8);
    assert x[..8] == ByteBits(b) && x[8..] + Zeros(8) == Zeros(16);
    XorZeros(Serial(s, ByteBits(b)));
  }

  method UpdateCrc(crc: Word, value: Byte) returns (r: Word)
    ensures r == Serial(crc, ByteBits(value))
  {
    r := Xor(crc, ByteBits(value) + Zeros(8));
    FeedByte(crc, value);
    ghost var left: nat := 8;
    for bit := 0 to 8
      invariant left == 8 - bit
      invariant StepN(left, r) == Serial(crc, ByteBits(value))
    {
      ghost var turned := Step(r);
      if r[0] {
        r := Xor(Shift(r), POLYNOMIAL);
      } else {
        r := Shift(r);
      }
      assert r == turned;
      left := left - 1;
    }
  }

  method CalculateHdlcCrc(data: seq<Byte>) returns (crc: Word)
    ensures crc == Checksum(data)
  {
    crc := INITIAL;
    for index := 0 to |data|
      invariant Serial(crc, BitsOf(data[index..])) == Register(data)
    {
      assert data[index..][1..] == data[index + 1..];
      SerialAppend(crc, ByteBits(data[index]), BitsOf(data[index + 1..]));
      crc := UpdateCrc(crc, data[index]);
    }
    crc := Xor(crc, INITIAL);
  }

  // ----- The register is linear and loses nothing

  lemma StepLinear(s: Word, t: Word)
    ensures Step(Xor(s, t)) == Xor(Step(s), Step(t))
  {
    assert Shift(Xor(s, t)) == Xor(Shift(s), Shift(t));
  }

  lemma PolynomialTop()
    ensures POLYNOMIAL[15]
  {
    assert Digits(8, 4)[3];
    assert POLYNOMIAL[15] == Digits(8, 4)[3];
  }

  lemma StepZero(s: Word)
    ensures Step(s) == Zeros(16) <==> s == Zeros(16)
  {
    if Step(s) == Zeros(16) {
      PolynomialTop();
      assert !Step(s)[15];
      forall i | 0 <= i < 16 ensures !s[i] {
        if i > 0 { assert Step(s)[i - 1] == s[i]; }
      }
    }
  }

  lemma {:induction false} StepNZero(n: nat, s: Word)
    ensures StepN(n, s) == Zeros(16) <==> s == Zeros(16)
    decreases n
  {
    StepZero(s);
    if n != 0 { StepNZero(n - 1, Step(s)); }
  }

  lemma {:induction false} StepNLinear(n: nat, s: Word, t: Word)
    ensures StepN(n, Xor(s, t)) == Xor(StepN(n, s), StepN(n, t))
    decreases n
  {
    if n != 0 {
      StepLinear(s, t);
      StepNLinear(n - 1, Step(s), Step(t));
    }
  }

  lemma StepNInjective(n: nat, s: Word, t: Word)
    requires StepN(n, s) == StepN(n, t)
    ensures s == t
  {
    StepNLinear(n, s, t);
    XorCancels(StepN(n, s), StepN(n, t));
    StepNZero(n, Xor(s, t));
    XorCancels(s, t);
  }

  // ----- The residue law

  /** The register after a message followed by its own checksum, low byte first. */
  function Good(): Word {
    StepN(16, INITIAL)
  }

  /** A message followed by two bytes leaves the register at Good() exactly when those bytes are the
      message's checksum, low byte first. */
  lemma ResidueLaw(data: seq<Byte>, low: Byte, high: Byte)
    ensures Register(data + [low, high]) == Good() <==> Join(low, high) == Checksum(data)
  {
    var s, w := Register(data), Join(low, high);
    BitsOfAppend(data, [low, high]);
    assert BitsOf([low, high]) == w by {
      assert [low, high][1..] == [high];
      assert BitsOf([high]) == ByteBits(high);
    }
    SerialAppend(INITIAL, BitsOf(data), w);
    FeedDigits(s, w, 16);
    assert w[..16] == w && w[16..] + Zeros(16) == Zeros(16);
    XorZeros(Serial(s, w));
    XorCancels(s, w);
    XorCancels(s, INITIAL);
    if StepN(16, Xor(s, w)) == Good() {
      StepNInjective(16, Xor(s, w), INITIAL);
    }
  }
}
