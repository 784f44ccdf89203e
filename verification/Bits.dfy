/** Bytes, and words as their bits, lowest bit first: the order in which the line carries them. */
module Bits {
  type Byte = x: int | 0 <= x < 0x100
  type Bitstring = seq<bool>
  type Word = w: seq<bool> | |w| == 16 witness [false, false, false, false, false, false, false, false,
                                                false, false, false, false, false, false, false, false]

  function Pow2(k: nat): (r: nat)
    ensures r >= 1
  {
    if k == 0 then 1 else 2 * Pow2(k - 1)
  }

  /** The low k bits of a number. */
  function Digits(n: nat, k: nat): (d: Bitstring)
    ensures |d| == k
  {
    if k == 0 then [] else [n % 2 == 1] + Digits(n / 2, k - 1)
  }

  /** The number that a bit string spells. */
  function Number(d: Bitstring): (n: nat)
    ensures n < Pow2(|d|)
  {
    if d == [] then 0 else (if d[0] then 1 else 0) + 2 * Number(d[1..])
  }

  lemma {:induction false} NumberDigits(n: nat, k: nat)
    requires n < Pow2(k)
    ensures Number(Digits(n, k)) == n
  {
    if k != 0 {
      NumberDigits(n / 2, k - 1);
      assert Digits(n, k)[1..] == Digits(n / 2, k - 1);
    }
  }

  lemma {:induction false} DigitsNumber(d: Bitstring)
    ensures Digits(Number(d), |d|) == d
  {
    if d != [] {
      DigitsNumber(d[1..]);
    }
  }

  /** The value of two bytes, high byte first. */
  function HighFirst(high: Byte, low: Byte): (n: nat)
    ensures n < 0x1_0000
  {
    var h: nat, l: nat := high, low;
    0x100 * h + l
  }

  function ByteBits(b: Byte): (d: Bitstring)
    ensures |d| == 8
  {
    Digits(b, 8)
  }

  function ByteOf(d: Bitstring): Byte
    requires |d| == 8
  {
    assert Pow2(8) == 0x100;
    Number(d)
  }

  lemma ByteBitsInverse(b: Byte, d: Bitstring)
    requires |d| == 8
    ensures ByteOf(ByteBits(b)) == b && ByteBits(ByteOf(d)) == d
  {
    assert Pow2(8) == 0x100;
    NumberDigits(b, 8);
    DigitsNumber(d);
  }

  // ----- A word stored as two bytes, low byte first

  function Join(low: Byte, high: Byte): Word {
    ByteBits(low) + ByteBits(high)
  }

  function LowByte(w: Word): Byte {
    ByteOf(w[..8])
  }

  function HighByte(w: Word): Byte {
    ByteOf(w[8..])
  }

  /** Storing a word low byte first and reading it back are inverse. */
  lemma JoinSplit(w: Word, low: Byte, high: Byte)
    ensures Join(LowByte(w), HighByte(w)) == w
    ensures LowByte(Join(low, high)) == low && HighByte(Join(low, high)) == high
  {
    ByteBitsInverse(low, w[..8]);
    ByteBitsInverse(high, w[8..]);
    assert Join(low, high)[..8] == ByteBits(low) && Join(low, high)[8..] == ByteBits(high);
  }

  // ----- Messages

  /** The bits of a message, byte by byte. */
  function BitsOf(data: seq<Byte>): (d: Bitstring)
    ensures |d| == 8 * |data|
  {
    if data == [] then [] else ByteBits(data[0]) + BitsOf(data[1..])
  }

  lemma {:induction false} BitsOfAppend(a: seq<Byte>, b: seq<Byte>)
    ensures BitsOf(a + b) == BitsOf(a) + BitsOf(b)
  {
    if a == [] {
      assert a + b == b;
    } else {
      assert (a + b)[1..] == a[1..] + b;
      BitsOfAppend(a[1..], b);
    }
  }

  /** Messages of one length are told apart by some bit. */
  lemma {:induction false} BitsOfInjective(a: seq<Byte>, b: seq<Byte>)
    requires BitsOf(a) == BitsOf(b)
    ensures a == b
  {
    if a != [] {
      assert ByteBits(a[0]) == BitsOf(a)[..8] && ByteBits(b[0]) == BitsOf(b)[..8];
      ByteBitsInverse(a[0], ByteBits(b[0]));
      ByteBitsInverse(b[0], ByteBits(b[0]));
      assert BitsOf(a)[8..] == BitsOf(a[1..]) && BitsOf(b)[8..] == BitsOf(b[1..]);
      BitsOfInjective(a[1..], b[1..]);
    }
  }

  // ----- Exclusive or

  /** The positions at which two bit strings differ. */
  function Xor(a: Bitstring, b: Bitstring): (d: Bitstring)
    requires |a| == |b|
    ensures |d| == |a|
    ensures forall i :: 0 <= i < |d| ==> d[i] == (a[i] != b[i])
  {
    seq(|a|, i requires 0 <= i < |a| => a[i] != b[i])
  }

  function Zeros(n: nat): (d: Bitstring)
    ensures |d| == n
    ensures forall i :: 0 <= i < n ==> !d[i]
  {
    seq(n, i => false)
  }

  function Ones(n: nat): (d: Bitstring)
    ensures |d| == n
  {
    seq(n, i => true)
  }

  lemma XorZeros(a: Bitstring)
    ensures Xor(a, Zeros(|a|)) == a
    ensures Xor(a, a) == Zeros(|a|)
  {
  }

  lemma XorCancels(a: Bitstring, b: Bitstring)
    requires |a| == |b|
    ensures Xor(a, Xor(a, b)) == b
    ensures Xor(a, b) == Zeros(|a|) <==> a == b
  {
    if Xor(a, b) == Zeros(|a|) {
      forall i | 0 <= i < |a| ensures a[i] == b[i] {
        assert !Xor(a, b)[i];
      }
    }
  }
}
