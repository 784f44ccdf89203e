/** What the checksum theorems mean for whole frames: which damaged frames the decoder rejects. */
module FrameDamage {
  import opened Types
  import opened Bits
  import opened Crc
  import opened CrcDetection
  import opened CrcPeriod
  import opened Polynomials
  import opened Codec

  /** The bits between the flags. */
  function Interior(input: seq<Byte>): seq<Byte>
    requires |input| >= 2
  {
    input[1..|input| - 1]
  }

  lemma InteriorSplit(input: seq<Byte>)
    requires |input| >= 4
    ensures Interior(input) == input[1..|input| - 3] + [input[|input| - 3], input[|input| - 2]]
  {
  }

  /** A frame whose checksum was found right satisfies the residue law between its flags. */
  lemma ReadResidue(input: seq<Byte>)
    requires |input| >= 4
    requires Checksum(input[1..|input| - 3]) == Join(input[|input| - 3], input[|input| - 2])
    ensures Register(Interior(input)) == Good()
  {
    InteriorSplit(input);
    ResidueLaw(input[1..|input| - 3], input[|input| - 3], input[|input| - 2]);
  }

  lemma AcceptedEnvelope(input: seq<Byte>, limits: Limits)
    requires DecodeFrame(input, limits).Success?
    ensures 8 <= |input| <= 2049 && input[0] == FLAG && input[|input| - 1] == FLAG
    ensures Checksum(input[1..|input| - 3]) == Join(input[|input| - 3], input[|input| - 2])
  {
  }

  lemma AcceptedResidue(input: seq<Byte>, limits: Limits)
    requires DecodeFrame(input, limits).Success?
    ensures 8 <= |input| <= 2049 && input[0] == FLAG && input[|input| - 1] == FLAG
    ensures Register(Interior(input)) == Good() == RESIDUE
  {
    AcceptedEnvelope(input, limits);
    ReadResidue(input);
    GoodResidue();
  }

  /** Every accepted frame has even bit parity between its flags. */
  lemma AcceptedEven(input: seq<Byte>, limits: Limits)
    requires DecodeFrame(input, limits).Success?
    ensures |input| >= 2 && !Odd(BitsOf(Interior(input)))
  {
    AcceptedResidue(input, limits);
    WeightOnes(16);
    SerialParity(INITIAL, BitsOf(Interior(input)));
    SerialParity(INITIAL, Zeros(16));
    SerialZeros(INITIAL, 16);
    WeightZeros(16);
  }

  /** Two wrong bits, an odd number of them, or any number of them within 16 consecutive bits. */
  ghost predicate Detectable(d: Bitstring) {
    Weight(d) == 2 || Odd(d) || (d != Zeros(|d|) && exists i: nat :: Burst(d, i))
  }

  lemma DetectableSyndrome(d: Bitstring)
    requires Detectable(d) && |d| <= 32767
    ensures Syndrome(d) != Zeros(16)
  {
    if Weight(d) == 2 {
      PairSyndrome(d);
    } else if Odd(d) {
      OddSyndrome(d);
    } else {
      var i: nat :| Burst(d, i);
      BurstSyndrome(d, i);
    }
  }

  lemma BitsOfOne(b: Byte)
    ensures BitsOf([b]) == ByteBits(b)
  {
    assert [b][1..] == [];
    assert ByteBits(b) + [] == ByteBits(b);
  }

  lemma BitsAround(first: Byte, inner: seq<Byte>, last: Byte)
    ensures BitsOf([first] + (inner + [last])) == ByteBits(first) + (BitsOf(inner) + ByteBits(last))
  {
    BitsOfAppend([first], inner + [last]);
    BitsOfAppend(inner, [last]);
    BitsOfOne(first);
    BitsOfOne(last);
  }

  lemma BitsInterior(a: seq<Byte>)
    requires |a| >= 2
    ensures BitsOf(a) == ByteBits(a[0]) + (BitsOf(Interior(a)) + ByteBits(a[|a| - 1]))
  {
    InteriorBetween(a);
    BitsAround(a[0], Interior(a), a[|a| - 1]);
  }

  lemma InteriorBetween(a: seq<Byte>)
    requires |a| >= 2
    ensures a == [a[0]] + (Interior(a) + [a[|a| - 1]])
  {
  }

  /** Frames with the same flags differ in their interiors only. */
  lemma InteriorDifference(a: seq<Byte>, b: seq<Byte>)
    requires |a| == |b| >= 2 && a[0] == b[0] && a[|a| - 1] == b[|b| - 1]
    ensures Xor(BitsOf(a), BitsOf(b)) == Zeros(8) + (Xor(BitsOf(Interior(a)), BitsOf(Interior(b))) + Zeros(8))
  {
    BitsInterior(a);
    BitsInterior(b);
    PaddedXor(ByteBits(a[0]), BitsOf(Interior(a)), BitsOf(Interior(b)), ByteBits(a[|a| - 1]));
  }

  lemma PaddedXor(p: Bitstring, x: Bitstring, y: Bitstring, q: Bitstring)
    requires |p| == |q| == 8 && |x| == |y|
    ensures Xor(p + (x + q), p + (y + q)) == Zeros(8) + (Xor(x, y) + Zeros(8))
  {
  }

  /** A detectable pattern stays so when the error-free bits around it are cut off. */
  lemma DetectableInside(d: Bitstring)
    requires |d| >= 16 && Detectable(Zeros(8) + (d + Zeros(8)))
    ensures Detectable(d)
  {
    var outer := Zeros(8) + (d + Zeros(8));
    WeightAppend(Zeros(8), d + Zeros(8));
    WeightAppend(d, Zeros(8));
    WeightZeros(8);
    if !Odd(d) && Weight(d) != 2 {
      var i: nat :| Burst(outer, i);
      var j := if i < 8 then 0 else if i - 8 + 16 > |d| then |d| - 16 else i - 8;
      forall k | 0 <= k < |d| && !(j <= k < j + 16) ensures !d[k] {
        assert outer[k + 8] == d[k];
        assert k + 8 < i || k + 8 >= i + 16;
      }
      assert Burst(d, j);
      assert Zeros(8) + (Zeros(|d|) + Zeros(8)) == Zeros(|outer|);
    }
  }

  /** A frame damaged in a detectable way is never accepted, whatever limits either side uses. */
  lemma DamageRejected(a: seq<Byte>, b: seq<Byte>, sent: Limits, received: Limits)
    requires |a| == |b| && DecodeFrame(a, sent).Success?
    requires Detectable(Xor(BitsOf(a), BitsOf(b)))
    ensures DecodeFrame(b, received).Failure?
  {
    if DecodeFrame(b, received).Success? {
      AcceptedResidue(a, sent);
      AcceptedResidue(b, received);
      InteriorDifference(a, b);
      DetectableInside(Xor(BitsOf(Interior(a)), BitsOf(Interior(b))));
      DetectableSyndrome(Xor(BitsOf(Interior(a)), BitsOf(Interior(b))));
      SameRegister(Interior(a), Interior(b));
    }
  }

  /** The checksum has Hamming distance at least 4 on every frame: up to three wrong bits anywhere in
      an accepted frame, flags included, are always detected. */
  lemma ThreeBitsRejected(a: seq<Byte>, b: seq<Byte>, sent: Limits, received: Limits)
    requires |a| == |b| && DecodeFrame(a, sent).Success?
    requires 1 <= Weight(Xor(BitsOf(a), BitsOf(b))) <= 3
    ensures DecodeFrame(b, received).Failure?
  {
    FewErrors(Xor(BitsOf(a), BitsOf(b)));
    DamageRejected(a, b, sent, received);
  }

  lemma FewErrors(d: Bitstring)
    requires 1 <= Weight(d) <= 3
    ensures Detectable(d)
  {
  }

  lemma {:induction false} BitsOfAt(data: seq<Byte>, k: nat)
    requires k < |data|
    ensures BitsOf(data)[8 * k..8 * k + 8] == ByteBits(data[k])
  {
    if k > 0 {
      BitsOfAt(data[1..], k - 1);
      assert BitsOf(data)[8 * k..8 * k + 8] == BitsOf(data[1..])[8 * (k - 1)..8 * (k - 1) + 8];
    }
  }

  /** Any damage to two adjacent bytes is detectable, wherever they lie. */
  lemma TwoBytesDetectable(a: seq<Byte>, b: seq<Byte>, k: nat)
    requires |a| == |b| && a != b && k + 1 < |a|
    requires a[..k] == b[..k] && a[k + 2..] == b[k + 2..]
    ensures Detectable(Xor(BitsOf(a), BitsOf(b)))
  {
    var d := Xor(BitsOf(a), BitsOf(b));
    XorCancels(BitsOf(a), BitsOf(b));
    if BitsOf(a) == BitsOf(b) {
      BitsOfInjective(a, b);
    }
    forall j | 0 <= j < |d| && !(8 * k <= j < 8 * k + 16) ensures !d[j] {
      var i := j / 8;
      assert a[i] == b[i] by {
        if i < k {
          assert a[i] == a[..k][i] && b[i] == b[..k][i];
        } else {
          assert a[i] == a[k + 2..][i - k - 2] && b[i] == b[k + 2..][i - k - 2];
        }
      }
      BitsOfAt(a, i);
      BitsOfAt(b, i);
      assert BitsOf(a)[j] == BitsOf(a)[8 * i..8 * i + 8][j - 8 * i];
      assert BitsOf(b)[j] == BitsOf(b)[8 * i..8 * i + 8][j - 8 * i];
    }
    assert Burst(d, 8 * k);
  }

  /** A byte string that differs from an accepted frame only within two adjacent bytes is rejected,
      whatever the bytes are: flags, data, or the end of the data and the start of the checksum. */
  lemma TwoBytesRejected(a: seq<Byte>, b: seq<Byte>, k: nat, sent: Limits, received: Limits)
    requires DecodeFrame(a, sent).Success?
    requires |a| == |b| && a != b && k + 1 < |a|
    requires a[..k] == b[..k] && a[k + 2..] == b[k + 2..]
    ensures DecodeFrame(b, received).Failure?
  {
    TwoBytesDetectable(a, b, k);
    DamageRejected(a, b, sent, received);
  }
}
