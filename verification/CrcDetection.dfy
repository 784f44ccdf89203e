/** Which transmission errors the checksum detects, for messages of any length. */
module CrcDetection {
  import opened Bits
  import opened Crc

  /** The register an error pattern alone would leave. */
  function Syndrome(d: Bitstring): Word {
    Serial(Zeros(16), d)
  }

  lemma {:induction false} SerialLinear(s: Word, t: Word, d: Bitstring, e: Bitstring)
    requires |d| == |e|
    ensures Serial(Xor(s, t), Xor(d, e)) == Xor(Serial(s, d), Serial(t, e))
    decreases |d|
  {
    if d != [] {
      var m, n := Mix(s, d[0]), Mix(t, e[0]);
      assert Mix(Xor(s, t), Xor(d, e)[0]) == Xor(m, n);
      StepLinear(m, n);
      assert Xor(d, e)[1..] == Xor(d[1..], e[1..]);
      SerialLinear(Step(m), Step(n), d[1..], e[1..]);
    }
  }

  /** Two messages of one length leave the same register exactly when their difference leaves none. */
  lemma SameRegister(a: seq<Byte>, b: seq<Byte>)
    requires |a| == |b|
    ensures Register(a) == Register(b) <==> Syndrome(Xor(BitsOf(a), BitsOf(b))) == Zeros(16)
  {
    SerialLinear(INITIAL, INITIAL, BitsOf(a), BitsOf(b));
    XorZeros(INITIAL);
    XorCancels(Register(a), Register(b));
  }

  lemma {:induction false} SerialZeros(s: Word, n: nat)
    ensures Serial(s, Zeros(n)) == StepN(n, s)
    decreases n
  {
    if n != 0 {
      assert Zeros(n)[1..] == Zeros(n - 1);
      assert Mix(s, false) == s;
      SerialZeros(Step(s), n - 1);
    }
  }

  // ----- Bursts

  /** Every error bit lies in the 16-bit window that starts at bit i. */
  predicate Burst(d: Bitstring, i: nat) {
    && i + 16 <= |d|
    && (forall j :: 0 <= j < i ==> !d[j])
    && (forall j :: i + 16 <= j < |d| ==> !d[j])
  }

  /** A 16-bit pattern is shifted through the register without loss. */
  lemma WindowSyndrome(w: Word)
    ensures Syndrome(w) == StepN(16, w)
  {
    FeedDigits(Zeros(16), w, 16);
    assert w[..16] == w && w[16..] + Zeros(16) == Zeros(16) && Xor(Zeros(16), w) == w;
    XorZeros(Syndrome(w));
  }

  /** Error-free bits before and after a pattern do not hide it. */
  lemma PaddedSyndrome(m: nat, w: Bitstring, n: nat)
    ensures Syndrome(Zeros(m) + (w + Zeros(n))) == StepN(n, Syndrome(w))
  {
    SerialAppend(Zeros(16), Zeros(m), w + Zeros(n));
    SerialZeros(Zeros(16), m);
    StepNZero(m, Zeros(16));
    SerialAppend(Zeros(16), w, Zeros(n));
    SerialZeros(Syndrome(w), n);
  }

  lemma ClearWindow(d: Bitstring, i: nat)
    requires Burst(d, i)
    ensures d[i..i + 16] == Zeros(16) ==> d == Zeros(|d|)
  {
    if d[i..i + 16] == Zeros(16) {
      forall j | i <= j < i + 16 ensures !d[j] {
        assert d[j] == d[i..i + 16][j - i];
      }
    }
  }

  /** A nonzero error pattern confined to 16 consecutive bits is never lost. */
  lemma BurstSyndrome(d: Bitstring, i: nat)
    requires Burst(d, i) && d != Zeros(|d|)
    ensures Syndrome(d) != Zeros(16)
  {
    var w: Word, n := d[i..i + 16], |d| - i - 16;
    ClearWindow(d, i);
    assert d == Zeros(i) + (w + Zeros(n));
    PaddedSyndrome(i, w, n);
    WindowSyndrome(w);
    StepNZero(n, StepN(16, w));
    StepNZero(16, w);
  }

  // ----- Parity

  function Weight(d: Bitstring): nat {
    if d == [] then 0 else (if d[0] then 1 else 0) + Weight(d[1..])
  }

  predicate Odd(d: Bitstring) {
    Weight(d) % 2 == 1
  }

  lemma {:induction false} WeightAppend(a: Bitstring, b: Bitstring)
    ensures Weight(a + b) == Weight(a) + Weight(b)
    decreases |a|
  {
    if a == [] {
      assert a + b == b;
    } else {
      assert (a + b)[1..] == a[1..] + b;
      WeightAppend(a[1..], b);
    }
  }

  lemma {:induction false} OddXor(a: Bitstring, b: Bitstring)
    requires |a| == |b|
    ensures Odd(Xor(a, b)) == (Odd(a) != Odd(b))
    decreases |a|
  {
    if a != [] {
      assert Xor(a, b)[1..] == Xor(a[1..], b[1..]);
      OddXor(a[1..], b[1..]);
    }
  }

  lemma {:induction false} WeightZeros(n: nat)
    ensures Weight(Zeros(n)) == 0
  {
    if n != 0 {
      assert Zeros(n)[1..] == Zeros(n - 1);
      WeightZeros(n - 1);
    }
  }

  lemma NibbleWeights()
    ensures Weight(Digits(0, 4)) == 0 && Weight(Digits(4, 4)) == 1 && Weight(Digits(8, 4)) == 1
  {
    assert Digits(0, 4) == [false, false, false, false];
    assert Digits(4, 4) == [false, false, true, false];
    assert Digits(8, 4) == [false, false, false, true];
  }

  lemma PolynomialWeight()
    ensures Weight(POLYNOMIAL) == 3
  {
    NibbleWeights();
    WeightAppend(Digits(8, 4) + Digits(0, 4) + Digits(4, 4), Digits(8, 4));
    WeightAppend(Digits(8, 4) + Digits(0, 4), Digits(4, 4));
    WeightAppend(Digits(8, 4), Digits(0, 4));
  }

  lemma PolynomialOdd()
    ensures Odd(POLYNOMIAL)
  {
    PolynomialWeight();
  }

  lemma ShiftParity(s: Word)
    ensures Odd(Shift(s)) == (Odd(s) != s[0])
  {
    WeightAppend(s[1..], [false]);
    assert Weight([false]) == 0;
  }

  lemma StepParity(s: Word)
    ensures Odd(Step(s)) == Odd(s)
  {
    ShiftParity(s);
    PolynomialOdd();
    OddXor(Shift(s), POLYNOMIAL);
  }

  lemma MixParity(s: Word, b: bool)
    ensures Odd(Mix(s, b)) == (Odd(s) != b)
  {
    assert Mix(s, b)[1..] == s[1..];
  }

  lemma {:induction false} SerialParity(s: Word, d: Bitstring)
    ensures Odd(Serial(s, d)) == (Odd(s) != Odd(d))
    decreases |d|
  {
    if d != [] {
      MixParity(s, d[0]);
      StepParity(Mix(s, d[0]));
      SerialParity(Step(Mix(s, d[0])), d[1..]);
    }
  }

  lemma {:induction false} WeightOnes(n: nat)
    ensures Weight(Ones(n)) == n
  {
    if n != 0 {
      assert Ones(n)[1..] == Ones(n - 1);
      WeightOnes(n - 1);
    }
  }

  /** A message and its checksum have the same bit parity. */
  lemma ChecksumParity(data: seq<Byte>)
    ensures Odd(Checksum(data)) == Odd(BitsOf(data))
  {
    WeightOnes(16);
    SerialParity(INITIAL, BitsOf(data));
    OddXor(Register(data), INITIAL);
  }

  /** An odd number of errors is never lost. */
  lemma OddSyndrome(d: Bitstring)
    requires Odd(d)
    ensures Syndrome(d) != Zeros(16)
  {
    SerialParity(Zeros(16), d);
    WeightZeros(16);
  }
}
