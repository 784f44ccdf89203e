/** The order of the register: how many turns bring a single bit back to where it was. It bounds which
    pairs of errors can cancel. */
module CrcPeriod {
  import opened Bits
  import opened Crc
  import opened CrcDetection
  import opened Polynomials

  // ----- Powers of x

  const ONE: Reg := Reg(O, O, O, O, O, O, O, O, O, O, O, O, O, O, O, I)

  const X1: Reg := Reg(O, O, O, O, O, O, O, O, O, O, O, O, O, O, I, O)
  const X2: Reg := Reg(O, O, O, O, O, O, O, O, O, O, O, O, O, I, O, O)
  const X4: Reg := Reg(O, O, O, O, O, O, O, O, O, O, O, I, O, O, O, O)
  const X8: Reg := Reg(O, O, O, O, O, O, O, I, O, O, O, O, O, O, O, O)
  const X16: Reg := Reg(O, O, O, I, O, O, O, O, O, O, I, O, O, O, O, I)
  const X32: Reg := Reg(O, O, I, I, O, I, I, I, O, O, I, I, O, O, O, O)
  const X64: Reg := Reg(I, O, I, I, I, O, O, O, O, I, I, O, O, O, O, I)
  const X128: Reg := Reg(I, O, I, O, I, I, I, O, I, I, I, I, I, I, O, O)
  const X192: Reg := Reg(O, I, I, O, O, I, O, I, O, O, O, O, I, O, I, I)
  const X208: Reg := Reg(O, I, O, O, O, I, O, I, I, O, I, I, O, I, O, O)
  const X216: Reg := Reg(I, O, I, O, I, I, O, O, O, I, I, O, O, O, O, I)
  const X217: Reg := Reg(O, I, O, O, I, O, O, O, I, I, I, O, O, O, I, I)
  const X256: Reg := Reg(I, O, O, O, I, I, I, O, O, O, I, O, I, O, O, I)
  const X512: Reg := Reg(O, O, O, I, O, O, I, I, I, I, I, I, I, I, O, O)
  const X1024: Reg := Reg(O, O, I, I, O, I, I, O, I, I, O, O, O, I, O, O)
  const X1056: Reg := Reg(I, I, I, I, O, O, O, I, O, I, O, O, O, I, I, I)
  const X1057: Reg := Reg(I, I, I, I, O, O, I, O, I, O, I, O, I, I, I, I)
  const X2048: Reg := Reg(I, I, I, I, I, I, O, I, O, I, O, I, O, O, O, O)
  const X4096: Reg := Reg(I, O, I, O, I, O, I, O, I, O, O, I, I, I, I, O)
  const X4608: Reg := Reg(O, I, O, I, O, I, O, O, I, O, I, O, O, O, O, O)
  const X4672: Reg := Reg(O, O, O, O, O, O, O, I, O, O, O, O, O, I, I, O)
  const X4680: Reg := Reg(O, O, O, I, O, I, I, O, O, O, I, O, O, O, O, I)
  const X4681: Reg := Reg(O, O, I, O, I, I, O, O, O, I, O, O, O, O, I, O)
  const X8192: Reg := Reg(I, O, O, O, I, O, O, O, O, O, O, I, I, I, O, O)
  const X16384: Reg := Reg(O, I, O, O, O, I, O, O, O, I, O, I, I, O, O, O)

  // ----- Which powers come back to 1

  // 32767 is 7 times 31 times 151. The powers 4681, 1057 and 217 leave out one of these factors each.

  predicate Returns(n: nat, u: nat) {
    Power(n, u) == UNIT
  }

  lemma UnitIs()
    ensures Is(ONE, UNIT)
  {
  }

  /** A power with a digit other than that of 1 is not 1. */
  lemma Elsewhere(n: nat, u: nat, r: Reg, i: nat)
    requires Is(r, Power(n, u)) && i < 15 && At(Power(n, u), i) == I
    ensures !Returns(n, u)
  {
    assert Power(n, u)[i] && !UNIT[i];
  }

  lemma SquaresTo16(u: nat)
    requires Is(X1, Power(1, u))
    ensures Is(X8, Power(8, u)) && Is(X16, Power(16, u))
  {
    Multiply(1, 1, u, X1, X1, X2);
    Multiply(2, 2, u, X2, X2, X4);
    Multiply(4, 4, u, X4, X4, X8);
    Multiply(8, 8, u, X8, X8, X16);
  }

  lemma SquaresTo256(u: nat)
    requires Is(X16, Power(16, u))
    ensures Is(X32, Power(32, u)) && Is(X64, Power(64, u)) && Is(X128, Power(128, u)) && Is(X256, Power(256, u))
  {
    Multiply(16, 16, u, X16, X16, X32);
    Multiply(32, 32, u, X32, X32, X64);
    Multiply(64, 64, u, X64, X64, X128);
    Multiply(128, 128, u, X128, X128, X256);
  }

  lemma SquaresTo4096(u: nat)
    requires Is(X256, Power(256, u))
    ensures Is(X512, Power(512, u)) && Is(X1024, Power(1024, u)) && Is(X4096, Power(4096, u))
  {
    Multiply(256, 256, u, X256, X256, X512);
    Multiply(512, 512, u, X512, X512, X1024);
    Multiply(1024, 1024, u, X1024, X1024, X2048);
    Multiply(2048, 2048, u, X2048, X2048, X4096);
  }

  lemma SquaresTo32768(u: nat)
    requires Is(X4096, Power(4096, u))
    ensures Is(X1, Power(32768, u))
  {
    Multiply(4096, 4096, u, X4096, X4096, X8192);
    Multiply(8192, 8192, u, X8192, X8192, X16384);
    Multiply(16384, 16384, u, X16384, X16384, X1);
  }

  /** The powers that the others are made of. */
  lemma Squares(u: nat)
    requires Is(X1, Power(1, u))
    ensures Is(X8, Power(8, u)) && Is(X16, Power(16, u)) && Is(X32, Power(32, u)) && Is(X64, Power(64, u))
    ensures Is(X128, Power(128, u)) && Is(X512, Power(512, u)) && Is(X1024, Power(1024, u))
    ensures Is(X4096, Power(4096, u)) && Is(X1, Power(32768, u))
  {
    SquaresTo16(u);
    SquaresTo256(u);
    SquaresTo4096(u);
    SquaresTo32768(u);
  }

  lemma Not217(u: nat)
    requires Is(X1, Power(1, u))
    ensures !Returns(217, u)
  {
    Squares(u);
    Multiply(128, 64, u, X128, X64, X192);
    Multiply(192, 16, u, X192, X16, X208);
    Multiply(208, 8, u, X208, X8, X216);
    Multiply(216, 1, u, X216, X1, X217);
    Elsewhere(217, u, X217, 1);
  }

  lemma Not1057(u: nat)
    requires Is(X1, Power(1, u))
    ensures !Returns(1057, u)
  {
    Squares(u);
    Multiply(1024, 32, u, X1024, X32, X1056);
    Multiply(1056, 1, u, X1056, X1, X1057);
    Elsewhere(1057, u, X1057, 0);
  }

  lemma Not4681(u: nat)
    requires Is(X1, Power(1, u))
    ensures !Returns(4681, u)
  {
    Squares(u);
    Multiply(4096, 512, u, X4096, X512, X4608);
    Multiply(4608, 64, u, X4608, X64, X4672);
    Multiply(4672, 8, u, X4672, X8, X4680);
    Multiply(4680, 1, u, X4680, X1, X4681);
    Elsewhere(4681, u, X4681, 2);
  }

  lemma Returns32767(u: nat)
    requires Is(X1, Power(1, u))
    ensures Returns(32767, u)
  {
    Squares(u);
    SameWord(X1, Power(1, u), Power(32768, u));
    PowerAdd(0, 1, u);
    PowerAdd(32767, 1, u);
    StepNInjective(u, Power(32767, u), UNIT);
  }

  // ----- The order divides every exponent that comes back

  lemma ReturnsLess(a: nat, b: nat, u: nat)
    requires Returns(a + b, u) && Returns(a, u)
    ensures Returns(b, u)
  {
    PowerAdd(a, b, u);
  }

  lemma {:induction false} ReturnsTimes(a: nat, k: nat, u: nat)
    requires Returns(a, u)
    ensures Returns(a * k, u)
    decreases k
  {
    if k == 0 {
      assert a * k * u == 0;
    } else {
      ReturnsTimes(a, k - 1, u);
      assert a * k == a * (k - 1) + a;
      PowerAdd(a * (k - 1), a, u);
    }
  }

  /** Euclid's algorithm, on the exponents. */
  lemma {:induction false} Common(c: nat, a: nat, b: nat, u: nat) returns (g: nat, i: nat, j: nat)
    requires 0 < a && 0 < b && Returns(c * a, u) && Returns(c * b, u)
    ensures a == g * i && b == g * j && Returns(c * g, u)
    decreases a + b
  {
    if a == b {
      g, i, j := a, 1, 1;
    } else if a > b {
      assert c * b + c * (a - b) == c * a;
      ReturnsLess(c * b, c * (a - b), u);
      g, i, j := Common(c, a - b, b, u);
      assert g * (i + j) == g * i + g * j;
      i := i + j;
    } else {
      assert c * a + c * (b - a) == c * b;
      ReturnsLess(c * a, c * (b - a), u);
      g, i, j := Common(c, a, b - a, u);
      assert g * (i + j) == g * i + g * j;
      j := i + j;
    }
  }

  ghost predicate Prime(q: nat) {
    q > 1 && forall g: nat, j: nat {:trigger g * j} :: g * j == q ==> g == 1 || g == q
  }

  lemma ReturnsRemainder(c: nat, q: nat, n: nat, u: nat)
    requires q > 0 && Returns(c * q, u) && Returns(n, u)
    ensures Returns(c * (n % q), u)
  {
    ReturnsTimes(n, c, u);
    ReturnsTimes(c * q, n / q, u);
    Remainder(c, q, n);
    ReturnsLess(c * q * (n / q), c * (n % q), u);
  }

  lemma Multiple(q: nat, i: nat)
    ensures i == 0 || q * i >= q
  {
  }

  /** If x^(c q) is 1 and x^c is not, with q prime, then q divides every exponent that comes back. */
  lemma FactorDivides(c: nat, q: nat, n: nat, u: nat)
    requires Prime(q) && Returns(c * q, u) && !Returns(c, u) && Returns(n, u)
    ensures n % q == 0
  {
    ReturnsRemainder(c, q, n, u);
    if n % q != 0 {
      assert c * 1 == c;
      var g, i, j := Common(c, n % q, q, u);
      Multiple(q, i);
      Trivial(q, g, j);
    }
  }

  lemma Trivial(q: nat, g: nat, j: nat)
    requires Prime(q) && q == g * j
    ensures g == 1 || g == q
  {
    assert g * j == q;
  }

  lemma Remainder(c: nat, q: nat, n: nat)
    requires q > 0
    ensures n * c == c * q * (n / q) + c * (n % q)
  {
    var m, r := n / q, n % q;
    assert n == q * m + r;
    assert (q * m + r) * c == c * (q * m) + c * r;
    assert c * (q * m) == c * q * m;
  }

  lemma SmallFactor(q: nat, g: nat, j: nat)
    requires q == 7 || q == 31 || q == 151
    requires g * j == q && g <= 12
    ensures g == 1 || g == q
  {
    if g == 0 { } else if g == 2 { } else if g == 3 { } else if g == 4 { } else if g == 5 { } else if g == 6 { }
    else if g == 7 { } else if g == 8 { } else if g == 9 { } else if g == 10 { } else if g == 11 { } else if g == 12 { }
  }

  lemma OneIsSmall(g: nat, j: nat)
    ensures g * j <= 151 ==> g <= 12 || j <= 12
  {
    if g >= 13 && j >= 13 {
      assert g * j >= 13 * j;
    }
  }

  lemma PrimeNumber(q: nat)
    requires q == 7 || q == 31 || q == 151
    ensures Prime(q)
  {
    forall g: nat, j: nat {:trigger g * j} | g * j == q ensures g == 1 || g == q {
      OneIsSmall(g, j);
      if g <= 12 {
        SmallFactor(q, g, j);
      } else {
        assert j * g == q;
        SmallFactor(q, j, g);
      }
    }
  }

  lemma AllFactors(n: nat)
    requires n % 7 == 0 && n % 31 == 0 && n % 151 == 0
    ensures n % 32767 == 0
  {
    var a, b, c := n / 7, n / 31, n / 151;
    var d := 9 * b - 2 * a;
    assert n == 217 * d;
    assert d == 151 * (23 * d - 16 * c);
    assert n == 32767 * (23 * d - 16 * c);
  }

  lemma OrderFor(n: nat, u: nat)
    requires Is(X1, Power(1, u))
    ensures Returns(n, u) <==> n % 32767 == 0
  {
    Not217(u);
    Not1057(u);
    Not4681(u);
    Returns32767(u);
    PrimeNumber(7);
    PrimeNumber(31);
    PrimeNumber(151);
    if Returns(n, u) {
      FactorDivides(4681, 7, n, u);
      FactorDivides(1057, 31, n, u);
      FactorDivides(217, 151, n, u);
      AllFactors(n);
    }
    if n % 32767 == 0 {
      ReturnsTimes(32767, n / 32767, u);
    }
  }

  /** The register has order 32767: the turns that bring a single bit back are its multiples. */
  lemma Order(n: nat)
    ensures StepN(n, UNIT) == UNIT <==> n % 32767 == 0
  {
    UnitIs();
    TurnIs(ONE, UNIT);
    assert StepN(1, UNIT) == StepN(0, Step(UNIT));
    OrderFor(n, 1);
    assert n * 1 == n;
  }

  // ----- Two errors

  /** An error in the bit that is next on the line. */
  const FIRST: Word := [true] + Zeros(15)

  lemma MixFirst(s: Word)
    ensures Mix(s, true) == Xor(s, FIRST)
  {
  }

  /** The single bit passes through every place of the register. */
  lemma {:induction false} UnitMoves(k: nat)
    requires k <= 15
    ensures StepN(k, UNIT) == Zeros(15 - k) + [true] + Zeros(k)
  {
    if k == 0 {
      assert Zeros(15) + [true] + Zeros(0) == UNIT;
    } else {
      UnitMoves(k - 1);
      var s: Word := Zeros(16 - k) + [true] + Zeros(k - 1);
      assert !s[0] && Step(s) == Shift(s);
      assert Shift(s) == Zeros(15 - k) + [true] + Zeros(k);
      StepCommutes(k - 1, UNIT);
    }
  }

  lemma FirstReached() returns (k: nat)
    ensures StepN(k, UNIT) == FIRST
  {
    k := 15;
    UnitMoves(k);
    assert Zeros(0) + [true] + Zeros(15) == FIRST;
  }

  lemma FirstOrder(n: nat)
    ensures StepN(n, FIRST) == FIRST <==> n % 32767 == 0
  {
    var k := FirstReached();
    Order(n);
    StepNAdd(k, n, UNIT);
    StepNAdd(n, k, UNIT);
    if StepN(n, FIRST) == FIRST {
      StepNInjective(k, StepN(n, UNIT), UNIT);
    }
  }

  lemma OneErrorSyndrome(m: nat)
    ensures Syndrome(Zeros(m) + [true]) == Step(FIRST)
  {
    SerialAppend(Zeros(16), Zeros(m), [true]);
    SerialZeros(Zeros(16), m);
    StepNZero(m, Zeros(16));
    SerialOne(Zeros(16));
    assert Xor(Zeros(16), FIRST) == FIRST;
  }

  /** Two errors with g good bits between them. */
  function Pair(m: nat, g: nat, n: nat): Bitstring {
    Zeros(m) + [true] + Zeros(g) + [true] + Zeros(n)
  }

  /** The register just before the second error. */
  lemma BeforeSecond(m: nat, g: nat)
    ensures Syndrome(Zeros(m) + [true] + Zeros(g)) == StepN(g + 1, FIRST)
  {
    OneErrorSyndrome(m);
    SerialAppend(Zeros(16), Zeros(m) + [true], Zeros(g));
    SerialZeros(Step(FIRST), g);
    assert StepN(g + 1, FIRST) == StepN(g, Step(FIRST));
  }

  /** One more error, and the good bits after it. */
  lemma AfterError(d: Bitstring, n: nat)
    ensures Syndrome(d + [true] + Zeros(n)) == StepN(n, Step(Xor(Syndrome(d), FIRST)))
  {
    var s := Syndrome(d);
    SerialAppend(Zeros(16), d, [true]);
    SerialOne(s);
    SerialAppend(Zeros(16), d + [true], Zeros(n));
    SerialZeros(Step(Xor(s, FIRST)), n);
  }

  lemma SerialOne(s: Word)
    ensures Serial(s, [true]) == Step(Xor(s, FIRST))
  {
    MixFirst(s);
    assert [true][1..] == [];
  }

  /** Two errors cancel exactly when their distance is a multiple of 32767 bits. */
  lemma TwoErrorSyndrome(m: nat, g: nat, n: nat)
    ensures Syndrome(Pair(m, g, n)) == Zeros(16) <==> (g + 1) % 32767 == 0
  {
    var s := StepN(g + 1, FIRST);
    BeforeSecond(m, g);
    AfterError(Zeros(m) + [true] + Zeros(g), n);
    FirstOrder(g + 1);
    XorCancels(s, FIRST);
    StepZero(Xor(s, FIRST));
    StepNZero(n, Step(Xor(s, FIRST)));
  }

  lemma {:induction false} FirstError(d: Bitstring) returns (i: nat)
    requires Weight(d) > 0
    ensures i < |d| && d == Zeros(i) + [true] + d[i + 1..] && Weight(d[i + 1..]) == Weight(d) - 1
    decreases |d|
  {
    if d[0] {
      i := 0;
      assert d == Zeros(0) + [true] + d[1..];
    } else {
      var j := FirstError(d[1..]);
      i := j + 1;
      assert d[1..][j + 1..] == d[i + 1..];
      assert d == [false] + d[1..] && Zeros(i) == [false] + Zeros(j);
    }
  }

  lemma {:induction false} NoError(d: Bitstring)
    requires Weight(d) == 0
    ensures d == Zeros(|d|)
    decreases |d|
  {
    if d != [] {
      NoError(d[1..]);
      assert d == [false] + d[1..];
    }
  }

  lemma TwoErrors(d: Bitstring) returns (m: nat, g: nat, n: nat)
    requires Weight(d) == 2
    ensures d == Pair(m, g, n) && g + 2 <= |d|
  {
    m := FirstError(d);
    var e := d[m + 1..];
    g := FirstError(e);
    NoError(e[g + 1..]);
    n := |e| - g - 1;
    Regroup(Zeros(m), Zeros(g), Zeros(n));
  }

  /** Exactly two errors in up to 32767 bits are never lost. */
  lemma PairSyndrome(d: Bitstring)
    requires Weight(d) == 2 && |d| <= 32767
    ensures Syndrome(d) != Zeros(16)
  {
    var m, g, n := TwoErrors(d);
    NotLost(d, m, g, n);
  }

  lemma NotLost(d: Bitstring, m: nat, g: nat, n: nat)
    requires d == Pair(m, g, n) && g + 1 < 32767
    ensures Syndrome(d) != Zeros(16)
  {
    TwoErrorSyndrome(m, g, n);
  }

  lemma Regroup(a: Bitstring, b: Bitstring, c: Bitstring)
    ensures a + [true] + (b + [true] + c) == a + [true] + b + [true] + c
  {
  }
}
