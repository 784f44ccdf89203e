/** Multiplication modulo the polynomial. A turn of the register multiplies by x, so that turns add up as
    exponents do. Here registers are spelled out digit by digit, so that products can be computed. */
module Polynomials {
  import opened Bits
  import opened Crc

  // ----- Registers spelled out

  datatype Digit = O | I

  datatype Reg = Reg(
    b0: Digit, b1: Digit, b2: Digit, b3: Digit, b4: Digit, b5: Digit, b6: Digit, b7: Digit,
    b8: Digit, b9: Digit, b10: Digit, b11: Digit, b12: Digit, b13: Digit, b14: Digit, b15: Digit)

  const ZERO: Reg := Reg(O, O, O, O, O, O, O, O, O, O, O, O, O, O, O, O)

  function Add(b: Digit, c: Digit): Digit {
    match b
    case O => c
    case I => if c.O? then I else O
  }

  function Turn(r: Reg): Reg {
    Reg(r.b1, r.b2, r.b3, Add(r.b4, r.b0), r.b5, r.b6, r.b7, r.b8,
        r.b9, r.b10, Add(r.b11, r.b0), r.b12, r.b13, r.b14, r.b15, r.b0)
  }

  function Sum(r: Reg, s: Reg): Reg {
    Reg(Add(r.b0, s.b0), Add(r.b1, s.b1), Add(r.b2, s.b2), Add(r.b3, s.b3),
        Add(r.b4, s.b4), Add(r.b5, s.b5), Add(r.b6, s.b6), Add(r.b7, s.b7),
        Add(r.b8, s.b8), Add(r.b9, s.b9), Add(r.b10, s.b10), Add(r.b11, s.b11),
        Add(r.b12, s.b12), Add(r.b13, s.b13), Add(r.b14, s.b14), Add(r.b15, s.b15))
  }

  /** One digit of Horner's rule. */
  function Fold(acc: Reg, digit: Digit, factor: Reg): Reg {
    if digit.I? then Sum(Turn(acc), factor) else Turn(acc)
  }

  /** The product of two polynomials, by Horner's rule over the digits of the first. */
  function Product(r: Reg, factor: Reg): Reg {
    var p0 := Fold(ZERO, r.b0, factor);
    var p1 := Fold(p0, r.b1, factor);
    var p2 := Fold(p1, r.b2, factor);
    var p3 := Fold(p2, r.b3, factor);
    var p4 := Fold(p3, r.b4, factor);
    var p5 := Fold(p4, r.b5, factor);
    var p6 := Fold(p5, r.b6, factor);
    var p7 := Fold(p6, r.b7, factor);
    var p8 := Fold(p7, r.b8, factor);
    var p9 := Fold(p8, r.b9, factor);
    var p10 := Fold(p9, r.b10, factor);
    var p11 := Fold(p10, r.b11, factor);
    var p12 := Fold(p11, r.b12, factor);
    var p13 := Fold(p12, r.b13, factor);
    var p14 := Fold(p13, r.b14, factor);
    Fold(p14, r.b15, factor)
  }

  // ----- Registers and words

  function At(w: Word, i: nat): Digit
    requires i < 16
  {
    if w[i] then I else O
  }

  /** The register holds the bits of the word. */
  predicate Is(r: Reg, w: Word) {
    && r.b0 == At(w, 0) && r.b1 == At(w, 1) && r.b2 == At(w, 2) && r.b3 == At(w, 3) &&
    r.b4 == At(w, 4) && r.b5 == At(w, 5) && r.b6 == At(w, 6) && r.b7 == At(w, 7) &&
    r.b8 == At(w, 8) && r.b9 == At(w, 9) && r.b10 == At(w, 10) && r.b11 == At(w, 11) &&
    r.b12 == At(w, 12) && r.b13 == At(w, 13) && r.b14 == At(w, 14) && r.b15 == At(w, 15)
  }

  lemma SameWord(r: Reg, w: Word, v: Word)
    requires Is(r, w) && Is(r, v)
    ensures w == v
  {
    forall i | 0 <= i < 16 ensures w[i] == v[i] {
      assert At(w, i) == At(v, i);
    }
  }

  lemma XorAt(w: Word, v: Word, i: nat)
    requires i < 16
    ensures At(Xor(w, v), i) == Add(At(w, i), At(v, i))
  {
  }

  lemma SumIs(r: Reg, w: Word, s: Reg, v: Word)
    requires Is(r, w) && Is(s, v)
    ensures Is(Sum(r, s), Xor(w, v))
  {
    XorAt(w, v, 0); XorAt(w, v, 1); XorAt(w, v, 2); XorAt(w, v, 3);
    XorAt(w, v, 4); XorAt(w, v, 5); XorAt(w, v, 6); XorAt(w, v, 7);
    XorAt(w, v, 8); XorAt(w, v, 9); XorAt(w, v, 10); XorAt(w, v, 11);
    XorAt(w, v, 12); XorAt(w, v, 13); XorAt(w, v, 14); XorAt(w, v, 15);
  }

  lemma PolynomialDigit(i: nat)
    requires i < 16
    ensures POLYNOMIAL[i] <==> i == 3 || i == 10 || i == 15
  {
    assert Digits(8, 4) == [false, false, false, true];
    assert Digits(0, 4) == [false, false, false, false];
    assert Digits(4, 4) == [false, false, true, false];
  }

  lemma StepAt(w: Word, i: nat)
    requires i < 16
    ensures At(Step(w), i) ==
      if i == 15 then At(w, 0) else if i == 3 || i == 10 then Add(At(w, i + 1), At(w, 0)) else At(w, i + 1)
  {
    PolynomialDigit(i);
  }

  lemma TurnIs(r: Reg, w: Word)
    requires Is(r, w)
    ensures Is(Turn(r), Step(w))
  {
    StepAt(w, 0); StepAt(w, 1); StepAt(w, 2); StepAt(w, 3);
    StepAt(w, 4); StepAt(w, 5); StepAt(w, 6); StepAt(w, 7);
    StepAt(w, 8); StepAt(w, 9); StepAt(w, 10); StepAt(w, 11);
    StepAt(w, 12); StepAt(w, 13); StepAt(w, 14); StepAt(w, 15);
  }

  function Turn2(r: Reg): Reg {
    Turn(Turn(r))
  }

  function Turn4(r: Reg): Reg {
    Turn2(Turn2(r))
  }

  lemma TwoSteps(w: Word)
    ensures StepN(2, w) == Step(Step(w))
  {
    assert StepN(2, w) == StepN(1, Step(w));
  }

  lemma Turn2Is(r: Reg, w: Word)
    requires Is(r, w)
    ensures Is(Turn2(r), StepN(2, w))
  {
    TurnIs(r, w);
    TurnIs(Turn(r), Step(w));
    TwoSteps(w);
  }

  lemma Turn4Is(r: Reg, w: Word)
    requires Is(r, w)
    ensures Is(Turn4(r), StepN(4, w))
  {
    Turn2Is(r, w);
    Turn2Is(Turn2(r), StepN(2, w));
    StepNAdd(2, 2, w);
  }

  // Sixteen ones, and 0xf0b8.
  const ONES: Reg := Reg(I, I, I, I, I, I, I, I, I, I, I, I, I, I, I, I)
  const GOOD: Reg := Reg(O, O, O, I, I, I, O, I, O, O, O, O, I, I, I, I)

  lemma OnesIs()
    ensures Is(ONES, INITIAL)
  {
  }

  lemma SixteenTurns()
    ensures Turn4(Turn4(Turn4(Turn4(ONES)))) == GOOD
  {
  }

  lemma Sixteen(w: Word)
    ensures StepN(16, w) == StepN(4, StepN(4, StepN(4, StepN(4, w))))
  {
    StepNAdd(8, 8, w);
    StepNAdd(4, 4, w);
    StepNAdd(4, 4, StepN(8, w));
  }

  lemma ResidueIs()
    ensures Is(GOOD, RESIDUE)
  {
    assert Digits(8, 4) == [false, false, false, true];
    assert Digits(11, 4) == [true, true, false, true];
    assert Digits(0, 4) == [false, false, false, false];
    assert Digits(15, 4) == [true, true, true, true];
  }

  /** The register after a message and its checksum is 0xf0b8. */
  lemma GoodResidue()
    ensures Good() == RESIDUE
  {
    OnesIs();
    var a, b := StepN(4, INITIAL), Turn4(ONES);
    Turn4Is(ONES, INITIAL);
    Turn4Is(b, a);
    Turn4Is(Turn4(b), StepN(4, a));
    Turn4Is(Turn4(Turn4(b)), StepN(4, StepN(4, a)));
    Sixteen(INITIAL);
    SixteenTurns();
    ResidueIs();
    SameWord(GOOD, Good(), RESIDUE);
  }

  /** The residue law with the constant that the standard gives. */
  lemma ResidueConstant(data: seq<Byte>, low: Byte, high: Byte)
    ensures Register(data + [low, high]) == RESIDUE <==> Join(low, high) == Checksum(data)
  {
    GoodResidue();
    ResidueLaw(data, low, high);
  }

  lemma FoldIs(acc: Reg, a: Word, digit: Digit, factor: Reg, f: Word)
    requires Is(acc, a) && Is(factor, f)
    ensures Is(Fold(acc, digit, factor), if digit.I? then Xor(Step(a), f) else Step(a))
  {
    TurnIs(acc, a);
    SumIs(Turn(acc), Step(a), factor, f);
  }

  // ----- Multiplication is turning

  /** Horner's rule on words. */
  function Horner(acc: Word, digits: Bitstring, factor: Word): Word
    decreases |digits|
  {
    if digits == [] then acc
    else Horner(if digits[0] then Xor(Step(acc), factor) else Step(acc), digits[1..], factor)
  }

  function Folds(acc: Reg, w: Word, k: nat, factor: Reg): Reg
    requires k <= 16
    decreases 16 - k
  {
    if k == 16 then acc else Folds(Fold(acc, At(w, k), factor), w, k + 1, factor)
  }

  lemma {:induction false} FoldsIs(acc: Reg, a: Word, w: Word, k: nat, factor: Reg, f: Word)
    requires k <= 16 && Is(acc, a) && Is(factor, f)
    ensures Is(Folds(acc, w, k, factor), Horner(a, w[k..], f))
    decreases 16 - k
  {
    if k < 16 {
      FoldIs(acc, a, At(w, k), factor, f);
      assert w[k..][1..] == w[k + 1..];
      FoldsIs(Fold(acc, At(w, k), factor), if w[k] then Xor(Step(a), f) else Step(a), w, k + 1, factor, f);
    }
  }

  lemma FoldsOnce(acc: Reg, w: Word, k: nat, factor: Reg)
    requires k < 16
    ensures Folds(acc, w, k, factor) == Folds(Fold(acc, At(w, k), factor), w, k + 1, factor)
  {
  }

  lemma ProductFolds(r: Reg, w: Word, factor: Reg)
    requires Is(r, w)
    ensures Product(r, factor) == Folds(ZERO, w, 0, factor)
  {
    FoldsOnce(ZERO, w, 0, factor);
    var p0 := Fold(ZERO, r.b0, factor);
    FoldsOnce(p0, w, 1, factor);
    var p1 := Fold(p0, r.b1, factor);
    FoldsOnce(p1, w, 2, factor);
    var p2 := Fold(p1, r.b2, factor);
    FoldsOnce(p2, w, 3, factor);
    var p3 := Fold(p2, r.b3, factor);
    FoldsOnce(p3, w, 4, factor);
    var p4 := Fold(p3, r.b4, factor);
    FoldsOnce(p4, w, 5, factor);
    var p5 := Fold(p4, r.b5, factor);
    FoldsOnce(p5, w, 6, factor);
    var p6 := Fold(p5, r.b6, factor);
    FoldsOnce(p6, w, 7, factor);
    var p7 := Fold(p6, r.b7, factor);
    FoldsOnce(p7, w, 8, factor);
    var p8 := Fold(p7, r.b8, factor);
    FoldsOnce(p8, w, 9, factor);
    var p9 := Fold(p8, r.b9, factor);
    FoldsOnce(p9, w, 10, factor);
    var p10 := Fold(p9, r.b10, factor);
    FoldsOnce(p10, w, 11, factor);
    var p11 := Fold(p10, r.b11, factor);
    FoldsOnce(p11, w, 12, factor);
    var p12 := Fold(p11, r.b12, factor);
    FoldsOnce(p12, w, 13, factor);
    var p13 := Fold(p12, r.b13, factor);
    FoldsOnce(p13, w, 14, factor);
    var p14 := Fold(p13, r.b14, factor);
    FoldsOnce(p14, w, 15, factor);
  }

  lemma ProductIs(r: Reg, w: Word, factor: Reg, f: Word)
    requires Is(r, w) && Is(factor, f)
    ensures Is(Product(r, factor), Horner(Zeros(16), w, f))
  {
    assert w[0..] == w;
    ProductFolds(r, w, factor);
    FoldsIs(ZERO, Zeros(16), w, 0, factor, f);
  }

  /** A single bit, the polynomial 1. */
  const UNIT: Word := Zeros(15) + [true]

  lemma StepCommutes(n: nat, s: Word)
    ensures StepN(n, Step(s)) == Step(StepN(n, s))
  {
    StepNAdd(n, 1, s);
    StepNAdd(1, n, s);
    assert StepN(1, s) == Step(s) && StepN(1, StepN(n, s)) == Step(StepN(n, s));
  }

  lemma {:induction false} HornerTurned(n: nat, acc: Word, digits: Bitstring, f: Word)
    ensures Horner(StepN(n, acc), digits, StepN(n, f)) == StepN(n, Horner(acc, digits, f))
    decreases |digits|
  {
    if digits != [] {
      StepCommutes(n, acc);
      StepNLinear(n, Step(acc), f);
      HornerTurned(n, if digits[0] then Xor(Step(acc), f) else Step(acc), digits[1..], f);
    }
  }

  /** Horner's rule with the factor 1 shifts the digits in one by one. */
  lemma {:induction false} HornerUnit(w: Word, k: nat)
    requires k <= 16
    ensures Horner(Zeros(16 - k) + w[..k], w[k..], UNIT) == w
    decreases 16 - k
  {
    if k == 16 {
      assert Zeros(0) + w[..16] == w;
    } else {
      ShiftIn(w, k);
      assert w[k..][1..] == w[k + 1..];
      HornerUnit(w, k + 1);
    }
  }

  lemma ShiftIn(w: Word, k: nat)
    requires k < 16
    ensures var acc: Word := Zeros(16 - k) + w[..k];
      (if w[k] then Xor(Step(acc), UNIT) else Step(acc)) == Zeros(15 - k) + w[..k + 1]
  {
    var acc: Word := Zeros(16 - k) + w[..k];
    assert !acc[0] && Step(acc) == Shift(acc);
    var next: Word := if w[k] then Xor(Step(acc), UNIT) else Step(acc);
    assert next == Zeros(15 - k) + w[..k + 1];
  }

  /** Multiplying by the n-th power of x is turning n times. */
  lemma HornerPower(w: Word, n: nat)
    ensures Horner(Zeros(16), w, StepN(n, UNIT)) == StepN(n, w)
  {
    StepNZero(n, Zeros(16));
    HornerTurned(n, Zeros(16), w, UNIT);
    HornerUnit(w, 0);
    assert Zeros(16) + w[..0] == Zeros(16) && w[0..] == w;
  }

  // ----- Powers

  /** The n-th power of x to the u. The unit u keeps n symbolic for the solver. */
  function Power(n: nat, u: nat): Word {
    StepN(n * u, UNIT)
  }

  lemma PowerAdd(m: nat, n: nat, u: nat)
    ensures Power(m + n, u) == StepN(n * u, Power(m, u))
  {
    assert (m + n) * u == m * u + n * u;
    StepNAdd(m * u, n * u, UNIT);
  }

  lemma Multiply(m: nat, n: nat, u: nat, r: Reg, s: Reg, t: Reg)
    requires Is(r, Power(m, u)) && Is(s, Power(n, u)) && Product(r, s) == t
    ensures Is(t, Power(m + n, u))
  {
    ProductIs(r, Power(m, u), s, Power(n, u));
    HornerPower(Power(m, u), n * u);
    PowerAdd(m, n, u);
  }
}
