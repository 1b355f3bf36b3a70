/** 64-bit two's-complement words, and the arithmetic that the compiled code and the source
    language share: truncating division, bits, shifts and the low half of a word. */
module Words {

  const MODULUS: int := 0x1_0000_0000_0000_0000
  const HALF: int := 0x8000_0000_0000_0000
  const LOW32: int := 0x1_0000_0000

  /** The contents of a 64-bit register, read as a signed number. */
  type Word = x: int | -0x8000_0000_0000_0000 <= x < 0x8000_0000_0000_0000

  /** The word congruent to x. */
  function Wrap(x: int): Word {
    (x + HALF) % MODULUS - HALF
  }

  /** The word's bits, read as an unsigned number. */
  function Unsigned(w: Word): int {
    if w < 0 then w + MODULUS else w
  }

  function Bool(b: bool): Word {
    if b then 1 else 0
  }

  /** Division that truncates toward zero, as idiv and C99 do. */
  function TruncDiv(a: int, b: int): int
    requires b != 0
  {
    if (a < 0) == (b < 0) then Abs(a) / Abs(b) else -(Abs(a) / Abs(b))
  }

  /** The remainder has the dividend's sign. */
  function TruncRem(a: int, b: int): int
    requires b != 0
  {
    if a < 0 then -(Abs(a) % Abs(b)) else Abs(a) % Abs(b)
  }

  function Abs(a: int): int {
    if a < 0 then 0 - a else a
  }

  lemma SignProduct(a: int, b: int)
    ensures (0 - a) * b == 0 - a * b
  {
  }

  /** Quotient and remainder recompose the dividend (section 6.5.5 of
      ISO/IEC 9899:1999), and the remainder is smaller than the divisor. */
  lemma DivRem(a: int, b: int)
    requires b != 0
    ensures a == TruncDiv(a, b) * b + TruncRem(a, b)
    ensures Abs(TruncRem(a, b)) < Abs(b)
  {
    var q, m := Abs(a) / Abs(b), Abs(b);
    assert Abs(a) == m * q + Abs(a) % m;
    assert q * m == m * q;
    SignProduct(q, m);
    SignProduct(q, b);
    SignProduct(m, q);
    assert b < 0 ==> q * b == 0 - q * m by { SignProduct(m, q); if b < 0 { assert b == 0 - m; } }
  }

  lemma MulMonotone(a: int, b: int, q: int)
    requires a <= b && 0 <= q
    ensures a * q <= b * q
  {
  }

  lemma TruncDivFits(a: Word, b: Word)
    requires b != 0 && !(a == -HALF && b == -1)
    ensures -HALF <= TruncDiv(a, b) < HALF
  {
    var q, m := Abs(a) / Abs(b), Abs(b);
    QuotientBound(Abs(a), m);
  }

  lemma QuotientBound(a: int, m: int)
    requires 0 <= a && 1 <= m
    ensures 0 <= a / m <= a
    ensures m >= 2 ==> 2 * (a / m) <= a
  {
    var q := a / m;
    assert a == m * q + a % m;
    MulMonotone(1, m, q);
    if m >= 2 {
      MulMonotone(2, m, q);
    }
  }

  // ---------------------------------------------------------------- bits

  datatype BitOp = And | Or | Xor

  function BitOf(op: BitOp, x: bool, y: bool): bool {
    match op
    case And => x && y
    case Or => x || y
    case Xor => x != y
  }

  /** Bitwise combination of two numbers whose two's-complement form has n
      magnitude bits below the sign bit. */
  function Bitwise(op: BitOp, n: nat, a: int, b: int): int {
    if n == 0 then
      if BitOf(op, a < 0, b < 0) then -1 else 0
    else
      2 * Bitwise(op, n - 1, a / 2, b / 2) + (if BitOf(op, a % 2 == 1, b % 2 == 1) then 1 else 0)
  }

  function Pow2(n: nat): (p: nat)
    ensures p >= 1
  {
    if n == 0 then 1 else 2 * Pow2(n - 1)
  }

  lemma {:induction false} BitwiseRange(op: BitOp, n: nat, a: int, b: int)
    ensures 0 - Pow2(n) <= Bitwise(op, n, a, b) < Pow2(n)
  {
    if n > 0 {
      BitwiseRange(op, n - 1, a / 2, b / 2);
    }
  }

  lemma {:induction false} Pow2Positive(m: nat, n: nat)
    requires m <= n
    ensures Pow2(m) <= Pow2(n)
  {
    if m < n {
      Pow2Positive(m, n - 1);
    }
  }

  lemma Pow2Of63()
    ensures Pow2(63) == HALF
  {
    assert Pow2(10) == 1024;
    assert Pow2(20) == 1024 * 1024 by { Pow2Add(10, 10); }
    assert Pow2(40) == 0x100_0000_0000 by { Pow2Add(20, 20); }
    assert Pow2(60) == 0x1000_0000_0000_0000 by { Pow2Add(40, 20); }
    assert Pow2(63) == HALF by { Pow2Add(60, 3); assert Pow2(3) == 8; }
  }

  lemma {:induction false} Pow2Add(m: nat, n: nat)
    ensures Pow2(m + n) == Pow2(m) * Pow2(n)
  {
    if n > 0 {
      Pow2Add(m, n - 1);
    }
  }

  /** Widening the operands by copies of the sign bit widens the result the same
      way: a 32-bit and a 64-bit bitwise operation agree on 32-bit operands. */
  lemma {:induction false} BitwiseWiden(op: BitOp, m: nat, n: nat, a: int, b: int)
    requires m <= n
    requires 0 - Pow2(m) <= a < Pow2(m) && 0 - Pow2(m) <= b < Pow2(m)
    ensures Bitwise(op, m, a, b) == Bitwise(op, n, a, b)
  {
    if m > 0 {
      BitwiseWiden(op, m - 1, n - 1, a / 2, b / 2);
    } else if n > 0 {
      assert a / 2 == a && b / 2 == b;
      BitwiseWiden(op, 0, n - 1, a, b);
      assert Bitwise(op, n - 1, a, b) == Bitwise(op, 0, a, b);
    }
  }

  function BitWord(op: BitOp, a: Word, b: Word): Word {
    BitwiseRange(op, 63, a, b);
    Pow2Of63();
    Bitwise(op, 63, a, b)
  }

  /** One's complement is negation minus one. */
  function Complement(a: Word): Word {
    -1 - a
  }

  /** A left shift; the hardware uses the low six bits of the count. */
  function ShiftLeft(a: Word, count: Word): Word {
    Wrap(a * Pow2(count % 64))
  }

  /** An arithmetic right shift. */
  function ShiftRight(a: Word, count: Word): Word {
    ShiftRightFits(a, Pow2(count % 64));
    a / Pow2(count % 64)
  }

  lemma ShiftRightFits(a: Word, p: int)
    requires p >= 1
    ensures -HALF <= a / p < HALF
  {
    if a >= 0 {
      QuotientBound(a, p);
    } else {
      QuotientBound(-1 - a, p);
      FloorOfNegative(a, p);
    }
  }

  lemma FloorOfNegative(a: int, p: int)
    requires a < 0 && p >= 1
    ensures a / p == -1 - (-1 - a) / p
  {
    var q := (-1 - a) / p;
    var r := (-1 - a) % p;
    assert -1 - a == p * q + r;
    assert a == p * (-1 - q) + (p - 1 - r);
    DivUnique(a, p, -1 - q, p - 1 - r);
  }

  lemma DivUnique(a: int, p: int, q: int, r: int)
    requires p >= 1 && a == p * q + r && 0 <= r < p
    ensures a / p == q && a % p == r
  {
    var d := a / p - q;
    assert a == p * (a / p) + a % p;
    assert p * (a / p) == p * q + p * d;
    assert p * d == r - a % p;
    if d >= 1 {
      MulMonotone(1, d, p);
      assert false;
    } else if d <= -1 {
      MulMonotone(1, 0 - d, p);
      SignProduct(d, p);
      assert false;
    }
  }

  /** The low 32 bits of a word, read as a signed number. */
  function Low32(w: Word): int {
    (w + LOW32 / 2) % LOW32 - LOW32 / 2
  }
}
