/** Constant folding against the code of the tree. */
module ConstEval {
  import opened Words
  import opened Runs
  import opened Machine
  import opened Syntax
  import opened Semantics
  import opened Code
  import opened Relation
  import opened ExprSim

  /** The integer types, signed or unsigned; long long is as wide as long. */
  datatype IntType = Char(signed: bool) | Short(signed: bool) | Int(signed: bool) | Long(signed: bool)

  /** The literal-only trees the folder accepts: a number as it is written, with its C99
      type, and operators on it. */
  datatype Const =
    | Number(value: int, kind: IntType)
    | Cast(to: IntType, operand: Const)
    | Negation(operand: Const)
    | Inverse(operand: Const)
    | Operation(op: BinaryOp, left: Const, right: Const)

  // ------------------------------------------------------------ the folder

  function Fits(x: int): Option<int> {
    if IsInt(x) then Some(x) else None
  }

  /** One step on `int` operands; None where the folder's own arithmetic is undefined,
      and for the operators it does not know. */
  function Fold(op: BinaryOp, a: int, b: int): Option<int>
    requires IsInt(a) && IsInt(b)
  {
    match op
    case Plus => Fits(a + b)
    case Minus => Fits(a - b)
    case Times => Fits(a * b)
    case Divide => if b == 0 then None else Fits(TruncDiv(a, b))
    case Remainder => if b == 0 || (a == -0x8000_0000 && b == -1) then None else Fits(TruncRem(a, b))
    case Less => Some(Bool(a < b))
    case Greater => Some(Bool(a > b))
    case ExclusiveOr => Fits(Bitwise(Xor, 31, a, b))
    case _ => None
  }

  /** A literal is cut to an `int` when its node is made; a cast is passed over. */
  function Evaluate(c: Const): (r: Option<int>)
    ensures r.Some? ==> IsInt(r.value)
  {
    match c
    case Number(v, _) => Some(Convert(v, INT))
    case Cast(_, a) => Evaluate(a)
    case Negation(a) => var v := Evaluate(a); if v.None? then None else Some(Bool(v.value == 0))
    case Inverse(a) => var v := Evaluate(a); if v.None? then None else Some(-1 - v.value)
    case Operation(op, a, b) =>
      var x := Evaluate(a);
      var y := Evaluate(b);
      if x.None? || y.None? then None else Fold(op, x.value, y.value)
  }

  /** The tree handed to the generator; an integer cast emits nothing. */
  function Lower(c: Const): Expr {
    match c
    case Number(v, _) => Literal(Convert(v, INT))
    case Cast(_, a) => Lower(a)
    case Negation(a) => LogicalNot(Lower(a))
    case Inverse(a) => OnesComplement(Lower(a))
    case Operation(op, a, b) => Binary(op, Lower(a), Lower(b))
  }

  // ------------------------------------------------------- what C99 says

  const INT := Int(true)

  function Span(t: IntType): int {
    match t
    case Char(_) => 0x100
    case Short(_) => 0x1_0000
    case Int(_) => LOW32
    case Long(_) => MODULUS
  }

  function Least(t: IntType): int {
    if t.signed then -(Span(t) / 2) else 0
  }

  predicate InType(v: int, t: IntType) {
    Least(t) <= v < Least(t) + Span(t)
  }

  /** The value of the type that is congruent to v (section 6.3.1.3). */
  function Convert(v: int, t: IntType): (r: int)
    ensures InType(r, t)
  {
    (v - Least(t)) % Span(t) + Least(t)
  }

  /** The integer promotions (section 6.3.1.1). */
  function Promoted(t: IntType): IntType {
    if t.Char? || t.Short? then INT else t
  }

  /** The usual arithmetic conversions (section 6.3.1.8). */
  function Usual(t: IntType, u: IntType): IntType {
    var p, q := Promoted(t), Promoted(u);
    if p.Long? && q.Long? then Long(p.signed && q.signed) else
    if p.Long? then p else
    if q.Long? then q else Int(p.signed && q.signed)
  }

  datatype Typed = Typed(value: int, kind: IntType)

  /** A result outside a signed type is undefined; an unsigned one wraps. */
  function Arith(r: int, t: IntType): Option<Typed> {
    if !t.signed then Some(Typed(Convert(r, t), t)) else if InType(r, t) then Some(Typed(r, t)) else None
  }

  /** One step on operands of type t. */
  function Step(op: BinaryOp, t: IntType, x: int, y: int): Option<Typed> {
    match op
    case Plus => Arith(x + y, t)
    case Minus => Arith(x - y, t)
    case Times => Arith(x * y, t)
    case Divide => if y == 0 then None else Arith(TruncDiv(x, y), t)
    case Remainder => if y == 0 || !InType(TruncDiv(x, y), t) then None else Arith(TruncRem(x, y), t)
    case Less => Some(Typed(Bool(x < y), INT))
    case Greater => Some(Typed(Bool(x > y), INT))
    case ExclusiveOr => Arith(Bitwise(Xor, 64, x, y), t)
    case _ => None
  }

  function TypeOf(c: Const): IntType {
    match c
    case Number(_, t) => t
    case Cast(t, _) => t
    case Negation(_) => INT
    case Inverse(a) => Promoted(TypeOf(a))
    case Operation(op, a, b) => if op.Less? || op.Greater? then INT else Usual(TypeOf(a), TypeOf(b))
  }

  /** The value of a constant expression in ISO/IEC 9899:1999; a literal outside its type
      and undefined arithmetic have none. */
  function Meaning(c: Const): (r: Option<Typed>)
    ensures r.Some? ==> r.value.kind == TypeOf(c)
  {
    match c
    case Number(v, t) => if InType(v, t) then Some(Typed(v, t)) else None
    case Cast(t, a) => var x := Meaning(a); if x.None? then None else Some(Typed(Convert(x.value.value, t), t))
    case Negation(a) => var x := Meaning(a); if x.None? then None else Some(Typed(Bool(x.value.value == 0), INT))
    case Inverse(a) =>
      var x := Meaning(a);
      if x.None? then None else Some(Typed(Convert(-1 - x.value.value, Promoted(x.value.kind)), Promoted(x.value.kind)))
    case Operation(op, a, b) =>
      var x, y := Meaning(a), Meaning(b);
      if x.None? || y.None? then None else
      var t := Usual(x.value.kind, y.value.kind);
      Step(op, t, Convert(x.value.value, t), Convert(y.value.value, t))
  }

  // --------------------------------------- exactly when the folder is right

  predicate Agrees(c: Const) {
    Evaluate(c).Some? && Meaning(c).Some? && Evaluate(c).value == Meaning(c).value.value
  }

  /** The folder gives the C99 value to the tree and to each of its parts. */
  predicate AgreesThroughout(c: Const) {
    Agrees(c) &&
    match c
    case Number(_, _) => true
    case Cast(_, a) => AgreesThroughout(a)
    case Negation(a) => AgreesThroughout(a)
    case Inverse(a) => AgreesThroughout(a)
    case Operation(_, a, b) => AgreesThroughout(a) && AgreesThroughout(b)
  }

  /** Int operands for which unsigned arithmetic of the given span does what signed
      arithmetic does. */
  predicate UnsignedAlike(op: BinaryOp, a: int, b: int, span: int) {
    match op
    case Plus => a + b >= 0
    case Minus => a - b >= 0
    case Times => a * b >= 0
    case Divide => a == b || (a >= 0 && (b > 0 || a < -b))
    case Remainder => a == b || (a >= 0 && (b > 0 || a < -b)) || (a < 0 < b && a % b == 0 && span % b == 0)
    case _ => (a < 0) == (b < 0)
  }

  /** Literals are ints, cast operands lie in their target types, no unsigned value is
      complemented, and arithmetic that C99 makes unsigned has operands on which that
      makes no difference. */
  predicate KeepsValues(c: Const)
    requires Evaluate(c).Some?
  {
    match c
    case Number(v, t) => IsInt(v) && InType(v, t)
    case Cast(t, a) => KeepsValues(a) && InType(Evaluate(a).value, t)
    case Negation(a) => KeepsValues(a)
    case Inverse(a) => KeepsValues(a) && Promoted(TypeOf(a)).signed
    case Operation(op, a, b) =>
      KeepsValues(a) && KeepsValues(b) &&
      var t := Usual(TypeOf(a), TypeOf(b));
      t.signed || UnsignedAlike(op, Evaluate(a).value, Evaluate(b).value, Span(t))
  }

  lemma ConvertKeeps(v: int, t: IntType)
    ensures Convert(v, t) == v <==> InType(v, t)
  {
    if InType(v, t) {
      DivUnique(v - Least(t), Span(t), 0, v - Least(t));
    }
  }

  /** A negative int becomes the unsigned number one span above it. */
  lemma ConvertInt(v: int, t: IntType)
    requires IsInt(v) && !t.signed && (t.Int? || t.Long?)
    ensures Convert(v, t) == if v < 0 then v + Span(t) else v
  {
    DivUnique(v, Span(t), if v < 0 then -1 else 0, if v < 0 then v + Span(t) else v);
  }

  lemma UsualWide(t: IntType, u: IntType)
    ensures Usual(t, u).Int? || Usual(t, u).Long?
  {
  }

  /** In a signed type nothing changes. */
  lemma SignedStep(op: BinaryOp, t: IntType, a: int, b: int)
    requires IsInt(a) && IsInt(b) && Fold(op, a, b).Some? && t.signed && (t.Int? || t.Long?)
    ensures Convert(a, t) == a && Convert(b, t) == b
    ensures Step(op, t, a, b).Some? && Step(op, t, a, b).value.value == Fold(op, a, b).value
  {
    hide TruncDiv, TruncRem, Bitwise, Convert;
    ConvertKeeps(a, t);
    ConvertKeeps(b, t);
    match op {
      case ExclusiveOr => XorWide(a, b);
      case Remainder => QuotientInt(a, b);
      case _ =>
    }
  }

  lemma XorWide(a: int, b: int)
    requires IsInt(a) && IsInt(b)
    ensures Bitwise(Xor, 31, a, b) == Bitwise(Xor, 64, a, b)
  {
    hide Bitwise, Pow2;
    Pow2Of31();
    BitwiseWiden(Xor, 31, 64, a, b);
  }

  lemma QuotientInt(a: int, b: int)
    requires IsInt(a) && IsInt(b) && b != 0 && !(a == -0x8000_0000 && b == -1)
    ensures IsInt(TruncDiv(a, b))
  {
    QuotientBound(Abs(a), Abs(b));
  }

  lemma {:induction false} ShiftMod(x: int, span: int, k: int)
    requires span >= 1
    ensures (x + span * k) % span == x % span
  {
    assert x + span * k == span * (x / span + k) + x % span by { assert x == span * (x / span) + x % span; }
    DivUnique(x + span * k, span, x / span + k, x % span);
  }

  /** Sums, differences and products of the unsigned forms are congruent to the signed ones. */
  lemma UnsignedRing(op: BinaryOp, t: IntType, a: int, b: int)
    requires IsInt(a) && IsInt(b) && !t.signed && (t.Int? || t.Long?) && (op.Plus? || op.Minus? || op.Times?) && Fold(op, a, b).Some?
    ensures var s := Step(op, t, Convert(a, t), Convert(b, t));
      s.Some? && (s.value.value == Fold(op, a, b).value <==> UnsignedAlike(op, a, b, Span(t)))
  {
    hide Convert;
    var i, j := if a < 0 then 1 else 0, if b < 0 then 1 else 0;
    var m := Span(t);
    ConvertInt(a, t);
    ConvertInt(b, t);
    var x, y := Convert(a, t), Convert(b, t);
    assert x == a + m * i && y == b + m * j;
    var r := Fold(op, a, b).value;
    var k := match op case Plus => i + j case Minus => i - j case _ => a * j + b * i + m * i * j;
    if op.Times? {
      ProductShift(a, b, i, j, m);
    }
    var raw := match op case Plus => x + y case Minus => x - y case _ => x * y;
    assert raw == r + m * k;
    CongruentConvert(r, k, t);
    ConvertInt(r, t);
  }

  lemma ProductShift(a: int, b: int, i: int, j: int, m: int)
    requires 0 <= i <= 1 && 0 <= j <= 1
    ensures (a + m * i) * (b + m * j) == a * b + m * (a * j + b * i + m * i * j)
  {
  }

  lemma CongruentConvert(r: int, k: int, t: IntType)
    ensures Convert(r + Span(t) * k, t) == Convert(r, t)
  {
    ShiftMod(r - Least(t), Span(t), k);
  }

  lemma UnsignedQuotient(a: int, b: int, m: int)
    requires IsInt(a) && IsInt(b) && b != 0 && !(a == -0x8000_0000 && b == -1) && (m == LOW32 || m == MODULUS)
    ensures var x, y := if a < 0 then a + m else a, if b < 0 then b + m else b;
      (x / y == TruncDiv(a, b) <==> UnsignedAlike(Divide, a, b, m)) &&
      (x % y == TruncRem(a, b) <==> UnsignedAlike(Remainder, a, b, m))
  {
    if b > 0 {
      if a < 0 { NegativeByPositive(a, b, m); }
    } else if a >= 0 {
      PositiveByNegative(a, b, m);
    } else {
      NegativeByNegative(a, b, m);
    }
  }

  lemma NegativeByPositive(a: int, b: int, m: int)
    requires -0x8000_0000 <= a < 0 < b < 0x8000_0000 && m >= LOW32
    ensures (a + m) / b >= 1 && TruncDiv(a, b) <= 0 && TruncRem(a, b) <= 0 && (a + m) % b >= 0
    ensures (a + m) % b == TruncRem(a, b) <==> a % b == 0 && m % b == 0
  {
    var q, r := (-a) / b, (-a) % b;
    assert TruncDiv(a, b) == -q && TruncRem(a, b) == -r;
    QuotientBound(-a, b);
    var p, s := (a + m) / b, (a + m) % b;
    assert a + m == b * p + s;
    if p <= 0 { MulMonotone(p, 0, b); }
    DividesNegation(a, b);
    if s == 0 && r == 0 {
      assert m == b * (p + q) by { assert -a == b * q; }
      DivUnique(m, b, p + q, 0);
    }
    if a % b == 0 && m % b == 0 {
      assert a + m == b * (a / b + m / b) by { assert a == b * (a / b); assert m == b * (m / b); }
      DivUnique(a + m, b, a / b + m / b, 0);
    }
  }

  lemma DividesNegation(a: int, b: int)
    requires b > 0
    ensures a % b == 0 <==> (-a) % b == 0
  {
    var q := a / b;
    if a % b == 0 {
      assert -a == b * (-q) by { assert a == b * q; }
      DivUnique(-a, b, -q, 0);
    }
    if (-a) % b == 0 {
      var p := (-a) / b;
      assert a == b * (-p) by { assert -a == b * p; }
      DivUnique(a, b, -p, 0);
    }
  }

  lemma PositiveByNegative(a: int, b: int, m: int)
    requires 0 <= a < 0x8000_0000 && -0x8000_0000 <= b < 0 && m >= LOW32
    ensures a / (b + m) == 0 && a % (b + m) == a
    ensures TruncDiv(a, b) == 0 <==> a < -b
    ensures TruncRem(a, b) == a <==> a < -b
  {
    DivUnique(a, b + m, 0, a);
    var q, r := a / (-b), a % (-b);
    assert TruncDiv(a, b) == -q && TruncRem(a, b) == r;
    assert a == (-b) * q + r;
    if a < -b {
      DivUnique(a, -b, 0, a);
    } else if q <= 0 {
      MulMonotone(q, 0, -b);
    }
  }

  lemma NegativeByNegative(a: int, b: int, m: int)
    requires -0x8000_0000 <= a < 0 && -0x8000_0000 <= b < 0 && m >= LOW32
    ensures (a + m) / (b + m) == if a >= b then 1 else 0
    ensures (a + m) % (b + m) == if a >= b then a - b else a + m
    ensures a == b ==> TruncDiv(a, b) == 1 && TruncRem(a, b) == 0
    ensures a > b ==> TruncDiv(a, b) == 0 && TruncRem(a, b) == a
    ensures a < b ==> TruncDiv(a, b) >= 1 && TruncRem(a, b) <= 0
  {
    var q, r := (-a) / (-b), (-a) % (-b);
    assert TruncDiv(a, b) == q && TruncRem(a, b) == -r;
    if a >= b {
      DivUnique(a + m, b + m, 1, a - b);
      if a == b { DivUnique(-a, -b, 1, 0); } else { DivUnique(-a, -b, 0, -a); }
    } else {
      DivUnique(a + m, b + m, 0, a + m);
      assert -a == (-b) * q + r;
      if q <= 0 { MulMonotone(q, 0, -b); }
    }
  }

  /** Two negative numbers are the same below the sign as the numbers a power of two above. */
  lemma {:induction false} XorLifted(n: nat, w: nat, a: int, b: int)
    requires w <= n && 0 - Pow2(w) <= a < 0 && 0 - Pow2(w) <= b < 0
    ensures Bitwise(Xor, n, a + Pow2(w), b + Pow2(w)) == Bitwise(Xor, n, a, b)
  {
    if w > 0 {
      assert (a + Pow2(w)) / 2 == a / 2 + Pow2(w - 1) && (b + Pow2(w)) / 2 == b / 2 + Pow2(w - 1);
      assert (a + Pow2(w)) % 2 == a % 2 && (b + Pow2(w)) % 2 == b % 2;
      XorLifted(n - 1, w - 1, a / 2, b / 2);
    } else if n > 0 {
      XorLifted(n - 1, 0, -1, -1);
    }
  }

  /** The sign of an exclusive or. */
  lemma {:induction false} XorSign(n: nat, a: int, b: int)
    requires 0 - Pow2(n) <= a < Pow2(n) && 0 - Pow2(n) <= b < Pow2(n)
    ensures Bitwise(Xor, n, a, b) < 0 <==> (a < 0) != (b < 0)
  {
    if n > 0 {
      XorSign(n - 1, a / 2, b / 2);
    }
  }

  lemma SpanPow2(t: IntType) returns (w: nat)
    requires t.Int? || t.Long?
    ensures 32 <= w <= 64 && Pow2(w) == Span(t)
  {
    Pow2Of31();
    Pow2Of63();
    w := if t.Int? then 32 else 64;
    assert Pow2(32) == 2 * Pow2(31) && Pow2(64) == 2 * Pow2(63);
  }

  lemma UnsignedXor(t: IntType, a: int, b: int)
    requires IsInt(a) && IsInt(b) && !t.signed && (t.Int? || t.Long?)
    ensures Fold(ExclusiveOr, a, b).Some?
    ensures var s := Step(ExclusiveOr, t, Convert(a, t), Convert(b, t));
      s.Some? && (s.value.value == Fold(ExclusiveOr, a, b).value <==> UnsignedAlike(ExclusiveOr, a, b, Span(t)))
  {
    hide Bitwise, Convert, Pow2;
    var m := Span(t);
    Pow2Of31();
    XorWide(a, b);
    XorSign(31, a, b);
    BitwiseRange(Xor, 31, a, b);
    ConvertInt(a, t);
    ConvertInt(b, t);
    var v := Bitwise(Xor, 31, a, b);
    if (a < 0) == (b < 0) {
      if a < 0 {
        var w := SpanPow2(t);
        Pow2Positive(31, w);
        XorLifted(64, w, a, b);
      }
      ConvertInt(v, t);
    }
  }

  lemma UnsignedCompare(op: BinaryOp, t: IntType, a: int, b: int)
    requires IsInt(a) && IsInt(b) && !t.signed && (t.Int? || t.Long?) && (op.Less? || op.Greater?)
    ensures var s := Step(op, t, Convert(a, t), Convert(b, t));
      s.Some? && (s.value.value == Fold(op, a, b).value <==> UnsignedAlike(op, a, b, Span(t)))
  {
    hide Convert;
    ConvertInt(a, t);
    ConvertInt(b, t);
  }

  lemma UnsignedDivision(op: BinaryOp, t: IntType, a: int, b: int)
    requires IsInt(a) && IsInt(b) && !t.signed && (t.Int? || t.Long?) && (op.Divide? || op.Remainder?) && Fold(op, a, b).Some?
    ensures var s := Step(op, t, Convert(a, t), Convert(b, t));
      s.Some? && (s.value.value == Fold(op, a, b).value <==> UnsignedAlike(op, a, b, Span(t)))
  {
    hide Convert;
    ConvertInt(a, t);
    ConvertInt(b, t);
    var x, y := Convert(a, t), Convert(b, t);
    assert x >= 0 && y > 0 && TruncDiv(x, y) == x / y && TruncRem(x, y) == x % y;
    if op.Divide? { DivideFits(a, b); }
    UnsignedQuotient(a, b, Span(t));
    hide TruncDiv, TruncRem, UnsignedAlike;
    QuotientBound(x, y);
    ConvertKeeps(x / y, t);
    ConvertKeeps(x % y, t);
  }

  lemma DivideFits(a: int, b: int)
    requires IsInt(a) && IsInt(b) && b != 0 && IsInt(TruncDiv(a, b))
    ensures !(a == -0x8000_0000 && b == -1)
  {
  }

  /** In an unsigned type a step gives the folder's value exactly on these operands. */
  lemma UnsignedStep(op: BinaryOp, t: IntType, a: int, b: int)
    requires IsInt(a) && IsInt(b) && !t.signed && (t.Int? || t.Long?) && Fold(op, a, b).Some?
    ensures var s := Step(op, t, Convert(a, t), Convert(b, t));
      s.Some? && (s.value.value == Fold(op, a, b).value <==> UnsignedAlike(op, a, b, Span(t)))
  {
    hide Convert, UnsignedAlike, Step;
    match op {
      case Divide => UnsignedDivision(op, t, a, b);
      case Remainder => UnsignedDivision(op, t, a, b);
      case Less => UnsignedCompare(op, t, a, b);
      case Greater => UnsignedCompare(op, t, a, b);
      case ExclusiveOr => UnsignedXor(t, a, b);
      case _ => UnsignedRing(op, t, a, b);
    }
  }

  lemma OperationAgrees(op: BinaryOp, a: Const, b: Const)
    requires Evaluate(Operation(op, a, b)).Some? && Agrees(a) && Agrees(b)
    ensures var t := Usual(TypeOf(a), TypeOf(b));
      Agrees(Operation(op, a, b)) <==> t.signed || UnsignedAlike(op, Evaluate(a).value, Evaluate(b).value, Span(t))
  {
    hide Fold, Step, Convert, UnsignedAlike;
    var t := Usual(TypeOf(a), TypeOf(b));
    UsualWide(TypeOf(a), TypeOf(b));
    if t.signed {
      SignedStep(op, t, Evaluate(a).value, Evaluate(b).value);
    } else {
      UnsignedStep(op, t, Evaluate(a).value, Evaluate(b).value);
    }
  }

  lemma InverseAgrees(a: Const)
    requires Agrees(a) && AgreesThroughout(a)
    ensures Agrees(Inverse(a)) <==> Promoted(TypeOf(a)).signed
  {
    hide AgreesThroughout;
    var v, p := Evaluate(a).value, Promoted(TypeOf(a));
    ConvertKeeps(-1 - v, p);
    if !p.signed {
      MeaningInType(a);
    }
  }

  lemma MeaningInType(c: Const)
    requires Meaning(c).Some?
    ensures InType(Meaning(c).value.value, TypeOf(c))
  {
    hide Convert, TruncDiv, TruncRem, Bitwise;
    if c.Operation? && Meaning(c.left).Some? && Meaning(c.right).Some? {
      var t := Usual(TypeOf(c.left), TypeOf(c.right));
      var x, y := Convert(Meaning(c.left).value.value, t), Convert(Meaning(c.right).value.value, t);
      assert Meaning(c) == Step(c.op, t, x, y);
    }
  }

  /** The folder is right throughout a tree exactly when the tree keeps to these rules. */
  lemma {:induction false} FoldsIso(c: Const)
    requires Evaluate(c).Some?
    ensures AgreesThroughout(c) <==> KeepsValues(c)
  {
    hide Convert, Fold, Step, UnsignedAlike, Usual;
    match c {
      case Number(v, t) => ConvertKeeps(v, INT);
      case Cast(t, a) =>
        FoldsIso(a);
        ConvertKeeps(Evaluate(a).value, t);
      case Negation(a) => FoldsIso(a);
      case Inverse(a) =>
        FoldsIso(a);
        if AgreesThroughout(a) { InverseAgrees(a); }
      case Operation(op, a, b) =>
        FoldsIso(a);
        FoldsIso(b);
        if Agrees(a) && Agrees(b) { OperationAgrees(op, a, b); }
    }
  }

  /** No unsigned literal, and no cast to an unsigned type as wide as int. */
  predicate SignedTypes(c: Const) {
    match c
    case Number(_, t) => t.signed
    case Cast(t, a) => (t.signed || t.Char? || t.Short?) && SignedTypes(a)
    case Negation(a) => SignedTypes(a)
    case Inverse(a) => SignedTypes(a)
    case Operation(_, a, b) => SignedTypes(a) && SignedTypes(b)
  }

  /** Each literal is an int, and the operand of each cast lies in the type it is cast to. */
  predicate CastsFit(c: Const)
    requires Evaluate(c).Some?
  {
    match c
    case Number(v, t) => IsInt(v) && InType(v, t)
    case Cast(t, a) => CastsFit(a) && InType(Evaluate(a).value, t)
    case Negation(a) => CastsFit(a)
    case Inverse(a) => CastsFit(a)
    case Operation(_, a, b) => CastsFit(a) && CastsFit(b)
  }

  lemma {:induction false} SignedPromoted(c: Const)
    requires SignedTypes(c)
    ensures Promoted(TypeOf(c)).signed
  {
    match c {
      case Inverse(a) => SignedPromoted(a);
      case Operation(_, a, b) =>
        SignedPromoted(a);
        SignedPromoted(b);
      case _ =>
    }
  }

  /** Where no type is unsigned and as wide as int, casts are all that matters. */
  lemma {:induction false} SignedFolds(c: Const)
    requires Evaluate(c).Some? && SignedTypes(c)
    ensures AgreesThroughout(c) <==> CastsFit(c)
  {
    FoldsIso(c);
    KeepsSigned(c);
  }

  lemma {:induction false} KeepsSigned(c: Const)
    requires Evaluate(c).Some? && SignedTypes(c)
    ensures KeepsValues(c) <==> CastsFit(c)
  {
    hide Fold, UnsignedAlike, Convert;
    match c {
      case Number(_, _) =>
      case Cast(_, a) => KeepsSigned(a);
      case Negation(a) => KeepsSigned(a);
      case Inverse(a) =>
        KeepsSigned(a);
        SignedPromoted(a);
      case Operation(_, a, b) =>
        KeepsSigned(a);
        KeepsSigned(b);
        SignedPromoted(a);
        SignedPromoted(b);
    }
  }

  /** (unsigned char)300 is 44, and the folder says 300. */
  lemma CastIsDropped()
    ensures var c := Cast(Char(false), Number(300, INT));
      Evaluate(c) == Some(300) && Meaning(c) == Some(Typed(44, Char(false)))
  {
    assert 300 % 0x100 == 44;
  }

  /** -1 < sizeof(int) is false, because the size is unsigned, and the folder says 1. */
  lemma SizesAreSigned()
    ensures var c := Operation(Less, Operation(Minus, Number(0, INT), Number(1, INT)), Number(4, Long(false)));
      Evaluate(c) == Some(1) && Meaning(c) == Some(Typed(0, INT))
  {
    hide Convert, TruncDiv, TruncRem, Bitwise;
    var minus := Operation(Minus, Number(0, INT), Number(1, INT));
    forall v: int | -1 <= v <= 4 ensures Convert(v, INT) == v {
      ConvertKeeps(v, INT);
    }
    assert Evaluate(minus) == Some(-1) && Meaning(minus) == Some(Typed(-1, INT));
    ConvertInt(-1, Long(false));
    ConvertInt(4, Long(false));
  }

  // ------------------------------------- the folder and the emitted code

  /** Every remainder that is taken is of a nonnegative number or comes out even. */
  predicate PlainRemainders(c: Const) {
    match c
    case Number(_, _) => true
    case Cast(_, a) => PlainRemainders(a)
    case Negation(a) => PlainRemainders(a)
    case Inverse(a) => PlainRemainders(a)
    case Operation(op, a, b) =>
      PlainRemainders(a) && PlainRemainders(b) &&
      (op == Remainder && Evaluate(c).Some? ==> Even(Evaluate(a).value, Evaluate(b).value))
  }

  predicate Even(a: int, b: int)
    requires b != 0
  {
    a >= 0 || Abs(a) % Abs(b) == 0
  }

  lemma IntIsWord(x: int)
    requires IsInt(x)
    ensures -HALF <= x < HALF && Wrap(x) == x
  {
  }

  lemma Pow2Of31()
    ensures Pow2(31) == 0x8000_0000
  {
    assert Pow2(10) == 1024;
    Pow2Add(10, 10);
    Pow2Add(20, 10);
    Pow2Add(30, 1);
    assert Pow2(1) == 2;
  }

  /** A 32-bit step and the 64-bit one agree, but for the remainder's missing sign. */
  lemma FoldAgrees(op: BinaryOp, a: int, b: int)
    requires IsInt(a) && IsInt(b) && Fold(op, a, b).Some?
    ensures Apply(Lice, op, a, b) == Some(Fold(op, a, b).value) <==> (op == Remainder ==> Even(a, b))
  {
    hide TruncDiv, TruncRem, Bitwise, BitWord, ShiftLeft, ShiftRight, Even;
    match op {
      case Remainder => RemainderFold(a, b);
      case ExclusiveOr => ExclusiveOrFold(a, b);
      case Divide =>
      case Plus => IntIsWord(a + b);
      case Minus => IntIsWord(a - b);
      case Times => IntIsWord(a * b);
      case _ =>
    }
  }

  lemma ExclusiveOrFold(a: int, b: int)
    requires IsInt(a) && IsInt(b) && Fold(ExclusiveOr, a, b).Some?
    ensures Apply(Lice, ExclusiveOr, a, b) == Some(Fold(ExclusiveOr, a, b).value)
  {
    hide Bitwise, Pow2;
    Pow2Of31();
    BitwiseWiden(Xor, 31, 63, a, b);
  }

  lemma RemainderFold(a: int, b: int)
    requires IsInt(a) && IsInt(b) && Fold(Remainder, a, b).Some?
    ensures Apply(Lice, Remainder, a, b) == Some(Fold(Remainder, a, b).value) <==> Even(a, b)
  {
    var r := TruncRem(a, b);
    assert r >= 0 <==> Even(a, b);
    hide TruncRem, Even;
    DivRem(a, b);
    WrappedRemainder(r);
  }

  lemma WrappedRemainder(r: int)
    requires IsInt(r)
    ensures r % LOW32 == if r >= 0 then r else r + LOW32
  {
    DivUnique(r, LOW32, if r >= 0 then 0 else -1, if r >= 0 then r else r + LOW32);
  }

  /** The generated code gives the same value when every remainder is plain. */
  lemma {:induction false} FoldsLice(ctx: Context, c: Const, mem: Memory)
    requires Evaluate(c).Some? && PlainRemainders(c)
    ensures Eval(Lice, ctx, Lower(c), mem) == Some(Valued(Evaluate(c).value, mem))
  {
    match c {
      case Number(v, _) => IntIsWord(Convert(v, INT));
      case Cast(_, a) => FoldsLice(ctx, a, mem);
      case Negation(a) => FoldsLice(ctx, a, mem);
      case Inverse(a) => FoldsLice(ctx, a, mem);
      case Operation(op, a, b) =>
        FoldsLice(ctx, a, mem);
        FoldsLice(ctx, b, mem);
        FoldAgrees(op, Evaluate(a).value, Evaluate(b).value);
    }
  }

  /** For a remainder of such trees the two agree exactly when it is plain. */
  lemma RemainderFolds(ctx: Context, a: Const, b: Const, mem: Memory)
    requires Evaluate(Operation(Remainder, a, b)).Some? && PlainRemainders(a) && PlainRemainders(b)
    ensures var v := Evaluate(Operation(Remainder, a, b)).value;
      Eval(Lice, ctx, Lower(Operation(Remainder, a, b)), mem) == Some(Valued(v, mem)) <==> Even(Evaluate(a).value, Evaluate(b).value)
  {
    FoldsLice(ctx, a, mem);
    FoldsLice(ctx, b, mem);
    FoldAgrees(Remainder, Evaluate(a).value, Evaluate(b).value);
  }

  /** Compile time and run time agree: the folded value is in rax after the generated
      code, which has touched nothing else. */
  lemma FoldedInRax(ctx: Context, prog: Program, c: Const, n: nat, d: int, s: State, mem: Memory, k: nat) returns (t: State)
    requires Evaluate(c).Some? && PlainRemainders(c)
    requires CodeAt(prog, s.pc, ExprCode(Lower(c), n, d)) && Agree(ctx, s, mem) && Room(ctx, s.rsp, k) && Depth(Lower(c)) <= k
    ensures Reaches(ctx.callees, prog, s, t) && t.pc == s.pc + |ExprCode(Lower(c), n, d)|
    ensures t.rax == Evaluate(c).value && t.rsp == s.rsp && Agree(ctx, t, mem) && Kept(ctx, s, t)
  {
    hide CodeAt, ExprCode, Evaluate, PlainRemainders, Lower, Depth, Room, Agree, Kept, Reaches;
    FoldsLice(ctx, c, mem);
    SelfLive(ctx, prog, s, mem, k);
    t := SimExpr(ctx, prog, Lower(c), n, d, s, s, mem, k);
  }
}
