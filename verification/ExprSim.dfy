/** Forward simulation for expressions: their value, their effect on memory. */
module ExprSim {
  import opened Words
  import opened Runs
  import opened Machine
  import opened Syntax
  import opened Semantics
  import opened Code
  import opened Relation

  // ----------------------------------------------- operators on the stack

  /** Only registers changed, one value was popped, and rax holds v. */
  ghost predicate Popped(c: Context, prog: Program, s0: State, s: State, t: State, len: int, v: Word) {
    Reaches(c.callees, prog, s0, t) && t.pc == s.pc + len && t.rax == v && t.rsp == s.rsp + 8 &&
    t.rbp == s.rbp && t.mem == s.mem
  }

  /** The boolean a comparison leaves, whatever was in rax. */
  lemma SetByte(x: Word, b: bool)
    ensures (x - x % 256 + Bool(b)) % 256 == Bool(b)
    ensures -HALF <= x - x % 256 + Bool(b) < HALF
  {
  }

  lemma SimSet(c: Context, prog: Program, s0: State, s: State, p: int, code: seq<Instr>, k: int) returns (t: State)
    requires CodeAt(prog, p, code) && 0 <= k && k + 1 < |code| && s.pc == p + k
    requires code[k].SetAl? && code[k + 1] == MovzbAlEax && s.flags.Compared?
    requires Reaches(c.callees, prog, s0, s)
    ensures t == s.(pc := s.pc + 2, rax := Bool(Holds(code[k].cond, s.flags)))
    ensures Reaches(c.callees, prog, s0, t)
  {
    SetByte(s.rax, Holds(code[k].cond, s.flags));
    t := Do(c.callees, prog, s0, s, p, code, k);
    t := Do(c.callees, prog, s0, t, p, code, k + 1);
  }

  predicate IsComparison(op: BinaryOp) {
    op.Less? || op.Greater? || op.Equal? || op.NotEqual? || op.LessEqual? || op.GreaterEqual?
  }

  function ConditionOf(op: BinaryOp): Condition
    requires IsComparison(op)
  {
    match op
    case Less => IsLess
    case Greater => IsGreater
    case Equal => IsEqual
    case NotEqual => IsNotEqual
    case LessEqual => IsLessEqual
    case GreaterEqual => IsGreaterEqual
  }

  /** The comparison itself: the left operand is popped and the flags are set. */
  lemma SimFlags(c: Context, prog: Program, cond: Condition, s0: State, s: State, a: Word) returns (t: State)
    requires CodeAt(prog, s.pc, CompareCode(cond)) && Reaches(c.callees, prog, s0, s) && OnTop(c, s, a)
    ensures Reaches(c.callees, prog, s0, t)
    ensures t == s.(pc := s.pc + 2, rcx := a, rsp := s.rsp + 8, flags := Compared(a == s.rax, a < s.rax))
  {
    hide CodeAt, Reaches;
    WrapId(s.rsp + 8);
    t := Do(c.callees, prog, s0, s, s.pc, CompareCode(cond), 0);
    t := Do(c.callees, prog, s0, t, s.pc, CompareCode(cond), 1);
  }

  lemma SimCompare(c: Context, prog: Program, op: BinaryOp, s0: State, s: State, a: Word) returns (t: State)
    requires IsComparison(op) && CodeAt(prog, s.pc, FinishCode(op)) && Reaches(c.callees, prog, s0, s)
    requires OnTop(c, s, a)
    ensures Popped(c, prog, s0, s, t, |FinishCode(op)|, Apply(Lice, op, a, s.rax).value)
  {
    hide CodeAt, Reaches;
    t := SimFlags(c, prog, ConditionOf(op), s0, s, a);
    t := SimSet(c, prog, s0, t, s.pc, CompareCode(ConditionOf(op)), 2);
  }

  predicate IsArith(op: BinaryOp) {
    op.Plus? || op.Minus? || op.Times? || op.ExclusiveOr? || op.ShiftL? || op.ShiftR?
  }

  /** Moves the operands into place: the left one to rax, the right one to rcx. */
  lemma SimArith(c: Context, prog: Program, ops: seq<Instr>, s0: State, s: State, a: Word) returns (t: State)
    requires CodeAt(prog, s.pc, ArithCode(ops)) && Reaches(c.callees, prog, s0, s) && OnTop(c, s, a)
    ensures CodeAt(prog, t.pc, ops) && Reaches(c.callees, prog, s0, t)
    ensures t == s.(pc := s.pc + 2, rax := a, rcx := s.rax, rsp := s.rsp + 8)
  {
    CodeSplit(prog, s.pc, [MovReg(RAX, RCX), Pop(RAX)], ops);
    WrapId(s.rsp + 8);
    t := Do(c.callees, prog, s0, s, s.pc, [MovReg(RAX, RCX), Pop(RAX)], 0);
    t := Do(c.callees, prog, s0, t, s.pc, [MovReg(RAX, RCX), Pop(RAX)], 1);
  }

  lemma SimPlain(c: Context, prog: Program, op: BinaryOp, s0: State, s: State, a: Word) returns (t: State)
    requires IsArith(op) && CodeAt(prog, s.pc, FinishCode(op)) && Reaches(c.callees, prog, s0, s)
    requires OnTop(c, s, a)
    ensures Popped(c, prog, s0, s, t, |FinishCode(op)|, Apply(Lice, op, a, s.rax).value)
  {
    hide CodeAt, Reaches, OnTop;
    var ops := match op
      case Plus => [AluReg(Add, RCX, RAX)]
      case Minus => [AluReg(Sub, RCX, RAX)]
      case Times => [AluReg(Imul, RCX, RAX)]
      case ExclusiveOr => [AluReg(BitXor, RCX, RAX)]
      case ShiftL => [Sal]
      case _ => [Sar];
    var t1 := SimArith(c, prog, ops, s0, s, a);
    t := Do(c.callees, prog, s0, t1, t1.pc, ops, 0);
  }

  /** After cqto the 128-bit dividend is rax itself. */
  lemma SignExtended(a: Word)
    ensures (if a < 0 then -1 else 0) * MODULUS + Unsigned(a) == a
  {
  }

  /** cqto and idiv: quotient in rax, remainder in rdx. */
  lemma SimIdiv(c: Context, prog: Program, s0: State, s: State, p: int, code: seq<Instr>) returns (t: State)
    requires CodeAt(prog, p, code) && |code| >= 2 && code[0] == Cqto && code[1] == Idiv(RCX) && s.pc == p
    requires Reaches(c.callees, prog, s0, s) && s.rcx != 0 && !(s.rax == -HALF && s.rcx == -1)
    ensures Reaches(c.callees, prog, s0, t)
    ensures -HALF <= TruncDiv(s.rax, s.rcx) < HALF && -HALF <= TruncRem(s.rax, s.rcx) < HALF
    ensures t == s.(pc := s.pc + 2, rax := TruncDiv(s.rax, s.rcx), rdx := TruncRem(s.rax, s.rcx), flags := Unset)
  {
    SignExtended(s.rax);
    TruncDivFits(s.rax, s.rcx);
    DivRem(s.rax, s.rcx);
    t := Do(c.callees, prog, s0, s, p, code, 0);
    t := Do(c.callees, prog, s0, t, p, code, 1);
  }

  lemma SimDivide(c: Context, prog: Program, op: BinaryOp, s0: State, s: State, a: Word) returns (t: State)
    requires op.Divide? || op.Remainder?
    requires CodeAt(prog, s.pc, FinishCode(op)) && Reaches(c.callees, prog, s0, s)
    requires OnTop(c, s, a) && Apply(Lice, op, a, s.rax).Some?
    ensures Popped(c, prog, s0, s, t, |FinishCode(op)|, Apply(Lice, op, a, s.rax).value)
  {
    hide CodeAt, Reaches, OnTop, TruncDiv, TruncRem;
    var ops := if op.Divide? then [Cqto, Idiv(RCX)] else [Cqto, Idiv(RCX), MovEdxEax];
    var t1 := SimArith(c, prog, ops, s0, s, a);
    t := SimIdiv(c, prog, s0, t1, t1.pc, ops);
    if op.Remainder? {
      t := Do(c.callees, prog, s0, t, t1.pc, ops, 2);
    }
  }

  lemma SimBits(c: Context, prog: Program, op: BinaryOp, s0: State, s: State, a: Word) returns (t: State)
    requires op.BothBits? || op.EitherBits?
    requires CodeAt(prog, s.pc, FinishCode(op)) && Reaches(c.callees, prog, s0, s) && OnTop(c, s, a)
    ensures Popped(c, prog, s0, s, t, |FinishCode(op)|, Apply(Lice, op, a, s.rax).value)
  {
    hide CodeAt, Reaches;
    WrapId(s.rsp + 8);
    BitwiseCommutes(if op.BothBits? then And else Or, 63, a, s.rax);
    t := Do(c.callees, prog, s0, s, s.pc, FinishCode(op), 0);
    t := Do(c.callees, prog, s0, t, s.pc, FinishCode(op), 1);
  }

  lemma {:induction false} BitwiseCommutes(op: BitOp, n: nat, a: int, b: int)
    ensures Bitwise(op, n, a, b) == Bitwise(op, n, b, a)
  {
    if n > 0 {
      BitwiseCommutes(op, n - 1, a / 2, b / 2);
    }
  }

  lemma ScaledSum(a: Word, b: Word, size: int)
    ensures Wrap(a + Wrap(b * Wrap(size))) == Wrap(a + size * b)
  {
    var k := (size + HALF) / MODULUS;
    assert Wrap(size) == size - MODULUS * k;
    assert b * Wrap(size) == b * size - MODULUS * (b * k) by {
      assert b * (size - MODULUS * k) == b * size - b * (MODULUS * k);
      assert b * (MODULUS * k) == MODULUS * (b * k);
    }
    WrapShift(b * size, -(b * k));
    WrapSum(b * size, a);
  }

  lemma SimPointer(c: Context, prog: Program, op: BinaryOp, s0: State, s: State, a: Word) returns (t: State)
    requires op.Pointer? && CodeAt(prog, s.pc, FinishCode(op)) && Reaches(c.callees, prog, s0, s) && OnTop(c, s, a)
    ensures Popped(c, prog, s0, s, t, |FinishCode(op)|, Apply(Lice, op, a, s.rax).value)
  {
    hide CodeAt, Reaches;
    var scale := if op.size > 1 then [AluImm(Imul, op.size, RAX)] else [];
    CodeSplit(prog, s.pc, scale, ArithCode([AluReg(Add, RCX, RAX)]));
    var t0 := s;
    if op.size > 1 {
      ScaledSum(a, s.rax, op.size);
      t0 := Do(c.callees, prog, s0, s, s.pc, scale, 0);
    }
    var t1 := SimArith(c, prog, [AluReg(Add, RCX, RAX)], s0, t0, a);
    t := Do(c.callees, prog, s0, t1, t1.pc, [AluReg(Add, RCX, RAX)], 0);
  }

  lemma SimFinish(c: Context, prog: Program, op: BinaryOp, s0: State, s: State, a: Word) returns (t: State)
    requires CodeAt(prog, s.pc, FinishCode(op)) && Reaches(c.callees, prog, s0, s)
    requires OnTop(c, s, a) && Apply(Lice, op, a, s.rax).Some?
    ensures Popped(c, prog, s0, s, t, |FinishCode(op)|, Apply(Lice, op, a, s.rax).value)
  {
    hide CodeAt, Reaches, OnTop, Apply, FinishCode, Popped;
    if IsComparison(op) {
      t := SimCompare(c, prog, op, s0, s, a);
    } else if IsArith(op) {
      t := SimPlain(c, prog, op, s0, s, a);
    } else if op.Divide? || op.Remainder? {
      t := SimDivide(c, prog, op, s0, s, a);
    } else if op.Pointer? {
      t := SimPointer(c, prog, op, s0, s, a);
    } else {
      t := SimBits(c, prog, op, s0, s, a);
    }
  }

  // ------------------------------------------------------------- lvalues

  /** The last two instructions of a load through rax. */
  lemma LoadThrough(c: Context, prog: Program, s0: State, s: State, shift: int, base: Reg, mem: Memory, k: nat) returns (t: State)
    requires base == RAX || base == RBP
    requires CodeAt(prog, s.pc, [Load(shift, base, RCX), MovReg(RCX, RAX)])
    requires Live(c, prog, s0, s, mem, k) && Wrap(Get(s, base) + shift) in mem
    ensures Evaluated(c, prog, s0, s, t, 2, Valued(mem[Wrap(Get(s, base) + shift)], mem), k)
  {
    hide CodeAt, Reaches, Kept;
    var code := [Load(shift, base, RCX), MovReg(RCX, RAX)];
    var t1 := DoQuiet(c, prog, s0, s, s.pc, code, 0, mem, k);
    t := DoQuiet(c, prog, s0, t1, s.pc, code, 1, mem, k);
    KeptTrans(c, s, t1, t);
  }

  /** Loading the member `shift` bytes into the object an lvalue designates. */
  lemma {:induction false} SimRead(c: Context, prog: Program, lv: LValue, shift: int, n: nat, d: int, s0: State, s: State,
    mem: Memory, k: nat, p: Valued)
    returns (t: State)
    requires CodeAt(prog, s.pc, ReadCode(lv, shift, n, d)) && Live(c, prog, s0, s, mem, k) && PlaceDepth(lv) <= k
    requires Place(Lice, c, lv, mem) == Some(p) && Wrap(p.value + shift) in p.mem
    ensures Evaluated(c, prog, s0, s, t, |ReadCode(lv, shift, n, d)|, Valued(p.mem[Wrap(p.value + shift)], p.mem), k)
    decreases lv, 2
  {
    hide CodeAt, Live, Kept, Execute;
    match lv {
      case Local(off) =>
        WrapSum(c.base + off, shift);
        LiveReaches(c, prog, s0, s, mem, k);
        t := LoadThrough(c, prog, s0, s, off + shift, RBP, mem, k);
      case Deref(e) =>
        CodeSplit(prog, s.pc, ExprCode(e, n, d), [Load(shift, RAX, RCX), MovReg(RCX, RAX)]);
        var t1 := SimExpr(c, prog, e, n, d, s0, s, mem, k);
        t := LoadThrough(c, prog, s0, t1, shift, RAX, p.mem, k);
        KeptTrans(c, s, t1, t);
      case Member(inner, off) =>
        var q := Place(Lice, c, inner, mem).value;
        WrapSum(q.value + off, shift);
        t := SimRead(c, prog, inner, off + shift, n, d, s0, s, mem, k, q);
    }
  }

  /** Storing rax into an object. */
  lemma StoreObject(c: Context, prog: Program, s0: State, s: State, p: int, code: seq<Instr>, j: int, mem: Memory, k: nat)
    returns (t: State)
    requires CodeAt(prog, p, code) && 0 <= j < |code| && s.pc == p + j && code[j].Store?
    requires Live(c, prog, s0, s, mem, k) && Wrap(Get(s, code[j].base) + code[j].offset) in mem
    ensures Live(c, prog, s0, t, mem[Wrap(Get(s, code[j].base) + code[j].offset) := Get(s, code[j].src)], k)
    ensures Kept(c, s, t) && t == s.(pc := s.pc + 1, mem := t.mem)
  {
    hide CodeAt, Reaches;
    t := Do(c.callees, prog, s0, s, p, code, j);
  }

  lemma {:induction false} SimWrite(c: Context, prog: Program, lv: LValue, shift: int, n: nat, d: int, s0: State, s: State,
    mem: Memory, k: nat, p: Valued)
    returns (t: State)
    requires CodeAt(prog, s.pc, WriteCode(lv, shift, n, d)) && Live(c, prog, s0, s, mem, k) && 1 + PlaceDepth(lv) <= k
    requires Place(Lice, c, lv, mem) == Some(p) && Wrap(p.value + shift) in p.mem
    ensures Evaluated(c, prog, s0, s, t, |WriteCode(lv, shift, n, d)|,
      Valued(s.rax, p.mem[Wrap(p.value + shift) := s.rax]), k)
    decreases lv, 2
  {
    hide CodeAt, Live, Kept, Execute;
    match lv {
      case Local(off) =>
        WrapSum(c.base + off, shift);
        LiveReaches(c, prog, s0, s, mem, k);
        t := StoreObject(c, prog, s0, s, s.pc, WriteCode(lv, shift, n, d), 0, mem, k);
      case Deref(e) =>
        t := SimWriteDeref(c, prog, e, shift, n, d, s0, s, mem, k, p);
      case Member(inner, off) =>
        var q := Place(Lice, c, inner, mem).value;
        WrapSum(q.value + off, shift);
        t := SimWrite(c, prog, inner, off + shift, n, d, s0, s, mem, k, q);
    }
  }

  /** The value waits on the stack while its address is computed. */
  lemma {:induction false} SimWriteDeref(c: Context, prog: Program, e: Expr, shift: int, n: nat, d: int, s0: State, s: State,
    mem: Memory, k: nat, p: Valued)
    returns (t: State)
    requires CodeAt(prog, s.pc, [Push(RAX)] + ExprCode(e, n, d + 8) + [Load(0, RSP, RCX), Store(RCX, shift, RAX), Pop(RAX)])
    requires Live(c, prog, s0, s, mem, k) && 1 + Depth(e) <= k
    requires Eval(Lice, c, e, mem) == Some(p) && Wrap(p.value + shift) in p.mem
    ensures Evaluated(c, prog, s0, s, t, 4 + |ExprCode(e, n, d + 8)|, Valued(s.rax, p.mem[Wrap(p.value + shift) := s.rax]), k)
    decreases e, 3
  {
    hide CodeAt, Live, Kept, Execute, OnTop, Eval, ExprCode, Depth;
    var tail := [Load(0, RSP, RCX), Store(RCX, shift, RAX), Pop(RAX)];
    CodeSplit3(prog, s.pc, [Push(RAX)], ExprCode(e, n, d + 8), tail);
    var t1 := DoPush(c, prog, s0, s, s.pc, [Push(RAX)], 0, mem, k);
    var t2 := SimExpr(c, prog, e, n, d + 8, s0, t1, mem, k - 1);
    TopKept(c, t1, t2, s.rax);
    t := StoreAndPop(c, prog, s0, s, mem, t2, shift, p.mem, k, s.rax);
    KeptTrans(c, s, t1, t2);
    KeptTrans(c, s, t2, t);
  }

  lemma StoreAndPop(c: Context, prog: Program, s0: State, before: State, memBefore: Memory, s: State, shift: int, mem: Memory,
    k: nat, v: Word)
    returns (t: State)
    requires CodeAt(prog, s.pc, [Load(0, RSP, RCX), Store(RCX, shift, RAX), Pop(RAX)])
    requires k >= 1 && Live(c, prog, s0, before, memBefore, k) && Live(c, prog, s0, s, mem, k - 1)
    requires s.rsp == before.rsp - 8 && OnTop(c, s, v) && Wrap(s.rax + shift) in mem
    ensures Evaluated(c, prog, s0, s.(rsp := before.rsp), t, 3, Valued(v, mem[Wrap(s.rax + shift) := v]), k) && Kept(c, s, t)
  {
    hide CodeAt, Reaches, Live, Kept;
    var tail := [Load(0, RSP, RCX), Store(RCX, shift, RAX), Pop(RAX)];
    WrapId(s.rsp);
    WrapId(s.rsp + 8);
    var t1 := DoQuiet(c, prog, s0, s, s.pc, tail, 0, mem, k - 1);
    var t2 := StoreObject(c, prog, s0, t1, s.pc, tail, 1, mem, k - 1);
    var mem2 := mem[Wrap(s.rax + shift) := v];
    KeptTrans(c, s, t1, t2);
    TopKept(c, s, t2, v);
    LiveReaches(c, prog, s0, t2, mem2, k - 1);
    t := Do(c.callees, prog, s0, t2, s.pc, tail, 2);
    Repop(c, prog, s0, before, memBefore, t2, t, mem2, k, k - 1);
    KeptSame(c, s, t2, t);
    KeptFromLower(c, s, s.(rsp := before.rsp), t);
  }

  lemma KeptFromLower(c: Context, s: State, s': State, t: State)
    requires Kept(c, s, t) && s'.mem == s.mem && s.rsp <= s'.rsp
    ensures Kept(c, s', t)
  {
  }

  // --------------------------------------------------------- expressions

  lemma {:induction false} SimExpr(c: Context, prog: Program, e: Expr, n: nat, d: int, s0: State, s: State, mem: Memory, k: nat)
    returns (t: State)
    requires CodeAt(prog, s.pc, ExprCode(e, n, d)) && Live(c, prog, s0, s, mem, k) && Depth(e) <= k
    requires Eval(Lice, c, e, mem).Some?
    ensures Evaluated(c, prog, s0, s, t, |ExprCode(e, n, d)|, Eval(Lice, c, e, mem).value, k)
    decreases e, 2
  {
    hide *;
    if e.Literal? {
      t := SimLeaf(c, prog, e, n, d, s0, s, mem, k);
    } else if e.Read? || e.AddressOf? || e.Assign? || e.IncDec? {
      t := SimObject(c, prog, e, n, d, s0, s, mem, k);
    } else if e.LogicalAnd? || e.LogicalOr? || e.Conditional? {
      t := SimBranching(c, prog, e, n, d, s0, s, mem, k);
    } else {
      t := SimOperator(c, prog, e, n, d, s0, s, mem, k);
    }
  }

  lemma {:induction false} SimObject(c: Context, prog: Program, e: Expr, n: nat, d: int, s0: State, s: State, mem: Memory, k: nat)
    returns (t: State)
    requires e.Read? || e.AddressOf? || e.Assign? || e.IncDec?
    requires CodeAt(prog, s.pc, ExprCode(e, n, d)) && Live(c, prog, s0, s, mem, k) && Depth(e) <= k
    requires Eval(Lice, c, e, mem).Some?
    ensures Evaluated(c, prog, s0, s, t, |ExprCode(e, n, d)|, Eval(Lice, c, e, mem).value, k)
    decreases e, 1
  {
    hide CodeAt, Live, Kept, Execute, Apply, FinishCode, ReadCode, WriteCode, PlaceDepth, Place, PlaceLabels, Invoke, Evaluated, Arms;
    match e {
      case Read(lv) => t := SimReadWhole(c, prog, lv, n, d, s0, s, mem, k);
      case AddressOf(lv) => t := SimAddress(c, prog, lv, n, d, s0, s, mem, k);
      case Assign(lv, a) => t := SimAssign(c, prog, lv, a, n, n + ExprLabels(a), d, s0, s, mem, k);
      case IncDec(lv, prefix, minus, _) =>
        if prefix {
          t := SimPrefix(c, prog, lv, minus, n, d, s0, s, mem, k);
        } else {
          t := SimPostfix(c, prog, lv, minus, n, d, s0, s, mem, k);
        }
    }
  }

  lemma {:induction false} SimBranching(c: Context, prog: Program, e: Expr, n: nat, d: int, s0: State, s: State, mem: Memory, k: nat)
    returns (t: State)
    requires e.LogicalAnd? || e.LogicalOr? || e.Conditional?
    requires CodeAt(prog, s.pc, ExprCode(e, n, d)) && Live(c, prog, s0, s, mem, k) && Depth(e) <= k
    requires Eval(Lice, c, e, mem).Some?
    ensures Evaluated(c, prog, s0, s, t, |ExprCode(e, n, d)|, Eval(Lice, c, e, mem).value, k)
    decreases e, 1
  {
    hide *;
    match e {
      case LogicalAnd(_, _) => t := SimAndNode(c, prog, e, n, d, s0, s, mem, k);
      case LogicalOr(_, _) => t := SimOrNode(c, prog, e, n, d, s0, s, mem, k);
      case Conditional(_, _, _) => t := SimConditionalNode(c, prog, e, n, d, s0, s, mem, k);
    }
  }

  lemma {:induction false} SimAndNode(c: Context, prog: Program, e: Expr, n: nat, d: int, s0: State, s: State, mem: Memory, k: nat)
    returns (t: State)
    requires e.LogicalAnd?
    requires CodeAt(prog, s.pc, ExprCode(e, n, d)) && Live(c, prog, s0, s, mem, k) && Depth(e) <= k
    requires Eval(Lice, c, e, mem).Some?
    ensures Evaluated(c, prog, s0, s, t, |ExprCode(e, n, d)|, Eval(Lice, c, e, mem).value, k)
    decreases e, 1, 0
  {
    hide CodeAt, Live, Kept, Execute, Evaluated;
    t := SimLogicalAnd(c, prog, e.left, e.right, n, n + 1, n + 1 + ExprLabels(e.left), d, s0, s, mem, k);
  }

  lemma {:induction false} SimOrNode(c: Context, prog: Program, e: Expr, n: nat, d: int, s0: State, s: State, mem: Memory, k: nat)
    returns (t: State)
    requires e.LogicalOr?
    requires CodeAt(prog, s.pc, ExprCode(e, n, d)) && Live(c, prog, s0, s, mem, k) && Depth(e) <= k
    requires Eval(Lice, c, e, mem).Some?
    ensures Evaluated(c, prog, s0, s, t, |ExprCode(e, n, d)|, Eval(Lice, c, e, mem).value, k)
    decreases e, 1, 0
  {
    hide CodeAt, Live, Kept, Execute, Evaluated;
    t := SimLogicalOr(c, prog, e.left, e.right, n, n + 1, n + 1 + ExprLabels(e.left), d, s0, s, mem, k);
  }

  lemma {:induction false} SimConditionalNode(c: Context, prog: Program, e: Expr, n: nat, d: int, s0: State, s: State, mem: Memory, k: nat)
    returns (t: State)
    requires e.Conditional?
    requires CodeAt(prog, s.pc, ExprCode(e, n, d)) && Live(c, prog, s0, s, mem, k) && Depth(e) <= k
    requires Eval(Lice, c, e, mem).Some?
    ensures Evaluated(c, prog, s0, s, t, |ExprCode(e, n, d)|, Eval(Lice, c, e, mem).value, k)
    decreases e, 1, 0
  {
    hide CodeAt, Live, Kept, Execute, Evaluated, Arms;
    var Conditional(b, y, no) := e;
    var ne := n + ExprLabels(b);
    var end := ne + 1 + ExprLabels(y);
    ArmsSplit(prog, s.pc, ExprCode(b, n, d), ExprCode(y, ne + 1, d), ExprCode(no, end + 1, d), ne, end);
    t := SimConditional(c, prog, b, y, no, ne, end, n, ne + 1, end + 1, d, s0, s, mem, k,
      Eval(Lice, c, b, mem).value, Eval(Lice, c, e, mem).value);
  }

  lemma {:induction false} SimOperator(c: Context, prog: Program, e: Expr, n: nat, d: int, s0: State, s: State, mem: Memory, k: nat)
    returns (t: State)
    requires e.Binary? || e.LogicalNot? || e.OnesComplement? || e.Call?
    requires CodeAt(prog, s.pc, ExprCode(e, n, d)) && Live(c, prog, s0, s, mem, k) && Depth(e) <= k
    requires Eval(Lice, c, e, mem).Some?
    ensures Evaluated(c, prog, s0, s, t, |ExprCode(e, n, d)|, Eval(Lice, c, e, mem).value, k)
    decreases e, 1
  {
    hide *;
    match e {
      case Binary(_, _, _) => t := SimBinaryNode(c, prog, e, n, d, s0, s, mem, k);
      case LogicalNot(_) => t := SimUnaryNode(c, prog, e, n, d, s0, s, mem, k);
      case OnesComplement(_) => t := SimUnaryNode(c, prog, e, n, d, s0, s, mem, k);
      case Call(_, _) => t := SimCallNode(c, prog, e, n, d, s0, s, mem, k);
    }
  }

  lemma {:induction false} SimBinaryNode(c: Context, prog: Program, e: Expr, n: nat, d: int, s0: State, s: State, mem: Memory, k: nat)
    returns (t: State)
    requires e.Binary?
    requires CodeAt(prog, s.pc, ExprCode(e, n, d)) && Live(c, prog, s0, s, mem, k) && Depth(e) <= k
    requires Eval(Lice, c, e, mem).Some?
    ensures Evaluated(c, prog, s0, s, t, |ExprCode(e, n, d)|, Eval(Lice, c, e, mem).value, k)
    decreases e, 1, 0
  {
    hide CodeAt, Live, Kept, Apply, FinishCode, Evaluated;
    var Binary(op, l, r) := e;
    var a := Eval(Lice, c, l, mem).value;
    var b := Eval(Lice, c, r, a.mem).value;
    t := SimBinary(c, prog, e, n, n + ExprLabels(l), d, s0, s, mem, k, a, b, Apply(Lice, op, a.value, b.value).value);
  }

  lemma {:induction false} SimUnaryNode(c: Context, prog: Program, e: Expr, n: nat, d: int, s0: State, s: State, mem: Memory, k: nat)
    returns (t: State)
    requires e.LogicalNot? || e.OnesComplement?
    requires CodeAt(prog, s.pc, ExprCode(e, n, d)) && Live(c, prog, s0, s, mem, k) && Depth(e) <= k
    requires Eval(Lice, c, e, mem).Some?
    ensures Evaluated(c, prog, s0, s, t, |ExprCode(e, n, d)|, Eval(Lice, c, e, mem).value, k)
    decreases e, 1, 0
  {
    hide CodeAt, Live, Kept, Evaluated;
    if e.LogicalNot? {
      t := SimNot(c, prog, e.operand, n, d, s0, s, mem, k);
    } else {
      t := SimComplement(c, prog, e.operand, n, d, s0, s, mem, k);
    }
  }

  lemma {:induction false} SimCallNode(c: Context, prog: Program, e: Expr, n: nat, d: int, s0: State, s: State, mem: Memory, k: nat)
    returns (t: State)
    requires e.Call?
    requires CodeAt(prog, s.pc, ExprCode(e, n, d)) && Live(c, prog, s0, s, mem, k) && Depth(e) <= k
    requires Eval(Lice, c, e, mem).Some?
    ensures Evaluated(c, prog, s0, s, t, |ExprCode(e, n, d)|, Eval(Lice, c, e, mem).value, k)
    decreases e, 1, 0
  {
    hide CodeAt, Live, Kept, Invoke, Evaluated;
    t := SimCall(c, prog, e.name, e.args, n, d, s0, s, mem, k);
  }

  lemma SimLeaf(c: Context, prog: Program, e: Expr, n: nat, d: int, s0: State, s: State, mem: Memory, k: nat) returns (t: State)
    requires (e.Literal? || (e.AddressOf? && e.lv.Local?)) && Eval(Lice, c, e, mem).Some?
    requires CodeAt(prog, s.pc, ExprCode(e, n, d)) && Live(c, prog, s0, s, mem, k)
    ensures Evaluated(c, prog, s0, s, t, |ExprCode(e, n, d)|, Eval(Lice, c, e, mem).value, k)
  {
    hide CodeAt, Kept, Live;
    LiveReaches(c, prog, s0, s, mem, k);
    t := DoQuiet(c, prog, s0, s, s.pc, ExprCode(e, n, d), 0, mem, k);
  }

  lemma {:induction false} SimReadWhole(c: Context, prog: Program, lv: LValue, n: nat, d: int, s0: State, s: State, mem: Memory, k: nat)
    returns (t: State)
    requires CodeAt(prog, s.pc, ReadCode(lv, 0, n, d)) && Live(c, prog, s0, s, mem, k) && PlaceDepth(lv) <= k
    requires Through(Place(Lice, c, lv, mem)).Some?
    ensures Evaluated(c, prog, s0, s, t, |ReadCode(lv, 0, n, d)|, Through(Place(Lice, c, lv, mem)).value, k)
    decreases lv, 3
  {
    hide CodeAt, Live, Kept, ReadCode, Place, PlaceDepth;
    var p := Place(Lice, c, lv, mem).value;
    WrapId(p.value);
    t := SimRead(c, prog, lv, 0, n, d, s0, s, mem, k, p);
  }

  lemma {:induction false} SimWriteWhole(c: Context, prog: Program, lv: LValue, n: nat, d: int, s0: State, s: State, mem: Memory, k: nat,
    p: Valued)
    returns (t: State)
    requires CodeAt(prog, s.pc, WriteCode(lv, 0, n, d)) && Live(c, prog, s0, s, mem, k) && 1 + PlaceDepth(lv) <= k
    requires Place(Lice, c, lv, mem) == Some(p) && p.value in p.mem
    ensures Evaluated(c, prog, s0, s, t, |WriteCode(lv, 0, n, d)|, Valued(s.rax, p.mem[p.value := s.rax]), k)
    decreases lv, 3
  {
    hide CodeAt, Live, Kept, WriteCode, Place, PlaceDepth;
    WrapId(p.value);
    t := SimWrite(c, prog, lv, 0, n, d, s0, s, mem, k, p);
  }

  lemma {:induction false} SimAddress(c: Context, prog: Program, lv: LValue, n: nat, d: int, s0: State, s: State, mem: Memory, k: nat)
    returns (t: State)
    requires CodeAt(prog, s.pc, ExprCode(AddressOf(lv), n, d)) && Live(c, prog, s0, s, mem, k) && PlaceDepth(lv) <= k
    requires Eval(Lice, c, AddressOf(lv), mem).Some?
    ensures Evaluated(c, prog, s0, s, t, |ExprCode(AddressOf(lv), n, d)|, Eval(Lice, c, AddressOf(lv), mem).value, k)
    decreases AddressOf(lv), 0
  {
    hide CodeAt, Live, Kept, ReadCode, Place, PlaceDepth;
    if lv.Local? {
      t := SimLeaf(c, prog, AddressOf(lv), n, d, s0, s, mem, k);
    } else {
      t := SimReadWhole(c, prog, lv, n, d, s0, s, mem, k);
    }
  }

  lemma {:induction false} SimNot(c: Context, prog: Program, a: Expr, n: nat, d: int, s0: State, s: State, mem: Memory, k: nat) returns (t: State)
    requires CodeAt(prog, s.pc, ExprCode(a, n, d) + [CmpImm(0), SetAl(IsEqual), MovzbAlEax])
    requires Live(c, prog, s0, s, mem, k) && Depth(a) <= k && Eval(Lice, c, a, mem).Some?
    ensures var v := Eval(Lice, c, a, mem).value;
      Evaluated(c, prog, s0, s, t, |ExprCode(a, n, d)| + 3, Valued(Bool(v.value == 0), v.mem), k)
    decreases LogicalNot(a), 0
  {
    hide CodeAt, Live, Kept, ExprCode, Eval, Depth, Reaches;
    var tail := [CmpImm(0), SetAl(IsEqual), MovzbAlEax];
    CodeSplit(prog, s.pc, ExprCode(a, n, d), tail);
    var v := Eval(Lice, c, a, mem).value;
    var t1 := SimExpr(c, prog, a, n, d, s0, s, mem, k);
    var t2 := DoQuiet(c, prog, s0, t1, t1.pc, tail, 0, v.mem, k);
    LiveReaches(c, prog, s0, t2, v.mem, k);
    t := SimSet(c, prog, s0, t2, t1.pc, tail, 1);
    Repop(c, prog, s0, t2, v.mem, t2, t, v.mem, k, k);
    KeptTrans(c, s, t1, t2);
    KeptSame(c, s, t2, t);
  }

  lemma {:induction false} SimComplement(c: Context, prog: Program, a: Expr, n: nat, d: int, s0: State, s: State, mem: Memory, k: nat)
    returns (t: State)
    requires CodeAt(prog, s.pc, ExprCode(a, n, d) + [Not])
    requires Live(c, prog, s0, s, mem, k) && Depth(a) <= k && Eval(Lice, c, a, mem).Some?
    ensures var v := Eval(Lice, c, a, mem).value;
      Evaluated(c, prog, s0, s, t, |ExprCode(a, n, d)| + 1, Valued(Complement(v.value), v.mem), k)
    decreases OnesComplement(a), 0
  {
    hide CodeAt, Live, Kept, ExprCode, Eval, Depth;
    CodeSplit(prog, s.pc, ExprCode(a, n, d), [Not]);
    var t1 := SimExpr(c, prog, a, n, d, s0, s, mem, k);
    t := DoQuiet(c, prog, s0, t1, t1.pc, [Not], 0, Eval(Lice, c, a, mem).value.mem, k);
    KeptTrans(c, s, t1, t);
  }

  lemma {:induction false} SimBinary(c: Context, prog: Program, e: Expr, m: nat, n: nat, d: int, s0: State,
    s: State, mem: Memory, k: nat, a: Valued, b: Valued, v: Word)
    returns (t: State)
    requires e.Binary? && CodeAt(prog, s.pc, ExprCode(e.left, m, d) + [Push(RAX)] + (ExprCode(e.right, n, d + 8) + FinishCode(e.op)))
    requires Live(c, prog, s0, s, mem, k) && Depth(e.left) <= k && 1 + Depth(e.right) <= k
    requires Eval(Lice, c, e.left, mem) == Some(a) && Eval(Lice, c, e.right, a.mem) == Some(b)
    requires Apply(Lice, e.op, a.value, b.value) == Some(v)
    ensures Evaluated(c, prog, s0, s, t, |ExprCode(e.left, m, d)| + 1 + (|ExprCode(e.right, n, d + 8)| + |FinishCode(e.op)|),
      Valued(v, b.mem), k)
    decreases e, 0
  {
    hide *;
    BinarySplit(prog, s.pc, ExprCode(e.left, m, d), ExprCode(e.right, n, d + 8) + FinishCode(e.op));
    var t1, t2 := SimPushed(c, prog, e.left, m, d, s0, s, mem, k, a);
    t := SimRight(c, prog, e.op, e.right, n, d + 8, s0, t1, t2, a.mem, k, a.value, b, v);
    SealAfter(c, prog, s0, s, t2, t, |ExprCode(e.left, m, d)| + 1 + (|ExprCode(e.right, n, d + 8)| + |FinishCode(e.op)|), Valued(v, b.mem), k);
  }

  lemma BinarySplit(prog: Program, p: int, left: seq<Instr>, right: seq<Instr>)
    requires CodeAt(prog, p, left + [Push(RAX)] + right)
    ensures CodeAt(prog, p, left) && CodeAt(prog, p + |left|, [Push(RAX)]) && CodeAt(prog, p + |left| + 1, right)
  {
    hide CodeAt;
    CodeSplit3(prog, p, left, [Push(RAX)], right);
  }

  /** The parts of Evaluated, with a state u on the way. */
  lemma SealAfter(c: Context, prog: Program, s0: State, s: State, u: State, t: State, len: int, v: Valued, k: nat)
    requires Live(c, prog, s0, t, v.mem, k) && t.rsp == s.rsp && t.rax == v.value && t.pc == s.pc + len
    requires Kept(c, s, u) && Kept(c, u, t) && u.rsp <= s.rsp
    ensures Evaluated(c, prog, s0, s, t, len, v, k)
  {
    KeptTrans(c, s, u, t);
  }

  /** In t2 the value a has been pushed on the stack of t1. */
  ghost predicate LeftPushed(c: Context, prog: Program, s0: State, t1: State, t2: State, mem: Memory, k: nat, a: Word) {
    k >= 1 && Live(c, prog, s0, t1, mem, k) && Live(c, prog, s0, t2, mem, k - 1) && t2.rsp == t1.rsp - 8 && OnTop(c, t2, a)
  }

  /** An expression evaluated and its value pushed; t1 is the state before the push. */
  lemma {:induction false} SimPushed(c: Context, prog: Program, e: Expr, n: nat, d: int, s0: State, s: State, mem: Memory, k: nat,
    a: Valued)
    returns (t1: State, t2: State)
    requires CodeAt(prog, s.pc, ExprCode(e, n, d)) && CodeAt(prog, s.pc + |ExprCode(e, n, d)|, [Push(RAX)])
    requires Live(c, prog, s0, s, mem, k) && Depth(e) <= k && 1 <= k && Eval(Lice, c, e, mem) == Some(a)
    ensures LeftPushed(c, prog, s0, t1, t2, a.mem, k, a.value) && t1.rsp == s.rsp && t2.rsp <= s.rsp && Kept(c, s, t2)
    ensures t2.pc == s.pc + |ExprCode(e, n, d)| + 1
    decreases e, 3
  {
    hide CodeAt, Live, Kept, ExprCode, Eval, Depth, OnTop;
    t1 := SimExpr(c, prog, e, n, d, s0, s, mem, k);
    t2 := DoPush(c, prog, s0, t1, t1.pc, [Push(RAX)], 0, a.mem, k);
    KeptTrans(c, s, t1, t2);
  }

  lemma {:induction false} SimRight(c: Context, prog: Program, op: BinaryOp, r: Expr, n: nat, d: int, s0: State, t1: State, t2: State,
    mem: Memory, k: nat, a: Word, b: Valued, v: Word)
    returns (t: State)
    requires CodeAt(prog, t2.pc, ExprCode(r, n, d) + FinishCode(op)) && Depth(r) <= k - 1
    requires LeftPushed(c, prog, s0, t1, t2, mem, k, a)
    requires Eval(Lice, c, r, mem) == Some(b) && Apply(Lice, op, a, b.value) == Some(v)
    ensures Live(c, prog, s0, t, b.mem, k) && Kept(c, t2, t) && t.rax == v
    ensures t.pc == t2.pc + (|ExprCode(r, n, d)| + |FinishCode(op)|) && t.rsp == t1.rsp
    decreases r, 3
  {
    hide CodeAt, Live, Kept, ExprCode, Eval, Depth, OnTop, Apply, FinishCode, Reaches;
    CodeSplit(prog, t2.pc, ExprCode(r, n, d), FinishCode(op));
    var t3 := SimExpr(c, prog, r, n, d, s0, t2, mem, k - 1);
    TopKept(c, t2, t3, a);
    LiveReaches(c, prog, s0, t3, b.mem, k - 1);
    t := SimFinish(c, prog, op, s0, t3, a);
    Repop(c, prog, s0, t1, mem, t3, t, b.mem, k, k - 1);
    KeptSame(c, t2, t3, t);
  }

  lemma {:induction false} SimAssign(c: Context, prog: Program, lv: LValue, e: Expr, m: nat, n: nat, d: int, s0: State, s: State,
    mem: Memory, k: nat)
    returns (t: State)
    requires CodeAt(prog, s.pc, ExprCode(e, m, d) + WriteCode(lv, 0, n, d))
    requires Live(c, prog, s0, s, mem, k) && Depth(e) <= k && 1 + PlaceDepth(lv) <= k
    requires Eval(Lice, c, e, mem).Some? && Place(Lice, c, lv, Eval(Lice, c, e, mem).value.mem).Some?
    requires var v := Eval(Lice, c, e, mem).value; var p := Place(Lice, c, lv, v.mem).value; p.value in p.mem
    ensures var v := Eval(Lice, c, e, mem).value; var p := Place(Lice, c, lv, v.mem).value;
      Evaluated(c, prog, s0, s, t, |ExprCode(e, m, d)| + |WriteCode(lv, 0, n, d)|, Valued(v.value, p.mem[p.value := v.value]), k)
    decreases Assign(lv, e), 0
  {
    hide CodeAt, Live, Kept, ExprCode, WriteCode, Eval, Place, Depth, PlaceDepth;
    CodeSplit(prog, s.pc, ExprCode(e, m, d), WriteCode(lv, 0, n, d));
    var v := Eval(Lice, c, e, mem).value;
    var t1 := SimExpr(c, prog, e, m, d, s0, s, mem, k);
    t := SimWriteWhole(c, prog, lv, n, d, s0, t1, v.mem, k, Place(Lice, c, lv, v.mem).value);
    KeptTrans(c, s, t1, t);
  }

  lemma {:induction false} SimPrefix(c: Context, prog: Program, lv: LValue, minus: bool, n: nat, d: int, s0: State, s: State,
    mem: Memory, k: nat)
    returns (t: State)
    requires CodeAt(prog, s.pc, ReadCode(lv, 0, n, d) + [AluImm(if minus then Sub else Add, 1, RAX)] +
      WriteCode(lv, 0, n + PlaceLabels(lv), d))
    requires Live(c, prog, s0, s, mem, k) && 2 + PlaceDepth(lv) <= k
    requires IncDecLice(Lice, c, lv, mem, true, minus).Some?
    ensures Evaluated(c, prog, s0, s, t, |ReadCode(lv, 0, n, d)| + 1 + |WriteCode(lv, 0, n + PlaceLabels(lv), d)|,
      IncDecLice(Lice, c, lv, mem, true, minus).value, k)
    decreases lv, 4
  {
    hide CodeAt, Live, Kept, ReadCode, WriteCode, Place, PlaceDepth, PlaceLabels;
    var n1 := n + PlaceLabels(lv);
    var step := [AluImm(if minus then Sub else Add, 1, RAX)];
    CodeSplit3(prog, s.pc, ReadCode(lv, 0, n, d), step, WriteCode(lv, 0, n1, d));
    var was := Through(Place(Lice, c, lv, mem)).value;
    var t1 := SimReadWhole(c, prog, lv, n, d, s0, s, mem, k);
    var t2 := DoQuiet(c, prog, s0, t1, t1.pc, step, 0, was.mem, k);
    t := SimWriteWhole(c, prog, lv, n1, d, s0, t2, was.mem, k, Place(Lice, c, lv, was.mem).value);
    KeptTrans(c, s, t1, t2);
    KeptTrans(c, s, t2, t);
  }

  lemma {:induction false} SimPostfix(c: Context, prog: Program, lv: LValue, minus: bool, n: nat, d: int, s0: State, s: State,
    mem: Memory, k: nat)
    returns (t: State)
    requires CodeAt(prog, s.pc, ReadCode(lv, 0, n, d) + [Push(RAX), AluImm(if minus then Sub else Add, 1, RAX)] +
      (WriteCode(lv, 0, n + PlaceLabels(lv), d + 8) + [Pop(RAX)]))
    requires Live(c, prog, s0, s, mem, k) && 2 + PlaceDepth(lv) <= k
    requires IncDecLice(Lice, c, lv, mem, false, minus).Some?
    ensures Evaluated(c, prog, s0, s, t, |ReadCode(lv, 0, n, d)| + 2 + (|WriteCode(lv, 0, n + PlaceLabels(lv), d + 8)| + 1),
      IncDecLice(Lice, c, lv, mem, false, minus).value, k)
    decreases lv, 5
  {
    hide CodeAt, Live, Kept, ReadCode, WriteCode, Place, PlaceDepth, PlaceLabels, OnTop, Evaluated, Wrap;
    var n1 := n + PlaceLabels(lv);
    var step := [Push(RAX), AluImm(if minus then Sub else Add, 1, RAX)];
    var was := Through(Place(Lice, c, lv, mem)).value;
    var p := Place(Lice, c, lv, was.mem).value;
    CodeSplit3(prog, s.pc, ReadCode(lv, 0, n, d), step, WriteCode(lv, 0, n1, d + 8) + [Pop(RAX)]);
    var t1 := SimReadWhole(c, prog, lv, n, d, s0, s, mem, k);
    EvaluatedParts(c, prog, s0, s, t1, |ReadCode(lv, 0, n, d)|, was, k);
    var t3 := SimPushStep(c, prog, minus, s0, t1, was.mem, k);
    t := SimWriteAndPop(c, prog, lv, n1, d + 8, s0, t1, t3, was, k, p);
    KeptTrans(c, s, t1, t3);
    SealAfter(c, prog, s0, s, t3, t, |ReadCode(lv, 0, n, d)| + 2 + (|WriteCode(lv, 0, n1, d + 8)| + 1),
      Valued(was.value, p.mem[p.value := t3.rax]), k);
  }

  lemma EvaluatedParts(c: Context, prog: Program, s0: State, s: State, t: State, len: int, r: Valued, k: nat)
    requires Evaluated(c, prog, s0, s, t, len, r, k)
    ensures Live(c, prog, s0, t, r.mem, k) && t.pc == s.pc + len && t.rax == r.value && t.rsp == s.rsp && Kept(c, s, t)
  {
  }

  /** The old value pushed and the new one computed. */
  lemma SimPushStep(c: Context, prog: Program, minus: bool, s0: State, s: State, mem: Memory, k: nat) returns (t: State)
    requires CodeAt(prog, s.pc, [Push(RAX), AluImm(if minus then Sub else Add, 1, RAX)]) && Live(c, prog, s0, s, mem, k) && k >= 1
    ensures Live(c, prog, s0, t, mem, k - 1) && OnTop(c, t, s.rax) && Kept(c, s, t)
    ensures t.pc == s.pc + 2 && t.rsp == s.rsp - 8 && t.rax == Stepped(minus, s.rax, 1)
  {
    hide CodeAt, Live, Kept, OnTop;
    var step := [Push(RAX), AluImm(if minus then Sub else Add, 1, RAX)];
    var u := DoPush(c, prog, s0, s, s.pc, step, 0, mem, k);
    t := DoQuiet(c, prog, s0, u, s.pc, step, 1, mem, k - 1);
    TopKept(c, u, t, s.rax);
    KeptTrans(c, s, u, t);
  }

  lemma {:induction false} SimWriteAndPop(c: Context, prog: Program, lv: LValue, n: nat, d: int, s0: State, t1: State, t3: State,
    was: Valued, k: nat, p: Valued)
    returns (t: State)
    requires CodeAt(prog, t3.pc, WriteCode(lv, 0, n, d) + [Pop(RAX)]) && k >= 2 && 1 + PlaceDepth(lv) <= k - 1
    requires Live(c, prog, s0, t1, was.mem, k) && Live(c, prog, s0, t3, was.mem, k - 1) && t3.rsp == t1.rsp - 8
    requires OnTop(c, t3, was.value) && Place(Lice, c, lv, was.mem) == Some(p) && p.value in p.mem
    ensures Live(c, prog, s0, t, p.mem[p.value := t3.rax], k) && Kept(c, t3, t) && t.rax == was.value
    ensures t.pc == t3.pc + (|WriteCode(lv, 0, n, d)| + 1) && t.rsp == t1.rsp
    decreases lv, 4
  {
    hide CodeAt, Live, Kept, WriteCode, Place, PlaceDepth, Reaches;
    CodeSplit(prog, t3.pc, WriteCode(lv, 0, n, d), [Pop(RAX)]);
    var t4 := SimWriteWhole(c, prog, lv, n, d, s0, t3, was.mem, k - 1, p);
    TopKept(c, t3, t4, was.value);
    WrapId(t4.rsp + 8);
    LiveReaches(c, prog, s0, t4, p.mem[p.value := t3.rax], k - 1);
    t := Do(c.callees, prog, s0, t4, t4.pc, [Pop(RAX)], 0);
    Repop(c, prog, s0, t1, was.mem, t4, t, p.mem[p.value := t3.rax], k, k - 1);
    KeptSame(c, t3, t4, t);
  }

  /** test, mov, conditional jump: the move does not disturb the flags. */
  lemma SimAndTest(c: Context, prog: Program, s0: State, s: State, p: int, code: seq<Instr>, mem: Memory, k: nat, end: nat, q: int)
    returns (t: State)
    requires CodeAt(prog, p, code) && s.pc == p && |code| >= 3 && Live(c, prog, s0, s, mem, k)
    requires code[0] == Test && code[1] == MovImm(0, RAX) && code[2] == Je(end)
    requires FindLabel(prog, end) == Some(q) && 0 <= q
    ensures Live(c, prog, s0, t, mem, k) && Kept(c, s, t) && t.rax == 0 && t.rsp == s.rsp
    ensures t.pc == if s.rax == 0 then q else s.pc + 3
  {
    hide CodeAt, Live, Kept, FindLabel;
    var t1 := DoQuiet(c, prog, s0, s, p, code, 0, mem, k);
    var t2 := DoQuiet(c, prog, s0, t1, p, code, 1, mem, k);
    t := DoQuiet(c, prog, s0, t2, p, code, 2, mem, k);
    KeptTrans(c, s, t1, t2);
    KeptTrans(c, s, t2, t);
  }

  lemma {:induction false} SimLogicalAnd(c: Context, prog: Program, l: Expr, r: Expr, end: nat, m: nat, n: nat, d: int, s0: State,
    s: State, mem: Memory, k: nat)
    returns (t: State)
    requires CodeAt(prog, s.pc, ExprCode(l, m, d) + [Test, MovImm(0, RAX), Je(end)] +
      (ExprCode(r, n, d) + [Test, MovImm(0, RAX), Je(end), MovImm(1, RAX), Label(end)]))
    requires Live(c, prog, s0, s, mem, k) && Depth(l) <= k && Depth(r) <= k
    requires Eval(Lice, c, l, mem).Some?
    requires var a := Eval(Lice, c, l, mem).value; a.value == 0 || Eval(Lice, c, r, a.mem).Some?
    ensures var a := Eval(Lice, c, l, mem).value;
      Evaluated(c, prog, s0, s, t, |ExprCode(l, m, d)| + 3 + (|ExprCode(r, n, d)| + 5),
        if a.value == 0 then Valued(0, a.mem) else Truth(Eval(Lice, c, r, a.mem)).value, k)
    decreases LogicalAnd(l, r), 0
  {
    hide CodeAt, Live, Kept, ExprCode, Eval, Depth, FindLabel;
    var left, right := ExprCode(l, m, d), ExprCode(r, n, d);
    var head, tail := [Test, MovImm(0, RAX), Je(end)], [Test, MovImm(0, RAX), Je(end), MovImm(1, RAX), Label(end)];
    CodeSplit3(prog, s.pc, left, head, right + tail);
    var q := s.pc + |left| + 3 + |right|;
    CodeSplit(prog, s.pc + |left| + 3, right, tail);
    LabelHere(prog, q, tail, 4, end);
    var a := Eval(Lice, c, l, mem).value;
    var t1 := SimExpr(c, prog, l, m, d, s0, s, mem, k);
    var t2 := SimAndTest(c, prog, s0, t1, t1.pc, head, a.mem, k, end, q + 4);
    KeptTrans(c, s, t1, t2);
    if a.value == 0 {
      t := DoQuiet(c, prog, s0, t2, q, tail, 4, a.mem, k);
      KeptTrans(c, s, t2, t);
    } else {
      t := SimAndRight(c, prog, r, end, n, d, s0, t2, a.mem, k);
      KeptTrans(c, s, t2, t);
    }
  }

  lemma {:induction false} SimAndRight(c: Context, prog: Program, r: Expr, end: nat, n: nat, d: int, s0: State,
    s: State, mem: Memory, k: nat)
    returns (t: State)
    requires CodeAt(prog, s.pc, ExprCode(r, n, d) + [Test, MovImm(0, RAX), Je(end), MovImm(1, RAX), Label(end)])
    requires Live(c, prog, s0, s, mem, k) && Depth(r) <= k && Eval(Lice, c, r, mem).Some?
    ensures Evaluated(c, prog, s0, s, t, |ExprCode(r, n, d)| + 5, Truth(Eval(Lice, c, r, mem)).value, k)
    decreases r, 3
  {
    hide CodeAt, Live, Kept, ExprCode, Eval, Depth, FindLabel;
    var tail := [Test, MovImm(0, RAX), Je(end), MovImm(1, RAX), Label(end)];
    CodeSplit(prog, s.pc, ExprCode(r, n, d), tail);
    var q := s.pc + |ExprCode(r, n, d)|;
    LabelHere(prog, q, tail, 4, end);
    var b := Eval(Lice, c, r, mem).value;
    var t3 := SimExpr(c, prog, r, n, d, s0, s, mem, k);
    var t4 := SimAndTest(c, prog, s0, t3, t3.pc, tail, b.mem, k, end, q + 4);
    KeptTrans(c, s, t3, t4);
    if t4.pc != q + 4 {
      var t5 := DoQuiet(c, prog, s0, t4, q, tail, 3, b.mem, k);
      KeptTrans(c, s, t4, t5);
      t4 := t5;
    }
    t := DoQuiet(c, prog, s0, t4, q, tail, 4, b.mem, k);
    KeptTrans(c, s, t4, t);
  }

  /** test, mov, conditional jump: the move does not disturb the flags. */
  lemma SimOrTest(c: Context, prog: Program, s0: State, s: State, p: int, code: seq<Instr>, mem: Memory, k: nat, end: nat, q: int)
    returns (t: State)
    requires CodeAt(prog, p, code) && s.pc == p && |code| >= 3 && Live(c, prog, s0, s, mem, k)
    requires code[0] == Test && code[1] == MovImm(1, RAX) && code[2] == Jne(end)
    requires FindLabel(prog, end) == Some(q) && 0 <= q
    ensures Live(c, prog, s0, t, mem, k) && Kept(c, s, t) && t.rax == 1 && t.rsp == s.rsp
    ensures t.pc == if s.rax != 0 then q else s.pc + 3
  {
    hide CodeAt, Live, Kept, FindLabel;
    var t1 := DoQuiet(c, prog, s0, s, p, code, 0, mem, k);
    var t2 := DoQuiet(c, prog, s0, t1, p, code, 1, mem, k);
    t := DoQuiet(c, prog, s0, t2, p, code, 2, mem, k);
    KeptTrans(c, s, t1, t2);
    KeptTrans(c, s, t2, t);
  }

  lemma {:induction false} SimLogicalOr(c: Context, prog: Program, l: Expr, r: Expr, end: nat, m: nat, n: nat, d: int, s0: State,
    s: State, mem: Memory, k: nat)
    returns (t: State)
    requires CodeAt(prog, s.pc, ExprCode(l, m, d) + [Test, MovImm(1, RAX), Jne(end)] +
      (ExprCode(r, n, d) + [Test, MovImm(1, RAX), Jne(end), MovImm(0, RAX), Label(end)]))
    requires Live(c, prog, s0, s, mem, k) && Depth(l) <= k && Depth(r) <= k
    requires Eval(Lice, c, l, mem).Some?
    requires var a := Eval(Lice, c, l, mem).value; a.value != 0 || Eval(Lice, c, r, a.mem).Some?
    ensures var a := Eval(Lice, c, l, mem).value;
      Evaluated(c, prog, s0, s, t, |ExprCode(l, m, d)| + 3 + (|ExprCode(r, n, d)| + 5),
        if a.value != 0 then Valued(1, a.mem) else Truth(Eval(Lice, c, r, a.mem)).value, k)
    decreases LogicalOr(l, r), 0
  {
    hide CodeAt, Live, Kept, ExprCode, Eval, Depth, FindLabel;
    var left, right := ExprCode(l, m, d), ExprCode(r, n, d);
    var head, tail := [Test, MovImm(1, RAX), Jne(end)], [Test, MovImm(1, RAX), Jne(end), MovImm(0, RAX), Label(end)];
    CodeSplit3(prog, s.pc, left, head, right + tail);
    var q := s.pc + |left| + 3 + |right|;
    CodeSplit(prog, s.pc + |left| + 3, right, tail);
    LabelHere(prog, q, tail, 4, end);
    var a := Eval(Lice, c, l, mem).value;
    var t1 := SimExpr(c, prog, l, m, d, s0, s, mem, k);
    var t2 := SimOrTest(c, prog, s0, t1, t1.pc, head, a.mem, k, end, q + 4);
    KeptTrans(c, s, t1, t2);
    if a.value != 0 {
      t := DoQuiet(c, prog, s0, t2, q, tail, 4, a.mem, k);
      KeptTrans(c, s, t2, t);
    } else {
      t := SimOrRight(c, prog, r, end, n, d, s0, t2, a.mem, k);
      KeptTrans(c, s, t2, t);
    }
  }

  lemma {:induction false} SimOrRight(c: Context, prog: Program, r: Expr, end: nat, n: nat, d: int, s0: State,
    s: State, mem: Memory, k: nat)
    returns (t: State)
    requires CodeAt(prog, s.pc, ExprCode(r, n, d) + [Test, MovImm(1, RAX), Jne(end), MovImm(0, RAX), Label(end)])
    requires Live(c, prog, s0, s, mem, k) && Depth(r) <= k && Eval(Lice, c, r, mem).Some?
    ensures Evaluated(c, prog, s0, s, t, |ExprCode(r, n, d)| + 5, Truth(Eval(Lice, c, r, mem)).value, k)
    decreases r, 3
  {
    hide CodeAt, Live, Kept, ExprCode, Eval, Depth, FindLabel;
    var tail := [Test, MovImm(1, RAX), Jne(end), MovImm(0, RAX), Label(end)];
    CodeSplit(prog, s.pc, ExprCode(r, n, d), tail);
    var q := s.pc + |ExprCode(r, n, d)|;
    LabelHere(prog, q, tail, 4, end);
    var b := Eval(Lice, c, r, mem).value;
    var t3 := SimExpr(c, prog, r, n, d, s0, s, mem, k);
    var t4 := SimOrTest(c, prog, s0, t3, t3.pc, tail, b.mem, k, end, q + 4);
    KeptTrans(c, s, t3, t4);
    if t4.pc != q + 4 {
      var t5 := DoQuiet(c, prog, s0, t4, q, tail, 3, b.mem, k);
      KeptTrans(c, s, t4, t5);
      t4 := t5;
    }
    t := DoQuiet(c, prog, s0, t4, q, tail, 4, b.mem, k);
    KeptTrans(c, s, t4, t);
  }

  /** test and je, as gen_je emits them. */
  lemma SimBranch(c: Context, prog: Program, s0: State, s: State, p: int, code: seq<Instr>, mem: Memory, k: nat, l: nat, q: int)
    returns (t: State)
    requires CodeAt(prog, p, code) && s.pc == p && |code| >= 2 && Live(c, prog, s0, s, mem, k)
    requires code[0] == Test && code[1] == Je(l) && FindLabel(prog, l) == Some(q) && 0 <= q
    ensures Live(c, prog, s0, t, mem, k) && Kept(c, s, t) && t.rsp == s.rsp
    ensures t.pc == if s.rax == 0 then q else s.pc + 2
  {
    hide CodeAt, Live, Kept, FindLabel;
    var t1 := DoQuiet(c, prog, s0, s, p, code, 0, mem, k);
    t := DoQuiet(c, prog, s0, t1, p, code, 1, mem, k);
    KeptTrans(c, s, t1, t);
  }

  /** A condition and the jump to l taken when it is zero. */
  lemma {:induction false} SimTest(c: Context, prog: Program, b: Expr, n: nat, d: int, s0: State, s: State, mem: Memory, k: nat,
    l: nat, q: int, a: Valued)
    returns (t: State)
    requires CodeAt(prog, s.pc, ExprCode(b, n, d)) && CodeAt(prog, s.pc + |ExprCode(b, n, d)|, [Test, Je(l)])
    requires Live(c, prog, s0, s, mem, k) && Depth(b) <= k && Eval(Lice, c, b, mem) == Some(a)
    requires FindLabel(prog, l) == Some(q) && 0 <= q
    ensures Live(c, prog, s0, t, a.mem, k) && Kept(c, s, t) && t.rsp == s.rsp
    ensures t.pc == if a.value == 0 then q else s.pc + |ExprCode(b, n, d)| + 2
    decreases b, 3
  {
    hide CodeAt, Live, Kept, ExprCode, Eval, Depth, FindLabel;
    var t1 := SimExpr(c, prog, b, n, d, s0, s, mem, k);
    t := SimBranch(c, prog, s0, t1, t1.pc, [Test, Je(l)], a.mem, k, l, q);
    KeptTrans(c, s, t1, t);
  }

  /** The layout of a conditional and where its two labels are. */
  ghost predicate Arms(prog: Program, p: int, cond: seq<Instr>, yes: seq<Instr>, other: seq<Instr>, ne: nat, end: nat) {
    var p2 := p + |cond| + 2 + |yes|;
    CodeAt(prog, p, cond) && CodeAt(prog, p + |cond|, [Test, Je(ne)]) && CodeAt(prog, p + |cond| + 2, yes) &&
    CodeAt(prog, p2, [Jmp(end), Label(ne)]) && CodeAt(prog, p2 + 2, other) && CodeAt(prog, p2 + 2 + |other|, [Label(end)]) &&
    FindLabel(prog, ne) == Some(p2 + 1) && FindLabel(prog, end) == Some(p2 + 2 + |other|) && p >= 0
  }

  lemma ArmsParts(prog: Program, p: int, cond: seq<Instr>, yes: seq<Instr>, other: seq<Instr>, ne: nat, end: nat)
    requires Arms(prog, p, cond, yes, other, ne, end)
    ensures var p2 := p + |cond| + 2 + |yes|;
      CodeAt(prog, p, cond) && CodeAt(prog, p + |cond|, [Test, Je(ne)]) && CodeAt(prog, p + |cond| + 2, yes) &&
      CodeAt(prog, p2, [Jmp(end), Label(ne)]) && CodeAt(prog, p2 + 2, other) && CodeAt(prog, p2 + 2 + |other|, [Label(end)]) &&
      FindLabel(prog, ne) == Some(p2 + 1) && FindLabel(prog, end) == Some(p2 + 2 + |other|) && p >= 0
  {
  }

  lemma ArmsSplit(prog: Program, p: int, cond: seq<Instr>, yes: seq<Instr>, other: seq<Instr>, ne: nat, end: nat)
    requires CodeAt(prog, p, cond + [Test, Je(ne)] + (yes + [Jmp(end), Label(ne)] + (other + [Label(end)])))
    ensures Arms(prog, p, cond, yes, other, ne, end)
  {
    hide CodeAt, FindLabel;
    var mid, tail := [Jmp(end), Label(ne)], [Label(end)];
    var p2 := p + |cond| + 2 + |yes|;
    CodeSplit3(prog, p, cond, [Test, Je(ne)], yes + mid + (other + tail));
    CodeSplit3(prog, p + |cond| + 2, yes, mid, other + tail);
    CodeSplit(prog, p2 + 2, other, tail);
    LabelHere(prog, p2, mid, 1, ne);
    LabelHere(prog, p2 + 2 + |other|, tail, 0, end);
    CodePlace(prog, p, cond);
  }

  lemma CodePlace(prog: Program, p: int, code: seq<Instr>)
    requires CodeAt(prog, p, code)
    ensures p >= 0
  {
  }

  lemma {:induction false} SimConditional(c: Context, prog: Program, b: Expr, y: Expr, no: Expr, ne: nat, end: nat,
    n: nat, ny: nat, nn: nat, d: int, s0: State, s: State, mem: Memory, k: nat, a: Valued, r: Valued)
    returns (t: State)
    requires Arms(prog, s.pc, ExprCode(b, n, d), ExprCode(y, ny, d), ExprCode(no, nn, d), ne, end)
    requires Live(c, prog, s0, s, mem, k) && Depth(b) <= k && Depth(y) <= k && Depth(no) <= k
    requires Eval(Lice, c, b, mem) == Some(a)
    requires if a.value != 0 then Eval(Lice, c, y, a.mem) == Some(r) else Eval(Lice, c, no, a.mem) == Some(r)
    ensures Evaluated(c, prog, s0, s, t,
      |ExprCode(b, n, d)| + 2 + (|ExprCode(y, ny, d)| + 2 + (|ExprCode(no, nn, d)| + 1)), r, k)
    decreases Conditional(b, y, no), 0, 1
  {
    hide *;
    var p2 := s.pc + |ExprCode(b, n, d)| + 2 + |ExprCode(y, ny, d)|;
    ArmsParts(prog, s.pc, ExprCode(b, n, d), ExprCode(y, ny, d), ExprCode(no, nn, d), ne, end);
    var t2 := SimTest(c, prog, b, n, d, s0, s, mem, k, ne, p2 + 1, a);
    t := SimArm(c, prog, b, y, no, s.pc + |ExprCode(b, n, d)| + 2, p2, p2 + 2 + |ExprCode(no, nn, d)|, ne, end, ny, nn, d, s0, t2, a.mem, k, a.value != 0, r);
    SealAfter(c, prog, s0, s, t2, t, |ExprCode(b, n, d)| + 2 + (|ExprCode(y, ny, d)| + 2 + (|ExprCode(no, nn, d)| + 1)), r, k);
  }

  /** From the branch on, by either arm. */
  lemma {:induction false} SimArm(c: Context, prog: Program, b: Expr, y: Expr, no: Expr, p1: int, p2: int, p3: int, ne: nat, end: nat,
    ny: nat, nn: nat, d: int, s0: State, s: State, mem: Memory, k: nat, holds: bool, r: Valued)
    returns (t: State)
    requires Live(c, prog, s0, s, mem, k) && Depth(y) <= k && Depth(no) <= k
    requires if holds then Eval(Lice, c, y, mem) == Some(r) else Eval(Lice, c, no, mem) == Some(r)
    requires (holds ==> s.pc == p1) && (!holds ==> s.pc == p2 + 1)
    requires CodeAt(prog, p1, ExprCode(y, ny, d)) && p2 == p1 + |ExprCode(y, ny, d)| && CodeAt(prog, p2, [Jmp(end), Label(ne)])
    requires CodeAt(prog, p2 + 2, ExprCode(no, nn, d)) && p3 == p2 + 2 + |ExprCode(no, nn, d)| && CodeAt(prog, p3, [Label(end)])
    requires FindLabel(prog, end) == Some(p3) && p3 >= 0
    ensures Live(c, prog, s0, t, r.mem, k) && Kept(c, s, t) && t.rsp == s.rsp && t.rax == r.value && t.pc == p3 + 1
    decreases Conditional(b, y, no), 0, 0
  {
    hide *;
    if holds {
      t := SimYes(c, prog, y, p2, p3, ne, end, ny, d, s0, s, mem, k, r);
    } else {
      t := SimNo(c, prog, no, p2, ne, end, nn, d, s0, s, mem, k, r);
    }
  }

  lemma {:induction false} SimYes(c: Context, prog: Program, y: Expr, p2: int, p3: int, ne: nat, end: nat,
    n: nat, d: int, s0: State, s: State, mem: Memory, k: nat, r: Valued)
    returns (t: State)
    requires Live(c, prog, s0, s, mem, k) && Depth(y) <= k && Eval(Lice, c, y, mem) == Some(r)
    requires CodeAt(prog, s.pc, ExprCode(y, n, d)) && p2 == s.pc + |ExprCode(y, n, d)|
    requires CodeAt(prog, p2, [Jmp(end), Label(ne)]) && CodeAt(prog, p3, [Label(end)]) && FindLabel(prog, end) == Some(p3) && p3 >= 0
    ensures Live(c, prog, s0, t, r.mem, k) && Kept(c, s, t) && t.rsp == s.rsp && t.rax == r.value && t.pc == p3 + 1
    decreases y, 3
  {
    hide CodeAt, Live, Kept, ExprCode, Eval, Depth, FindLabel;
    var t2 := SimExpr(c, prog, y, n, d, s0, s, mem, k);
    var t3 := DoQuiet(c, prog, s0, t2, p2, [Jmp(end), Label(ne)], 0, r.mem, k);
    t := DoQuiet(c, prog, s0, t3, p3, [Label(end)], 0, r.mem, k);
    KeptTrans(c, s, t2, t3);
    KeptTrans(c, s, t3, t);
  }

  lemma {:induction false} SimNo(c: Context, prog: Program, no: Expr, p2: int, ne: nat, end: nat,
    n: nat, d: int, s0: State, s: State, mem: Memory, k: nat, r: Valued)
    returns (t: State)
    requires Live(c, prog, s0, s, mem, k) && Depth(no) <= k && Eval(Lice, c, no, mem) == Some(r) && s.pc == p2 + 1
    requires CodeAt(prog, p2, [Jmp(end), Label(ne)]) && CodeAt(prog, p2 + 2, ExprCode(no, n, d))
    requires CodeAt(prog, p2 + 2 + |ExprCode(no, n, d)|, [Label(end)])
    ensures Live(c, prog, s0, t, r.mem, k) && Kept(c, s, t) && t.rsp == s.rsp && t.rax == r.value
    ensures t.pc == p2 + 2 + |ExprCode(no, n, d)| + 1
    decreases no, 3
  {
    hide CodeAt, Live, Kept, ExprCode, Eval, Depth;
    var t2 := DoQuiet(c, prog, s0, s, p2, [Jmp(end), Label(ne)], 1, mem, k);
    var t3 := SimExpr(c, prog, no, n, d, s0, t2, mem, k);
    t := DoQuiet(c, prog, s0, t3, t3.pc, [Label(end)], 0, r.mem, k);
    KeptTrans(c, s, t2, t3);
    KeptTrans(c, s, t3, t);
  }

  // --------------------------------------------------------------- calls

  /** The cell of the i-th value pushed from `top` down. */
  function Slot(top: int, i: int): int { top - 8 * (i + 1) }

  ghost predicate Stacked(s: State, top: int, vs: seq<Word>) {
    forall i :: 0 <= i < |vs| ==> Slot(top, i) in s.mem && s.mem[Slot(top, i)] == vs[i]
  }

  ghost predicate NoObjects(c: Context, top: int, k: nat) {
    forall i :: 0 <= i < k ==> Slot(top, i) !in c.callees.objects
  }

  lemma RegCode(k: nat)
    requires k <= 6
    ensures |SaveArgRegs(k)| == k && |RestoreArgRegs(k)| == k
  {
  }

  lemma StackedPush(c: Context, s: State, t: State, top: int, vs: seq<Word>, v: Word)
    requires Stacked(s, top, vs) && NoObjects(c, top, |vs|) && Kept(c, s, t) && OnTop(c, t, v)
    requires s.rsp == top - 8 * |vs| && t.rsp == s.rsp - 8
    ensures Stacked(t, top, vs + [v]) && NoObjects(c, top, |vs| + 1)
  {
    forall i | 0 <= i < |vs| + 1
      ensures Slot(top, i) in t.mem && t.mem[Slot(top, i)] == (vs + [v])[i] && Slot(top, i) !in c.callees.objects
    {
      if i < |vs| {
        assert s.rsp <= Slot(top, i);
      }
    }
  }

  lemma StackedKept(c: Context, s: State, t: State, top: int, vs: seq<Word>)
    requires Stacked(s, top, vs) && NoObjects(c, top, |vs|) && Kept(c, s, t) && s.rsp <= top - 8 * |vs|
    ensures Stacked(t, top, vs)
  {
    forall i | 0 <= i < |vs| ensures Slot(top, i) in t.mem && t.mem[Slot(top, i)] == vs[i] {
      assert s.rsp <= Slot(top, i);
    }
  }

  lemma SaveStep(s: State, j: nat)
    requires j < 6
    ensures Arguments(s, j + 1) == Arguments(s, j) + [Get(s, ArgReg(j))]
  {
  }

  /** Pushing the first j argument registers. */
  lemma {:induction false} SimSave(c: Context, prog: Program, s0: State, s: State, mem: Memory, k: nat, j: nat) returns (t: State)
    requires j <= 6 && j <= k && CodeAt(prog, s.pc, SaveArgRegs(j)) && Live(c, prog, s0, s, mem, k)
    ensures Live(c, prog, s0, t, mem, k - j) && Kept(c, s, t)
    ensures t == s.(pc := s.pc + j, rsp := s.rsp - 8 * j, mem := t.mem)
    ensures Stacked(t, s.rsp, Arguments(s, j)) && NoObjects(c, s.rsp, j)
    decreases j
  {
    hide CodeAt, Live, Kept, Stacked, NoObjects, OnTop;
    RegCode(j);
    if j == 0 {
      t := s;
      NothingStacked(c, s);
    } else {
      CodeSplit(prog, s.pc, SaveArgRegs(j - 1), [Push(ArgReg(j - 1))]);
      RegCode(j - 1);
      var t1 := SimSave(c, prog, s0, s, mem, k, j - 1);
      t := DoPush(c, prog, s0, t1, t1.pc, [Push(ArgReg(j - 1))], 0, mem, k - (j - 1));
      SaveStep(s, j - 1);
      StackedPush(c, t1, t, s.rsp, Arguments(s, j - 1), Get(s, ArgReg(j - 1)));
      KeptTrans(c, s, t1, t);
    }
  }

  lemma NothingStacked(c: Context, s: State)
    ensures Stacked(s, s.rsp, []) && NoObjects(c, s.rsp, 0) && Kept(c, s, s)
  {
  }

  /** Evaluating the arguments leaves their values on the stack, first one highest. */
  lemma {:induction false} SimArgs(c: Context, prog: Program, args: Args, n: nat, d: int, s0: State, s: State, mem: Memory, k: nat,
    top: int, vs: seq<Word>)
    returns (t: State)
    requires CodeAt(prog, s.pc, ArgsCode(args, n, d)) && Live(c, prog, s0, s, mem, k) && ArgsDepth(args) <= k
    requires EvalArgs(Lice, c, args, mem).Some? && Count(args) <= k
    requires Stacked(s, top, vs) && NoObjects(c, top, |vs|) && s.rsp == top - 8 * |vs|
    ensures Kept(c, s, t) && t.pc == s.pc + |ArgsCode(args, n, d)| && t.rsp == s.rsp - 8 * Count(args)
    ensures var r := EvalArgs(Lice, c, args, mem).value;
      Live(c, prog, s0, t, r.mem, k - Count(args)) && Stacked(t, top, vs + r.values) && NoObjects(c, top, |vs| + Count(args))
    decreases args, 1
  {
    hide CodeAt, Live, Kept, Stacked, NoObjects, OnTop, Eval, ExprCode, Depth, Execute;
    match args {
      case NoArgs =>
        t := s;
        NothingStacked(c, s);
        assert vs + [] == vs;
      case Arg(e, tail) =>
        var n1 := n + ExprLabels(e);
        CodeSplit3(prog, s.pc, ExprCode(e, n, d), [Push(RAX)], ArgsCode(tail, n1, d + 8));
        var v := Eval(Lice, c, e, mem).value;
        var t2 := SimArg(c, prog, e, n, d, s0, s, mem, k, top, vs);
        t := SimArgs(c, prog, tail, n1, d + 8, s0, t2, v.mem, k - 1, top, vs + [v.value]);
        KeptTrans(c, s, t2, t);
        var rest := EvalArgs(Lice, c, tail, v.mem).value.values;
        assert vs + [v.value] + rest == vs + ([v.value] + rest);
    }
  }

  lemma {:induction false} SimArg(c: Context, prog: Program, e: Expr, n: nat, d: int, s0: State, s: State, mem: Memory, k: nat,
    top: int, vs: seq<Word>)
    returns (t: State)
    requires CodeAt(prog, s.pc, ExprCode(e, n, d)) && CodeAt(prog, s.pc + |ExprCode(e, n, d)|, [Push(RAX)])
    requires Live(c, prog, s0, s, mem, k) && Depth(e) <= k && k >= 1 && Eval(Lice, c, e, mem).Some?
    requires Stacked(s, top, vs) && NoObjects(c, top, |vs|) && s.rsp == top - 8 * |vs|
    ensures var v := Eval(Lice, c, e, mem).value;
      Live(c, prog, s0, t, v.mem, k - 1) && Stacked(t, top, vs + [v.value]) && NoObjects(c, top, |vs| + 1)
    ensures Kept(c, s, t) && t.pc == s.pc + |ExprCode(e, n, d)| + 1 && t.rsp == s.rsp - 8
    decreases e, 4
  {
    hide CodeAt, Live, Kept, Stacked, NoObjects, OnTop, Eval, ExprCode, Depth, Execute;
    var v := Eval(Lice, c, e, mem).value;
    var t1;
    t1, t := SimPushed(c, prog, e, n, d, s0, s, mem, k, v);
    StackedPush(c, s, t, top, vs, v.value);
  }

  /** The stack is well formed for popping k words. */
  ghost predicate Poppable(c: Context, s: State, mem: Memory, k: nat) {
    Agree(c, s, mem) && Aligned(s.rsp) && 0 <= s.rsp && s.rsp + 8 * k < HALF
  }

  lemma DoPop(c: Context, prog: Program, s0: State, s: State, p: int, code: seq<Instr>, j: int, mem: Memory, k: nat) returns (t: State)
    requires CodeAt(prog, p, code) && 0 <= j < |code| && s.pc == p + j && code[j].Pop?
    requires code[j].reg != RBP && code[j].reg != RSP
    requires Reaches(c.callees, prog, s0, s) && k >= 1 && Poppable(c, s, mem, k) && s.rsp in s.mem
    ensures Reaches(c.callees, prog, s0, t) && Poppable(c, t, mem, k - 1)
    ensures t == Next(Set(s.(rsp := s.rsp + 8), code[j].reg, s.mem[s.rsp]))
  {
    hide CodeAt, Reaches;
    WrapId(s.rsp + 8);
    t := Do(c.callees, prog, s0, s, p, code, j);
  }

  lemma StackedTop(s: State, vs: seq<Word>)
    requires |vs| > 0 && Stacked(s, s.rsp + 8 * |vs|, vs)
    ensures s.rsp in s.mem && s.mem[s.rsp] == vs[|vs| - 1] && Stacked(s, s.rsp + 8 * |vs|, vs[..|vs| - 1])
  {
    assert Slot(s.rsp + 8 * |vs|, |vs| - 1) == s.rsp;
  }

  /** The k stacked values went into the first k argument registers; no other register
      changed and the stack was not written. */
  ghost predicate Restored(c: Context, prog: Program, s0: State, s: State, t: State, mem: Memory, vs: seq<Word>)
    requires |vs| <= 6
  {
    Reaches(c.callees, prog, s0, t) && Poppable(c, t, mem, 0) && t.mem == s.mem && t.rax == s.rax &&
    t.pc == s.pc + |vs| && t.rsp == s.rsp + 8 * |vs| && Arguments(t, |vs|) == vs &&
    forall i :: |vs| <= i < 6 ==> Get(t, ArgReg(i)) == Get(s, ArgReg(i))
  }

  lemma {:induction false} SimRestore(c: Context, prog: Program, s0: State, s: State, mem: Memory, vs: seq<Word>) returns (t: State)
    requires |vs| <= 6 && CodeAt(prog, s.pc, RestoreArgRegs(|vs|)) && Reaches(c.callees, prog, s0, s)
    requires Poppable(c, s, mem, |vs|) && Stacked(s, s.rsp + 8 * |vs|, vs)
    ensures Restored(c, prog, s0, s, t, mem, vs)
    decreases |vs|
  {
    hide CodeAt, Stacked, Poppable, Reaches, Execute, Restored;
    var k := |vs|;
    RegCode(k);
    if k == 0 {
      t := s;
      RestoredNone(c, prog, s0, s, mem, vs);
    } else {
      CodeSplit(prog, s.pc, [Pop(ArgReg(k - 1))], RestoreArgRegs(k - 1));
      StackedTop(s, vs);
      var t1 := DoPop(c, prog, s0, s, s.pc, [Pop(ArgReg(k - 1))], 0, mem, k);
      StackedMemory(s, t1, s.rsp + 8 * k, vs[..k - 1]);
      t := SimRestore(c, prog, s0, t1, mem, vs[..k - 1]);
      RestoredStep(c, prog, s0, s, t1, t, mem, vs);
    }
  }

  lemma RestoredNone(c: Context, prog: Program, s0: State, s: State, mem: Memory, vs: seq<Word>)
    requires vs == [] && Reaches(c.callees, prog, s0, s) && Poppable(c, s, mem, 0)
    ensures Restored(c, prog, s0, s, s, mem, vs)
  {
    hide Reaches, Poppable;
  }

  lemma RestoredStep(c: Context, prog: Program, s0: State, s: State, t1: State, t: State, mem: Memory, vs: seq<Word>)
    requires 0 < |vs| <= 6 && Restored(c, prog, s0, t1, t, mem, vs[..|vs| - 1])
    requires s.rsp + 8 < HALF && t1 == Next(Set(s.(rsp := s.rsp + 8), ArgReg(|vs| - 1), vs[|vs| - 1]))
    ensures Restored(c, prog, s0, s, t, mem, vs)
  {
    hide Reaches, Poppable, Arguments;
    SaveStep(t, |vs| - 1);
    assert Get(t, ArgReg(|vs| - 1)) == Get(t1, ArgReg(|vs| - 1));
    assert vs == vs[..|vs| - 1] + [vs[|vs| - 1]];
  }

  lemma StackedMemory(s: State, t: State, top: int, vs: seq<Word>)
    requires Stacked(s, top, vs) && t.mem == s.mem
    ensures Stacked(t, top, vs)
  {
  }

  lemma SimPad(c: Context, prog: Program, s0: State, s: State, d: int, op: Alu) returns (t: State)
    requires (op == Sub || op == Add) && CodeAt(prog, s.pc, PadCode(d, op)) && Reaches(c.callees, prog, s0, s)
    ensures Reaches(c.callees, prog, s0, t)
    ensures t == s.(pc := s.pc + |PadCode(d, op)|, rsp := t.rsp, flags := t.flags)
    ensures t.rsp == if d % 16 == 0 then s.rsp else if op == Sub then Wrap(s.rsp - 8) else Wrap(s.rsp + 8)
  {
    hide CodeAt, Reaches;
    t := s;
    if d % 16 != 0 {
      WrapId(8);
      t := Do(c.callees, prog, s0, s, s.pc, PadCode(d, op), 0);
    }
  }

  /** At the call instruction the argument registers hold the arguments. */
  lemma SimInvoke(c: Context, prog: Program, s0: State, s: State, name: string, p: Passed) returns (t: State)
    requires CodeAt(prog, s.pc, [CallName(name)]) && Reaches(c.callees, prog, s0, s)
    requires |p.values| <= 6 && Agree(c, s, p.mem) && Invoke(c, name, p).Some? && Arguments(s, |p.values|) == p.values
    ensures Reaches(c.callees, prog, s0, t) && t.pc == s.pc + 1 && t.rsp == s.rsp
    ensures t.rax == Invoke(c, name, p).value.value && Agree(c, t, Invoke(c, name, p).value.mem)
    ensures Kept(c, s, t)
  {
    hide CodeAt, Reaches;
    forall a | a in c.callees.objects ensures a in s.mem && a in p.mem && p.mem[a] == s.mem[a] {
      assert a in p.mem.Keys;
    }
    assert Visible(c.callees.objects, s.mem) == p.mem;
    t := Do(c.callees, prog, s0, s, s.pc, [CallName(name)], 0);
  }

  /** Everything at or above `bound` that is not an object is untouched. */
  ghost predicate KeptFrom(c: Context, bound: int, s: State, t: State) {
    forall a :: a in s.mem && bound <= a && a !in c.callees.objects ==> a in t.mem && t.mem[a] == s.mem[a]
  }

  /** The padded call; `s` is the state after the arguments were popped. */
  lemma SimPaddedCall(c: Context, prog: Program, s0: State, s: State, name: string, d: int, p: Passed) returns (t: State)
    requires CodeAt(prog, s.pc, [MovImm(0, RAX)] + PadCode(d, Sub) + ([CallName(name)] + PadCode(d, Add)))
    requires Reaches(c.callees, prog, s0, s) && |p.values| <= 6 && Poppable(c, s, p.mem, 0)
    requires Invoke(c, name, p).Some? && Arguments(s, |p.values|) == p.values
    ensures Reaches(c.callees, prog, s0, t) && t.rsp == s.rsp && KeptFrom(c, s.rsp, s, t)
    ensures t.pc == s.pc + 1 + |PadCode(d, Sub)| + (1 + |PadCode(d, Add)|)
    ensures t.rax == Invoke(c, name, p).value.value && Agree(c, t, Invoke(c, name, p).value.mem)
  {
    hide CodeAt, Reaches, Invoke, Kept, KeptFrom, Agree, Execute, PadCode;
    CodeSplit3(prog, s.pc, [MovImm(0, RAX)], PadCode(d, Sub), [CallName(name)] + PadCode(d, Add));
    CodeSplit(prog, s.pc + 1 + |PadCode(d, Sub)|, [CallName(name)], PadCode(d, Add));
    var t1 := ZeroRax(c, prog, s0, s);
    var t2 := SimPad(c, prog, s0, t1, d, Sub);
    ArgumentsSame(s, t2, |p.values|);
    AgreeSame(c, s, t2, p.mem);
    var t3 := SimInvoke(c, prog, s0, t2, name, p);
    t := SimPad(c, prog, s0, t3, d, Add);
    WrapPad(s.rsp);
    PaddedKept(c, s, t2, t3, d);
    AgreeSame(c, t3, t, Invoke(c, name, p).value.mem);
    KeptFromSame(c, s.rsp, s, t3, t);
  }

  lemma ZeroRax(c: Context, prog: Program, s0: State, s: State) returns (t: State)
    requires CodeAt(prog, s.pc, [MovImm(0, RAX)]) && Reaches(c.callees, prog, s0, s)
    ensures Reaches(c.callees, prog, s0, t) && t == s.(pc := s.pc + 1, rax := 0)
  {
    WrapId(0);
    t := Do(c.callees, prog, s0, s, s.pc, [MovImm(0, RAX)], 0);
  }

  lemma AgreeSame(c: Context, s: State, t: State, mem: Memory)
    requires Agree(c, s, mem) && t.mem == s.mem && t.rbp == s.rbp
    ensures Agree(c, t, mem)
  {
  }

  lemma ArgumentsSame(s: State, t: State, k: nat)
    requires k <= 6 && s.rdi == t.rdi && s.rsi == t.rsi && s.rdx == t.rdx && s.rcx == t.rcx && s.r8 == t.r8 && s.r9 == t.r9
    ensures Arguments(s, k) == Arguments(t, k)
  {
  }

  lemma WrapPad(rsp: int)
    requires 0 <= rsp < HALF
    ensures Wrap(Wrap(rsp - 8) + 8) == rsp && Wrap(rsp - 8) == rsp - 8
  {
    WrapId(rsp - 8);
    WrapId(rsp);
  }

  lemma PaddedKept(c: Context, s: State, t2: State, t3: State, d: int)
    requires t2.mem == s.mem && Kept(c, t2, t3) && 0 <= s.rsp
    requires t2.rsp == (if d % 16 == 0 then s.rsp else Wrap(s.rsp - 8))
    ensures KeptFrom(c, s.rsp, s, t3)
  {
    WrapPad(s.rsp);
  }

  lemma KeptFromSame(c: Context, bound: int, s: State, t: State, u: State)
    requires KeptFrom(c, bound, s, t) && u.mem == t.mem
    ensures KeptFrom(c, bound, s, u)
  {
  }

  /** From the pushed arguments to the result: marshal, call, restore. */
  lemma SimTransfer(c: Context, prog: Program, s0: State, s: State, top: int, name: string, d: int, p: Passed, saved: seq<Word>)
    returns (t: State)
    requires |p.values| == |saved| <= 6 && CodeAt(prog, s.pc, TransferCode(name, |saved|, d)) && Reaches(c.callees, prog, s0, s)
    requires Invoke(c, name, p).Some? && Poppable(c, s, p.mem, 2 * |saved|) && s.rsp == top - 16 * |saved|
    requires Stacked(s, top, saved) && Stacked(s, top - 8 * |saved|, p.values) && NoObjects(c, top, |saved|)
    ensures Reaches(c.callees, prog, s0, t) && t.pc == s.pc + |TransferCode(name, |saved|, d)| && t.rsp == top
    ensures t.rax == Invoke(c, name, p).value.value && Agree(c, t, Invoke(c, name, p).value.mem)
    ensures KeptFrom(c, top - 8 * |saved|, s, t) && Arguments(t, |saved|) == saved
  {
    hide CodeAt, Reaches, Invoke, Kept, KeptFrom, Agree, Execute, PadCode, Stacked, NoObjects, Poppable, TransferCode, RestoreArgRegs;
    var k := |saved|;
    TransferSplit(prog, s.pc, name, k, d);
    PoppableLess(c, s, p.mem, 2 * k, k);
    var t1 := SimRestore(c, prog, s0, s, p.mem, p.values);
    var t2 := SimPaddedCall(c, prog, s0, t1, name, d, p);
    var r := Invoke(c, name, p).value;
    StackedMemory(s, t1, top, saved);
    StackedFrom(c, t1, t2, top, saved);
    PoppableAgain(c, s, t2, p.mem, r.mem, k);
    t := SimRestore(c, prog, s0, t2, r.mem, saved);
    PoppableAgree(c, t, r.mem);
    KeptFromEnds(c, top - 8 * k, s, t1, t2, t);
  }

  lemma TransferSplit(prog: Program, p: int, name: string, k: nat, d: int)
    requires k <= 6 && CodeAt(prog, p, TransferCode(name, k, d))
    ensures CodeAt(prog, p, RestoreArgRegs(k))
    ensures CodeAt(prog, p + k, [MovImm(0, RAX)] + PadCode(d, Sub) + ([CallName(name)] + PadCode(d, Add)))
    ensures CodeAt(prog, p + k + (1 + |PadCode(d, Sub)| + (1 + |PadCode(d, Add)|)), RestoreArgRegs(k))
    ensures |TransferCode(name, k, d)| == k + (1 + |PadCode(d, Sub)| + (1 + |PadCode(d, Add)|)) + k
  {
    hide CodeAt, PadCode;
    RegCode(k);
    var middle := [MovImm(0, RAX)] + PadCode(d, Sub) + ([CallName(name)] + PadCode(d, Add));
    assert TransferCode(name, k, d) == RestoreArgRegs(k) + middle + RestoreArgRegs(k);
    CodeSplit3(prog, p, RestoreArgRegs(k), middle, RestoreArgRegs(k));
  }

  lemma PoppableLess(c: Context, s: State, mem: Memory, k: nat, j: nat)
    requires Poppable(c, s, mem, k) && j <= k
    ensures Poppable(c, s, mem, j) && 0 <= s.rsp
  {
  }

  lemma PoppableAgree(c: Context, s: State, mem: Memory)
    requires Poppable(c, s, mem, 0)
    ensures Agree(c, s, mem)
  {
  }

  lemma PoppableAgain(c: Context, s: State, t: State, mem: Memory, mem': Memory, k: nat)
    requires Poppable(c, s, mem, 2 * k) && Agree(c, t, mem') && t.rsp == s.rsp + 8 * k
    ensures Poppable(c, t, mem', k)
  {
  }

  lemma StackedFrom(c: Context, s: State, t: State, top: int, vs: seq<Word>)
    requires Stacked(s, top, vs) && NoObjects(c, top, |vs|) && KeptFrom(c, top - 8 * |vs|, s, t)
    ensures Stacked(t, top, vs)
  {
    forall i | 0 <= i < |vs| ensures Slot(top, i) in t.mem && t.mem[Slot(top, i)] == vs[i] {
      assert top - 8 * |vs| <= Slot(top, i);
    }
  }

  lemma KeptFromEnds(c: Context, bound: int, s: State, t1: State, t2: State, t: State)
    requires t1.mem == s.mem && KeptFrom(c, bound, t1, t2) && t.mem == t2.mem
    ensures KeptFrom(c, bound, s, t)
  {
  }

  lemma {:induction false} ArgsDeep(args: Args)
    ensures Count(args) <= ArgsDepth(args)
  {
    if args.Arg? { ArgsDeep(args.tail); }
  }

  /** A call: the k-th argument is in its register at the call instruction, and the
      argument registers come back with the values they had before. */
  lemma {:induction false} SimCall(c: Context, prog: Program, name: string, args: Args, n: nat, d: int, s0: State, s: State,
    mem: Memory, k: nat)
    returns (t: State)
    requires Count(args) <= 6
    requires CodeAt(prog, s.pc, SaveArgRegs(Count(args)) + ArgsCode(args, n, d + 8 * Count(args)) +
      TransferCode(name, Count(args), d + 8 * Count(args)))
    requires Live(c, prog, s0, s, mem, k) && Count(args) + ArgsDepth(args) <= k
    requires EvalArgs(Lice, c, args, mem).Some? && Invoke(c, name, EvalArgs(Lice, c, args, mem).value).Some?
    ensures Evaluated(c, prog, s0, s, t, |SaveArgRegs(Count(args))| + |ArgsCode(args, n, d + 8 * Count(args))| +
      |TransferCode(name, Count(args), d + 8 * Count(args))|, Invoke(c, name, EvalArgs(Lice, c, args, mem).value).value, k)
    ensures Arguments(t, Count(args)) == Arguments(s, Count(args))
    decreases Expr.Call(name, args), 0
  {
    hide CodeAt, Live, Kept, KeptFrom, Stacked, NoObjects, Poppable, EvalArgs, Invoke, ArgsCode, SaveArgRegs, TransferCode, ArgsDepth,
      Agree, Reaches;
    var j := Count(args);
    RegCode(j);
    ArgsDeep(args);
    CodeSplit3(prog, s.pc, SaveArgRegs(j), ArgsCode(args, n, d + 8 * j), TransferCode(name, j, d + 8 * j));
    var p := EvalArgs(Lice, c, args, mem).value;
    var t1 := SimSave(c, prog, s0, s, mem, k, j);
    NoneStacked(c, t1);
    var t2 := SimArgs(c, prog, args, n, d + 8 * j, s0, t1, mem, k - j, t1.rsp, []);
    assert [] + p.values == p.values;
    StackedKept(c, t1, t2, s.rsp, Arguments(s, j));
    LivePoppable(c, prog, s0, s, mem, k, t2, p.mem, k - j - j, 2 * j);
    t := SimTransfer(c, prog, s0, t2, s.rsp, name, d + 8 * j, p, Arguments(s, j));
    CallLive(c, prog, s0, s, mem, k, t1, t2, t, Invoke(c, name, p).value.mem, 8 * j);
  }

  lemma NoneStacked(c: Context, s: State)
    ensures Stacked(s, s.rsp, []) && NoObjects(c, s.rsp, 0)
  {
  }

  lemma LivePoppable(c: Context, prog: Program, s0: State, s: State, mem: Memory, k: nat, t: State, mem': Memory, j: nat, m: nat)
    requires Live(c, prog, s0, s, mem, k) && Live(c, prog, s0, t, mem', j) && t.rsp == s.rsp - 8 * m
    ensures Poppable(c, t, mem', m) && Reaches(c.callees, prog, s0, t)
  {
  }

  lemma CallLive(c: Context, prog: Program, s0: State, s: State, mem: Memory, k: nat, t1: State, t2: State, t: State, mem': Memory, j: nat)
    requires Live(c, prog, s0, s, mem, k) && Kept(c, s, t1) && Kept(c, t1, t2) && KeptFrom(c, s.rsp - j, t2, t)
    requires t1.rsp == s.rsp - j && Reaches(c.callees, prog, s0, t) && t.rsp == s.rsp && Agree(c, t, mem')
    ensures Live(c, prog, s0, t, mem', k) && Kept(c, s, t)
  {
  }
}
