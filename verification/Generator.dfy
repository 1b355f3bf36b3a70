/** The code generator itself: a recursive walk that appends to its output and keeps the
    stack depth, the label counter and the save slots in fields. */
module Emission {
  import opened Runs
  import opened Machine
  import opened Syntax
  import opened Code
  import opened SaveSlots
  import opened Frames
  import opened Labels

  /** What a generator holds. */
  datatype View = View(output: seq<Instr>, stack: int, nextLabel: nat, slots: Slots)

  /** After emitting `code`, taking `labels` fresh labels and counting `pushed` bytes. */
  function Grown(v: View, code: seq<Instr>, labels: nat, pushed: int): View {
    View(v.output + code, v.stack + pushed, v.nextLabel + labels, v.slots)
  }

  lemma Twice(v: View, a: seq<Instr>, m: nat, p: int, b: seq<Instr>, n: nat, q: int)
    ensures Grown(Grown(v, a, m, p), b, n, q) == Grown(v, a + b, m + n, p + q)
  {
    assert v.output + a + b == v.output + (a + b);
  }

  /** A fresh label taken between two pieces of code. */
  lemma Fresh(v: View, a: seq<Instr>, m: nat, p: int, b: seq<Instr>)
    ensures Grown(Grown(Grown(v, a, m, p), [], 1, 0), b, 0, 0) == Grown(v, a + b, m + 1, p)
  {
    Twice(v, a, m, p, [], 1, 0);
    assert a + [] == a;
    Twice(v, a, m + 1, p, b, 0, 0);
  }

  // ------------------------------------------------- one level of a tree

  lemma AndLevel(e: Expr, n: nat, d: int)
    requires e.LogicalAnd?
    ensures Compilable(e) == (Compilable(e.left) && Compilable(e.right))
    ensures ExprLabels(e) == 1 + ExprLabels(e.left) + ExprLabels(e.right)
    ensures ExprCode(e, n, d) == ExprCode(e.left, n + 1, d) + [Test, MovImm(0, RAX), Je(n)] +
      (ExprCode(e.right, n + 1 + ExprLabels(e.left), d) + [Test, MovImm(0, RAX), Je(n), MovImm(1, RAX), Label(n)])
  {
  }

  lemma OrLevel(e: Expr, n: nat, d: int)
    requires e.LogicalOr?
    ensures Compilable(e) == (Compilable(e.left) && Compilable(e.right))
    ensures ExprLabels(e) == 1 + ExprLabels(e.left) + ExprLabels(e.right)
    ensures ExprCode(e, n, d) == ExprCode(e.left, n + 1, d) + [Test, MovImm(1, RAX), Jne(n)] +
      (ExprCode(e.right, n + 1 + ExprLabels(e.left), d) + [Test, MovImm(1, RAX), Jne(n), MovImm(0, RAX), Label(n)])
  {
  }

  lemma ConditionalLevel(e: Expr, n: nat, d: int, ne: nat, end: nat)
    requires e.Conditional? && ne == n + ExprLabels(e.cond) && end == ne + 1 + ExprLabels(e.yes)
    ensures ExprCode(e, n, d) == ExprCode(e.cond, n, d) + [Test, Je(ne)] +
      (ExprCode(e.yes, ne + 1, d) + [Jmp(end), Label(ne)] + (ExprCode(e.no, end + 1, d) + [Label(end)]))
  {
    hide ExprLabels;
  }

  lemma ConditionalParts(e: Expr)
    requires e.Conditional?
    ensures Compilable(e) == (Compilable(e.cond) && Compilable(e.yes) && Compilable(e.no))
    ensures ExprLabels(e) == ExprLabels(e.cond) + ExprLabels(e.yes) + ExprLabels(e.no) + 2
  {
  }

  lemma CallLevel(e: Expr, n: nat, d: int)
    requires e.Call?
    ensures Compilable(e) == (Count(e.args) <= 6 && CompilableArgs(e.args)) && ExprLabels(e) == ArgsLabels(e.args)
    ensures var k := Count(e.args);
      k <= 6 ==> ExprCode(e, n, d) == SaveArgRegs(k) + ArgsCode(e.args, n, d + 8 * k) + TransferCode(e.name, k, d + 8 * k)
  {
  }

  class Generator {
    var output: seq<Instr>
    var stack: int
    var nextLabel: nat
    var brk: Option<nat>
    var cont: Option<nat>
    var brkStore: Option<nat>
    var contStore: Option<nat>
    var sw: Option<nat>
    var swStore: Option<nat>

    constructor ()
      ensures Now() == View([], 0, 0, Slots(None, None, None, None, None, None))
    {
      output, stack, nextLabel := [], 0, 0;
      brk, cont, brkStore, contStore, sw, swStore := None, None, None, None, None, None;
    }

    function Now(): View
      reads this
    {
      View(output, stack, nextLabel, Slots(brk, cont, brkStore, contStore, sw, swStore))
    }

    method Emit(i: Instr)
      modifies this
      ensures Now() == Grown(old(Now()), [i], 0, 0)
    {
      output := output + [i];
    }

    method EmitPush(r: Reg)
      modifies this
      ensures Now() == Grown(old(Now()), [Push(r)], 0, 8)
    {
      Emit(Push(r));
      stack := stack + 8;
    }

    method EmitPop(r: Reg)
      modifies this
      ensures Now() == Grown(old(Now()), [Pop(r)], 0, -8)
    {
      Emit(Pop(r));
      stack := stack - 8;
    }

    method FreshLabel() returns (l: nat)
      modifies this
      ensures l == old(nextLabel) && Now() == Grown(old(Now()), [], 1, 0)
    {
      l := nextLabel;
      nextLabel := nextLabel + 1;
    }

    method JumpIfZero(l: nat)
      modifies this
      ensures Now() == Grown(old(Now()), [Test, Je(l)], 0, 0)
    {
      Emit(Test);
      Emit(Je(l));
    }

    // ----------------------------------------------------- expressions

    /** gen_load_structure and the loads of a variable or a dereference. */
    method GenRead(lv: LValue, shift: int) returns (ok: bool)
      modifies this
      ensures ok == CompilableLValue(lv)
      ensures ok ==> Now() == Grown(old(Now()), ReadCode(lv, shift, old(nextLabel), old(stack)), PlaceLabels(lv), 0)
      decreases lv
    {
      match lv {
        case Local(off) =>
          Emit(Load(off + shift, RBP, RCX));
          Emit(MovReg(RCX, RAX));
          ok := true;
        case Deref(e) =>
          ok := GenExpr(e);
          if ok {
            Emit(Load(shift, RAX, RCX));
            Emit(MovReg(RCX, RAX));
          }
        case Member(s, off) =>
          ok := GenRead(s, off + shift);
      }
    }

    /** gen_assignment and gen_assignment_structure. */
    method GenWrite(lv: LValue, shift: int) returns (ok: bool)
      modifies this
      ensures ok == CompilableLValue(lv)
      ensures ok ==> Now() == Grown(old(Now()), WriteCode(lv, shift, old(nextLabel), old(stack)), PlaceLabels(lv), 0)
      decreases lv
    {
      match lv {
        case Local(off) =>
          Emit(Store(RAX, off + shift, RBP));
          ok := true;
        case Deref(e) =>
          ok := GenWriteDeref(e, shift);
        case Member(s, off) =>
          ok := GenWrite(s, off + shift);
      }
    }

    /** gen_assignment_dereference. */
    method GenWriteDeref(e: Expr, shift: int) returns (ok: bool)
      modifies this
      ensures ok == Compilable(e)
      ensures ok ==> Now() == Grown(old(Now()), WriteCode(Deref(e), shift, old(nextLabel), old(stack)), ExprLabels(e), 0)
      decreases e, 2
    {
      ghost var v := Now();
      WriteDerefLevel(e, shift, v.nextLabel, v.stack);
      hide WriteCode, ExprCode, ExprLabels, Compilable;
      EmitPush(RAX);
      ok := GenExpr(e);
      if ok {
        ghost var code := ExprCode(e, v.nextLabel, v.stack + 8);
        Twice(v, [Push(RAX)], 0, 8, code, ExprLabels(e), 0);
        StoreThrough(shift);
        Twice(v, [Push(RAX)] + code, ExprLabels(e), 8, [Load(0, RSP, RCX), Store(RCX, shift, RAX), Pop(RAX)], 0, -8);
      }
    }

    /** gen_assignment_dereference_intermediate. */
    method StoreThrough(shift: int)
      modifies this
      ensures Now() == Grown(old(Now()), [Load(0, RSP, RCX), Store(RCX, shift, RAX), Pop(RAX)], 0, -8)
    {
      Emit(Load(0, RSP, RCX));
      Emit(Store(RCX, shift, RAX));
      EmitPop(RAX);
    }

    method GenExpr(e: Expr) returns (ok: bool)
      modifies this
      ensures ok == Compilable(e)
      ensures ok ==> Now() == Grown(old(Now()), ExprCode(e, old(nextLabel), old(stack)), ExprLabels(e), 0)
      decreases e, 1
    {
      match e {
        case Literal(v) =>
          Emit(MovImm(v, RAX));
          ok := true;
        case Read(lv) =>
          ok := GenRead(lv, 0);
        case AddressOf(lv) =>
          match lv {
            case Local(off) =>
              Emit(Lea(off, RBP, RAX));
              ok := true;
            case Deref(_) =>
              ok := GenRead(lv, 0);
            case Member(_, _) =>
              ok := false;
          }
        case LogicalNot(_) => ok := GenUnary(e);
        case OnesComplement(_) => ok := GenUnary(e);
        case Assign(_, _) => ok := GenAssign(e);
        case Binary(_, _, _) => ok := GenBinary(e);
        case LogicalAnd(_, _) => ok := GenLogicalAnd(e);
        case LogicalOr(_, _) => ok := GenLogicalOr(e);
        case IncDec(lv, prefix, minus, _) =>
          if prefix {
            ok := GenPrefix(e, if minus then Sub else Add);
          } else {
            ok := GenPostfix(e, if minus then Sub else Add);
          }
        case Conditional(_, _, _) => ok := GenConditional(e);
        case Call(_, _) => ok := GenCall(e);
      }
    }

    method GenUnary(e: Expr) returns (ok: bool)
      requires e.LogicalNot? || e.OnesComplement?
      modifies this
      ensures ok == Compilable(e)
      ensures ok ==> Now() == Grown(old(Now()), ExprCode(e, old(nextLabel), old(stack)), ExprLabels(e), 0)
      decreases e, 0
    {
      ok := GenExpr(e.operand);
      if ok {
        if e.LogicalNot? {
          Emit(CmpImm(0));
          Emit(SetAl(IsEqual));
          Emit(MovzbAlEax);
        } else {
          Emit(Not);
        }
      }
    }

    method GenAssign(e: Expr) returns (ok: bool)
      requires e.Assign?
      modifies this
      ensures ok == Compilable(e)
      ensures ok ==> Now() == Grown(old(Now()), ExprCode(e, old(nextLabel), old(stack)), ExprLabels(e), 0)
      decreases e, 0
    {
      ok := GenExpr(e.source);
      if ok {
        ok := GenWrite(e.lv, 0);
      }
    }

    method GenBinary(e: Expr) returns (ok: bool)
      requires e.Binary?
      modifies this
      ensures ok == Compilable(e)
      ensures ok ==> Now() == Grown(old(Now()), ExprCode(e, old(nextLabel), old(stack)), ExprLabels(e), 0)
      decreases e, 0
    {
      hide ExprCode, ExprLabels, Compilable, FinishCode;
      ghost var v := Now();
      BinaryLevel(e, v.nextLabel, v.stack);
      ok := GenExpr(e.left);
      if ok {
        ghost var a, m := ExprCode(e.left, v.nextLabel, v.stack), ExprLabels(e.left);
        EmitPush(RAX);
        Twice(v, a, m, 0, [Push(RAX)], 0, 8);
        ok := GenExpr(e.right);
        if ok {
          ghost var b, n := ExprCode(e.right, v.nextLabel + m, v.stack + 8), ExprLabels(e.right);
          Finish(e.op);
          Twice(Grown(v, a + [Push(RAX)], m, 8), b, n, 0, FinishCode(e.op), 0, -8);
          Twice(v, a + [Push(RAX)], m, 8, b + FinishCode(e.op), n, -8);
        }
      }
    }

    /** What gen_comparision, gen_binary_arithmetic_integer, gen_pointer_arithmetic and the
        bitwise operators do once both operands are there. */
    method Finish(op: BinaryOp)
      modifies this
      ensures Now() == Grown(old(Now()), FinishCode(op), 0, -8)
    {
      match op {
        case Plus => Arithmetic(AluReg(Add, RCX, RAX));
        case Minus => Arithmetic(AluReg(Sub, RCX, RAX));
        case Times => Arithmetic(AluReg(Imul, RCX, RAX));
        case ExclusiveOr => Arithmetic(AluReg(BitXor, RCX, RAX));
        case ShiftL => Arithmetic(Sal);
        case ShiftR => Arithmetic(Sar);
        case Divide => Arithmetic(Cqto); Emit(Idiv(RCX));
        case Remainder => Arithmetic(Cqto); Emit(Idiv(RCX)); Emit(MovEdxEax);
        case Less => Comparison(IsLess);
        case Greater => Comparison(IsGreater);
        case Equal => Comparison(IsEqual);
        case NotEqual => Comparison(IsNotEqual);
        case LessEqual => Comparison(IsLessEqual);
        case GreaterEqual => Comparison(IsGreaterEqual);
        case BothBits => EmitPop(RCX); Emit(AluReg(BitAnd, RCX, RAX));
        case EitherBits => EmitPop(RCX); Emit(AluReg(BitOr, RCX, RAX));
        case Pointer(_, size) =>
          if size > 1 {
            Emit(AluImm(Imul, size, RAX));
          }
          Arithmetic(AluReg(Add, RCX, RAX));
      }
    }

    method Arithmetic(i: Instr)
      modifies this
      ensures Now() == Grown(old(Now()), ArithCode([i]), 0, -8)
    {
      Emit(MovReg(RAX, RCX));
      EmitPop(RAX);
      Emit(i);
    }

    method Comparison(c: Condition)
      modifies this
      ensures Now() == Grown(old(Now()), CompareCode(c), 0, -8)
    {
      EmitPop(RCX);
      Emit(CmpReg(RAX, RCX));
      Emit(SetAl(c));
      Emit(MovzbAlEax);
    }

    method TestTo(value: int, jump: Instr)
      modifies this
      ensures Now() == Grown(old(Now()), [Test, MovImm(value, RAX), jump], 0, 0)
    {
      Emit(Test);
      Emit(MovImm(value, RAX));
      Emit(jump);
    }

    method LogicalEnd(value: int, jump: Instr, other: int, end: nat)
      modifies this
      ensures Now() == Grown(old(Now()), [Test, MovImm(value, RAX), jump, MovImm(other, RAX), Label(end)], 0, 0)
    {
      TestTo(value, jump);
      Emit(MovImm(other, RAX));
      Emit(Label(end));
    }

    method GenLogicalAnd(e: Expr) returns (ok: bool)
      requires e.LogicalAnd?
      modifies this
      ensures ok == Compilable(e)
      ensures ok ==> Now() == Grown(old(Now()), ExprCode(e, old(nextLabel), old(stack)), ExprLabels(e), 0)
      decreases e, 0
    {
      hide ExprCode, ExprLabels, Compilable;
      AndLevel(e, nextLabel, stack);
      ghost var v := Now();
      var end := FreshLabel();
      ok := GenExpr(e.left);
      if ok {
        ghost var a, m := ExprCode(e.left, end + 1, v.stack), ExprLabels(e.left);
        ghost var head := [Test, MovImm(0, RAX), Je(end)];
        Twice(v, [], 1, 0, a, m, 0);
        assert [] + a == a;
        TestTo(0, Je(end));
        Twice(v, a, 1 + m, 0, head, 0, 0);
        ok := GenExpr(e.right);
        if ok {
          ghost var b, n := ExprCode(e.right, end + 1 + m, v.stack), ExprLabels(e.right);
          ghost var tail := [Test, MovImm(0, RAX), Je(end), MovImm(1, RAX), Label(end)];
          LogicalEnd(0, Je(end), 1, end);
          Twice(Grown(v, a + head, 1 + m, 0), b, n, 0, tail, 0, 0);
          Twice(v, a + head, 1 + m, 0, b + tail, n, 0);
        }
      }
    }

    method GenLogicalOr(e: Expr) returns (ok: bool)
      requires e.LogicalOr?
      modifies this
      ensures ok == Compilable(e)
      ensures ok ==> Now() == Grown(old(Now()), ExprCode(e, old(nextLabel), old(stack)), ExprLabels(e), 0)
      decreases e, 0
    {
      hide ExprCode, ExprLabels, Compilable;
      OrLevel(e, nextLabel, stack);
      ghost var v := Now();
      var end := FreshLabel();
      ok := GenExpr(e.left);
      if ok {
        ghost var a, m := ExprCode(e.left, end + 1, v.stack), ExprLabels(e.left);
        ghost var head := [Test, MovImm(1, RAX), Jne(end)];
        Twice(v, [], 1, 0, a, m, 0);
        assert [] + a == a;
        TestTo(1, Jne(end));
        Twice(v, a, 1 + m, 0, head, 0, 0);
        ok := GenExpr(e.right);
        if ok {
          ghost var b, n := ExprCode(e.right, end + 1 + m, v.stack), ExprLabels(e.right);
          ghost var tail := [Test, MovImm(1, RAX), Jne(end), MovImm(0, RAX), Label(end)];
          LogicalEnd(1, Jne(end), 0, end);
          Twice(Grown(v, a + head, 1 + m, 0), b, n, 0, tail, 0, 0);
          Twice(v, a + head, 1 + m, 0, b + tail, n, 0);
        }
      }
    }

    /** gen_emit_prefix. */
    method GenPrefix(e: Expr, op: Alu) returns (ok: bool)
      requires e.IncDec? && e.prefix && op == if e.minus then Sub else Add
      modifies this
      ensures ok == Compilable(e)
      ensures ok ==> Now() == Grown(old(Now()), ExprCode(e, old(nextLabel), old(stack)), ExprLabels(e), 0)
      decreases e, 0
    {
      ghost var v := Now();
      ghost var a, m := ReadCode(e.lv, 0, v.nextLabel, v.stack), PlaceLabels(e.lv);
      ok := GenRead(e.lv, 0);
      if ok {
        Emit(AluImm(op, 1, RAX));
        Twice(v, a, m, 0, [AluImm(op, 1, RAX)], 0, 0);
        ok := GenWrite(e.lv, 0);
        Twice(v, a + [AluImm(op, 1, RAX)], m, 0, WriteCode(e.lv, 0, v.nextLabel + m, v.stack), m, 0);
      }
    }

    /** gen_emit_postfix. */
    method GenPostfix(e: Expr, op: Alu) returns (ok: bool)
      requires e.IncDec? && !e.prefix && op == if e.minus then Sub else Add
      modifies this
      ensures ok == Compilable(e)
      ensures ok ==> Now() == Grown(old(Now()), ExprCode(e, old(nextLabel), old(stack)), ExprLabels(e), 0)
      decreases e, 0
    {
      ghost var v := Now();
      ghost var a, m := ReadCode(e.lv, 0, v.nextLabel, v.stack), PlaceLabels(e.lv);
      ghost var mid := [Push(RAX), AluImm(op, 1, RAX)];
      ok := GenRead(e.lv, 0);
      if ok {
        PushThen(AluImm(op, 1, RAX));
        Twice(v, a, m, 0, mid, 0, 8);
        ok := GenWrite(e.lv, 0);
        if ok {
          ghost var b := WriteCode(e.lv, 0, v.nextLabel + m, v.stack + 8);
          EmitPop(RAX);
          Twice(Grown(v, a + mid, m, 8), b, m, 0, [Pop(RAX)], 0, -8);
          Twice(v, a + mid, m, 8, b + [Pop(RAX)], m, -8);
        }
      }
    }

    method PushThen(i: Instr)
      modifies this
      ensures Now() == Grown(old(Now()), [Push(RAX), i], 0, 8)
    {
      EmitPush(RAX);
      Emit(i);
    }

    method JumpOver(end: nat, ne: nat)
      modifies this
      ensures Now() == Grown(old(Now()), [Jmp(end), Label(ne)], 0, 0)
    {
      Emit(Jmp(end));
      Emit(Label(ne));
    }

    method GenConditional(e: Expr) returns (ok: bool)
      requires e.Conditional?
      modifies this
      ensures ok == Compilable(e)
      ensures ok ==> Now() == Grown(old(Now()), ExprCode(e, old(nextLabel), old(stack)), ExprLabels(e), 0)
      decreases e, 0
    {
      hide ExprCode, ExprLabels, Compilable;
      ConditionalParts(e);
      ghost var l := nextLabel + ExprLabels(e.cond);
      ConditionalLevel(e, nextLabel, stack, l, l + 1 + ExprLabels(e.yes));
      ghost var v := Now();
      ok := GenExpr(e.cond);
      if ok {
        ghost var a, m := ExprCode(e.cond, v.nextLabel, v.stack), ExprLabels(e.cond);
        var ne := FreshLabel();
        JumpIfZero(ne);
        Fresh(v, a, m, 0, [Test, Je(ne)]);
        ghost var w := Grown(v, a + [Test, Je(ne)], m + 1, 0);
        ok := GenExpr(e.yes);
        if ok {
          ghost var b, n := ExprCode(e.yes, ne + 1, v.stack), ExprLabels(e.yes);
          var end := FreshLabel();
          JumpOver(end, ne);
          Fresh(w, b, n, 0, [Jmp(end), Label(ne)]);
          ghost var x := Grown(w, b + [Jmp(end), Label(ne)], n + 1, 0);
          ok := GenExpr(e.no);
          if ok {
            ghost var c, k := ExprCode(e.no, end + 1, v.stack), ExprLabels(e.no);
            Emit(Label(end));
            Twice(x, c, k, 0, [Label(end)], 0, 0);
            Twice(w, b + [Jmp(end), Label(ne)], n + 1, 0, c + [Label(end)], k, 0);
            Twice(v, a + [Test, Je(ne)], m + 1, 0, b + [Jmp(end), Label(ne)] + (c + [Label(end)]), n + 1 + k, 0);
          }
        }
      }
    }

    /** Argument registers are saved, the arguments pushed and popped into them, and the
        registers restored after the call. */
    method GenCall(e: Expr) returns (ok: bool)
      requires e.Call?
      modifies this
      ensures ok == Compilable(e)
      ensures ok ==> Now() == Grown(old(Now()), ExprCode(e, old(nextLabel), old(stack)), ExprLabels(e), 0)
      decreases e, 0
    {
      hide ExprCode, ExprLabels, Compilable, SaveArgRegs, ArgsCode, ArgsLabels, TransferCode, CompilableArgs;
      CallLevel(e, nextLabel, stack);
      var k := Count(e.args);
      if k > 6 {
        return false;
      }
      ghost var v := Now();
      SaveRegisters(k);
      ok := GenArgs(e.args);
      if !ok {
        return;
      }
      ghost var save, args := SaveArgRegs(k), ArgsCode(e.args, v.nextLabel, v.stack + 8 * k);
      Twice(v, save, 0, 8 * k, args, ArgsLabels(e.args), 8 * k);
      GenTransfer(e.name, k);
      ghost var pushed: int := 16 * k;
      Twice(v, save + args, ArgsLabels(e.args), pushed, TransferCode(e.name, k, v.stack + 8 * k), 0, -pushed);
      ok := true;
    }

    method SaveRegisters(k: nat)
      requires k <= 6
      modifies this
      ensures Now() == Grown(old(Now()), SaveArgRegs(k), 0, 8 * k)
    {
      ghost var v := Now();
      for i := 0 to k
        invariant Now() == Grown(v, SaveArgRegs(i), 0, 8 * i)
      {
        EmitPush(ArgReg(i));
      }
    }

    method GenArgs(args: Args) returns (ok: bool)
      modifies this
      ensures ok == CompilableArgs(args)
      ensures ok ==> Now() == Grown(old(Now()), ArgsCode(args, old(nextLabel), old(stack)), ArgsLabels(args), 8 * Count(args))
      decreases args
    {
      hide ExprCode, ExprLabels, Compilable;
      ghost var v := Now();
      var rest := args;
      while rest.Arg?
        invariant rest == args || rest < args
        invariant CompilableArgs(rest) == CompilableArgs(args)
        invariant stack + 8 * Count(rest) == v.stack + 8 * Count(args) && Now().slots == v.slots
        invariant nextLabel + ArgsLabels(rest) == v.nextLabel + ArgsLabels(args)
        invariant output + ArgsCode(rest, nextLabel, stack) == v.output + ArgsCode(args, v.nextLabel, v.stack)
        decreases rest
      {
        ghost var w := Now();
        ok := GenExpr(rest.head);
        if !ok {
          return;
        }
        EmitPush(RAX);
        ArgsCodeStep(w.output, rest, w.nextLabel, w.stack);
        rest := rest.tail;
      }
      ok := true;
    }

    method GenTransfer(name: string, k: nat)
      requires k <= 6
      modifies this
      ensures Now() == Grown(old(Now()), TransferCode(name, k, old(stack) - 8 * k), 0, -16 * k)
    {
      ghost var v, d, r := Now(), stack - 8 * k, RestoreArgRegs(k);
      RestoreRegisters(k);
      Emit(MovImm(0, RAX));
      Twice(v, r, 0, -8 * k, [MovImm(0, RAX)], 0, 0);
      Pad(Sub);
      Twice(v, r + [MovImm(0, RAX)], 0, -8 * k, PadCode(d, Sub), 0, 0);
      Emit(CallName(name));
      Twice(v, r + [MovImm(0, RAX)] + PadCode(d, Sub), 0, -8 * k, [CallName(name)], 0, 0);
      Pad(Add);
      Twice(v, r + [MovImm(0, RAX)] + PadCode(d, Sub) + [CallName(name)], 0, -8 * k, PadCode(d, Add), 0, 0);
      RestoreRegisters(k);
      Twice(v, r + [MovImm(0, RAX)] + PadCode(d, Sub) + [CallName(name)] + PadCode(d, Add), 0, -8 * k, r, 0, -8 * k);
    }

    method RestoreRegisters(k: nat)
      requires k <= 6
      modifies this
      ensures Now() == Grown(old(Now()), RestoreArgRegs(k), 0, -8 * k)
    {
      ghost var v := Now();
      for i := k downto 0
        invariant stack == v.stack - 8 * (k - i) && nextLabel == v.nextLabel && Now().slots == v.slots
        invariant output + RestoreArgRegs(i) == v.output + RestoreArgRegs(k)
      {
        EmitPop(ArgReg(i));
      }
    }

    method Pad(op: Alu)
      modifies this
      ensures Now() == Grown(old(Now()), PadCode(stack, op), 0, 0)
    {
      if stack % 16 != 0 {
        Emit(AluImm(op, 8, RSP));
      }
    }

    // ------------------------------------------------------ statements

    /** gen_jump_save. */
    method JumpSave(end: nat, next: nat)
      modifies this
      ensures Now() == old(Now()).(slots := Save(old(Now()).slots, end, next))
    {
      brkStore := brk;
      contStore := cont;
      brk := Some(end);
      cont := Some(next);
    }

    /** gen_jump_restore. */
    method JumpRestore()
      modifies this
      ensures Now() == old(Now()).(slots := Restore(old(Now()).slots))
    {
      brk := brkStore;
      cont := contStore;
    }

    method GenOption(e: Option<Expr>) returns (ok: bool)
      modifies this
      ensures ok == CompilableOption(e)
      ensures ok ==> Now() == Grown(old(Now()), OptionCode(e, old(nextLabel), old(stack)), OptionLabels(e), 0)
    {
      ok := true;
      if e.Some? {
        ok := GenExpr(e.value);
      }
    }

    /** An element of a declaration's initializer list, with gen_literal_save. */
    method GenInitialize(off: int, e: Expr) returns (ok: bool)
      modifies this
      ensures ok == Compilable(e)
      ensures ok ==> Now() == Grown(old(Now()), InitializeCode(off, e, old(nextLabel), old(stack)), StmtLabels(Initialize(off, e)), 0)
    {
      if e.Literal? {
        EmitPush(RAX);
        Emit(MovImm(e.value, RAX));
        Emit(Store(RAX, off, RBP));
        EmitPop(RAX);
        ok := true;
      } else {
        ghost var v := Now();
        ok := GenExpr(e);
        if ok {
          Emit(Store(RAX, off, RBP));
          Twice(v, ExprCode(e, v.nextLabel, v.stack), ExprLabels(e), 0, [Store(RAX, off, RBP)], 0, 0);
        }
      }
    }

    /** The code and the slots are those of RawStmt, and it stops where RawStmt does. */
    method GenStatement(s: Stmt) returns (ok: bool)
      modifies this
      ensures ok == RawStmt(s, old(nextLabel), old(stack), old(Now()).slots).Some?
      ensures ok ==> Generated(s, old(Now()), Now())
      decreases s, 1
    {
      hide *;
      match s {
        case Sequence(_, _) => ok := GenCompound(s);
        case If(_, _) => ok := GenIf(s);
        case IfElse(_, _, _) => ok := GenIfElse(s);
        case While(_, _) => ok := GenWhile(s);
        case DoWhile(_, _) => ok := GenDo(s);
        case For(_, _, _, _) => ok := GenFor(s);
        case Switch(_, _) => ok := GenSwitch(s);
        case _ => ok := GenSimple(s);
      }
    }

    method GenSimple(s: Stmt) returns (ok: bool)
      requires !s.Sequence? && !s.If? && !s.IfElse? && !s.While? && !s.DoWhile? && !s.For? && !s.Switch?
      modifies this
      ensures ok == RawStmt(s, old(nextLabel), old(stack), old(Now()).slots).Some?
      ensures ok ==> Generated(s, old(Now()), Now())
    {
      ghost var v := Now();
      match s {
        case Skip => ok := true;
        case Expression(e) => ok := GenExpr(e);
        case Initialize(off, e) => ok := GenInitialize(off, e);
        case Case(value) => ok := GenCase(value);
        case Default => ok := GenDefault();
        case Break =>
          ok := brk.Some?;
          if ok {
            Emit(Jmp(brk.value));
          }
        case Continue =>
          ok := cont.Some?;
          if ok {
            Emit(Jmp(cont.value));
          }
        case Return(r) =>
          ok := GenOption(r);
          if ok {
            Emit(Leave);
            Emit(Ret);
          }
      }
    }

    method GenCase(value: int) returns (ok: bool)
      modifies this
      ensures ok == RawStmt(Case(value), old(nextLabel), old(stack), old(Now()).slots).Some?
      ensures ok ==> Generated(Case(value), old(Now()), Now())
    {
      ok := sw.Some?;
      if ok {
        var skip := FreshLabel();
        Emit(Jmp(skip));
        Emit(Label(sw.value));
        Emit(CmpImm32(value));
        sw := Some(nextLabel);
        nextLabel := nextLabel + 1;
        Emit(Jne(sw.value));
        Emit(Label(skip));
      }
    }

    method GenDefault() returns (ok: bool)
      modifies this
      ensures ok == RawStmt(Default, old(nextLabel), old(stack), old(Now()).slots).Some?
      ensures ok ==> Generated(Default, old(Now()), Now())
    {
      ok := sw.Some?;
      if ok {
        Emit(Label(sw.value));
        sw := Some(nextLabel);
        nextLabel := nextLabel + 1;
      }
    }

    /** The statements of a compound, one after the other. */
    method GenCompound(s: Stmt) returns (ok: bool)
      requires s.Sequence?
      modifies this
      ensures ok == RawStmt(s, old(nextLabel), old(stack), old(Now()).slots).Some?
      ensures ok ==> Generated(s, old(Now()), Now())
      decreases s, 0
    {
      hide RawStmt, StmtLabels;
      ghost var v := Now();
      ghost var done: seq<Instr> := [];
      AfterNothing(RawStmt(s, v.nextLabel, v.stack, v.slots));
      var rest := s;
      while rest.Sequence?
        invariant rest == s || rest < s
        invariant stack == v.stack && output == v.output + done && nextLabel + StmtLabels(rest) == v.nextLabel + StmtLabels(s)
        invariant RawStmt(s, v.nextLabel, v.stack, v.slots) == After(done, RawStmt(rest, nextLabel, stack, Now().slots))
        decreases rest
      {
        ghost var w := Now();
        SequenceGenerated(rest, w, done);
        ok := GenStatement(rest.first);
        if !ok {
          return;
        }
        done := done + RawStmt(rest.first, w.nextLabel, w.stack, w.slots).value.code;
        rest := rest.rest;
      }
      ghost var w := Now();
      ok := GenStatement(rest);
      if ok {
        Regroup(v.output, done, RawStmt(rest, w.nextLabel, w.stack, w.slots).value.code);
      }
    }

    method GenIf(s: Stmt) returns (ok: bool)
      requires s.If?
      modifies this
      ensures ok == RawStmt(s, old(nextLabel), old(stack), old(Now()).slots).Some?
      ensures ok ==> Generated(s, old(Now()), Now())
      decreases s, 0
    {
      hide RawStmt, StmtLabels, ExprCode, ExprLabels, Compilable;
      ghost var v := Now();
      LabelsLevel(s);
      IfGenerated(s, v.nextLabel, v.stack, v.slots, RawStmt(s.yes, v.nextLabel + ExprLabels(s.cond) + 1, v.stack, v.slots));
      ok := GenExpr(s.cond);
      if ok {
        ghost var a, m := ExprCode(s.cond, v.nextLabel, v.stack), ExprLabels(s.cond);
        var ne := FreshLabel();
        JumpIfZero(ne);
        Fresh(v, a, m, 0, [Test, Je(ne)]);
        ghost var w := Now();
        ok := GenStatement(s.yes);
        if ok {
          Emit(Label(ne));
          Around(v, a + [Test, Je(ne)], RawStmt(s.yes, w.nextLabel, w.stack, w.slots).value.code, [Label(ne)]);
        }
      }
    }

    method GenIfElse(s: Stmt) returns (ok: bool)
      requires s.IfElse?
      modifies this
      ensures ok == RawStmt(s, old(nextLabel), old(stack), old(Now()).slots).Some?
      ensures ok ==> Generated(s, old(Now()), Now())
      decreases s, 0
    {
      hide RawStmt, StmtLabels, ExprCode, ExprLabels, Compilable;
      ghost var v := Now();
      LabelsLevel(s);
      ghost var n := v.nextLabel + ExprLabels(s.cond);
      ghost var r := RawStmt(s.yes, n + 1, v.stack, v.slots);
      ghost var q := if r.None? then None else RawStmt(s.no, n + 1 + StmtLabels(s.yes) + 1, v.stack, r.value.slots);
      IfElseGenerated(s, v.nextLabel, v.stack, v.slots, n, n + 1 + StmtLabels(s.yes), r, q);
      ok := GenExpr(s.cond);
      if ok {
        ghost var a, m := ExprCode(s.cond, v.nextLabel, v.stack), ExprLabels(s.cond);
        var ne := FreshLabel();
        JumpIfZero(ne);
        Fresh(v, a, m, 0, [Test, Je(ne)]);
        ghost var w := Now();
        ok := GenStatement(s.yes);
        if ok {
          ghost var b := RawStmt(s.yes, w.nextLabel, w.stack, w.slots).value.code;
          var end := FreshLabel();
          JumpOver(end, ne);
          ghost var x := Now();
          ok := GenStatement(s.no);
          if ok {
            Emit(Label(end));
            ghost var c := RawStmt(s.no, x.nextLabel, x.stack, x.slots).value.code;
            Arms(v.output, a + [Test, Je(ne)], b, [Jmp(end), Label(ne)], c, [Label(end)]);
          }
        }
      }
    }

    method GenWhile(s: Stmt) returns (ok: bool)
      requires s.While?
      modifies this
      ensures ok == RawStmt(s, old(nextLabel), old(stack), old(Now()).slots).Some?
      ensures ok ==> Generated(s, old(Now()), Now())
      decreases s, 0
    {
      hide RawStmt, StmtLabels, ExprCode, ExprLabels, Compilable;
      ghost var v := Now();
      LabelsLevel(s);
      ghost var n := v.nextLabel;
      WhileGenerated(s, n, v.stack, v.slots, RawStmt(s.body, n + 2 + ExprLabels(s.cond), v.stack, Save(v.slots, n + 1, n)));
      var begin := FreshLabel();
      var end := FreshLabel();
      JumpSave(end, begin);
      Emit(Label(begin));
      ghost var w := Now();
      ok := GenExpr(s.cond);
      if ok {
        ghost var a, m := ExprCode(s.cond, w.nextLabel, w.stack), ExprLabels(s.cond);
        JumpIfZero(end);
        ghost var x := Now();
        ok := GenStatement(s.body);
        if ok {
          LoopEnd(begin, end);
          JumpRestore();
          ghost var b := RawStmt(s.body, x.nextLabel, x.stack, x.slots).value.code;
          Looped(v.output, [Label(begin)], a, [Test, Je(end)], b, [Jmp(begin), Label(end)]);
        }
      }
    }

    method LoopEnd(begin: nat, end: nat)
      modifies this
      ensures Now() == Grown(old(Now()), [Jmp(begin), Label(end)], 0, 0)
    {
      Emit(Jmp(begin));
      Emit(Label(end));
    }

    method GenDo(s: Stmt) returns (ok: bool)
      requires s.DoWhile?
      modifies this
      ensures ok == RawStmt(s, old(nextLabel), old(stack), old(Now()).slots).Some?
      ensures ok ==> Generated(s, old(Now()), Now())
      decreases s, 0
    {
      hide RawStmt, StmtLabels, ExprCode, ExprLabels, Compilable;
      ghost var v := Now();
      LabelsLevel(s);
      ghost var n := v.nextLabel;
      DoGenerated(s, n, v.stack, v.slots, RawStmt(s.body, n + 2, v.stack, Save(v.slots, n + 1, n)));
      var begin := FreshLabel();
      var end := FreshLabel();
      JumpSave(end, begin);
      Emit(Label(begin));
      ghost var w := Now();
      ok := GenStatement(s.body);
      if ok {
        ghost var b := RawStmt(s.body, w.nextLabel, w.stack, w.slots).value.code;
        ghost var x := Now();
        ok := GenExpr(s.cond);
        if ok {
          ghost var a := ExprCode(s.cond, x.nextLabel, x.stack);
          JumpIfZero(end);
          LoopEnd(begin, end);
          JumpRestore();
          DoLooped(v.output, [Label(begin)], b, a, [Test, Je(end)], [Jmp(begin), Label(end)]);
        }
      }
    }

    method GenFor(s: Stmt) returns (ok: bool)
      requires s.For?
      modifies this
      ensures ok == RawStmt(s, old(nextLabel), old(stack), old(Now()).slots).Some?
      ensures ok ==> Generated(s, old(Now()), Now())
      decreases s, 0
    {
      hide RawStmt, StmtLabels, OptionLabels, TestCode, OptionCode, CompilableOption, ForFrame;
      ghost var v := Now();
      LabelsLevel(s);
      ghost var b := v.nextLabel + StmtLabels(s.init);
      ghost var r := RawStmt(s.init, v.nextLabel, v.stack, v.slots);
      ghost var q := if r.None? then None else RawForBody(s, b, v.stack, r.value.slots);
      ForGenerated(s, v.nextLabel, v.stack, v.slots, b, r, q);
      ok := GenStatement(s.init);
      if ok {
        ok := GenForLoop(s);
        if ok {
          Regroup(v.output, r.value.code, ForFrame(s, b, v.stack, q.value.code));
        }
      }
    }

    /** A for statement after its first clause. */
    method GenForLoop(s: Stmt) returns (ok: bool)
      requires s.For?
      modifies this
      ensures var q := RawForBody(s, old(nextLabel), old(stack), old(Now()).slots);
        ok == (CompilableOption(s.test) && CompilableOption(s.step) && q.Some?) &&
        (ok ==> Now() == View(old(output) + ForFrame(s, old(nextLabel), old(stack), q.value.code), old(stack),
          old(nextLabel) + 3 + OptionLabels(s.test) + StmtLabels(s.body) + OptionLabels(s.step), Restore(q.value.slots)))
      decreases s, 0, 0
    {
      hide RawStmt, StmtLabels, OptionLabels, TestCode, OptionCode, CompilableOption;
      ghost var v := Now();
      var begin := FreshLabel();
      var step := FreshLabel();
      var end := FreshLabel();
      JumpSave(end, step);
      Emit(Label(begin));
      ok := GenTest(s.test, end);
      if ok {
        ghost var a := TestCode(s.test, v.nextLabel + 3, v.stack, end);
        ghost var x := Now();
        ok := GenStatement(s.body);
        if ok {
          ghost var b := RawStmt(s.body, x.nextLabel, x.stack, x.slots).value.code;
          Emit(Label(step));
          ghost var y := Now();
          ok := GenOption(s.step);
          if ok {
            ghost var c := OptionCode(s.step, y.nextLabel, y.stack);
            LoopEnd(begin, end);
            JumpRestore();
            ForLooped(v.output, [Label(begin)], a, b, [Label(step)], c, [Jmp(begin), Label(end)]);
          }
        }
      }
    }

    method GenTest(test: Option<Expr>, end: nat) returns (ok: bool)
      modifies this
      ensures ok == CompilableOption(test)
      ensures ok ==> Now() == Grown(old(Now()), TestCode(test, old(nextLabel), old(stack), end), OptionLabels(test), 0)
    {
      ghost var v := Now();
      ok := true;
      if test.Some? {
        ok := GenExpr(test.value);
        if ok {
          JumpIfZero(end);
          Twice(v, ExprCode(test.value, v.nextLabel, v.stack), ExprLabels(test.value), 0, [Test, Je(end)], 0, 0);
        }
      }
    }

    method GenSwitch(s: Stmt) returns (ok: bool)
      requires s.Switch?
      modifies this
      ensures ok == RawStmt(s, old(nextLabel), old(stack), old(Now()).slots).Some?
      ensures ok ==> Generated(s, old(Now()), Now())
      decreases s, 0
    {
      hide RawStmt, StmtLabels, ExprCode, ExprLabels, Compilable;
      ghost var v := Now();
      LabelsLevel(s);
      ghost var l := v.nextLabel + ExprLabels(s.e);
      SwitchGenerated(s, v.nextLabel, v.stack, v.slots, l, RawStmt(s.body, l + 2, v.stack, SwitchSave(v.slots, l)));
      swStore := sw;
      brkStore := brk;
      ok := GenExpr(s.e);
      if ok {
        ghost var a := ExprCode(s.e, v.nextLabel, v.stack);
        sw := Some(nextLabel);
        brk := Some(nextLabel + 1);
        nextLabel := nextLabel + 2;
        Emit(Jmp(sw.value));
        ghost var w := Now();
        ok := GenStatement(s.body);
        if ok {
          if sw.None? || brk.None? {
            return false;
          }
          ghost var b := RawStmt(s.body, w.nextLabel, w.stack, w.slots).value.code;
          ghost var tail := [Label(sw.value), Label(brk.value)];
          Emit(Label(sw.value));
          Emit(Label(brk.value));
          sw := swStore;
          brk := brkStore;
          Switched(v.output, a, [Jmp(v.nextLabel + ExprLabels(s.e))], b, tail[0], tail[1]);
        }
      }
    }

    // ------------------------------------------------------- functions

    /** gen_function_prologue: lays out the frame and gives each variable its offset. */
    method GenPrologue(f: Function) returns (ok: bool, offsets: seq<int>)
      modifies this
      ensures ok == (|f.params| <= 6)
      ensures ok ==> offsets == FrameOffsets(f)
      ensures ok ==> Now() == Grown(old(Now()), PrologueCode(f), 0, BodyStack(f))
    {
      hide Offsets, Lowest, SaveArgRegs;
      offsets := [];
      ok := |f.params| <= 6;
      if !ok {
        return;
      }
      ghost var v := Now();
      ghost var head, regs := [Push(RBP), MovReg(RSP, RBP)], SaveArgRegs(|f.params|);
      EmitPush(RBP);
      Emit(MovReg(RSP, RBP));
      assert v.output + [Push(RBP)] + [MovReg(RSP, RBP)] == v.output + head;
      ghost var pushed: int := 8 * |f.params|;
      var first, params := PlaceParams(f.params);
      Twice(v, head, 0, 8, regs, 0, pushed);
      var offset, locals, localdata := PlaceLocals(f.locals, first);
      offsets := params + locals;
      OffsetsAppend(f.params, f.locals, 0);
      if localdata != 0 {
        Emit(AluImm(Sub, 0 - localdata, RSP));
      }
      Twice(v, head + regs, 0, 8 + pushed, ReserveCode(localdata), 0, 0);
      stack := stack + (8 - offset);
    }

    method PlaceParams(sizes: seq<int>) returns (offset: int, offsets: seq<int>)
      requires |sizes| <= 6
      modifies this
      ensures Now() == Grown(old(Now()), SaveArgRegs(|sizes|), 0, 8 * |sizes|)
      ensures offsets == Offsets(sizes, 0) && offset == Lowest(sizes, 0)
    {
      ghost var v := Now();
      offset := 0;
      offsets := [];
      for i := 0 to |sizes|
        invariant Now() == Grown(v, SaveArgRegs(i), 0, 8 * i)
        invariant offsets + Offsets(sizes[i..], offset) == Offsets(sizes, 0) && Lowest(sizes[i..], offset) == Lowest(sizes, 0)
      {
        EmitPush(ArgReg(i));
        OffsetStep(offsets, sizes, i, offset);
        offset := offset - Alignment(sizes[i], 8);
        offsets := offsets + [offset];
      }
      assert sizes[|sizes|..] == [];
    }

    method PlaceLocals(sizes: seq<int>, start: int) returns (offset: int, offsets: seq<int>, localdata: int)
      ensures offsets == Offsets(sizes, start) && offset == Lowest(sizes, start) && localdata == Sum(offsets)
    {
      offset := start;
      offsets := [];
      localdata := 0;
      for i := 0 to |sizes|
        invariant offsets + Offsets(sizes[i..], offset) == Offsets(sizes, start) && Lowest(sizes[i..], offset) == Lowest(sizes, start)
        invariant localdata + Sum(Offsets(sizes[i..], offset)) == Sum(Offsets(sizes, start))
      {
        OffsetStep(offsets, sizes, i, offset);
        SumStep(sizes, i, offset);
        offset := offset - Alignment(sizes[i], 8);
        offsets := offsets + [offset];
        localdata := localdata + offset;
      }
      assert sizes[|sizes|..] == [];
    }

    /** gen_function. */
    method GenFunction(f: Function) returns (ok: bool, offsets: seq<int>)
      modifies this
      ensures var r := RawStmt(f.body, old(nextLabel), BodyStack(f), old(Now()).slots);
        ok == (|f.params| <= 6 && r.Some?) &&
        (ok ==> offsets == FrameOffsets(f)) &&
        (ok ==> Now() == View(old(output) + FunctionCode(f, r.value.code), BodyStack(f), old(nextLabel) + StmtLabels(f.body), r.value.slots))
    {
      hide RawStmt, StmtLabels, FrameOffsets, PrologueCode;
      ghost var v := Now();
      stack := 0;
      ok, offsets := GenPrologue(f);
      if ok {
        ok := GenStatement(f.body);
        if ok {
          ghost var code := RawStmt(f.body, v.nextLabel, BodyStack(f), v.slots).value.code;
          Emit(Leave);
          Emit(Ret);
          Finished(v.output, PrologueCode(f), code);
        }
      }
    }

    /** The functions of a translation unit, as compile_begin emits them after whatever is
        in the output and however many labels strings, gotos and compound literals have
        taken: the code of every one is that of its lexical nesting, each label handed out
        here is defined exactly once and no other is defined anew, so none is defined twice. */
    method GenUnit(fs: seq<Function>) returns (ok: bool, starts: seq<nat>)
      requires forall l: nat :: Defs(output, l) <= 1 && (nextLabel <= l ==> Defs(output, l) == 0)
      requires forall i :: 0 <= i < |fs| ==> Lexical(fs[i])
      modifies this
      ensures ok && |starts| == |fs| && old(nextLabel) <= nextLabel
      ensures UniqueLabels(output)
      ensures Numbered(old(output), old(nextLabel), output, nextLabel)
      ensures forall i :: 0 <= i < |fs| ==> Contains(output, starts[i], fs[i])
    {
      hide RawStmt, StmtCode, StmtLabels, FunctionCode, BodyStack, Lexical, Contains, Numbered, Defs, FrameOffsets;
      starts := [];
      ghost var before, from := output, nextLabel;
      NumberedNone(output, nextLabel);
      for i := 0 to |fs|
        invariant |starts| == i && from <= nextLabel && Numbered(before, from, output, nextLabel)
        invariant forall j :: 0 <= j < i ==> Contains(output, starts[j], fs[j])
      {
        ghost var v := Now();
        starts := starts + [|output|];
        FunctionFits(fs[i], nextLabel, v.slots);
        var offsets;
        ok, offsets := GenFunction(fs[i]);
        OneMore(before, from, v.output, fs, starts, i, v.nextLabel);
      }
      ok := true;
      NumberedOnce(before, from, output, nextLabel);
    }
  }

  /** The output grew by code that defines the labels handed out since, each once. */
  ghost predicate Numbered(before: Program, from: nat, after: Program, next: nat) {
    from <= next && forall l: nat :: Defs(after, l) == Defs(before, l) + Within(from, next - from, l)
  }

  /** A function the generator accepts and whose jumps it resolves as the nesting says. */
  predicate Lexical(f: Function) {
    |f.params| <= 6 && CompilableStmt(f.body) && WellNested(f.body, false, false, false) && SlotSafe(f.body)
  }

  /** The function's code is at p. */
  ghost predicate Contains(prog: Program, p: nat, f: Function)
  {
    |f.params| <= 6 && exists n: nat :: HoldsFrom(prog, p, f, n)
  }

  ghost predicate HoldsFrom(prog: Program, p: nat, f: Function, n: nat)
    requires |f.params| <= 6
  {
    var code := FunctionCode(f, StmtCode(f.body, n, BodyStack(f), Closed));
    p + |code| <= |prog| && prog[p..p + |code|] == code
  }

  lemma FunctionFits(f: Function, n: nat, x: Slots)
    requires Lexical(f)
    ensures var r := RawStmt(f.body, n, BodyStack(f), x); r.Some? && r.value.code == StmtCode(f.body, n, BodyStack(f), Closed)
    ensures |f.params| <= 6
  {
    hide RawStmt, StmtCode, SlotSafe, BodyStack;
    RawIsLexical(f.body, n, BodyStack(f), x);
  }

  lemma HoldsMore(o: Program, code: seq<Instr>, starts: seq<nat>, fs: seq<Function>)
    requires |starts| == |fs| && forall j :: 0 <= j < |fs| ==> Contains(o, starts[j], fs[j])
    ensures forall j :: 0 <= j < |fs| ==> Contains(o + code, starts[j], fs[j])
  {
    hide FunctionCode;
    forall j | 0 <= j < |fs| ensures Contains(o + code, starts[j], fs[j]) {
      var n: nat :| HoldsFrom(o, starts[j], fs[j], n);
      var k := |FunctionCode(fs[j], StmtCode(fs[j].body, n, BodyStack(fs[j]), Closed))|;
      assert (o + code)[starts[j]..starts[j] + k] == o[starts[j]..starts[j] + k];
      assert HoldsFrom(o + code, starts[j], fs[j], n);
    }
  }

  lemma HoldsNew(o: Program, f: Function, n: nat)
    requires |f.params| <= 6
    ensures Contains(o + FunctionCode(f, StmtCode(f.body, n, BodyStack(f), Closed)), |o|, f)
  {
    hide FunctionCode;
    var code := FunctionCode(f, StmtCode(f.body, n, BodyStack(f), Closed));
    assert (o + code)[|o|..|o| + |code|] == code;
    assert HoldsFrom(o + code, |o|, f, n);
  }

  lemma NumberedNone(o: Program, n: nat)
    ensures Numbered(o, n, o, n)
  {
    hide Defs;
    forall l: nat ensures Within(n, 0, l) == 0 {
    }
  }

  lemma NumberedOnce(before: Program, from: nat, after: Program, next: nat)
    requires Numbered(before, from, after, next) && forall l: nat :: Defs(before, l) <= 1 && (from <= l ==> Defs(before, l) == 0)
    ensures UniqueLabels(after)
  {
    hide Defs, UniqueLabels;
    OnceUnique(after);
  }

  /** One function more. */
  lemma OneMore(before: Program, from: nat, o: Program, fs: seq<Function>, starts: seq<nat>, i: nat, n: nat)
    requires i < |fs| && |starts| == i + 1 && starts[i] == |o| && Lexical(fs[i]) && |fs[i].params| <= 6
    requires Numbered(before, from, o, n) && forall j :: 0 <= j < i ==> Contains(o, starts[j], fs[j])
    ensures var code := FunctionCode(fs[i], StmtCode(fs[i].body, n, BodyStack(fs[i]), Closed));
      Numbered(before, from, o + code, n + StmtLabels(fs[i].body)) && forall j :: 0 <= j <= i ==> Contains(o + code, starts[j], fs[j])
  {
    hide FunctionCode, StmtCode, StmtLabels, BodyStack, Lexical, Contains, Numbered;
    var code := FunctionCode(fs[i], StmtCode(fs[i].body, n, BodyStack(fs[i]), Closed));
    assert forall j :: 0 <= j < i ==> starts[..i][j] == starts[j] && fs[..i][j] == fs[j];
    HoldsMore(o, code, starts[..i], fs[..i]);
    HoldsNew(o, fs[i], n);
    NumberedMore(before, from, o, fs[i], n);
  }

  lemma NumberedMore(before: Program, from: nat, o: Program, f: Function, n: nat)
    requires Lexical(f) && Numbered(before, from, o, n)
    ensures Numbered(before, from, o + FunctionCode(f, StmtCode(f.body, n, BodyStack(f), Closed)), n + StmtLabels(f.body))
  {
    hide FunctionCode, Defs, SlotSafe, StmtCode, StmtLabels;
    var body := StmtCode(f.body, n, BodyStack(f), Closed);
    var next := n + StmtLabels(f.body);
    forall l: nat ensures Defs(o + FunctionCode(f, body), l) == Defs(before, l) + Within(from, next - from, l) {
      BodyLabels(f.body, n, BodyStack(f), l);
      DefsAppend(o, FunctionCode(f, body), l);
      FrameDefs(f, body, l);
    }
  }

  lemma FrameDefs(f: Function, body: seq<Instr>, l: nat)
    requires |f.params| <= 6
    ensures Defs(FunctionCode(f, body), l) == Defs(body, l)
  {
    hide Defs, SaveArgRegs;
    var k := |f.params|;
    RegDefs(k, l);
    DefsNone([Push(RBP), MovReg(RSP, RBP)], l);
    DefsNone(ReserveCode(LocalData(f)), l);
    DefsNone([Leave, Ret], l);
    DefsAppend3([Push(RBP), MovReg(RSP, RBP)], SaveArgRegs(k), ReserveCode(LocalData(f)), l);
    DefsAppend3(PrologueCode(f), body, [Leave, Ret], l);
  }

  lemma Finished(o: seq<Instr>, p: seq<Instr>, b: seq<Instr>)
    ensures o + p + b + [Leave] + [Ret] == o + (p + b + [Leave, Ret])
  {
  }

  lemma OffsetStep(done: seq<int>, sizes: seq<int>, i: nat, offset: int)
    requires i < |sizes|
    ensures var next := offset - Alignment(sizes[i], 8);
      done + Offsets(sizes[i..], offset) == done + [next] + Offsets(sizes[i + 1..], next) &&
      Lowest(sizes[i..], offset) == Lowest(sizes[i + 1..], next)
  {
    assert sizes[i..][1..] == sizes[i + 1..];
  }

  lemma SumStep(sizes: seq<int>, i: nat, offset: int)
    requires i < |sizes|
    ensures var next := offset - Alignment(sizes[i], 8);
      Sum(Offsets(sizes[i..], offset)) == next + Sum(Offsets(sizes[i + 1..], next))
  {
    var next := offset - Alignment(sizes[i], 8);
    assert sizes[i..][1..] == sizes[i + 1..];
    assert Offsets(sizes[i..], offset)[1..] == Offsets(sizes[i + 1..], next);
  }

  /** The code already emitted, before the rest. */
  function After(done: seq<Instr>, r: Option<Raw>): Option<Raw> {
    if r.None? then None else Some(Raw(done + r.value.code, r.value.slots))
  }

  /** The body of a for statement whose first label is b. */
  function RawForBody(s: Stmt, b: nat, d: int, x: Slots): Option<Raw>
    requires s.For?
  {
    RawStmt(s.body, b + 3 + OptionLabels(s.test), d, Save(x, b + 2, b + 1))
  }

  ghost predicate Generated(s: Stmt, v: View, w: View) {
    var r := RawStmt(s, v.nextLabel, v.stack, v.slots);
    r.Some? && w == View(v.output + r.value.code, v.stack, v.nextLabel + StmtLabels(s), r.value.slots)
  }

  lemma SequenceGenerated(s: Stmt, v: View, done: seq<Instr>)
    requires s.Sequence?
    ensures var r := RawStmt(s.first, v.nextLabel, v.stack, v.slots);
      After(done, RawStmt(s, v.nextLabel, v.stack, v.slots)) ==
        if r.None? then None else
          After(done + r.value.code, RawStmt(s.rest, v.nextLabel + StmtLabels(s.first), v.stack, r.value.slots))
    ensures StmtLabels(s) == StmtLabels(s.first) + StmtLabels(s.rest)
  {
    hide RawStmt, StmtLabels;
    LabelsLevel(s);
    var r := RawStmt(s.first, v.nextLabel, v.stack, v.slots);
    SequenceIs(s, v.nextLabel, v.stack, v.slots, r);
    if r.Some? {
      var q := RawStmt(s.rest, v.nextLabel + StmtLabels(s.first), v.stack, r.value.slots);
      if q.Some? {
        Regroup(done, r.value.code, q.value.code);
      }
    }
  }

  lemma SequenceIs(s: Stmt, n: nat, d: int, x: Slots, r: Option<Raw>)
    requires s.Sequence? && r == RawStmt(s.first, n, d, x)
    ensures RawStmt(s, n, d, x) ==
      if r.None? then None else After(r.value.code, RawStmt(s.rest, n + StmtLabels(s.first), d, r.value.slots))
  {
    hide StmtLabels;
  }

  // -------------------------------------------- one level of a statement

  lemma LabelsLevel(s: Stmt)
    ensures s.Sequence? ==> StmtLabels(s) == StmtLabels(s.first) + StmtLabels(s.rest)
    ensures s.If? ==> StmtLabels(s) == ExprLabels(s.cond) + 1 + StmtLabels(s.yes)
    ensures s.IfElse? ==> StmtLabels(s) == ExprLabels(s.cond) + 1 + StmtLabels(s.yes) + 1 + StmtLabels(s.no)
    ensures s.While? ==> StmtLabels(s) == 2 + ExprLabels(s.cond) + StmtLabels(s.body)
    ensures s.DoWhile? ==> StmtLabels(s) == 2 + StmtLabels(s.body) + ExprLabels(s.cond)
    ensures s.For? ==> StmtLabels(s) == StmtLabels(s.init) + 3 + OptionLabels(s.test) + StmtLabels(s.body) + OptionLabels(s.step)
    ensures s.Switch? ==> StmtLabels(s) == ExprLabels(s.e) + 2 + StmtLabels(s.body)
  {
    hide ExprLabels, OptionLabels;
  }

  lemma IfGenerated(s: Stmt, n: nat, d: int, x: Slots, r: Option<Raw>)
    requires s.If? && r == RawStmt(s.yes, n + ExprLabels(s.cond) + 1, d, x)
    ensures RawStmt(s, n, d, x) == if !Compilable(s.cond) || r.None? then None else
      Some(Raw(ExprCode(s.cond, n, d) + [Test, Je(n + ExprLabels(s.cond))] + (r.value.code + [Label(n + ExprLabels(s.cond))]), r.value.slots))
  {
    hide Compilable, ExprCode, ExprLabels;
  }

  lemma IfElseGenerated(s: Stmt, n: nat, d: int, x: Slots, ne: nat, end: nat, r: Option<Raw>, q: Option<Raw>)
    requires s.IfElse? && ne == n + ExprLabels(s.cond) && end == ne + 1 + StmtLabels(s.yes) && r == RawStmt(s.yes, ne + 1, d, x)
    requires r.Some? ==> q == RawStmt(s.no, end + 1, d, r.value.slots)
    ensures RawStmt(s, n, d, x) == if !Compilable(s.cond) || r.None? || q.None? then None else
      Some(Raw(ExprCode(s.cond, n, d) + [Test, Je(ne)] + (r.value.code + [Jmp(end), Label(ne)] + (q.value.code + [Label(end)])), q.value.slots))
  {
    hide Compilable, ExprCode, ExprLabels, StmtLabels;
  }

  lemma WhileGenerated(s: Stmt, n: nat, d: int, x: Slots, r: Option<Raw>)
    requires s.While? && r == RawStmt(s.body, n + 2 + ExprLabels(s.cond), d, Save(x, n + 1, n))
    ensures RawStmt(s, n, d, x) == if !Compilable(s.cond) || r.None? then None else
      Some(Raw([Label(n)] + ExprCode(s.cond, n + 2, d) + [Test, Je(n + 1)] + (r.value.code + [Jmp(n), Label(n + 1)]), Restore(r.value.slots)))
  {
    hide Compilable, ExprCode, ExprLabels;
  }

  lemma DoGenerated(s: Stmt, n: nat, d: int, x: Slots, r: Option<Raw>)
    requires s.DoWhile? && r == RawStmt(s.body, n + 2, d, Save(x, n + 1, n))
    ensures RawStmt(s, n, d, x) == if !Compilable(s.cond) || r.None? then None else
      Some(Raw([Label(n)] + r.value.code +
        (ExprCode(s.cond, n + 2 + StmtLabels(s.body), d) + [Test, Je(n + 1)] + [Jmp(n), Label(n + 1)]), Restore(r.value.slots)))
  {
    hide Compilable, ExprCode, ExprLabels, StmtLabels;
  }

  lemma ForGenerated(s: Stmt, n: nat, d: int, x: Slots, b: nat, r: Option<Raw>, q: Option<Raw>)
    requires s.For? && b == n + StmtLabels(s.init) && r == RawStmt(s.init, n, d, x)
    requires r.Some? ==> q == RawForBody(s, b, d, r.value.slots)
    ensures RawStmt(s, n, d, x) == if !CompilableOption(s.test) || !CompilableOption(s.step) || r.None? || q.None? then None else
      Some(Raw(r.value.code + ForFrame(s, b, d, q.value.code), Restore(q.value.slots)))
  {
    hide CompilableOption, OptionLabels, StmtLabels, TestCode, OptionCode;
  }

  lemma SwitchGenerated(s: Stmt, n: nat, d: int, x: Slots, sw: nat, r: Option<Raw>)
    requires s.Switch? && sw == n + ExprLabels(s.e) && r == RawStmt(s.body, sw + 2, d, SwitchSave(x, sw))
    ensures RawStmt(s, n, d, x) ==
      if !Compilable(s.e) || r.None? || r.value.slots.sw.None? || r.value.slots.brk.None? then None else
      Some(Raw(ExprCode(s.e, n, d) + [Jmp(sw)] +
        (r.value.code + [Label(r.value.slots.sw.value), Label(r.value.slots.brk.value)]), SwitchRestore(r.value.slots)))
  {
    hide Compilable, ExprCode, ExprLabels;
  }

  // --------------------------------------------- the same code, regrouped

  lemma AfterNothing(r: Option<Raw>)
    ensures After([], r) == r
  {
    if r.Some? {
      assert [] + r.value.code == r.value.code;
    }
  }

  lemma Regroup(o: seq<Instr>, a: seq<Instr>, b: seq<Instr>)
    ensures o + a + b == o + (a + b)
  {
  }

  lemma Around(v: View, a: seq<Instr>, b: seq<Instr>, c: seq<Instr>)
    ensures v.output + a + b + c == v.output + (a + (b + c))
  {
  }

  lemma Arms(o: seq<Instr>, a: seq<Instr>, b: seq<Instr>, m: seq<Instr>, c: seq<Instr>, e: seq<Instr>)
    ensures o + a + b + [] + m + c + e == o + (a + (b + m + (c + e)))
  {
  }

  lemma Looped(o: seq<Instr>, h: seq<Instr>, a: seq<Instr>, j: seq<Instr>, b: seq<Instr>, e: seq<Instr>)
    ensures o + [] + [] + h + a + j + b + e == o + (h + a + j + (b + e))
  {
  }

  lemma DoLooped(o: seq<Instr>, h: seq<Instr>, b: seq<Instr>, a: seq<Instr>, j: seq<Instr>, e: seq<Instr>)
    ensures o + [] + [] + h + b + a + j + e == o + (h + b + (a + j + e))
  {
  }

  lemma ForLooped(o: seq<Instr>, h: seq<Instr>, a: seq<Instr>, b: seq<Instr>, m: seq<Instr>, c: seq<Instr>, e: seq<Instr>)
    ensures o + [] + [] + [] + h + a + b + m + c + e == o + (h + a + (b + (m + c + e)))
  {
    assert o + [] + [] + [] == o;
    assert o + h + a + b + m + c + e == o + (h + a + (b + (m + c + e)));
  }

  lemma Switched(o: seq<Instr>, a: seq<Instr>, j: seq<Instr>, b: seq<Instr>, x: Instr, y: Instr)
    ensures o + a + j + b + [x] + [y] == o + (a + j + (b + [x, y]))
  {
  }

  lemma BinaryLevel(e: Expr, n: nat, d: int)
    requires e.Binary?
    ensures Compilable(e) == (Compilable(e.left) && Compilable(e.right)) && ExprLabels(e) == ExprLabels(e.left) + ExprLabels(e.right)
    ensures ExprCode(e, n, d) ==
      ExprCode(e.left, n, d) + [Push(RAX)] + (ExprCode(e.right, n + ExprLabels(e.left), d + 8) + FinishCode(e.op))
  {
    hide FinishCode;
  }

  lemma WriteDerefLevel(e: Expr, shift: int, n: nat, d: int)
    ensures WriteCode(Deref(e), shift, n, d) == [Push(RAX)] + ExprCode(e, n, d + 8) + [Load(0, RSP, RCX), Store(RCX, shift, RAX), Pop(RAX)]
  {
  }

  lemma ArgsCodeStep(o: seq<Instr>, args: Args, n: nat, d: int)
    requires args.Arg?
    ensures o + ArgsCode(args, n, d) == o + ExprCode(args.head, n, d) + [Push(RAX)] + ArgsCode(args.tail, n + ExprLabels(args.head), d + 8)
  {
  }
}
