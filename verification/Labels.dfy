/** Which labels generated code defines. Every label the counter hands out to a statement
    is defined exactly once in its code, except the one that waits for the next case of an
    enclosing switch. */
module Labels {
  import opened Runs
  import opened Machine
  import opened Syntax
  import opened Code

  /** How often a label is defined. */
  function Defs(code: seq<Instr>, l: nat): nat {
    if |code| == 0 then 0 else (if code[0] == Label(l) then 1 else 0) + Defs(code[1..], l)
  }

  lemma {:induction false} DefsAppend(a: seq<Instr>, b: seq<Instr>, l: nat)
    ensures Defs(a + b, l) == Defs(a, l) + Defs(b, l)
  {
    if |a| == 0 {
      assert a + b == b;
    } else {
      assert (a + b)[1..] == a[1..] + b;
      DefsAppend(a[1..], b, l);
    }
  }

  lemma DefsAppend3(a: seq<Instr>, b: seq<Instr>, c: seq<Instr>, l: nat)
    ensures Defs(a + b + c, l) == Defs(a, l) + Defs(b, l) + Defs(c, l)
  {
    DefsAppend(a + b, c, l);
    DefsAppend(a, b, l);
  }

  lemma {:induction false} DefsPositive(code: seq<Instr>, l: nat, i: int)
    requires 0 <= i < |code| && code[i] == Label(l)
    ensures Defs(code, l) >= 1
  {
    if i > 0 {
      DefsPositive(code[1..], l, i - 1);
    }
  }

  lemma {:induction false} DefsTwice(code: seq<Instr>, l: nat, i: int, j: int)
    requires 0 <= i < j < |code| && code[i] == code[j] == Label(l)
    ensures Defs(code, l) >= 2
  {
    if i > 0 {
      DefsTwice(code[1..], l, i - 1, j - 1);
    } else {
      DefsPositive(code[1..], l, j - 1);
    }
  }

  lemma OnceUnique(code: seq<Instr>)
    requires forall l: nat :: Defs(code, l) <= 1
    ensures UniqueLabels(code)
  {
    forall i, j | 0 <= i < |code| && 0 <= j < |code| && code[i].Label? && code[i] == code[j] ensures i == j {
      if i < j { DefsTwice(code, code[i].id, i, j); }
      if j < i { DefsTwice(code, code[i].id, j, i); }
    }
  }

  /** Code without labels. */
  lemma {:induction false} DefsNone(code: seq<Instr>, l: nat)
    requires forall i :: 0 <= i < |code| ==> !code[i].Label?
    ensures Defs(code, l) == 0
  {
    if |code| > 0 { DefsNone(code[1..], l); }
  }

  lemma Defs1(a: Instr, l: nat)
    ensures Defs([a], l) == if a == Label(l) then 1 else 0
  {
  }

  lemma Defs2(a: Instr, b: Instr, l: nat)
    ensures Defs([a, b], l) == (if a == Label(l) then 1 else 0) + (if b == Label(l) then 1 else 0)
  {
    assert [a, b][1..] == [b];
    Defs1(b, l);
  }

  /** 1 for the labels numbered from n to n + k - 1. */
  function Within(n: nat, k: nat, l: nat): nat {
    if n <= l < n + k then 1 else 0
  }

  // -------------------------------------------------------- expressions

  lemma {:induction false} ReadDefs(lv: LValue, shift: int, n: nat, d: int, l: nat)
    requires CompilableLValue(lv)
    ensures Defs(ReadCode(lv, shift, n, d), l) == Within(n, PlaceLabels(lv), l)
    decreases lv, 1
  {
    match lv {
      case Local(_) => DefsNone(ReadCode(lv, shift, n, d), l);
      case Deref(e) =>
        var tail := [Load(shift, RAX, RCX), MovReg(RCX, RAX)];
        DefsAppend(ExprCode(e, n, d), tail, l);
        DefsNone(tail, l);
        ExprDefs(e, n, d, l);
      case Member(s, off) => ReadDefs(s, off + shift, n, d, l);
    }
  }

  lemma {:induction false} WriteDefs(lv: LValue, shift: int, n: nat, d: int, l: nat)
    requires CompilableLValue(lv)
    ensures Defs(WriteCode(lv, shift, n, d), l) == Within(n, PlaceLabels(lv), l)
    decreases lv, 1
  {
    match lv {
      case Local(_) => DefsNone(WriteCode(lv, shift, n, d), l);
      case Deref(e) =>
        var tail := [Load(0, RSP, RCX), Store(RCX, shift, RAX), Pop(RAX)];
        DefsAppend3([Push(RAX)], ExprCode(e, n, d + 8), tail, l);
        DefsNone(tail, l);
        DefsNone([Push(RAX)], l);
        ExprDefs(e, n, d + 8, l);
      case Member(s, off) => WriteDefs(s, off + shift, n, d, l);
    }
  }

  lemma FinishDefs(op: BinaryOp, l: nat)
    ensures Defs(FinishCode(op), l) == 0
  {
    DefsNone(FinishCode(op), l);
  }

  lemma {:induction false} RegDefs(k: nat, l: nat)
    requires k <= 6
    ensures Defs(SaveArgRegs(k), l) == 0 && Defs(RestoreArgRegs(k), l) == 0
  {
    if k > 0 {
      RegDefs(k - 1, l);
      DefsAppend(SaveArgRegs(k - 1), [Push(ArgReg(k - 1))], l);
      DefsAppend([Pop(ArgReg(k - 1))], RestoreArgRegs(k - 1), l);
      DefsNone([Push(ArgReg(k - 1))], l);
      DefsNone([Pop(ArgReg(k - 1))], l);
    }
  }

  lemma TransferDefs(name: string, k: nat, d: int, l: nat)
    requires k <= 6
    ensures Defs(TransferCode(name, k, d), l) == 0
  {
    var mid := [MovImm(0, RAX)] + PadCode(d, Sub) + [CallName(name)] + PadCode(d, Add);
    assert TransferCode(name, k, d) == RestoreArgRegs(k) + mid + RestoreArgRegs(k);
    DefsNone(mid, l);
    RegDefs(k, l);
    DefsAppend3(RestoreArgRegs(k), mid, RestoreArgRegs(k), l);
  }

  lemma {:induction false} ArgsDefs(args: Args, n: nat, d: int, l: nat)
    requires CompilableArgs(args)
    ensures Defs(ArgsCode(args, n, d), l) == Within(n, ArgsLabels(args), l)
    decreases args, 1
  {
    hide Defs, ExprCode, ExprLabels, Compilable;
    match args {
      case NoArgs => DefsNone([], l);
      case Arg(e, tail) =>
        ExprDefs(e, n, d, l);
        ArgsDefs(tail, n + ExprLabels(e), d + 8, l);
        DefsNone([Push(RAX)], l);
        DefsAppend3(ExprCode(e, n, d), [Push(RAX)], ArgsCode(tail, n + ExprLabels(e), d + 8), l);
    }
  }

  lemma {:induction false} ShortCircuitDefs(left: seq<Instr>, head: seq<Instr>, right: seq<Instr>, tail: seq<Instr>, n: nat, l: nat)
    requires Defs(head, l) == 0 && |tail| == 5 && tail[4] == Label(n) && forall i :: 0 <= i < 4 ==> !tail[i].Label?
    ensures Defs(left + head + (right + tail), l) == Defs(left, l) + Defs(right, l) + Within(n, 1, l)
  {
    DefsAppend3(left, head, right + tail, l);
    DefsAppend(right, tail, l);
    assert tail == tail[..4] + [Label(n)];
    DefsAppend(tail[..4], [Label(n)], l);
    DefsNone(tail[..4], l);
  }

  /** A conditional's code defines what its three parts define and its two labels. */
  lemma ArmsDefs(cond: seq<Instr>, yes: seq<Instr>, other: seq<Instr>, ne: nat, end: nat, l: nat)
    requires ne < end
    ensures Defs(cond + [Test, Je(ne)] + (yes + [Jmp(end), Label(ne)] + (other + [Label(end)])), l) ==
      Defs(cond, l) + Defs(yes, l) + Within(ne, 1, l) + Defs(other, l) + Within(end, 1, l)
  {
    DefsAppend3(cond, [Test, Je(ne)], yes + [Jmp(end), Label(ne)] + (other + [Label(end)]), l);
    DefsAppend3(yes, [Jmp(end), Label(ne)], other + [Label(end)], l);
    DefsAppend(other, [Label(end)], l);
    Defs2(Test, Je(ne), l);
    Defs2(Jmp(end), Label(ne), l);
    Defs1(Label(end), l);
  }

  lemma {:induction false} ExprDefs(e: Expr, n: nat, d: int, l: nat)
    requires Compilable(e)
    ensures Defs(ExprCode(e, n, d), l) == Within(n, ExprLabels(e), l)
    decreases e, 1
  {
    hide *;
    match e {
      case Literal(_) => LeafDefs(e, n, d, l);
      case Read(_) => LeafDefs(e, n, d, l);
      case AddressOf(_) => LeafDefs(e, n, d, l);
      case Binary(_, _, _) => BinaryDefs(e, n, d, l);
      case Conditional(_, _, _) => ConditionalDefs(e, n, d, l);
      case _ => ExprDefsMore(e, n, d, l);
    }
  }

  lemma {:induction false} LeafDefs(e: Expr, n: nat, d: int, l: nat)
    requires Compilable(e) && (e.Literal? || e.Read? || e.AddressOf?)
    ensures Defs(ExprCode(e, n, d), l) == Within(n, ExprLabels(e), l)
    decreases e, 0
  {
    hide Defs;
    if e.Read? {
      ReadDefs(e.lv, 0, n, d, l);
    } else if e.AddressOf? && e.lv.Deref? {
      ReadDefs(e.lv, 0, n, d, l);
    } else {
      DefsNone(ExprCode(e, n, d), l);
    }
  }

  lemma {:induction false} BinaryDefs(e: Expr, n: nat, d: int, l: nat)
    requires Compilable(e) && e.Binary?
    ensures Defs(ExprCode(e, n, d), l) == Within(n, ExprLabels(e), l)
    decreases e, 0
  {
    hide Defs, FinishCode;
    var Binary(op, a, b) := e;
    var right := ExprCode(b, n + ExprLabels(a), d + 8);
    ExprDefs(a, n, d, l);
    ExprDefs(b, n + ExprLabels(a), d + 8, l);
    DefsNone([Push(RAX)], l);
    FinishDefs(op, l);
    DefsAppend3(ExprCode(a, n, d), [Push(RAX)], right + FinishCode(op), l);
    DefsAppend(right, FinishCode(op), l);
  }

  lemma {:induction false} ConditionalDefs(e: Expr, n: nat, d: int, l: nat)
    requires Compilable(e) && e.Conditional?
    ensures Defs(ExprCode(e, n, d), l) == Within(n, ExprLabels(e), l)
    decreases e, 0
  {
    hide Defs;
    var Conditional(c, y, no) := e;
    var ne := n + ExprLabels(c);
    var end := ne + 1 + ExprLabels(y);
    ExprDefs(c, n, d, l);
    ExprDefs(y, ne + 1, d, l);
    ExprDefs(no, end + 1, d, l);
    ArmsDefs(ExprCode(c, n, d), ExprCode(y, ne + 1, d), ExprCode(no, end + 1, d), ne, end, l);
  }

  lemma {:induction false} ExprDefsMore(e: Expr, n: nat, d: int, l: nat)
    requires Compilable(e)
    requires e.LogicalAnd? || e.LogicalOr? || e.LogicalNot? || e.OnesComplement? || e.Assign? || e.IncDec? || e.Call?
    ensures Defs(ExprCode(e, n, d), l) == Within(n, ExprLabels(e), l)
    decreases e, 0
  {
    hide Defs;
    match e {
      case LogicalAnd(_, _) => AndDefs(e, n, d, l);
      case LogicalOr(_, _) => OrDefs(e, n, d, l);
      case LogicalNot(a) =>
        var tail := [CmpImm(0), SetAl(IsEqual), MovzbAlEax];
        ExprDefs(a, n, d, l);
        DefsNone(tail, l);
        DefsAppend(ExprCode(a, n, d), tail, l);
      case OnesComplement(a) =>
        ExprDefs(a, n, d, l);
        DefsNone([Not], l);
        DefsAppend(ExprCode(a, n, d), [Not], l);
      case Assign(lv, a) =>
        ExprDefs(a, n, d, l);
        WriteDefs(lv, 0, n + ExprLabels(a), d, l);
        DefsAppend(ExprCode(a, n, d), WriteCode(lv, 0, n + ExprLabels(a), d), l);
      case IncDec(lv, prefix, minus, _) => IncDecDefs(lv, prefix, if minus then Sub else Add, n, d, l);
      case Call(name, args) =>
        var k := Count(args);
        RegDefs(k, l);
        ArgsDefs(args, n, d + 8 * k, l);
        TransferDefs(name, k, d + 8 * k, l);
        DefsAppend3(SaveArgRegs(k), ArgsCode(args, n, d + 8 * k), TransferCode(name, k, d + 8 * k), l);
    }
  }

  lemma {:induction false} AndDefs(e: Expr, n: nat, d: int, l: nat)
    requires Compilable(e) && e.LogicalAnd?
    ensures Defs(ExprCode(e, n, d), l) == Within(n, ExprLabels(e), l)
    decreases e, 0, 0
  {
    hide Defs;
    var a, b := e.left, e.right;
    ExprDefs(a, n + 1, d, l);
    ExprDefs(b, n + 1 + ExprLabels(a), d, l);
    var head, tail := [Test, MovImm(0, RAX), Je(n)], [Test, MovImm(0, RAX), Je(n), MovImm(1, RAX), Label(n)];
    DefsNone(head, l);
    ShortCircuitDefs(ExprCode(a, n + 1, d), head, ExprCode(b, n + 1 + ExprLabels(a), d), tail, n, l);
  }

  lemma {:induction false} OrDefs(e: Expr, n: nat, d: int, l: nat)
    requires Compilable(e) && e.LogicalOr?
    ensures Defs(ExprCode(e, n, d), l) == Within(n, ExprLabels(e), l)
    decreases e, 0, 0
  {
    hide Defs;
    var a, b := e.left, e.right;
    ExprDefs(a, n + 1, d, l);
    ExprDefs(b, n + 1 + ExprLabels(a), d, l);
    var head, tail := [Test, MovImm(1, RAX), Jne(n)], [Test, MovImm(1, RAX), Jne(n), MovImm(0, RAX), Label(n)];
    DefsNone(head, l);
    ShortCircuitDefs(ExprCode(a, n + 1, d), head, ExprCode(b, n + 1 + ExprLabels(a), d), tail, n, l);
  }

  lemma {:induction false} IncDecDefs(lv: LValue, prefix: bool, op: Alu, n: nat, d: int, l: nat)
    requires CompilableLValue(lv)
    ensures Defs(
      if prefix then ReadCode(lv, 0, n, d) + [AluImm(op, 1, RAX)] + WriteCode(lv, 0, n + PlaceLabels(lv), d)
      else ReadCode(lv, 0, n, d) + [Push(RAX), AluImm(op, 1, RAX)] + (WriteCode(lv, 0, n + PlaceLabels(lv), d + 8) + [Pop(RAX)]), l) ==
      Within(n, PlaceLabels(lv) + PlaceLabels(lv), l)
    decreases lv, 2
  {
    hide Defs;
    var n1 := n + PlaceLabels(lv);
    ReadDefs(lv, 0, n, d, l);
    if prefix {
      WriteDefs(lv, 0, n1, d, l);
      DefsNone([AluImm(op, 1, RAX)], l);
      DefsAppend3(ReadCode(lv, 0, n, d), [AluImm(op, 1, RAX)], WriteCode(lv, 0, n1, d), l);
    } else {
      WriteDefs(lv, 0, n1, d + 8, l);
      DefsNone([Push(RAX), AluImm(op, 1, RAX)], l);
      DefsNone([Pop(RAX)], l);
      DefsAppend3(ReadCode(lv, 0, n, d), [Push(RAX), AluImm(op, 1, RAX)], WriteCode(lv, 0, n1, d + 8) + [Pop(RAX)], l);
      DefsAppend(WriteCode(lv, 0, n1, d + 8), [Pop(RAX)], l);
    }
  }

  // --------------------------------------------------------- statements

  /** For a run of k labels from n: 1 for each, except the one still waiting for the
      next case, and 1 for the one the chain arrives with, if there are markers. */
  function Tally(n: nat, k: nat, markers: nat, sw: Option<nat>, next: Option<nat>, l: nat): nat {
    (if n <= l < n + k && !(markers > 0 && next == Some(l)) then 1 else 0) + (if markers > 0 && sw == Some(l) then 1 else 0)
  }

  function StmtDefs(s: Stmt, n: nat, sw: Option<nat>, l: nat): nat {
    Tally(n, StmtLabels(s), |Markers(s)|, sw, NextSwitch(s, n, sw), l)
  }

  /** The label that waits for the next case is the incoming one or freshly handed out. */
  ghost predicate Handed(s: Stmt, n: nat, sw: Option<nat>) {
    (|Markers(s)| == 0 ==> NextSwitch(s, n, sw) == sw) &&
    (|Markers(s)| > 0 ==> NextSwitch(s, n, sw).Some? && n <= NextSwitch(s, n, sw).value < n + StmtLabels(s))
  }

  lemma {:induction false} NextSwitchRange(s: Stmt, n: nat, sw: Option<nat>)
    ensures Handed(s, n, sw)
    decreases s, 1
  {
    hide ExprLabels, OptionLabels;
    match s {
      case Sequence(_, _) => NextSwitchTwo(s, n, sw);
      case IfElse(_, _, _) => NextSwitchTwo(s, n, sw);
      case For(_, _, _, _) => NextSwitchTwo(s, n, sw);
      case If(c, a) => NextSwitchRange(a, n + ExprLabels(c) + 1, sw);
      case While(c, body) => NextSwitchRange(body, n + 2 + ExprLabels(c), sw);
      case DoWhile(body, c) => NextSwitchRange(body, n + 2, sw);
      case _ =>
    }
  }

  lemma {:induction false} NextSwitchTwo(s: Stmt, n: nat, sw: Option<nat>)
    requires s.Sequence? || s.IfElse? || s.For?
    ensures Handed(s, n, sw)
    decreases s, 0
  {
    hide ExprLabels, OptionLabels;
    match s {
      case Sequence(a, b) =>
        NextSwitchRange(a, n, sw);
        NextSwitchRange(b, n + StmtLabels(a), NextSwitch(a, n, sw));
      case IfElse(c, a, b) =>
        var ne := n + ExprLabels(c);
        NextSwitchRange(a, ne + 1, sw);
        NextSwitchRange(b, ne + 1 + StmtLabels(a) + 1, NextSwitch(a, ne + 1, sw));
      case For(init, test, step, body) =>
        NextSwitchRange(init, n, sw);
        NextSwitchRange(body, n + StmtLabels(init) + 3 + OptionLabels(test), NextSwitch(init, n, sw));
    }
  }

  /** The exact count, for every label. */
  lemma {:induction false} StmtDefsExact(s: Stmt, n: nat, d: int, t: Targets, l: nat)
    requires CompilableStmt(s) && WellNested(s, true, true, t.sw.Some?)
    requires t.sw.Some? ==> t.sw.value < n
    ensures Defs(StmtCode(s, n, d, t), l) == StmtDefs(s, n, t.sw, l)
    decreases s, 1
  {
    hide *;
    match s {
      case Sequence(_, _) => SequenceDefs(s, n, d, t, l);
      case If(_, _) => IfDefs(s, n, d, t, l);
      case IfElse(_, _, _) => IfElseDefs(s, n, d, t, l);
      case While(_, _) => WhileDefs(s, n, d, t, l);
      case DoWhile(_, _) => DoDefs(s, n, d, t, l);
      case For(_, _, _, _) => ForDefs(s, n, d, t, l);
      case Switch(_, _) => SwitchDefs(s, n, d, t, l);
      case _ => SimpleDefs(s, n, d, t, l);
    }
  }

  lemma SimpleDefs(s: Stmt, n: nat, d: int, t: Targets, l: nat)
    requires !s.Sequence? && !s.If? && !s.IfElse? && !s.While? && !s.DoWhile? && !s.For? && !s.Switch?
    requires CompilableStmt(s) && WellNested(s, true, true, t.sw.Some?)
    requires t.sw.Some? ==> t.sw.value < n
    ensures Defs(StmtCode(s, n, d, t), l) == StmtDefs(s, n, t.sw, l)
  {
    hide Defs, ExprCode, ExprLabels, Compilable;
    match s {
      case Expression(e) => ExprDefs(e, n, d, l);
      case Initialize(off, e) =>
        if e.Literal? {
          DefsNone(StmtCode(s, n, d, t), l);
        } else {
          ExprDefs(e, n, d, l);
          DefsNone([Store(RAX, off, RBP)], l);
          DefsAppend(ExprCode(e, n, d), [Store(RAX, off, RBP)], l);
        }
      case Return(r) =>
        DefsNone([Leave, Ret], l);
        DefsAppend(OptionCode(r, n, d), [Leave, Ret], l);
        OptionDefs(r, n, d, l);
      case Case(v) =>
        var w := t.sw.value;
        assert StmtCode(s, n, d, t) == [Jmp(n), Label(w)] + [CmpImm32(v), Jne(n + 1)] + [Label(n)];
        DefsAppend3([Jmp(n), Label(w)], [CmpImm32(v), Jne(n + 1)], [Label(n)], l);
        Defs2(Jmp(n), Label(w), l);
        Defs2(CmpImm32(v), Jne(n + 1), l);
        Defs1(Label(n), l);
      case Default => Defs1(Label(t.sw.value), l);
      case _ => DefsNone(StmtCode(s, n, d, t), l);
    }
  }

  lemma OptionDefs(e: Option<Expr>, n: nat, d: int, l: nat)
    requires CompilableOption(e)
    ensures Defs(OptionCode(e, n, d), l) == Within(n, OptionLabels(e), l)
  {
    hide ExprCode, ExprLabels;
    if e.Some? { ExprDefs(e.value, n, d, l); }
  }

  lemma {:induction false} SequenceDefs(s: Stmt, n: nat, d: int, t: Targets, l: nat)
    requires s.Sequence?
    requires CompilableStmt(s) && WellNested(s, true, true, t.sw.Some?)
    requires t.sw.Some? ==> t.sw.value < n
    ensures Defs(StmtCode(s, n, d, t), l) == StmtDefs(s, n, t.sw, l)
    decreases s, 0
  {
    hide Defs;
    var Sequence(a, b) := s;
    var t' := t.(sw := NextSwitch(a, n, t.sw));
    NextSwitchRange(a, n, t.sw);
    NextSwitchRange(b, n + StmtLabels(a), t'.sw);
    NestedMore(a, true, true, t.sw.Some?);
    StmtDefsExact(a, n, d, t, l);
    StmtDefsExact(b, n + StmtLabels(a), d, t', l);
    DefsAppend(StmtCode(a, n, d, t), StmtCode(b, n + StmtLabels(a), d, t'), l);
  }

  /** A statement that is well nested stays so inside more constructs, and has no case
      labels when it is not inside a switch. */
  lemma {:induction false} NestedMore(s: Stmt, b: bool, c: bool, w: bool)
    requires WellNested(s, b, c, w)
    ensures WellNested(s, true, true, true)
    ensures !w ==> Markers(s) == []
    decreases s
  {
    match s {
      case Sequence(x, y) => NestedMore(x, b, c, w); NestedMore(y, b, c, w);
      case If(_, x) => NestedMore(x, b, c, w);
      case IfElse(_, x, y) => NestedMore(x, b, c, w); NestedMore(y, b, c, w);
      case While(_, x) => NestedMore(x, true, true, w);
      case DoWhile(x, _) => NestedMore(x, true, true, w);
      case For(i, _, _, x) => NestedMore(i, b, c, w); NestedMore(x, true, true, w);
      case Switch(_, x) => NestedMore(x, true, c, true);
      case _ =>
    }
  }

  lemma {:induction false} IfDefs(s: Stmt, n: nat, d: int, t: Targets, l: nat)
    requires s.If?
    requires CompilableStmt(s) && WellNested(s, true, true, t.sw.Some?)
    requires t.sw.Some? ==> t.sw.value < n
    ensures Defs(StmtCode(s, n, d, t), l) == StmtDefs(s, n, t.sw, l)
    decreases s, 0
  {
    hide Defs, ExprCode, ExprLabels, Compilable;
    var If(c, a) := s;
    var ne := n + ExprLabels(c);
    NextSwitchRange(a, ne + 1, t.sw);
    ExprDefs(c, n, d, l);
    StmtDefsExact(a, ne + 1, d, t, l);
    Defs2(Test, Je(ne), l);
    Defs1(Label(ne), l);
    DefsAppend3(ExprCode(c, n, d), [Test, Je(ne)], StmtCode(a, ne + 1, d, t) + [Label(ne)], l);
    DefsAppend(StmtCode(a, ne + 1, d, t), [Label(ne)], l);
  }

  lemma {:induction false} IfElseDefs(s: Stmt, n: nat, d: int, t: Targets, l: nat)
    requires s.IfElse?
    requires CompilableStmt(s) && WellNested(s, true, true, t.sw.Some?)
    requires t.sw.Some? ==> t.sw.value < n
    ensures Defs(StmtCode(s, n, d, t), l) == StmtDefs(s, n, t.sw, l)
    decreases s, 0
  {
    hide Defs, ExprCode, ExprLabels, Compilable, StmtDefs, Handed, Within;
    IfElseNested(s, n, t.sw);
    var IfElse(c, a, b) := s;
    var ne := n + ExprLabels(c);
    var end := ne + 1 + StmtLabels(a);
    var t' := t.(sw := NextSwitch(a, ne + 1, t.sw));
    NextSwitchRange(a, ne + 1, t.sw);
    NextSwitchRange(b, end + 1, t'.sw);
    ExprDefs(c, n, d, l);
    StmtDefsExact(a, ne + 1, d, t, l);
    StmtDefsExact(b, end + 1, d, t', l);
    ArmsDefs(ExprCode(c, n, d), StmtCode(a, ne + 1, d, t), StmtCode(b, end + 1, d, t'), ne, end, l);
    IfElseCount(s, n, t.sw, l, ne, end, t'.sw);
  }

  lemma IfElseNested(s: Stmt, n: nat, sw: Option<nat>)
    requires s.IfElse? && WellNested(s, true, true, sw.Some?) && (sw.Some? ==> sw.value < n)
    ensures var ne := n + ExprLabels(s.cond); var sw' := NextSwitch(s.yes, ne + 1, sw);
      WellNested(s.yes, true, true, sw.Some?) && WellNested(s.no, true, true, sw'.Some?) &&
      (sw'.Some? ==> sw'.value < ne + 1 + StmtLabels(s.yes) + 1)
  {
    hide ExprLabels;
    NestedMore(s.yes, true, true, sw.Some?);
    NextSwitchRange(s.yes, n + ExprLabels(s.cond) + 1, sw);
  }

  lemma IfElseLevel(s: Stmt, n: nat, sw: Option<nat>)
    requires s.IfElse?
    ensures var ne := n + ExprLabels(s.cond); var end := ne + 1 + StmtLabels(s.yes);
      StmtLabels(s) == ExprLabels(s.cond) + 1 + StmtLabels(s.yes) + 1 + StmtLabels(s.no) &&
      |Markers(s)| == |Markers(s.yes)| + |Markers(s.no)| &&
      NextSwitch(s, n, sw) == NextSwitch(s.no, end + 1, NextSwitch(s.yes, ne + 1, sw))
  {
    hide ExprLabels;
  }

  /** The bookkeeping of a two-armed if. */
  lemma IfElseCount(s: Stmt, n: nat, sw: Option<nat>, l: nat, ne: nat, end: nat, mid: Option<nat>)
    requires s.IfElse? && (sw.Some? ==> sw.value < n)
    requires ne == n + ExprLabels(s.cond) && end == ne + 1 + StmtLabels(s.yes) && mid == NextSwitch(s.yes, ne + 1, sw)
    requires Handed(s.yes, ne + 1, sw) && Handed(s.no, end + 1, mid)
    ensures StmtDefs(s, n, sw, l) == Within(n, ExprLabels(s.cond), l) + StmtDefs(s.yes, ne + 1, sw, l) + Within(ne, 1, l) +
        StmtDefs(s.no, end + 1, mid, l) + Within(end, 1, l)
  {
    hide ExprLabels, StmtLabels, Markers, NextSwitch, Tally;
    IfElseLevel(s, n, sw);
    Joined(n, ExprLabels(s.cond) + 1, ne + 1, StmtLabels(s.yes), |Markers(s.yes)|, sw, mid, end + 1, StmtLabels(s.no), |Markers(s.no)|,
      NextSwitch(s.no, end + 1, mid), end + 1 + StmtLabels(s.no), l);
  }

  /** Two statements that share a run of labels, with other labels before, between and
      after them: their definitions add up. */
  lemma Joined(n: nat, lead: nat, na: nat, ka: nat, ma: nat, sw: Option<nat>, mid: Option<nat>, nb: nat, kb: nat, mb: nat,
    next: Option<nat>, end: nat, l: nat)
    requires n + lead == na && na + ka <= nb && nb + kb <= end && (sw.Some? ==> sw.value < n)
    requires (ma == 0 ==> mid == sw) && (ma > 0 ==> mid.Some? && na <= mid.value < na + ka)
    requires (mb == 0 ==> next == mid) && (mb > 0 ==> next.Some? && nb <= next.value < nb + kb)
    ensures Tally(n, end - n, ma + mb, sw, next, l) ==
      Within(n, lead, l) + Tally(na, ka, ma, sw, mid, l) + Within(na + ka, nb - (na + ka), l) + Tally(nb, kb, mb, mid, next, l) +
      Within(nb + kb, end - (nb + kb), l)
  {
    if l < na {
    } else if l < na + ka {
    } else if l < nb {
    } else {
    }
  }

  lemma {:induction false} WhileDefs(s: Stmt, n: nat, d: int, t: Targets, l: nat)
    requires s.While?
    requires CompilableStmt(s) && WellNested(s, true, true, t.sw.Some?)
    requires t.sw.Some? ==> t.sw.value < n
    ensures Defs(StmtCode(s, n, d, t), l) == StmtDefs(s, n, t.sw, l)
    decreases s, 0
  {
    hide Defs, ExprCode, ExprLabels, Compilable;
    var While(c, a) := s;
    var t' := t.(brk := Some(n + 1), cont := Some(n));
    var m := n + 2 + ExprLabels(c);
    NextSwitchRange(a, m, t.sw);
    ExprDefs(c, n + 2, d, l);
    StmtDefsExact(a, m, d, t', l);
    LoopDefs([Label(n)], ExprCode(c, n + 2, d), [Test, Je(n + 1)], StmtCode(a, m, d, t'), n, n + 1, l);
  }

  lemma LoopDefs(a: seq<Instr>, b: seq<Instr>, c: seq<Instr>, e: seq<Instr>, begin: nat, end: nat, l: nat)
    requires a == [Label(begin)] && forall i :: 0 <= i < |c| ==> !c[i].Label?
    ensures Defs(a + b + c + (e + [Jmp(begin), Label(end)]), l) ==
      Within(begin, 1, l) + Defs(b, l) + Defs(e, l) + Within(end, 1, l)
  {
    DefsAppend3(a + b, c, e + [Jmp(begin), Label(end)], l);
    DefsAppend(a, b, l);
    DefsAppend(e, [Jmp(begin), Label(end)], l);
    DefsNone(c, l);
    Defs1(Label(begin), l);
    Defs2(Jmp(begin), Label(end), l);
  }

  lemma {:induction false} DoDefs(s: Stmt, n: nat, d: int, t: Targets, l: nat)
    requires s.DoWhile?
    requires CompilableStmt(s) && WellNested(s, true, true, t.sw.Some?)
    requires t.sw.Some? ==> t.sw.value < n
    ensures Defs(StmtCode(s, n, d, t), l) == StmtDefs(s, n, t.sw, l)
    decreases s, 0
  {
    hide Defs, ExprCode, ExprLabels, Compilable;
    var DoWhile(a, c) := s;
    var t' := t.(brk := Some(n + 1), cont := Some(n));
    var m := n + 2 + StmtLabels(a);
    NextSwitchRange(a, n + 2, t.sw);
    ExprDefs(c, m, d, l);
    StmtDefsExact(a, n + 2, d, t', l);
    DoLoopDefs(StmtCode(a, n + 2, d, t'), ExprCode(c, m, d), n, n + 1, l);
  }

  lemma DoLoopDefs(body: seq<Instr>, cond: seq<Instr>, begin: nat, end: nat, l: nat)
    ensures Defs([Label(begin)] + body + (cond + [Test, Je(end)] + [Jmp(begin), Label(end)]), l) ==
      Within(begin, 1, l) + Defs(body, l) + Defs(cond, l) + Within(end, 1, l)
  {
    hide Defs;
    DefsAppend3([Label(begin)], body, cond + [Test, Je(end)] + [Jmp(begin), Label(end)], l);
    DefsAppend3(cond, [Test, Je(end)], [Jmp(begin), Label(end)], l);
    Defs1(Label(begin), l);
    Defs2(Test, Je(end), l);
    Defs2(Jmp(begin), Label(end), l);
  }

  lemma {:induction false} ForDefs(s: Stmt, n: nat, d: int, t: Targets, l: nat)
    requires s.For?
    requires CompilableStmt(s) && WellNested(s, true, true, t.sw.Some?)
    requires t.sw.Some? ==> t.sw.value < n
    ensures Defs(StmtCode(s, n, d, t), l) == StmtDefs(s, n, t.sw, l)
    decreases s, 0
  {
    hide Defs, ExprCode, ExprLabels, OptionLabels, Compilable, StmtDefs, Handed, Within, ForCode;
    var For(init, test, step, a) := s;
    var b := n + StmtLabels(init);
    var t' := t.(sw := NextSwitch(init, n, t.sw));
    var m := b + 3 + OptionLabels(test);
    ForNested(s, n, t.sw);
    StmtDefsExact(init, n, d, t, l);
    StmtDefsExact(a, m, d, t'.(brk := Some(b + 2), cont := Some(b + 1)), l);
    DefsAppend(StmtCode(init, n, d, t), ForCode(s, b, d, t'), l);
    ForLoopDefs(s, b, d, t', l);
    ForCount(s, n, t.sw, l);
  }

  lemma ForNested(s: Stmt, n: nat, sw: Option<nat>)
    requires s.For? && WellNested(s, true, true, sw.Some?) && (sw.Some? ==> sw.value < n)
    ensures var b := n + StmtLabels(s.init); var sw' := NextSwitch(s.init, n, sw); var m := b + 3 + OptionLabels(s.test);
      WellNested(s.init, true, true, sw.Some?) && WellNested(s.body, true, true, sw'.Some?) && (sw'.Some? ==> sw'.value < m) &&
      Handed(s.init, n, sw) && Handed(s.body, m, sw')
  {
    hide ExprLabels, OptionLabels;
    NestedMore(s.init, true, true, sw.Some?);
    NextSwitchRange(s.init, n, sw);
    NextSwitchRange(s.body, n + StmtLabels(s.init) + 3 + OptionLabels(s.test), NextSwitch(s.init, n, sw));
  }

  lemma ForLevel(s: Stmt, n: nat, sw: Option<nat>)
    requires s.For?
    ensures var b := n + StmtLabels(s.init); var m := b + 3 + OptionLabels(s.test);
      StmtLabels(s) == StmtLabels(s.init) + 3 + OptionLabels(s.test) + StmtLabels(s.body) + OptionLabels(s.step) &&
      |Markers(s)| == |Markers(s.init)| + |Markers(s.body)| &&
      NextSwitch(s, n, sw) == NextSwitch(s.body, m, NextSwitch(s.init, n, sw))
  {
  }

  /** The bookkeeping of a for statement. */
  lemma ForCount(s: Stmt, n: nat, sw: Option<nat>, l: nat)
    requires s.For? && (sw.Some? ==> sw.value < n)
    requires var b := n + StmtLabels(s.init); var m := b + 3 + OptionLabels(s.test);
      Handed(s.init, n, sw) && Handed(s.body, m, NextSwitch(s.init, n, sw))
    ensures var b := n + StmtLabels(s.init); var m := b + 3 + OptionLabels(s.test);
      StmtDefs(s, n, sw, l) == StmtDefs(s.init, n, sw, l) + (Within(b, 3, l) + Within(b + 3, OptionLabels(s.test), l) +
        StmtDefs(s.body, m, NextSwitch(s.init, n, sw), l) + Within(m + StmtLabels(s.body), OptionLabels(s.step), l))
  {
    hide OptionLabels, StmtLabels, Markers, NextSwitch, Tally;
    ForLevel(s, n, sw);
    var m := n + StmtLabels(s.init) + 3 + OptionLabels(s.test);
    var mid := NextSwitch(s.init, n, sw);
    Joined(n, 0, n, StmtLabels(s.init), |Markers(s.init)|, sw, mid, m, StmtLabels(s.body), |Markers(s.body)|,
      NextSwitch(s.body, m, mid), n + StmtLabels(s), l);
  }

  lemma ForLoopDefs(s: Stmt, b: nat, d: int, t: Targets, l: nat)
    requires s.For? && CompilableStmt(s)
    ensures var m := b + 3 + OptionLabels(s.test);
      Defs(ForCode(s, b, d, t), l) == Within(b, 3, l) + Within(b + 3, OptionLabels(s.test), l) +
        Defs(StmtCode(s.body, m, d, t.(brk := Some(b + 2), cont := Some(b + 1))), l) +
        Within(m + StmtLabels(s.body), OptionLabels(s.step), l)
  {
    hide Defs, ExprCode, ExprLabels, Compilable, StmtCode, StmtLabels;
    var m := b + 3 + OptionLabels(s.test);
    var test := TestCode(s.test, b + 3, d, b + 2);
    var body := StmtCode(s.body, m, d, t.(brk := Some(b + 2), cont := Some(b + 1)));
    var step := OptionCode(s.step, m + StmtLabels(s.body), d);
    TestDefs(s.test, b + 3, d, b + 2, l);
    OptionDefs(s.step, m + StmtLabels(s.body), d, l);
    DefsAppend3([Label(b)], test, body + ([Label(b + 1)] + step + [Jmp(b), Label(b + 2)]), l);
    DefsAppend(body, [Label(b + 1)] + step + [Jmp(b), Label(b + 2)], l);
    DefsAppend3([Label(b + 1)], step, [Jmp(b), Label(b + 2)], l);
    Defs1(Label(b), l);
    Defs1(Label(b + 1), l);
    Defs2(Jmp(b), Label(b + 2), l);
  }

  lemma TestDefs(e: Option<Expr>, n: nat, d: int, end: nat, l: nat)
    requires CompilableOption(e)
    ensures Defs(TestCode(e, n, d, end), l) == Within(n, OptionLabels(e), l)
  {
    hide ExprCode, ExprLabels;
    if e.Some? {
      ExprDefs(e.value, n, d, l);
      DefsNone([Test, Je(end)], l);
      DefsAppend(ExprCode(e.value, n, d), [Test, Je(end)], l);
    }
  }

  lemma {:induction false} SwitchDefs(s: Stmt, n: nat, d: int, t: Targets, l: nat)
    requires s.Switch?
    requires CompilableStmt(s) && WellNested(s, true, true, t.sw.Some?)
    requires t.sw.Some? ==> t.sw.value < n
    ensures Defs(StmtCode(s, n, d, t), l) == StmtDefs(s, n, t.sw, l)
    decreases s, 0
  {
    hide Defs, ExprCode, ExprLabels, Compilable;
    var Switch(e, a) := s;
    var sw := n + ExprLabels(e);
    var t' := t.(brk := Some(sw + 1), sw := Some(sw));
    var next := NextSwitch(a, sw + 2, Some(sw)).value;
    NextSwitchRange(a, sw + 2, Some(sw));
    ExprDefs(e, n, d, l);
    StmtDefsExact(a, sw + 2, d, t', l);
    Defs1(Jmp(sw), l);
    Defs2(Label(next), Label(sw + 1), l);
    DefsAppend3(ExprCode(e, n, d), [Jmp(sw)], StmtCode(a, sw + 2, d, t') + [Label(next), Label(sw + 1)], l);
    DefsAppend(StmtCode(a, sw + 2, d, t'), [Label(next), Label(sw + 1)], l);
  }

  /** A function body's code defines each label it was handed exactly once, and no other. */
  lemma BodyLabels(s: Stmt, n: nat, d: int, l: nat)
    requires CompilableStmt(s) && WellNested(s, false, false, false)
    ensures Defs(StmtCode(s, n, d, Targets(None, None, None)), l) == Within(n, StmtLabels(s), l)
  {
    hide Defs, StmtCode, StmtLabels;
    NestedMore(s, false, false, false);
    NestedLoose(s, false, false, false);
    StmtDefsExact(s, n, d, Targets(None, None, None), l);
  }

  lemma {:induction false} NestedLoose(s: Stmt, b: bool, c: bool, w: bool)
    requires WellNested(s, b, c, w)
    ensures WellNested(s, true, true, w)
    decreases s
  {
    match s {
      case Sequence(x, y) => NestedLoose(x, b, c, w); NestedLoose(y, b, c, w);
      case If(_, x) => NestedLoose(x, b, c, w);
      case IfElse(_, x, y) => NestedLoose(x, b, c, w); NestedLoose(y, b, c, w);
      case For(i, _, _, x) => NestedLoose(i, b, c, w);
      case Switch(_, x) => NestedLoose(x, true, c, true);
      case _ =>
    }
  }

  // --------------------------------------------------------- jump targets

  function AimOf(i: Instr): Option<nat> {
    if i.Jmp? || i.Je? || i.Jne? then Some(i.target) else None
  }

  /** A label handed out here, or where a break or continue goes. */
  predicate Allowed(l: nat, lo: nat, hi: nat, t: Targets) {
    lo <= l < hi || t.brk == Some(l) || t.cont == Some(l)
  }

  predicate AimsIn(code: seq<Instr>, lo: nat, hi: nat, t: Targets) {
    forall i :: 0 <= i < |code| && AimOf(code[i]).Some? ==> Allowed(AimOf(code[i]).value, lo, hi, t)
  }

  predicate NoAims(code: seq<Instr>) {
    forall i :: 0 <= i < |code| ==> AimOf(code[i]).None?
  }

  lemma {:induction false} AimsBoth(a: seq<Instr>, b: seq<Instr>, lo: nat, hi: nat, t: Targets)
    requires AimsIn(a, lo, hi, t) && AimsIn(b, lo, hi, t)
    ensures AimsIn(a + b, lo, hi, t)
  {
  }

  lemma {:induction false} AimsThree(a: seq<Instr>, b: seq<Instr>, c: seq<Instr>, lo: nat, hi: nat, t: Targets)
    requires AimsIn(a, lo, hi, t) && AimsIn(b, lo, hi, t) && AimsIn(c, lo, hi, t)
    ensures AimsIn(a + b + c, lo, hi, t)
  {
    hide AimsIn;
    AimsBoth(a, b, lo, hi, t);
    AimsBoth(a + b, c, lo, hi, t);
  }

  lemma {:induction false} AimsNone(code: seq<Instr>, lo: nat, hi: nat, t: Targets)
    requires NoAims(code)
    ensures AimsIn(code, lo, hi, t)
  {
  }

  /** More labels are allowed: those of t' as well. */
  lemma {:induction false} AimsWider(code: seq<Instr>, lo: nat, hi: nat, t: Targets, lo': nat, hi': nat, t': Targets)
    requires AimsIn(code, lo, hi, t) && lo' <= lo && hi <= hi'
    requires t.brk.Some? ==> Allowed(t.brk.value, lo', hi', t')
    requires t.cont.Some? ==> Allowed(t.cont.value, lo', hi', t')
    ensures AimsIn(code, lo', hi', t')
  {
  }

  const Nowhere := Targets(None, None, None)

  lemma {:induction false} AimsGrown(code: seq<Instr>, lo: nat, hi: nat, lo': nat, hi': nat, t: Targets)
    requires AimsIn(code, lo, hi, Nowhere) && lo' <= lo && hi <= hi'
    ensures AimsIn(code, lo', hi', t)
  {
    AimsWider(code, lo, hi, Nowhere, lo', hi', t);
  }

  lemma {:induction false} ReadAims(lv: LValue, shift: int, n: nat, d: int)
    ensures AimsIn(ReadCode(lv, shift, n, d), n, n + PlaceLabels(lv), Nowhere)
    decreases lv, 0
  {
    hide ExprCode, ExprLabels;
    match lv {
      case Local(_) =>
      case Deref(e) => ExprAims(e, n, d);
      case Member(s, off) => ReadAims(s, off + shift, n, d);
    }
  }

  lemma {:induction false} WriteAims(lv: LValue, shift: int, n: nat, d: int)
    ensures AimsIn(WriteCode(lv, shift, n, d), n, n + PlaceLabels(lv), Nowhere)
    decreases lv, 0
  {
    hide ExprCode, ExprLabels;
    match lv {
      case Local(_) =>
      case Deref(e) => ExprAims(e, n, d + 8);
      case Member(s, off) => WriteAims(s, off + shift, n, d);
    }
  }

  lemma {:induction false} ArgsAims(args: Args, n: nat, d: int)
    ensures AimsIn(ArgsCode(args, n, d), n, n + ArgsLabels(args), Nowhere)
    decreases args
  {
    hide ExprCode, ExprLabels;
    match args {
      case NoArgs =>
      case Arg(e, tail) =>
        var m := n + ExprLabels(e);
        ExprAims(e, n, d);
        ArgsAims(tail, m, d + 8);
        hide AimsIn, ArgsCode, ArgsLabels;
        ArgsAimsJoin(ExprCode(e, n, d), ArgsCode(tail, m, d + 8), n, m, m + ArgsLabels(tail));
        ArgsCodeLevel(args, n, d);
    }
  }

  lemma {:induction false} ArgsAimsJoin(a: seq<Instr>, b: seq<Instr>, n: nat, m: nat, k: nat)
    requires AimsIn(a, n, m, Nowhere) && AimsIn(b, m, k, Nowhere) && n <= m <= k
    ensures AimsIn(a + [Push(RAX)] + b, n, k, Nowhere)
  {
  }

  lemma ArgsCodeLevel(args: Args, n: nat, d: int)
    requires args.Arg?
    ensures ArgsCode(args, n, d) == ExprCode(args.head, n, d) + [Push(RAX)] + ArgsCode(args.tail, n + ExprLabels(args.head), d + 8)
    ensures ArgsLabels(args) == ExprLabels(args.head) + ArgsLabels(args.tail)
  {
  }

  lemma {:induction false} RegistersAims(k: nat)
    requires k <= 6
    ensures NoAims(SaveArgRegs(k)) && NoAims(RestoreArgRegs(k))
  {
    if k > 0 {
      RegistersAims(k - 1);
    }
  }

  lemma {:induction false} TransferAims(name: string, k: nat, d: int)
    requires k <= 6
    ensures NoAims(TransferCode(name, k, d))
  {
    hide RestoreArgRegs;
    RegistersAims(k);
  }

  lemma FinishAims(op: BinaryOp)
    ensures NoAims(FinishCode(op))
  {
  }

  /** The tests of a logical operator. */
  function ShortTest(either: bool, l: nat): seq<Instr> {
    if either then [Test, MovImm(1, RAX), Jne(l)] else [Test, MovImm(0, RAX), Je(l)]
  }

  function ShortEnd(either: bool, l: nat): seq<Instr> {
    if either then [Test, MovImm(1, RAX), Jne(l), MovImm(0, RAX), Label(l)] else [Test, MovImm(0, RAX), Je(l), MovImm(1, RAX), Label(l)]
  }

  lemma {:induction false} ShortAims(either: bool, l: nat, lo: nat, hi: nat)
    requires lo <= l < hi
    ensures AimsIn(ShortTest(either, l), lo, hi, Nowhere) && AimsIn(ShortEnd(either, l), lo, hi, Nowhere)
  {
  }

  /** A label of the range is allowed as a target, and those of t are. */
  lemma {:induction false} OneAim(l: nat, lo: nat, hi: nat, t: Targets)
    requires lo <= l < hi
    ensures AimsIn([Test, Je(l)], lo, hi, t) && AimsIn([Jmp(l)], lo, hi, t) && AimsIn([Label(l)], lo, hi, t)
  {
  }

  lemma {:induction false} TwoLabels(l: nat, m: nat, lo: nat, hi: nat, t: Targets)
    ensures AimsIn([Label(l), Label(m)], lo, hi, t)
  {
  }

  lemma OwnAllowed(t: Targets, lo: nat, hi: nat)
    ensures t.brk.Some? ==> Allowed(t.brk.value, lo, hi, t)
    ensures t.cont.Some? ==> Allowed(t.cont.value, lo, hi, t)
  {
  }

  lemma LoopAllowed(n: nat, hi: nat, t: Targets)
    requires n + 1 < hi
    ensures Allowed(n, n, hi, t) && Allowed(n + 1, n, hi, t)
  {
  }

  lemma ForAllowed(b: nat, hi: nat, t: Targets)
    requires b + 2 < hi
    ensures Allowed(b + 1, b, hi, t) && Allowed(b + 2, b, hi, t)
  {
  }

  lemma SwitchAllowed(n: nat, sw: nat, hi: nat, t: Targets)
    requires n <= sw && sw + 1 < hi
    ensures Allowed(sw + 1, n, hi, t) && (t.cont.Some? ==> Allowed(t.cont.value, n, hi, t))
  {
  }

  /** The instructions around a loop. */
  lemma {:induction false} LoopAims(mark: nat, begin: nat, end: nat, lo: nat, hi: nat, t: Targets)
    requires lo <= begin < hi && lo <= end < hi
    ensures AimsIn([Label(mark)], lo, hi, t) && AimsIn([Test, Je(end)], lo, hi, t) && AimsIn([Jmp(begin), Label(end)], lo, hi, t)
  {
  }

  /** An expression jumps to its own labels only. */
  lemma {:induction false} ExprAims(e: Expr, n: nat, d: int)
    ensures AimsIn(ExprCode(e, n, d), n, n + ExprLabels(e), Nowhere)
    decreases e, 1
  {
    hide *;
    match e {
      case LogicalAnd(_, _) => LogicalAims(e, n, d);
      case LogicalOr(_, _) => LogicalAims(e, n, d);
      case Conditional(_, _, _) => ConditionalAims(e, n, d);
      case Binary(_, _, _) => BinaryAims(e, n, d);
      case Assign(_, _) => AssignAims(e, n, d);
      case IncDec(_, _, _, _) => IncDecAims(e, n, d);
      case Call(_, _) => CallAims(e, n, d);
      case _ => SimpleAims(e, n, d);
    }
  }

  lemma {:induction false} SimpleAims(e: Expr, n: nat, d: int)
    requires e.Literal? || e.Read? || e.AddressOf? || e.LogicalNot? || e.OnesComplement?
    ensures AimsIn(ExprCode(e, n, d), n, n + ExprLabels(e), Nowhere)
    decreases e, 0
  {
    hide ReadCode, PlaceLabels;
    match e {
      case Literal(_) =>
      case Read(lv) => ReadAims(lv, 0, n, d);
      case AddressOf(lv) => ReadAims(lv, 0, n, d);
      case LogicalNot(a) => ExprAims(a, n, d);
      case OnesComplement(a) => ExprAims(a, n, d);
    }
  }

  lemma {:induction false} BinaryAimsLevel(e: Expr, n: nat, d: int)
    requires e.Binary?
    ensures var m := n + ExprLabels(e.left);
      ExprCode(e, n, d) == ExprCode(e.left, n, d) + [Push(RAX)] + (ExprCode(e.right, m, d + 8) + FinishCode(e.op)) &&
      n + ExprLabels(e) == m + ExprLabels(e.right)
  {
  }

  lemma {:induction false} BinaryAims(e: Expr, n: nat, d: int)
    requires e.Binary?
    ensures AimsIn(ExprCode(e, n, d), n, n + ExprLabels(e), Nowhere)
    decreases e, 0
  {
    hide *;
    BinaryAimsLevel(e, n, d);
    var m, k := n + ExprLabels(e.left), n + ExprLabels(e);
    var a, b := ExprCode(e.left, n, d), ExprCode(e.right, m, d + 8);
    ExprAims(e.left, n, d);
    ExprAims(e.right, m, d + 8);
    FinishAims(e.op);
    PushAims();
    AimsGrown(a, n, m, n, k, Nowhere);
    AimsGrown(b, m, k, n, k, Nowhere);
    AimsNone(FinishCode(e.op), n, k, Nowhere);
    AimsNone([Push(RAX)], n, k, Nowhere);
    AimsBoth(b, FinishCode(e.op), n, k, Nowhere);
    AimsThree(a, [Push(RAX)], b + FinishCode(e.op), n, k, Nowhere);
  }

  lemma PushAims()
    ensures NoAims([Push(RAX)])
  {
  }

  lemma {:induction false} AssignAims(e: Expr, n: nat, d: int)
    requires e.Assign?
    ensures AimsIn(ExprCode(e, n, d), n, n + ExprLabels(e), Nowhere)
    decreases e, 0
  {
    var m, k := n + ExprLabels(e.source), n + ExprLabels(e);
    var a, b := ExprCode(e.source, n, d), WriteCode(e.lv, 0, m, d);
    assert ExprCode(e, n, d) == a + b && k == m + PlaceLabels(e.lv);
    ExprAims(e.source, n, d);
    WriteAims(e.lv, 0, m, d);
    hide AimsIn, ExprCode, ExprLabels, WriteCode, PlaceLabels;
    AimsGrown(a, n, m, n, k, Nowhere);
    AimsGrown(b, m, k, n, k, Nowhere);
    AimsBoth(a, b, n, k, Nowhere);
  }

  lemma {:induction false} IncDecAims(e: Expr, n: nat, d: int)
    requires e.IncDec?
    ensures AimsIn(ExprCode(e, n, d), n, n + ExprLabels(e), Nowhere)
    decreases e, 0
  {
    hide *;
    var m, k := n + PlaceLabels(e.lv), n + ExprLabels(e);
    var d' := if e.prefix then d else d + 8;
    var a, b := ReadCode(e.lv, 0, n, d), WriteCode(e.lv, 0, m, d');
    var op := AluImm(if e.minus then Sub else Add, 1, RAX);
    IncDecLevel(e, n, d);
    StepNoAim(op);
    ReadAims(e.lv, 0, n, d);
    WriteAims(e.lv, 0, m, d');
    AimsGrown(a, n, m, n, k, Nowhere);
    AimsGrown(b, m, k, n, k, Nowhere);
    StepAims(a, b, op, n, k);
  }

  lemma StepNoAim(op: Instr)
    requires op.AluImm?
    ensures AimOf(op).None?
  {
  }

  lemma {:induction false} IncDecLevel(e: Expr, n: nat, d: int)
    requires e.IncDec?
    ensures ExprLabels(e) == PlaceLabels(e.lv) + PlaceLabels(e.lv)
    ensures var m := n + PlaceLabels(e.lv); var op := AluImm(if e.minus then Sub else Add, 1, RAX);
      ExprCode(e, n, d) ==
        if e.prefix then ReadCode(e.lv, 0, n, d) + [op] + WriteCode(e.lv, 0, m, d)
        else ReadCode(e.lv, 0, n, d) + [Push(RAX), op] + (WriteCode(e.lv, 0, m, d + 8) + [Pop(RAX)])
  {
    hide ReadCode, WriteCode, PlaceLabels;
  }

  lemma {:induction false} StepAims(a: seq<Instr>, b: seq<Instr>, op: Instr, lo: nat, hi: nat)
    requires AimsIn(a, lo, hi, Nowhere) && AimsIn(b, lo, hi, Nowhere) && AimOf(op).None?
    ensures AimsIn(a + [op] + b, lo, hi, Nowhere) && AimsIn(a + [Push(RAX), op] + (b + [Pop(RAX)]), lo, hi, Nowhere)
  {
  }

  lemma {:induction false} CallAims(e: Expr, n: nat, d: int)
    requires e.Call?
    ensures AimsIn(ExprCode(e, n, d), n, n + ExprLabels(e), Nowhere)
    decreases e, 0
  {
    hide ArgsCode, SaveArgRegs, TransferCode, ArgsLabels, Count;
    var k := Count(e.args);
    if k <= 6 {
      ArgsAims(e.args, n, d + 8 * k);
      RegistersAims(k);
      TransferAims(e.name, k, d + 8 * k);
    }
  }

  lemma {:induction false} LogicalAimsLevel(e: Expr, n: nat, d: int)
    requires e.LogicalAnd? || e.LogicalOr?
    ensures var m := n + 1 + ExprLabels(e.left);
      ExprCode(e, n, d) == ExprCode(e.left, n + 1, d) + ShortTest(e.LogicalOr?, n) + (ExprCode(e.right, m, d) + ShortEnd(e.LogicalOr?, n)) &&
      n + ExprLabels(e) == m + ExprLabels(e.right)
  {
  }

  lemma {:induction false} LogicalAims(e: Expr, n: nat, d: int)
    requires e.LogicalAnd? || e.LogicalOr?
    ensures AimsIn(ExprCode(e, n, d), n, n + ExprLabels(e), Nowhere)
    decreases e, 0
  {
    hide *;
    LogicalAimsLevel(e, n, d);
    var m, k := n + 1 + ExprLabels(e.left), n + ExprLabels(e);
    var a, b := ExprCode(e.left, n + 1, d), ExprCode(e.right, m, d);
    ExprAims(e.left, n + 1, d);
    ExprAims(e.right, m, d);
    ShortAims(e.LogicalOr?, n, n, k);
    AimsGrown(a, n + 1, m, n, k, Nowhere);
    AimsGrown(b, m, k, n, k, Nowhere);
    AimsBoth(b, ShortEnd(e.LogicalOr?, n), n, k, Nowhere);
    AimsThree(a, ShortTest(e.LogicalOr?, n), b + ShortEnd(e.LogicalOr?, n), n, k, Nowhere);
  }

  lemma {:induction false} ConditionalAimsLevel(e: Expr, n: nat, d: int)
    requires e.Conditional?
    ensures var ne := n + ExprLabels(e.cond); var end := ne + 1 + ExprLabels(e.yes);
      ExprCode(e, n, d) == ExprCode(e.cond, n, d) + [Test, Je(ne)] + (ExprCode(e.yes, ne + 1, d) + [Jmp(end), Label(ne)] +
        (ExprCode(e.no, end + 1, d) + [Label(end)])) &&
      n + ExprLabels(e) == end + 1 + ExprLabels(e.no)
  {
    ConditionalLabels(e);
    hide ExprLabels;
  }

  lemma {:induction false} ConditionalLabels(e: Expr)
    requires e.Conditional?
    ensures ExprLabels(e) == ExprLabels(e.cond) + 1 + ExprLabels(e.yes) + 1 + ExprLabels(e.no)
  {
  }

  lemma {:induction false} ConditionalAims(e: Expr, n: nat, d: int)
    requires e.Conditional?
    ensures AimsIn(ExprCode(e, n, d), n, n + ExprLabels(e), Nowhere)
    decreases e, 0
  {
    hide *;
    ConditionalAimsLevel(e, n, d);
    var ne := n + ExprLabels(e.cond);
    var end := ne + 1 + ExprLabels(e.yes);
    var k := n + ExprLabels(e);
    ExprAims(e.cond, n, d);
    ExprAims(e.yes, ne + 1, d);
    ExprAims(e.no, end + 1, d);
    AimsGrown(ExprCode(e.cond, n, d), n, ne, n, k, Nowhere);
    AimsGrown(ExprCode(e.yes, ne + 1, d), ne + 1, end, n, k, Nowhere);
    AimsGrown(ExprCode(e.no, end + 1, d), end + 1, k, n, k, Nowhere);
    ArmsAims(ExprCode(e.cond, n, d), ExprCode(e.yes, ne + 1, d), ExprCode(e.no, end + 1, d), ne, end, n, k, Nowhere);
  }

  /** Two alternatives with the jumps around them. */
  lemma {:induction false} ArmsAims(a: seq<Instr>, b: seq<Instr>, z: seq<Instr>, ne: nat, end: nat, lo: nat, hi: nat, t: Targets)
    requires AimsIn(a, lo, hi, t) && AimsIn(b, lo, hi, t) && AimsIn(z, lo, hi, t) && lo <= ne < hi && lo <= end < hi
    ensures AimsIn(a + [Test, Je(ne)] + (b + [Jmp(end), Label(ne)] + (z + [Label(end)])), lo, hi, t)
  {
    assert AimsIn([Test, Je(ne)], lo, hi, t) && AimsIn([Jmp(end), Label(ne)], lo, hi, t) && AimsIn([Label(end)], lo, hi, t);
    hide AimsIn;
    AimsBoth(z, [Label(end)], lo, hi, t);
    AimsThree(b, [Jmp(end), Label(ne)], z + [Label(end)], lo, hi, t);
    AimsThree(a, [Test, Je(ne)], b + [Jmp(end), Label(ne)] + (z + [Label(end)]), lo, hi, t);
  }

  lemma {:induction false} OptionAims(e: Option<Expr>, n: nat, d: int)
    ensures AimsIn(OptionCode(e, n, d), n, n + OptionLabels(e), Nowhere)
  {
    hide ExprCode, ExprLabels;
    if e.Some? { ExprAims(e.value, n, d); }
  }

  /** A statement jumps to its own labels and where a break or continue in it goes. */
  lemma {:induction false} StmtAims(s: Stmt, n: nat, d: int, t: Targets)
    requires WellNested(s, t.brk.Some?, t.cont.Some?, true)
    ensures AimsIn(StmtCode(s, n, d, t), n, n + StmtLabels(s), t)
    decreases s, 1
  {
    hide *;
    match s {
      case Sequence(_, _) => SequenceAims(s, n, d, t);
      case If(_, _) => IfAims(s, n, d, t);
      case IfElse(_, _, _) => IfElseAims(s, n, d, t);
      case While(_, _) => WhileAims(s, n, d, t);
      case DoWhile(_, _) => DoAims(s, n, d, t);
      case For(_, _, _, _) => ForAims(s, n, d, t);
      case Switch(_, _) => SwitchAims(s, n, d, t);
      case _ => PlainAims(s, n, d, t);
    }
  }

  lemma {:induction false} PlainAims(s: Stmt, n: nat, d: int, t: Targets)
    requires WellNested(s, t.brk.Some?, t.cont.Some?, true)
    requires s.Skip? || s.Expression? || s.Initialize? || s.Case? || s.Default? || s.Break? || s.Continue? || s.Return?
    ensures AimsIn(StmtCode(s, n, d, t), n, n + StmtLabels(s), t)
  {
    hide ExprCode, ExprLabels, OptionCode, OptionLabels;
    match s {
      case Expression(e) =>
        ExprAims(e, n, d);
        AimsGrown(ExprCode(e, n, d), n, n + ExprLabels(e), n, n + ExprLabels(e), t);
      case Initialize(_, e) =>
        if !e.Literal? {
          ExprAims(e, n, d);
          AimsGrown(ExprCode(e, n, d), n, n + ExprLabels(e), n, n + ExprLabels(e), t);
        }
      case Return(r) =>
        OptionAims(r, n, d);
        AimsGrown(OptionCode(r, n, d), n, n + OptionLabels(r), n, n + OptionLabels(r), t);
      case _ =>
    }
  }

  lemma {:induction false} SequenceAimsLevel(s: Stmt, n: nat, d: int, t: Targets)
    requires s.Sequence? && WellNested(s, t.brk.Some?, t.cont.Some?, true)
    ensures StmtCode(s, n, d, t) ==
      StmtCode(s.first, n, d, t) + StmtCode(s.rest, n + StmtLabels(s.first), d, t.(sw := NextSwitch(s.first, n, t.sw)))
    ensures StmtLabels(s) == StmtLabels(s.first) + StmtLabels(s.rest)
    ensures WellNested(s.first, t.brk.Some?, t.cont.Some?, true) && WellNested(s.rest, t.brk.Some?, t.cont.Some?, true)
  {
  }

  lemma {:induction false} SequenceAims(s: Stmt, n: nat, d: int, t: Targets)
    requires s.Sequence? && WellNested(s, t.brk.Some?, t.cont.Some?, true)
    ensures AimsIn(StmtCode(s, n, d, t), n, n + StmtLabels(s), t)
    decreases s, 0
  {
    hide *;
    SequenceAimsLevel(s, n, d, t);
    var m, k := n + StmtLabels(s.first), n + StmtLabels(s);
    var t' := t.(sw := NextSwitch(s.first, n, t.sw));
    StmtAims(s.first, n, d, t);
    StmtAims(s.rest, m, d, t');
    OwnAllowed(t, n, k);
    AimsWider(StmtCode(s.first, n, d, t), n, m, t, n, k, t);
    AimsWider(StmtCode(s.rest, m, d, t'), m, k, t', n, k, t);
    AimsBoth(StmtCode(s.first, n, d, t), StmtCode(s.rest, m, d, t'), n, k, t);
  }

  lemma {:induction false} IfAimsLevel(s: Stmt, n: nat, d: int, t: Targets)
    requires s.If? && WellNested(s, t.brk.Some?, t.cont.Some?, true)
    ensures var ne := n + ExprLabels(s.cond);
      StmtCode(s, n, d, t) == ExprCode(s.cond, n, d) + [Test, Je(ne)] + (StmtCode(s.yes, ne + 1, d, t) + [Label(ne)]) &&
      StmtLabels(s) == ExprLabels(s.cond) + 1 + StmtLabels(s.yes)
    ensures WellNested(s.yes, t.brk.Some?, t.cont.Some?, true)
  {
    IfCounts(s, t);
    hide WellNested, StmtLabels, ExprLabels, ExprCode;
  }

  lemma {:induction false} IfCounts(s: Stmt, t: Targets)
    requires s.If? && WellNested(s, t.brk.Some?, t.cont.Some?, true)
    ensures StmtLabels(s) == ExprLabels(s.cond) + 1 + StmtLabels(s.yes)
    ensures WellNested(s.yes, t.brk.Some?, t.cont.Some?, true)
  {
  }

  lemma {:induction false} IfAims(s: Stmt, n: nat, d: int, t: Targets)
    requires s.If? && WellNested(s, t.brk.Some?, t.cont.Some?, true)
    ensures AimsIn(StmtCode(s, n, d, t), n, n + StmtLabels(s), t)
    decreases s, 0
  {
    hide *;
    IfAimsLevel(s, n, d, t);
    var ne, k := n + ExprLabels(s.cond), n + StmtLabels(s);
    var a, b := ExprCode(s.cond, n, d), StmtCode(s.yes, ne + 1, d, t);
    ExprAims(s.cond, n, d);
    StmtAims(s.yes, ne + 1, d, t);
    OwnAllowed(t, n, k);
    OneAim(ne, n, k, t);
    AimsGrown(a, n, ne, n, k, t);
    AimsWider(b, ne + 1, k, t, n, k, t);
    AimsBoth(b, [Label(ne)], n, k, t);
    AimsThree(a, [Test, Je(ne)], b + [Label(ne)], n, k, t);
  }

  lemma {:induction false} IfElseAimsLevel(s: Stmt, n: nat, d: int, t: Targets)
    requires s.IfElse? && WellNested(s, t.brk.Some?, t.cont.Some?, true)
    ensures var ne := n + ExprLabels(s.cond); var end := ne + 1 + StmtLabels(s.yes);
      StmtCode(s, n, d, t) == ExprCode(s.cond, n, d) + [Test, Je(ne)] + (StmtCode(s.yes, ne + 1, d, t) + [Jmp(end), Label(ne)] +
        (StmtCode(s.no, end + 1, d, t.(sw := NextSwitch(s.yes, ne + 1, t.sw))) + [Label(end)])) &&
      n + StmtLabels(s) == end + 1 + StmtLabels(s.no)
    ensures WellNested(s.yes, t.brk.Some?, t.cont.Some?, true) && WellNested(s.no, t.brk.Some?, t.cont.Some?, true)
  {
    IfElseCounts(s, t);
    hide WellNested, StmtLabels, ExprLabels, ExprCode, NextSwitch;
  }

  lemma {:induction false} IfElseCounts(s: Stmt, t: Targets)
    requires s.IfElse? && WellNested(s, t.brk.Some?, t.cont.Some?, true)
    ensures StmtLabels(s) == ExprLabels(s.cond) + 1 + StmtLabels(s.yes) + 1 + StmtLabels(s.no)
    ensures WellNested(s.yes, t.brk.Some?, t.cont.Some?, true) && WellNested(s.no, t.brk.Some?, t.cont.Some?, true)
  {
  }

  lemma {:induction false} IfElseAims(s: Stmt, n: nat, d: int, t: Targets)
    requires s.IfElse? && WellNested(s, t.brk.Some?, t.cont.Some?, true)
    ensures AimsIn(StmtCode(s, n, d, t), n, n + StmtLabels(s), t)
    decreases s, 0
  {
    hide *;
    IfElseAimsLevel(s, n, d, t);
    var ne, k := n + ExprLabels(s.cond), n + StmtLabels(s);
    var end := ne + 1 + StmtLabels(s.yes);
    var t' := t.(sw := NextSwitch(s.yes, ne + 1, t.sw));
    var a, b, z := ExprCode(s.cond, n, d), StmtCode(s.yes, ne + 1, d, t), StmtCode(s.no, end + 1, d, t');
    ExprAims(s.cond, n, d);
    StmtAims(s.yes, ne + 1, d, t);
    StmtAims(s.no, end + 1, d, t');
    OwnAllowed(t, n, k);
    AimsGrown(a, n, ne, n, k, t);
    AimsWider(b, ne + 1, end, t, n, k, t);
    AimsWider(z, end + 1, k, t', n, k, t);
    ArmsAims(a, b, z, ne, end, n, k, t);
  }

  lemma {:induction false} WhileAimsLevel(s: Stmt, n: nat, d: int, t: Targets)
    requires s.While? && WellNested(s, t.brk.Some?, t.cont.Some?, true)
    ensures var m := n + 2 + ExprLabels(s.cond);
      StmtCode(s, n, d, t) == [Label(n)] + ExprCode(s.cond, n + 2, d) + [Test, Je(n + 1)] +
        (StmtCode(s.body, m, d, t.(brk := Some(n + 1), cont := Some(n))) + [Jmp(n), Label(n + 1)]) &&
      n + StmtLabels(s) == m + StmtLabels(s.body)
    ensures WellNested(s.body, true, true, true)
  {
  }

  lemma {:induction false} WhileAims(s: Stmt, n: nat, d: int, t: Targets)
    requires s.While? && WellNested(s, t.brk.Some?, t.cont.Some?, true)
    ensures AimsIn(StmtCode(s, n, d, t), n, n + StmtLabels(s), t)
    decreases s, 0
  {
    hide *;
    WhileAimsLevel(s, n, d, t);
    var m, k := n + 2 + ExprLabels(s.cond), n + StmtLabels(s);
    var t' := t.(brk := Some(n + 1), cont := Some(n));
    var a, b := ExprCode(s.cond, n + 2, d), StmtCode(s.body, m, d, t');
    ExprAims(s.cond, n + 2, d);
    StmtAims(s.body, m, d, t');
    LoopAllowed(n, k, t);
    LoopAims(n, n, n + 1, n, k, t);
    AimsGrown(a, n + 2, m, n, k, t);
    AimsWider(b, m, k, t', n, k, t);
    AimsBoth(b, [Jmp(n), Label(n + 1)], n, k, t);
    AimsBoth([Label(n)], a, n, k, t);
    AimsThree([Label(n)] + a, [Test, Je(n + 1)], b + [Jmp(n), Label(n + 1)], n, k, t);
  }

  lemma {:induction false} DoAimsLevel(s: Stmt, n: nat, d: int, t: Targets)
    requires s.DoWhile? && WellNested(s, t.brk.Some?, t.cont.Some?, true)
    ensures var m := n + 2 + StmtLabels(s.body);
      StmtCode(s, n, d, t) == [Label(n)] + StmtCode(s.body, n + 2, d, t.(brk := Some(n + 1), cont := Some(n))) +
        (ExprCode(s.cond, m, d) + [Test, Je(n + 1)] + [Jmp(n), Label(n + 1)]) &&
      n + StmtLabels(s) == m + ExprLabels(s.cond)
    ensures WellNested(s.body, true, true, true)
  {
  }

  lemma {:induction false} DoAims(s: Stmt, n: nat, d: int, t: Targets)
    requires s.DoWhile? && WellNested(s, t.brk.Some?, t.cont.Some?, true)
    ensures AimsIn(StmtCode(s, n, d, t), n, n + StmtLabels(s), t)
    decreases s, 0
  {
    hide *;
    DoAimsLevel(s, n, d, t);
    var m, k := n + 2 + StmtLabels(s.body), n + StmtLabels(s);
    var t' := t.(brk := Some(n + 1), cont := Some(n));
    var b, a := StmtCode(s.body, n + 2, d, t'), ExprCode(s.cond, m, d);
    ExprAims(s.cond, m, d);
    StmtAims(s.body, n + 2, d, t');
    LoopAllowed(n, k, t);
    LoopAims(n, n, n + 1, n, k, t);
    AimsGrown(a, m, k, n, k, t);
    AimsWider(b, n + 2, m, t', n, k, t);
    AimsThree(a, [Test, Je(n + 1)], [Jmp(n), Label(n + 1)], n, k, t);
    AimsThree([Label(n)], b, a + [Test, Je(n + 1)] + [Jmp(n), Label(n + 1)], n, k, t);
  }

  lemma {:induction false} ForAimsLevel(s: Stmt, n: nat, d: int, t: Targets)
    requires s.For? && WellNested(s, t.brk.Some?, t.cont.Some?, true)
    ensures var b := n + StmtLabels(s.init);
      StmtCode(s, n, d, t) == StmtCode(s.init, n, d, t) + ForCode(s, b, d, t.(sw := NextSwitch(s.init, n, t.sw))) &&
      n + StmtLabels(s) == b + 3 + OptionLabels(s.test) + StmtLabels(s.body) + OptionLabels(s.step)
    ensures WellNested(s.init, t.brk.Some?, t.cont.Some?, true) && WellNested(s.body, true, true, true)
  {
  }

  lemma {:induction false} ForAims(s: Stmt, n: nat, d: int, t: Targets)
    requires s.For? && WellNested(s, t.brk.Some?, t.cont.Some?, true)
    ensures AimsIn(StmtCode(s, n, d, t), n, n + StmtLabels(s), t)
    decreases s, 0
  {
    hide *;
    ForAimsLevel(s, n, d, t);
    var b, k := n + StmtLabels(s.init), n + StmtLabels(s);
    var t' := t.(sw := NextSwitch(s.init, n, t.sw));
    StmtAims(s.init, n, d, t);
    ForLoopAims(s, b, d, t', k);
    OwnAllowed(t, n, k);
    AimsWider(StmtCode(s.init, n, d, t), n, b, t, n, k, t);
    AimsWider(ForCode(s, b, d, t'), b, k, t', n, k, t);
    AimsBoth(StmtCode(s.init, n, d, t), ForCode(s, b, d, t'), n, k, t);
  }

  lemma {:induction false} ForLoopAimsLevel(s: Stmt, b: nat, d: int, t: Targets)
    requires s.For?
    ensures var l := b + 3 + OptionLabels(s.test); var m := l + StmtLabels(s.body);
      ForCode(s, b, d, t) == [Label(b)] + TestCode(s.test, b + 3, d, b + 2) +
        (StmtCode(s.body, l, d, t.(brk := Some(b + 2), cont := Some(b + 1))) + ([Label(b + 1)] + OptionCode(s.step, m, d) + [Jmp(b), Label(b + 2)]))
  {
  }

  lemma {:induction false} ForLoopAims(s: Stmt, b: nat, d: int, t: Targets, k: nat)
    requires s.For? && WellNested(s.body, true, true, true) && k == b + 3 + OptionLabels(s.test) + StmtLabels(s.body) + OptionLabels(s.step)
    ensures AimsIn(ForCode(s, b, d, t), b, k, t)
    decreases s.body, 2
  {
    hide *;
    ForLoopAimsLevel(s, b, d, t);
    var l := b + 3 + OptionLabels(s.test);
    var m := l + StmtLabels(s.body);
    var t' := t.(brk := Some(b + 2), cont := Some(b + 1));
    var a, body, z := TestCode(s.test, b + 3, d, b + 2), StmtCode(s.body, l, d, t'), OptionCode(s.step, m, d);
    TestAims(s.test, b + 3, d, b + 2, b, k, t);
    StmtAims(s.body, l, d, t');
    OptionAims(s.step, m, d);
    LoopAims(b + 1, b, b + 2, b, k, t);
    LoopAims(b, b, b + 2, b, k, t);
    ForAllowed(b, k, t);
    AimsWider(body, l, m, t', b, k, t);
    AimsGrown(z, m, k, b, k, t);
    AimsThree([Label(b + 1)], z, [Jmp(b), Label(b + 2)], b, k, t);
    AimsBoth(body, [Label(b + 1)] + z + [Jmp(b), Label(b + 2)], b, k, t);
    AimsThree([Label(b)], a, body + ([Label(b + 1)] + z + [Jmp(b), Label(b + 2)]), b, k, t);
  }

  lemma {:induction false} TestAims(test: Option<Expr>, n: nat, d: int, end: nat, lo: nat, hi: nat, t: Targets)
    requires lo <= end < hi && lo <= n && n + OptionLabels(test) <= hi
    ensures AimsIn(TestCode(test, n, d, end), lo, hi, t)
  {
    if test.Some? {
      ExprAims(test.value, n, d);
      assert AimsIn([Test, Je(end)], lo, hi, t);
      assert TestCode(test, n, d, end) == ExprCode(test.value, n, d) + [Test, Je(end)];
      hide AimsIn, ExprCode;
      AimsGrown(ExprCode(test.value, n, d), n, n + ExprLabels(test.value), lo, hi, t);
      AimsBoth(ExprCode(test.value, n, d), [Test, Je(end)], lo, hi, t);
    }
  }

  lemma {:induction false} SwitchAimsLevel(s: Stmt, n: nat, d: int, t: Targets)
    requires s.Switch? && WellNested(s, t.brk.Some?, t.cont.Some?, true)
    ensures var sw := n + ExprLabels(s.e);
      StmtCode(s, n, d, t) == ExprCode(s.e, n, d) + [Jmp(sw)] + (StmtCode(s.body, sw + 2, d, t.(brk := Some(sw + 1), sw := Some(sw))) +
        [Label(Goal(NextSwitch(s.body, sw + 2, Some(sw)))), Label(sw + 1)]) &&
      n + StmtLabels(s) == sw + 2 + StmtLabels(s.body)
    ensures WellNested(s.body, true, t.cont.Some?, true)
  {
    SwitchCounts(s, t);
    hide WellNested, StmtLabels, ExprLabels, ExprCode, NextSwitch;
  }

  lemma {:induction false} SwitchCounts(s: Stmt, t: Targets)
    requires s.Switch? && WellNested(s, t.brk.Some?, t.cont.Some?, true)
    ensures StmtLabels(s) == ExprLabels(s.e) + 2 + StmtLabels(s.body)
    ensures WellNested(s.body, true, t.cont.Some?, true)
  {
  }

  lemma {:induction false} SwitchAims(s: Stmt, n: nat, d: int, t: Targets)
    requires s.Switch? && WellNested(s, t.brk.Some?, t.cont.Some?, true)
    ensures AimsIn(StmtCode(s, n, d, t), n, n + StmtLabels(s), t)
    decreases s, 0
  {
    hide *;
    SwitchAimsLevel(s, n, d, t);
    var sw, k := n + ExprLabels(s.e), n + StmtLabels(s);
    var t' := t.(brk := Some(sw + 1), sw := Some(sw));
    var a, b := ExprCode(s.e, n, d), StmtCode(s.body, sw + 2, d, t');
    var next := Goal(NextSwitch(s.body, sw + 2, Some(sw)));
    ExprAims(s.e, n, d);
    StmtAims(s.body, sw + 2, d, t');
    SwitchAllowed(n, sw, k, t);
    OneAim(sw, n, k, t);
    TwoLabels(next, sw + 1, n, k, t);
    AimsGrown(a, n, sw, n, k, t);
    AimsWider(b, sw + 2, k, t', n, k, t);
    AimsBoth(b, [Label(next), Label(sw + 1)], n, k, t);
    AimsThree(a, [Jmp(sw)], b + [Label(next), Label(sw + 1)], n, k, t);
  }

  /** In a body's code every jump goes to a label that the code defines exactly once. */
  lemma {:induction false} BodyTargets(s: Stmt, n: nat, d: int, i: nat)
    requires CompilableStmt(s) && WellNested(s, false, false, false)
    requires i < |StmtCode(s, n, d, Nowhere)| && AimOf(StmtCode(s, n, d, Nowhere)[i]).Some?
    ensures var l := AimOf(StmtCode(s, n, d, Nowhere)[i]).value;
      n <= l < n + StmtLabels(s) && Defs(StmtCode(s, n, d, Nowhere), l) == 1
  {
    hide StmtCode, StmtLabels, Defs, WellNested, CompilableStmt;
    NestedOutside(s);
    StmtAims(s, n, d, Nowhere);
    var l := AimOf(StmtCode(s, n, d, Nowhere)[i]).value;
    assert Allowed(l, n, n + StmtLabels(s), Nowhere);
    BodyLabels(s, n, d, l);
  }

  lemma {:induction false} NestedOutside(s: Stmt)
    requires WellNested(s, false, false, false)
    ensures WellNested(s, false, false, true)
  {
    NestedAnywhere(s, false, false, false);
  }

  lemma {:induction false} NestedAnywhere(s: Stmt, b: bool, c: bool, w: bool)
    requires WellNested(s, b, c, w)
    ensures WellNested(s, b, c, true)
    decreases s
  {
    match s {
      case Sequence(x, y) => NestedAnywhere(x, b, c, w); NestedAnywhere(y, b, c, w);
      case If(_, x) => NestedAnywhere(x, b, c, w);
      case IfElse(_, x, y) => NestedAnywhere(x, b, c, w); NestedAnywhere(y, b, c, w);
      case While(_, x) => NestedAnywhere(x, true, true, w);
      case DoWhile(x, _) => NestedAnywhere(x, true, true, w);
      case For(x, _, _, y) => NestedAnywhere(x, b, c, w); NestedAnywhere(y, true, true, w);
      case _ =>
    }
  }
}
