/** The instructions each tree is lowered to, with every jump target resolved by the
    tree's own nesting. `n` is the number of the next fresh label and `d` the value
    of `gen_stack`, which decides the padding around a call. */
module Code {
  import opened Runs
  import opened Machine
  import opened Syntax

  /** The labels break, continue and the next case comparison refer to. */
  datatype Targets = Targets(brk: Option<nat>, cont: Option<nat>, sw: Option<nat>)

  function Goal(l: Option<nat>): nat {
    if l.Some? then l.value else 0
  }

  // ------------------------------------------------------------- labels

  function ExprLabels(e: Expr): nat {
    match e
    case Literal(_) => 0
    case Read(lv) => PlaceLabels(lv)
    case AddressOf(lv) => PlaceLabels(lv)
    case Binary(_, l, r) => ExprLabels(l) + ExprLabels(r)
    case LogicalAnd(l, r) => 1 + ExprLabels(l) + ExprLabels(r)
    case LogicalOr(l, r) => 1 + ExprLabels(l) + ExprLabels(r)
    case LogicalNot(a) => ExprLabels(a)
    case OnesComplement(a) => ExprLabels(a)
    case Assign(lv, a) => ExprLabels(a) + PlaceLabels(lv)
    case IncDec(lv, _, _, _) => PlaceLabels(lv) + PlaceLabels(lv)
    case Conditional(c, y, n) => ExprLabels(c) + ExprLabels(y) + ExprLabels(n) + 2
    case Call(_, args) => ArgsLabels(args)
  }

  function PlaceLabels(lv: LValue): nat {
    match lv
    case Local(_) => 0
    case Deref(e) => ExprLabels(e)
    case Member(s, _) => PlaceLabels(s)
  }

  function ArgsLabels(args: Args): nat {
    match args
    case NoArgs => 0
    case Arg(e, tail) => ExprLabels(e) + ArgsLabels(tail)
  }

  function OptionLabels(e: Option<Expr>): nat {
    if e.None? then 0 else ExprLabels(e.value)
  }

  function StmtLabels(s: Stmt): nat {
    match s
    case Skip => 0
    case Sequence(a, b) => StmtLabels(a) + StmtLabels(b)
    case Expression(e) => ExprLabels(e)
    case Initialize(_, e) => if e.Literal? then 0 else ExprLabels(e)
    case If(c, a) => ExprLabels(c) + 1 + StmtLabels(a)
    case IfElse(c, a, b) => ExprLabels(c) + 1 + StmtLabels(a) + 1 + StmtLabels(b)
    case While(c, body) => 2 + ExprLabels(c) + StmtLabels(body)
    case DoWhile(body, c) => 2 + StmtLabels(body) + ExprLabels(c)
    case For(init, test, step, body) =>
      StmtLabels(init) + 3 + OptionLabels(test) + StmtLabels(body) + OptionLabels(step)
    case Switch(e, body) => ExprLabels(e) + 2 + StmtLabels(body)
    case Case(_) => 2
    case Default => 1
    case Break => 0
    case Continue => 0
    case Return(r) => OptionLabels(r)
  }

  // -------------------------------------------------------- expressions

  function ReadCode(lv: LValue, shift: int, n: nat, d: int): seq<Instr>
    decreases lv
  {
    match lv
    case Local(off) => [Load(off + shift, RBP, RCX), MovReg(RCX, RAX)]
    case Deref(e) => ExprCode(e, n, d) + [Load(shift, RAX, RCX), MovReg(RCX, RAX)]
    case Member(s, off) => ReadCode(s, off + shift, n, d)
  }

  /** Stores rax and leaves it in rax. */
  function WriteCode(lv: LValue, shift: int, n: nat, d: int): seq<Instr>
    decreases lv
  {
    match lv
    case Local(off) => [Store(RAX, off + shift, RBP)]
    case Deref(e) =>
      [Push(RAX)] + ExprCode(e, n, d + 8) + [Load(0, RSP, RCX), Store(RCX, shift, RAX), Pop(RAX)]
    case Member(s, off) => WriteCode(s, off + shift, n, d)
  }

  function CompareCode(c: Condition): seq<Instr> {
    [Pop(RCX), CmpReg(RAX, RCX), SetAl(c), MovzbAlEax]
  }

  function ArithCode(ops: seq<Instr>): seq<Instr> {
    [MovReg(RAX, RCX), Pop(RAX)] + ops
  }

  /** Combines the left operand, on the stack, with the right one, in rax. */
  function FinishCode(op: BinaryOp): seq<Instr> {
    match op
    case Plus => ArithCode([AluReg(Add, RCX, RAX)])
    case Minus => ArithCode([AluReg(Sub, RCX, RAX)])
    case Times => ArithCode([AluReg(Imul, RCX, RAX)])
    case ExclusiveOr => ArithCode([AluReg(BitXor, RCX, RAX)])
    case ShiftL => ArithCode([Sal])
    case ShiftR => ArithCode([Sar])
    case Divide => ArithCode([Cqto, Idiv(RCX)])
    case Remainder => ArithCode([Cqto, Idiv(RCX), MovEdxEax])
    case Less => CompareCode(IsLess)
    case Greater => CompareCode(IsGreater)
    case Equal => CompareCode(IsEqual)
    case NotEqual => CompareCode(IsNotEqual)
    case LessEqual => CompareCode(IsLessEqual)
    case GreaterEqual => CompareCode(IsGreaterEqual)
    case BothBits => [Pop(RCX), AluReg(BitAnd, RCX, RAX)]
    case EitherBits => [Pop(RCX), AluReg(BitOr, RCX, RAX)]
    case Pointer(_, size) =>
      (if size > 1 then [AluImm(Imul, size, RAX)] else []) + ArithCode([AluReg(Add, RCX, RAX)])
  }

  function SaveArgRegs(k: nat): seq<Instr>
    requires k <= 6
  {
    if k == 0 then [] else SaveArgRegs(k - 1) + [Push(ArgReg(k - 1))]
  }

  function RestoreArgRegs(k: nat): seq<Instr>
    requires k <= 6
  {
    if k == 0 then [] else [Pop(ArgReg(k - 1))] + RestoreArgRegs(k - 1)
  }

  function PadCode(d: int, op: Alu): seq<Instr> {
    if d % 16 != 0 then [AluImm(op, 8, RSP)] else []
  }

  function ArgsCode(args: Args, n: nat, d: int): seq<Instr>
    decreases args
  {
    match args
    case NoArgs => []
    case Arg(e, tail) => ExprCode(e, n, d) + [Push(RAX)] + ArgsCode(tail, n + ExprLabels(e), d + 8)
  }

  /** The arguments are marshalled by popping them into their registers; eax then
      holds the number of floating-point arguments. */
  function TransferCode(name: string, k: nat, d: int): seq<Instr>
    requires k <= 6
  {
    RestoreArgRegs(k) + [MovImm(0, RAX)] + PadCode(d, Sub) + [CallName(name)] + PadCode(d, Add) + RestoreArgRegs(k)
  }

  function ExprCode(e: Expr, n: nat, d: int): seq<Instr>
    decreases e
  {
    match e
    case Literal(v) => [MovImm(v, RAX)]
    case Read(lv) => ReadCode(lv, 0, n, d)
    case AddressOf(lv) =>
      (match lv
       case Local(off) => [Lea(off, RBP, RAX)]
       case Deref(_) => ReadCode(lv, 0, n, d)
       case Member(_, _) => [])
    case Binary(op, l, r) =>
      ExprCode(l, n, d) + [Push(RAX)] + (ExprCode(r, n + ExprLabels(l), d + 8) + FinishCode(op))
    case LogicalAnd(l, r) =>
      ExprCode(l, n + 1, d) + [Test, MovImm(0, RAX), Je(n)] +
      (ExprCode(r, n + 1 + ExprLabels(l), d) + [Test, MovImm(0, RAX), Je(n), MovImm(1, RAX), Label(n)])
    case LogicalOr(l, r) =>
      ExprCode(l, n + 1, d) + [Test, MovImm(1, RAX), Jne(n)] +
      (ExprCode(r, n + 1 + ExprLabels(l), d) + [Test, MovImm(1, RAX), Jne(n), MovImm(0, RAX), Label(n)])
    case LogicalNot(a) => ExprCode(a, n, d) + [CmpImm(0), SetAl(IsEqual), MovzbAlEax]
    case OnesComplement(a) => ExprCode(a, n, d) + [Not]
    case Assign(lv, a) => ExprCode(a, n, d) + WriteCode(lv, 0, n + ExprLabels(a), d)
    case IncDec(lv, prefix, minus, _) =>
      var op := if minus then Sub else Add;
      if prefix then
        ReadCode(lv, 0, n, d) + [AluImm(op, 1, RAX)] + WriteCode(lv, 0, n + PlaceLabels(lv), d)
      else
        ReadCode(lv, 0, n, d) + [Push(RAX), AluImm(op, 1, RAX)] +
        (WriteCode(lv, 0, n + PlaceLabels(lv), d + 8) + [Pop(RAX)])
    case Conditional(c, y, no) =>
      var ne := n + ExprLabels(c);
      var end := ne + 1 + ExprLabels(y);
      ExprCode(c, n, d) + [Test, Je(ne)] +
      (ExprCode(y, ne + 1, d) + [Jmp(end), Label(ne)] + (ExprCode(no, end + 1, d) + [Label(end)]))
    case Call(name, args) =>
      var k := Count(args);
      if k > 6 then [] else
      SaveArgRegs(k) + ArgsCode(args, n, d + 8 * k) + TransferCode(name, k, d + 8 * k)
  }

  // --------------------------------------------------------- statements

  function OptionCode(e: Option<Expr>, n: nat, d: int): seq<Instr> {
    if e.None? then [] else ExprCode(e.value, n, d)
  }

  /** The label the next case comparison of the enclosing switch will carry. */
  function NextSwitch(s: Stmt, n: nat, sw: Option<nat>): (next: Option<nat>)
    ensures sw.Some? ==> next.Some?
  {
    match s
    case Sequence(a, b) => NextSwitch(b, n + StmtLabels(a), NextSwitch(a, n, sw))
    case If(c, a) => NextSwitch(a, n + ExprLabels(c) + 1, sw)
    case IfElse(c, a, b) =>
      var end := n + ExprLabels(c) + 1 + StmtLabels(a);
      NextSwitch(b, end + 1, NextSwitch(a, n + ExprLabels(c) + 1, sw))
    case While(c, body) => NextSwitch(body, n + 2 + ExprLabels(c), sw)
    case DoWhile(body, c) => NextSwitch(body, n + 2, sw)
    case For(init, test, step, body) =>
      NextSwitch(body, n + StmtLabels(init) + 3 + OptionLabels(test), NextSwitch(init, n, sw))
    case Case(_) => Some(n + 1)
    case Default => Some(n)
    case _ => sw
  }

  /** A literal initializer goes through rax and puts rax back. */
  function InitializeCode(off: int, e: Expr, n: nat, d: int): seq<Instr> {
    if e.Literal? then [Push(RAX), MovImm(e.value, RAX), Store(RAX, off, RBP), Pop(RAX)]
    else ExprCode(e, n, d) + [Store(RAX, off, RBP)]
  }

  function StmtCode(s: Stmt, n: nat, d: int, t: Targets): seq<Instr>
    decreases s
  {
    match s
    case Skip => []
    case Sequence(a, b) =>
      StmtCode(a, n, d, t) + StmtCode(b, n + StmtLabels(a), d, t.(sw := NextSwitch(a, n, t.sw)))
    case Expression(e) => ExprCode(e, n, d)
    case Initialize(off, e) => InitializeCode(off, e, n, d)
    case If(c, a) =>
      var ne := n + ExprLabels(c);
      ExprCode(c, n, d) + [Test, Je(ne)] + (StmtCode(a, ne + 1, d, t) + [Label(ne)])
    case IfElse(c, a, b) =>
      var ne := n + ExprLabels(c);
      var end := ne + 1 + StmtLabels(a);
      ExprCode(c, n, d) + [Test, Je(ne)] +
      (StmtCode(a, ne + 1, d, t) + [Jmp(end), Label(ne)] +
       (StmtCode(b, end + 1, d, t.(sw := NextSwitch(a, ne + 1, t.sw))) + [Label(end)]))
    case While(c, body) =>
      [Label(n)] + ExprCode(c, n + 2, d) + [Test, Je(n + 1)] +
      (StmtCode(body, n + 2 + ExprLabels(c), d, t.(brk := Some(n + 1), cont := Some(n))) + [Jmp(n), Label(n + 1)])
    case DoWhile(body, c) =>
      [Label(n)] + StmtCode(body, n + 2, d, t.(brk := Some(n + 1), cont := Some(n))) +
      (ExprCode(c, n + 2 + StmtLabels(body), d) + [Test, Je(n + 1)] + [Jmp(n), Label(n + 1)])
    case For(init, test, step, body) =>
      var b := n + StmtLabels(init);
      StmtCode(init, n, d, t) + ForCode(s, b, d, t.(sw := NextSwitch(init, n, t.sw)))
    case Switch(e, body) =>
      var sw := n + ExprLabels(e);
      ExprCode(e, n, d) + [Jmp(sw)] +
      (StmtCode(body, sw + 2, d, t.(brk := Some(sw + 1), sw := Some(sw))) +
       [Label(Goal(NextSwitch(body, sw + 2, Some(sw)))), Label(sw + 1)])
    case Case(v) => [Jmp(n), Label(Goal(t.sw)), CmpImm32(v), Jne(n + 1), Label(n)]
    case Default => [Label(Goal(t.sw))]
    case Break => [Jmp(Goal(t.brk))]
    case Continue => [Jmp(Goal(t.cont))]
    case Return(r) => OptionCode(r, n, d) + [Leave, Ret]
  }

  function TestCode(test: Option<Expr>, n: nat, d: int, end: nat): seq<Instr> {
    if test.None? then [] else ExprCode(test.value, n, d) + [Test, Je(end)]
  }

  /** A for statement from its `begin` label on; b is that label. */
  function ForCode(s: Stmt, b: nat, d: int, t: Targets): seq<Instr>
    requires s.For?
    decreases s, 0
  {
    var l := b + 3 + OptionLabels(s.test);
    [Label(b)] + TestCode(s.test, b + 3, d, b + 2) +
    (StmtCode(s.body, l, d, t.(brk := Some(b + 2), cont := Some(b + 1))) +
     ([Label(b + 1)] + OptionCode(s.step, l + StmtLabels(s.body), d) + [Jmp(b), Label(b + 2)]))
  }
}
