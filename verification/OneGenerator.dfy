/** The two views of the generator agree: what the one emits for an integer tree is what is
    seen of the other, errors, labels and slots included. So the code that is simulated has
    the stack discipline that is proved of the whole tree. */
module OneGenerator {
  import opened Runs
  import opened StackCode
  import N = Syntax
  import K = Code
  import M = Machine
  import S = SaveSlots
  import E = Emission
  import D = StackDiscipline
  import R = StackRuns

  // An integer tree is a tree of the whole generator, all of whose kinds are whole
  // numbers or pointers; and an instruction of the machine is one of the whole generator,
  // which drops what does not matter to the stack.

  function WidenOp(op: N.BinaryOp): Op {
    match op
    case Plus => Plus
    case Minus => Minus
    case Times => Times
    case Divide => Slash
    case Remainder => Percent
    case ExclusiveOr => Caret
    case ShiftL => LeftShift
    case ShiftR => RightShift
    case Less => Less
    case Greater => Greater
    case Equal => Equal
    case NotEqual => NotEqual
    case LessEqual => LessEqual
    case GreaterEqual => GreaterEqual
    case Pointer(minus, _) => if minus then Minus else Plus
    case _ => Plus
  }

  function Widen(e: N.Expr): Expr {
    match e
    case Literal(value) => Literal(Long, value)
    case Read(lv) => WidenPlace(lv)
    case AddressOf(lv) => AddressOf(Pointer(8), WidenPlace(lv))
    case Binary(op, l, r) =>
      if op.BothBits? || op.EitherBits? then Bits(Long, op.EitherBits?, Widen(l), Widen(r))
      else Binary(if op.Pointer? then Pointer(op.size) else Long, WidenOp(op), Widen(l), Widen(r))
    case LogicalAnd(l, r) => And(Int, Widen(l), Widen(r))
    case LogicalOr(l, r) => Or(Int, Widen(l), Widen(r))
    case LogicalNot(a) => Not(Int, Widen(a))
    case OnesComplement(a) => Complement(Long, Widen(a))
    case Assign(lv, a) => Assign(Long, WidenPlace(lv), Widen(a))
    case IncDec(lv, prefix, minus, _) => Step(Long, prefix, minus, WidenPlace(lv))
    case Conditional(c, y, no) => Conditional(Long, Widen(c), Widen(y), Widen(no))
    case Call(name, args) => Call(Long, name, WidenArgs(args))
  }

  function WidenPlace(lv: N.LValue): Expr {
    match lv
    case Local(offset) => Local(Long, offset, NoInits)
    case Deref(e) => Deref(Long, Widen(e))
    case Member(s, offset) => Member(Long, WidenPlace(s), offset)
  }

  function WidenArgs(args: N.Args): Args {
    match args
    case NoArgs => NoArgs
    case Arg(e, tail) => Arg(Widen(e), Long, WidenArgs(tail))
  }

  function WidenOption(e: Option<N.Expr>): Option<Expr> {
    if e.None? then None else Some(Widen(e.value))
  }

  function WidenStmt(s: N.Stmt): Stmt {
    match s
    case Skip => Skip
    case Sequence(a, b) => Sequence(WidenStmt(a), WidenStmt(b))
    case Expression(e) => Expression(Widen(e))
    case Initialize(offset, e) => Declare(offset, Init(Widen(e), Long, 0, NoInits))
    case If(c, a) => If(Widen(c), WidenStmt(a))
    case IfElse(c, a, b) => IfElse(Widen(c), WidenStmt(a), WidenStmt(b))
    case While(c, body) => While(Widen(c), WidenStmt(body))
    case DoWhile(body, c) => DoWhile(WidenStmt(body), Widen(c))
    case For(init, test, step, body) => For(WidenStmt(init), WidenOption(test), WidenOption(step), WidenStmt(body))
    case Switch(e, body) => Switch(Widen(e), WidenStmt(body))
    case Case(value) => Case(value)
    case Default => Default
    case Break => Break
    case Continue => Continue
    case Return(r) => Return(Long, WidenOption(r))
  }

  function SetText(c: M.Condition): string {
    match c
    case IsLess => SetByte(Less)
    case IsGreater => SetByte(Greater)
    case IsEqual => SetByte(Equal)
    case IsNotEqual => SetByte(NotEqual)
    case IsLessEqual => SetByte(LessEqual)
    case IsGreaterEqual => SetByte(GreaterEqual)
  }

  function AluText(op: M.Alu): string {
    match op
    case Add => IntegerText(Plus)
    case Sub => IntegerText(Minus)
    case Imul => IntegerText(Times)
    case BitXor => IntegerText(Caret)
    case BitAnd => "and %rcx, %rax"
    case BitOr => "or %rcx, %rax"
  }

  /** An instruction of an integer body, as the whole generator shows it. */
  function Seen(i: M.Instr): Instr {
    match i
    case MovImm(value, _) => SetRax(value)
    case MovReg(src, _) => Plain(if src == M.RAX then "mov %rax, %rcx" else "mov %rcx, %rax", 0)
    case Load(offset, base, _) =>
      if base == M.RSP then Plain("mov (%rsp), %rcx", offset)
      else Plain("mov (" + (if base == M.RBP then "%rbp" else "%rax") + "), %rcx", offset)
    case Store(_, offset, base) => Plain(if base == M.RBP then "mov %rax, (%rbp)" else "mov %rcx, (%rax)", offset)
    case Lea(offset, _, _) => Plain("lea (%rbp), %rax", offset)
    case Push(r) => Push(r)
    case Pop(r) => Pop(r)
    case AluReg(op, _, _) => Plain(AluText(op), 0)
    case AluImm(op, value, dst) =>
      if dst == M.RSP then (if op.Sub? then Reserve else Release)
      else Plain(if op.Imul? then "imul $, %rax" else if op.Sub? then "sub $, %rax" else "add $, %rax", value)
    case Not => Plain("not %rax", 0)
    case Cqto => Plain("cqto", 0)
    case Idiv(_) => Plain("idiv %rcx", 0)
    case MovEdxEax => Plain("mov %edx, %eax", 0)
    case Sal => Plain("sal %cl, %rax", 0)
    case Sar => Plain("sar %cl, %rax", 0)
    case CmpReg(_, _) => Plain("cmp %rax, %rcx", 0)
    case CmpImm(value) => Plain("cmp $, %rax", value)
    case CmpImm32(value) => Plain("cmp $, %eax", value)
    case Test => Plain("test %rax, %rax", 0)
    case SetAl(c) => Plain(SetText(c), 0)
    case MovzbAlEax => Plain("movzb %al, %eax", 0)
    case Jmp(l) => Jump(l)
    case Je(l) => Branch(l)
    case Jne(l) => Branch(l)
    case Label(l) => Mark(l)
    case CallName(name) => CallTo(name)
    case Leave => Leave
    case Ret => Ret
  }

  function SeenAll(c: seq<M.Instr>): seq<Instr> {
    seq(|c|, i requires 0 <= i < |c| => Seen(c[i]))
  }

  lemma SeenAppend(a: seq<M.Instr>, b: seq<M.Instr>)
    ensures SeenAll(a + b) == SeenAll(a) + SeenAll(b)
  {
  }

  /** After emitting this code, taking labels and counting pushed bytes. */
  function Grown(v: View, c: seq<M.Instr>, labels: nat, pushed: int): View {
    v.(output := v.output + SeenAll(c), nextLabel := v.nextLabel + labels, stack := v.stack + pushed)
  }

  lemma Twice(v: View, a: seq<M.Instr>, m: nat, p: int, b: seq<M.Instr>, n: nat, q: int)
    ensures Grown(Grown(v, a, m, p), b, n, q) == Grown(v, a + b, m + n, p + q)
  {
    SeenAppend(a, b);
  }

  /** Either it is an error for both, or both emit this code. */
  ghost predicate Agrees(r: Result, ok: bool, v: View, c: seq<M.Instr>, labels: nat) {
    r == if ok then Done(Grown(v, c, labels, 0)) else Refused
  }

  lemma OneMore(v: View, i: M.Instr)
    ensures Emit(v, Seen(i)) == Grown(v, [i], 0, 0)
  {
    assert SeenAll([i]) == [Seen(i)];
  }

  lemma OnePush(v: View, r: M.Reg)
    ensures PushReg(v, r) == Grown(v, [M.Push(r)], 0, 8)
  {
    OneMore(v, M.Push(r));
  }

  lemma OnePop(v: View, r: M.Reg)
    ensures PopReg(v, r) == Grown(v, [M.Pop(r)], 0, -8)
  {
    OneMore(v, M.Pop(r));
  }

  /** One more plain instruction. */
  lemma More(v: View, a: seq<M.Instr>, m: nat, p: int, i: M.Instr)
    ensures Emit(Grown(v, a, m, p), Seen(i)) == Grown(v, a + [i], m, p)
  {
    OneMore(Grown(v, a, m, p), i);
    Twice(v, a, m, p, [i], 0, 0);
  }

  lemma MorePush(v: View, a: seq<M.Instr>, m: nat, p: int, r: M.Reg)
    ensures PushReg(Grown(v, a, m, p), r) == Grown(v, a + [M.Push(r)], m, p + 8)
  {
    OnePush(Grown(v, a, m, p), r);
    Twice(v, a, m, p, [M.Push(r)], 0, 8);
  }

  lemma MorePop(v: View, a: seq<M.Instr>, m: nat, p: int, r: M.Reg)
    ensures PopReg(Grown(v, a, m, p), r) == Grown(v, a + [M.Pop(r)], m, p - 8)
  {
    OnePop(Grown(v, a, m, p), r);
    Twice(v, a, m, p, [M.Pop(r)], 0, -8);
  }

  lemma Nothing(v: View)
    ensures Grown(v, [], 0, 0) == v
  {
    assert SeenAll([]) == [];
  }

  // ------------------------------------------------------- expressions

  /** No kind in a widened tree is floating. */
  lemma WholeKind(e: N.Expr)
    ensures !IsFloating(Widen(e).kind) && !Widen(e).kind.Float?
  {
  }

  lemma WholeConversions(v: View, to: Kind, from: Kind)
    requires !IsFloating(to) && !IsFloating(from)
    ensures Convert(v, to, from) == v && ConvertStored(v, to, from) == v && CastInt(v, from) == v
  {
  }

  lemma LoadAgrees(v: View, base: M.Reg, offset: int)
    requires base == M.RBP || base == M.RAX
    ensures LoadLocal(v, Long, if base == M.RBP then "%rbp" else "%rax", offset) == Grown(v, [M.Load(offset, base, M.RCX), M.MovReg(M.RCX, M.RAX)], 0, 0)
  {
    OneMore(v, M.Load(offset, base, M.RCX));
    More(v, [M.Load(offset, base, M.RCX)], 0, 0, M.MovReg(M.RCX, M.RAX));
  }

  /** Loads: the member `shift` bytes into the object an lvalue designates. */
  lemma {:induction false} ReadAgrees(lv: N.LValue, shift: int, v: View)
    ensures Agrees(GenLoadMember(WidenPlace(lv), Long, shift, v), N.CompilableLValue(lv), v, K.ReadCode(lv, shift, v.nextLabel, v.stack), K.PlaceLabels(lv))
    decreases lv, 1
  {
    hide K.ExprCode, GenExpr, LoadLocal, N.Compilable, K.ExprLabels, Widen, Grown;
    match lv {
      case Local(offset) => LoadAgrees(v, M.RBP, offset + shift);
      case Deref(e) =>
        SameExpr(e, v);
        if N.Compilable(e) {
          var c := K.ExprCode(e, v.nextLabel, v.stack);
          LoadAgrees(Grown(v, c, K.ExprLabels(e), 0), M.RAX, shift);
          Twice(v, c, K.ExprLabels(e), 0, [M.Load(shift, M.RAX, M.RCX), M.MovReg(M.RCX, M.RAX)], 0, 0);
        }
      case Member(s, offset) => ReadAgrees(s, offset + shift, v);
    }
  }

  lemma StoreThroughAgrees(v: View, shift: int)
    ensures SaveThrough(v, Long, shift) == Grown(v, [M.Load(0, M.RSP, M.RCX), M.Store(M.RCX, shift, M.RAX), M.Pop(M.RAX)], 0, -8)
  {
    hide Grown;
    var a := [M.Load(0, M.RSP, M.RCX)];
    OneMore(v, M.Load(0, M.RSP, M.RCX));
    More(v, a, 0, 0, M.Store(M.RCX, shift, M.RAX));
    MorePop(v, a + [M.Store(M.RCX, shift, M.RAX)], 0, 0, M.RAX);
    assert a + [M.Store(M.RCX, shift, M.RAX)] + [M.Pop(M.RAX)] == [M.Load(0, M.RSP, M.RCX), M.Store(M.RCX, shift, M.RAX), M.Pop(M.RAX)];
  }

  /** A store through a computed address. */
  lemma {:induction false} ThroughAgrees(e: N.Expr, shift: int, v: View)
    ensures var c := [M.Push(M.RAX)] + K.ExprCode(e, v.nextLabel, v.stack + 8) +
        [M.Load(0, M.RSP, M.RCX), M.Store(M.RCX, shift, M.RAX), M.Pop(M.RAX)];
      var r := GenExpr(Widen(e), PushReg(v, M.RAX));
      r.Done? == N.Compilable(e) && (r.Done? ==> SaveThrough(r.view, Long, shift) == Grown(v, c, K.ExprLabels(e), 0))
    decreases e, 2
  {
    hide K.ExprCode, GenExpr, SaveThrough, N.Compilable, K.ExprLabels, Widen, Grown, PushReg;
    OnePush(v, M.RAX);
    var w := Grown(v, [M.Push(M.RAX)], 0, 8);
    GrownParts(v, [M.Push(M.RAX)], 0, 8);
    SameExpr(e, w);
    if N.Compilable(e) {
      var c := K.ExprCode(e, v.nextLabel, v.stack + 8);
      Twice(v, [M.Push(M.RAX)], 0, 8, c, K.ExprLabels(e), 0);
      StoreThroughAgrees(Grown(v, [M.Push(M.RAX)] + c, K.ExprLabels(e), 8), shift);
      Twice(v, [M.Push(M.RAX)] + c, K.ExprLabels(e), 8, [M.Load(0, M.RSP, M.RCX), M.Store(M.RCX, shift, M.RAX), M.Pop(M.RAX)], 0, -8);
    }
  }

  lemma GrownParts(v: View, c: seq<M.Instr>, labels: nat, pushed: int)
    ensures Grown(v, c, labels, pushed).nextLabel == v.nextLabel + labels && Grown(v, c, labels, pushed).stack == v.stack + pushed
    ensures Grown(v, c, labels, pushed).slots == v.slots
  {
  }

  lemma {:induction false} WriteAgrees(lv: N.LValue, shift: int, v: View)
    ensures Agrees(GenAssignMember(WidenPlace(lv), Long, shift, v), N.CompilableLValue(lv), v, K.WriteCode(lv, shift, v.nextLabel, v.stack), K.PlaceLabels(lv))
    decreases lv, 1
  {
    hide K.ExprCode, GenExpr, SaveThrough, N.Compilable, K.ExprLabels, Widen, Grown, PushReg;
    match lv {
      case Local(offset) => OneMore(v, M.Store(M.RAX, offset + shift, M.RBP));
      case Deref(e) => ThroughAgrees(e, shift, v);
      case Member(s, offset) => WriteAgrees(s, offset + shift, v);
    }
  }

  lemma {:induction false} AssignAgrees(lv: N.LValue, v: View)
    ensures Agrees(GenAssign(WidenPlace(lv), v), N.CompilableLValue(lv), v, K.WriteCode(lv, 0, v.nextLabel, v.stack), K.PlaceLabels(lv))
    decreases lv, 2
  {
    hide K.ExprCode, GenExpr, SaveThrough, N.Compilable, K.ExprLabels, Widen, Grown, PushReg;
    match lv {
      case Local(offset) => OneMore(v, M.Store(M.RAX, offset, M.RBP));
      case Deref(e) => ThroughAgrees(e, 0, v);
      case Member(s, offset) => WriteAgrees(s, offset, v);
    }
  }

  lemma {:induction false} PlaceAgrees(lv: N.LValue, v: View)
    ensures Agrees(GenExpr(WidenPlace(lv), v), N.CompilableLValue(lv), v, K.ReadCode(lv, 0, v.nextLabel, v.stack), K.PlaceLabels(lv))
    decreases lv, 2
  {
    hide K.ExprCode, LoadLocal, N.Compilable, K.ExprLabels, Widen, Grown;
    match lv {
      case Local(offset) => LoadAgrees(v, M.RBP, offset);
      case Deref(e) =>
        SameExpr(e, v);
        if N.Compilable(e) {
          var c := K.ExprCode(e, v.nextLabel, v.stack);
          LoadAgrees(Grown(v, c, K.ExprLabels(e), 0), M.RAX, 0);
          Twice(v, c, K.ExprLabels(e), 0, [M.Load(0, M.RAX, M.RCX), M.MovReg(M.RCX, M.RAX)], 0, 0);
          WholeConversions(Grown(v, c + [M.Load(0, M.RAX, M.RCX), M.MovReg(M.RCX, M.RAX)], K.ExprLabels(e), 0), Long, Long);
        }
      case Member(s, offset) => ReadAgrees(s, offset, v);
    }
  }

  /** The two views of an expression's code, at every counter and label. */
  lemma {:induction false} SameExpr(e: N.Expr, v: View)
    ensures Agrees(GenExpr(Widen(e), v), N.Compilable(e), v, K.ExprCode(e, v.nextLabel, v.stack), K.ExprLabels(e))
    decreases e, 1
  {
    hide *;
    match e {
      case Binary(_, _, _) => SameBinary(e, v);
      case LogicalAnd(l, r) => SameLogical(e, l, r, v);
      case LogicalOr(l, r) => SameLogical(e, l, r, v);
      case Conditional(_, _, _) => SameConditional(e, v);
      case Call(_, _) => SameCall(e, v);
      case IncDec(_, _, _, _) => SameStep(e, v);
      case Assign(_, _) => SameAssign(e, v);
      case _ => SameUnary(e, v);
    }
  }

  lemma {:induction false} SameUnary(e: N.Expr, v: View)
    requires e.Literal? || e.Read? || e.AddressOf? || e.LogicalNot? || e.OnesComplement?
    ensures Agrees(GenExpr(Widen(e), v), N.Compilable(e), v, K.ExprCode(e, v.nextLabel, v.stack), K.ExprLabels(e))
    decreases e, 0
  {
    hide Grown, K.ReadCode, Seen, GenAddress, EmitPlain, SetByte;
    match e {
      case Literal(value) =>
        SeenIs();
        OneMore(v, M.MovImm(value, M.RAX));
      case Read(lv) => PlaceAgrees(lv, v);
      case AddressOf(lv) => SameAddress(lv, v);
      case LogicalNot(a) =>
        SameExpr(a, v);
        NotAgrees(v, K.ExprCode(a, v.nextLabel, v.stack), K.ExprLabels(a));
      case OnesComplement(a) =>
        SameExpr(a, v);
        SeenIs();
        More(v, K.ExprCode(a, v.nextLabel, v.stack), K.ExprLabels(a), 0, M.Not);
        PlainIs(Grown(v, K.ExprCode(a, v.nextLabel, v.stack), K.ExprLabels(a), 0), "not %rax", 0);
    }
  }

  lemma PlainIs(v: View, text: string, operand: int)
    ensures EmitPlain(v, text, operand) == Emit(v, Plain(text, operand))
  {
  }

  lemma NotAgrees(v: View, c: seq<M.Instr>, n: nat)
    ensures EmitPlain(EmitPlain(EmitPlain(Grown(v, c, n, 0), "cmp $, %rax", 0), SetByte(Equal), 0), "movzb %al, %eax", 0) ==
      Grown(v, c + [M.CmpImm(0), M.SetAl(M.IsEqual), M.MovzbAlEax], n, 0)
  {
    hide Grown, Seen;
    SeenIs();
    More(v, c, n, 0, M.CmpImm(0));
    More(v, c + [M.CmpImm(0)], n, 0, M.SetAl(M.IsEqual));
    More(v, c + [M.CmpImm(0)] + [M.SetAl(M.IsEqual)], n, 0, M.MovzbAlEax);
    assert c + [M.CmpImm(0)] + [M.SetAl(M.IsEqual)] + [M.MovzbAlEax] == c + [M.CmpImm(0), M.SetAl(M.IsEqual), M.MovzbAlEax];
  }

  lemma {:induction false} SameAddress(lv: N.LValue, v: View)
    ensures Agrees(GenExpr(Widen(N.AddressOf(lv)), v), N.Compilable(N.AddressOf(lv)), v,
      K.ExprCode(N.AddressOf(lv), v.nextLabel, v.stack), K.ExprLabels(N.AddressOf(lv)))
    decreases lv, 3
  {
    hide Grown, K.ReadCode, Seen;
    match lv {
      case Local(offset) =>
        SeenIs();
        assert EnsureInits(NoInits, offset, v) == Done(v);
        assert GenAddress(WidenPlace(lv), v) == Done(EmitPlain(v, "lea (%rbp), %rax", offset));
        OneMore(v, M.Lea(offset, M.RBP, M.RAX));
      case Deref(_) =>
        PlaceAgrees(lv, v);
        assert GenAddress(WidenPlace(lv), v) == GenExpr(WidenPlace(lv), v);
      case Member(_, _) =>
        assert GenAddress(WidenPlace(lv), v) == Refused;
    }
  }

  lemma SeenIs()
    ensures forall value: int :: Seen(M.MovImm(value, M.RAX)) == SetRax(value)
    ensures forall offset: int :: Seen(M.Lea(offset, M.RBP, M.RAX)) == Plain("lea (%rbp), %rax", offset)
    ensures Seen(M.CmpImm(0)) == Plain("cmp $, %rax", 0) && Seen(M.SetAl(M.IsEqual)) == Plain(SetByte(Equal), 0)
    ensures Seen(M.MovzbAlEax) == Plain("movzb %al, %eax", 0) && Seen(M.Not) == Plain("not %rax", 0)
  {
  }

  lemma {:induction false} SameAssign(e: N.Expr, v: View)
    requires e.Assign?
    ensures Agrees(GenExpr(Widen(e), v), N.Compilable(e), v, K.ExprCode(e, v.nextLabel, v.stack), K.ExprLabels(e))
    decreases e, 0
  {
    hide Grown, K.WriteCode, GenAssign, GenExpr, WidenPlace, Convert, Widen, K.ExprCode, K.ExprLabels, N.Compilable;
    AssignLevel(e, v);
    SameExpr(e.source, v);
    WholeKind(e.source);
    if N.Compilable(e.source) {
      var c, n := K.ExprCode(e.source, v.nextLabel, v.stack), K.ExprLabels(e.source);
      var w := Grown(v, c, n, 0);
      WholeConversions(w, Long, Widen(e.source).kind);
      GrownParts(v, c, n, 0);
      AssignAgrees(e.lv, w);
      Twice(v, c, n, 0, K.WriteCode(e.lv, 0, v.nextLabel + n, v.stack), K.PlaceLabels(e.lv), 0);
    }
  }

  lemma AssignLevel(e: N.Expr, v: View)
    requires e.Assign?
    ensures N.Compilable(e) == (N.CompilableLValue(e.lv) && N.Compilable(e.source))
    ensures K.ExprLabels(e) == K.ExprLabels(e.source) + K.PlaceLabels(e.lv)
    ensures K.ExprCode(e, v.nextLabel, v.stack) ==
      K.ExprCode(e.source, v.nextLabel, v.stack) + K.WriteCode(e.lv, 0, v.nextLabel + K.ExprLabels(e.source), v.stack)
    ensures GenExpr(Widen(e), v) ==
      var w := GenExpr(Widen(e.source), v);
      if w.Refused? then Refused else GenAssign(WidenPlace(e.lv), Convert(w.view, Long, Widen(e.source).kind))
  {
    hide GenExpr, Widen, GenAssign, WidenPlace, Convert, K.WriteCode, N.CompilableLValue, K.PlaceLabels;
    WideAssign(e, v);
  }

  lemma WideAssign(e: N.Expr, v: View)
    requires e.Assign?
    ensures GenExpr(Widen(e), v) ==
      var w := GenExpr(Widen(e.source), v);
      if w.Refused? then Refused else GenAssign(WidenPlace(e.lv), Convert(w.view, Long, Widen(e.source).kind))
  {
    hide GenAssign, WidenPlace, Convert;
  }

  lemma {:induction false} SameStep(e: N.Expr, v: View)
    requires e.IncDec?
    ensures Agrees(GenExpr(Widen(e), v), N.Compilable(e), v, K.ExprCode(e, v.nextLabel, v.stack), K.ExprLabels(e))
    decreases e, 0
  {
    hide Grown, K.ReadCode, K.WriteCode, GenAssign, GenExpr, WidenPlace, EmitPlain, PushReg, PopReg, N.CompilableLValue, K.PlaceLabels;
    GenExprStep(e, v);
    PlaceAgrees(e.lv, v);
    if N.CompilableLValue(e.lv) {
      var c, n := K.ReadCode(e.lv, 0, v.nextLabel, v.stack), K.PlaceLabels(e.lv);
      var op := if e.minus then M.Sub else M.Add;
      var text := if e.minus then "sub $, %rax" else "add $, %rax";
      if e.prefix {
        var a := c + [M.AluImm(op, 1, M.RAX)];
        MoreStep(v, c, n, 0, e.minus);
        GrownParts(v, a, n, 0);
        AssignAgrees(e.lv, Grown(v, a, n, 0));
        Twice(v, a, n, 0, K.WriteCode(e.lv, 0, v.nextLabel + n, v.stack), n, 0);
      } else {
        MorePush(v, c, n, 0, M.RAX);
        var a := c + [M.Push(M.RAX)] + [M.AluImm(op, 1, M.RAX)];
        MoreStep(v, c + [M.Push(M.RAX)], n, 8, e.minus);
        GrownParts(v, a, n, 8);
        AssignAgrees(e.lv, Grown(v, a, n, 8));
        var b := K.WriteCode(e.lv, 0, v.nextLabel + n, v.stack + 8);
        Twice(v, a, n, 8, b, n, 0);
        MorePop(v, a + b, n + n, 8, M.RAX);
        assert a + b + [M.Pop(M.RAX)] == c + [M.Push(M.RAX), M.AluImm(op, 1, M.RAX)] + (b + [M.Pop(M.RAX)]);
      }
    }
  }

  lemma GenExprStep(e: N.Expr, v: View)
    requires e.IncDec?
    ensures GenExpr(Widen(e), v) == GenStep(Step(Long, e.prefix, e.minus, WidenPlace(e.lv)), v)
  {
    hide GenStep, WidenPlace;
  }

  lemma MoreStep(v: View, c: seq<M.Instr>, n: nat, p: int, minus: bool)
    ensures EmitPlain(Grown(v, c, n, p), if minus then "sub $, %rax" else "add $, %rax", 1) ==
      Grown(v, c + [M.AluImm(if minus then M.Sub else M.Add, 1, M.RAX)], n, p)
  {
    hide Grown;
    More(v, c, n, p, M.AluImm(if minus then M.Sub else M.Add, 1, M.RAX));
  }

  lemma TestAgrees(v: View, c: seq<M.Instr>, n: nat, value: int, l: nat, jump: M.Instr)
    requires jump == M.Je(l) || jump == M.Jne(l)
    ensures TestTo(Grown(v, c, n, 0), value, l) == Grown(v, c + [M.Test, M.MovImm(value, M.RAX), jump], n, 0)
  {
    hide Grown;
    More(v, c, n, 0, M.Test);
    More(v, c + [M.Test], n, 0, M.MovImm(value, M.RAX));
    More(v, c + [M.Test] + [M.MovImm(value, M.RAX)], n, 0, jump);
    assert c + [M.Test] + [M.MovImm(value, M.RAX)] + [jump] == c + [M.Test, M.MovImm(value, M.RAX), jump];
  }

  lemma {:induction false} SameLogical(e: N.Expr, l: N.Expr, r: N.Expr, v: View)
    requires (e.LogicalAnd? || e.LogicalOr?) && l == e.left && r == e.right
    ensures Agrees(GenExpr(Widen(e), v), N.Compilable(e), v, K.ExprCode(e, v.nextLabel, v.stack), K.ExprLabels(e))
    decreases e, 0
  {
    hide Grown, GenExpr, TestTo, N.Compilable, K.ExprCode, K.ExprLabels, Widen, Emit;
    var short, other := if e.LogicalAnd? then 0 else 1, if e.LogicalAnd? then 1 else 0;
    var n := v.nextLabel;
    var jump := if e.LogicalAnd? then M.Je(n) else M.Jne(n);
    var tail := [M.Test, M.MovImm(short, M.RAX), jump];
    LogicalLevel(e, v, short, other, jump);
    Nothing(v);
    var w := Fresh(v);
    SameExpr(l, w);
    if N.Compilable(l) {
      var c, k := K.ExprCode(l, n + 1, v.stack), K.ExprLabels(l);
      TestAgrees(w, c, k, short, n, jump);
      GrownParts(w, c + tail, k, 0);
      SameExpr(r, Grown(w, c + tail, k, 0));
      if N.Compilable(r) {
        var b, j := K.ExprCode(r, n + 1 + k, v.stack), K.ExprLabels(r);
        Twice(w, c + tail, k, 0, b, j, 0);
        TestAgrees(w, c + tail + b, k + j, short, n, jump);
        var all := c + tail + b + tail;
        More(w, all, k + j, 0, M.MovImm(other, M.RAX));
        More(w, all + [M.MovImm(other, M.RAX)], k + j, 0, M.Label(n));
        assert all + [M.MovImm(other, M.RAX)] + [M.Label(n)] == c + tail + (b + (tail + [M.MovImm(other, M.RAX), M.Label(n)]));
        FreshGrown(v, c + tail + (b + (tail + [M.MovImm(other, M.RAX), M.Label(n)])), k + j);
      }
    }
  }

  lemma FreshGrown(v: View, c: seq<M.Instr>, n: nat)
    ensures Grown(Fresh(v), c, n, 0) == Grown(v, c, 1 + n, 0)
  {
  }

  /** One level of a logical operator in either view. */
  lemma LogicalLevel(e: N.Expr, v: View, short: int, other: int, jump: M.Instr)
    requires e.LogicalAnd? || e.LogicalOr?
    requires short == (if e.LogicalAnd? then 0 else 1) && other == (if e.LogicalAnd? then 1 else 0)
    requires jump == (if e.LogicalAnd? then M.Je(v.nextLabel) else M.Jne(v.nextLabel))
    ensures N.Compilable(e) == (N.Compilable(e.left) && N.Compilable(e.right))
    ensures K.ExprLabels(e) == 1 + (K.ExprLabels(e.left) + K.ExprLabels(e.right))
    ensures var tail := [M.Test, M.MovImm(short, M.RAX), jump];
      K.ExprCode(e, v.nextLabel, v.stack) == K.ExprCode(e.left, v.nextLabel + 1, v.stack) + tail +
        (K.ExprCode(e.right, v.nextLabel + 1 + K.ExprLabels(e.left), v.stack) + (tail + [M.MovImm(other, M.RAX), M.Label(v.nextLabel)]))
    ensures GenExpr(Widen(e), v) == Logical(Widen(e.left), Widen(e.right), short, other, v)
  {
    hide GenExpr, Widen, Logical, K.ExprCode, K.ExprLabels, N.Compilable;
    LogicalCode(e, v.nextLabel, v.stack, short, other, jump);
    WideLogical(e, v, short, other);
  }

  lemma LogicalCode(e: N.Expr, n: nat, d: int, short: int, other: int, jump: M.Instr)
    requires e.LogicalAnd? || e.LogicalOr?
    requires short == (if e.LogicalAnd? then 0 else 1) && other == (if e.LogicalAnd? then 1 else 0)
    requires jump == (if e.LogicalAnd? then M.Je(n) else M.Jne(n))
    ensures N.Compilable(e) == (N.Compilable(e.left) && N.Compilable(e.right))
    ensures K.ExprLabels(e) == 1 + (K.ExprLabels(e.left) + K.ExprLabels(e.right))
    ensures var tail := [M.Test, M.MovImm(short, M.RAX), jump];
      K.ExprCode(e, n, d) == K.ExprCode(e.left, n + 1, d) + tail +
        (K.ExprCode(e.right, n + 1 + K.ExprLabels(e.left), d) + (tail + [M.MovImm(other, M.RAX), M.Label(n)]))
  {
    hide K.ExprCode;
    assert [M.Test, M.MovImm(short, M.RAX), jump] + [M.MovImm(other, M.RAX), M.Label(n)] ==
      [M.Test, M.MovImm(short, M.RAX), jump, M.MovImm(other, M.RAX), M.Label(n)];
    if e.LogicalAnd? {
      E.AndLevel(e, n, d);
    } else {
      E.OrLevel(e, n, d);
    }
  }

  function Logical(left: Expr, right: Expr, short: int, other: int, v: View): Result {
    var w :- GenExpr(left, Fresh(v));
    var x :- GenExpr(right, TestTo(w, short, v.nextLabel));
    Done(Emit(Emit(TestTo(x, short, v.nextLabel), SetRax(other)), Mark(v.nextLabel)))
  }

  lemma WideLogical(e: N.Expr, v: View, short: int, other: int)
    requires e.LogicalAnd? || e.LogicalOr?
    requires short == (if e.LogicalAnd? then 0 else 1) && other == (if e.LogicalAnd? then 1 else 0)
    ensures GenExpr(Widen(e), v) == Logical(Widen(e.left), Widen(e.right), short, other, v)
  {
    hide TestTo, Emit, Fresh;
  }

  lemma JumpAgrees(v: View, c: seq<M.Instr>, n: nat, l: nat)
    ensures JumpIfZero(Grown(v, c, n, 0), l) == Grown(v, c + [M.Test, M.Je(l)], n, 0)
  {
    hide Grown;
    More(v, c, n, 0, M.Test);
    More(v, c + [M.Test], n, 0, M.Je(l));
    assert c + [M.Test] + [M.Je(l)] == c + [M.Test, M.Je(l)];
  }

  lemma GrownFresh(v: View, c: seq<M.Instr>, n: nat)
    ensures Fresh(Grown(v, c, n, 0)) == Grown(v, c, n + 1, 0)
  {
  }

  lemma {:induction false} SameConditional(e: N.Expr, v: View)
    requires e.Conditional?
    ensures Agrees(GenExpr(Widen(e), v), N.Compilable(e), v, K.ExprCode(e, v.nextLabel, v.stack), K.ExprLabels(e))
    decreases e, 0
  {
    hide Grown, GenExpr, JumpIfZero, N.Compilable, K.ExprCode, K.ExprLabels, Widen, Emit, Fresh;
    var n, d := v.nextLabel, v.stack;
    var ne := n + K.ExprLabels(e.cond);
    var end := ne + 1 + K.ExprLabels(e.yes);
    ConditionalLevel(e, v, ne, end);
    SameExpr(e.cond, v);
    if N.Compilable(e.cond) {
      var a := K.ExprCode(e.cond, n, d) + [M.Test, M.Je(ne)];
      GrownParts(v, K.ExprCode(e.cond, n, d), ne - n, 0);
      GrownFresh(v, K.ExprCode(e.cond, n, d), ne - n);
      JumpAgrees(v, K.ExprCode(e.cond, n, d), ne + 1 - n, ne);
      GrownParts(v, a, ne + 1 - n, 0);
      SameExpr(e.yes, Grown(v, a, ne + 1 - n, 0));
      if N.Compilable(e.yes) {
        var b := K.ExprCode(e.yes, ne + 1, d);
        Twice(v, a, ne + 1 - n, 0, b, K.ExprLabels(e.yes), 0);
        ArmsAgree(v, a, b, ne, end);
        var f := a + b + [M.Jmp(end), M.Label(ne)];
        GrownParts(v, f, end + 1 - n, 0);
        SameExpr(e.no, Grown(v, f, end + 1 - n, 0));
        if N.Compilable(e.no) {
          var c := K.ExprCode(e.no, end + 1, d);
          Twice(v, f, end + 1 - n, 0, c, K.ExprLabels(e.no), 0);
          More(v, f + c, end + 1 - n + K.ExprLabels(e.no), 0, M.Label(end));
          assert f + c + [M.Label(end)] == a + (b + [M.Jmp(end), M.Label(ne)] + (c + [M.Label(end)]));
        }
      }
    }
  }

  /** Between the arms: a fresh label, the jump over the second arm, and its label. */
  lemma ArmsAgree(v: View, a: seq<M.Instr>, b: seq<M.Instr>, ne: nat, end: nat)
    requires v.nextLabel <= end
    ensures var w := Grown(v, a + b, end - v.nextLabel, 0);
      w.nextLabel == end && Emit(Emit(Fresh(w), Jump(end)), Mark(ne)) == Grown(v, a + b + [M.Jmp(end), M.Label(ne)], end + 1 - v.nextLabel, 0)
  {
    hide Grown, Emit, Fresh;
    var k := end - v.nextLabel;
    GrownParts(v, a + b, k, 0);
    GrownFresh(v, a + b, k);
    More(v, a + b, k + 1, 0, M.Jmp(end));
    More(v, a + b + [M.Jmp(end)], k + 1, 0, M.Label(ne));
    assert a + b + [M.Jmp(end)] + [M.Label(ne)] == a + b + [M.Jmp(end), M.Label(ne)];
  }

  lemma ConditionalLevel(e: N.Expr, v: View, ne: nat, end: nat)
    requires e.Conditional? && ne == v.nextLabel + K.ExprLabels(e.cond) && end == ne + 1 + K.ExprLabels(e.yes)
    ensures N.Compilable(e) == (N.Compilable(e.cond) && N.Compilable(e.yes) && N.Compilable(e.no))
    ensures K.ExprLabels(e) == end + 1 - v.nextLabel + K.ExprLabels(e.no)
    ensures K.ExprCode(e, v.nextLabel, v.stack) == K.ExprCode(e.cond, v.nextLabel, v.stack) + [M.Test, M.Je(ne)] +
      (K.ExprCode(e.yes, ne + 1, v.stack) + [M.Jmp(end), M.Label(ne)] + (K.ExprCode(e.no, end + 1, v.stack) + [M.Label(end)]))
    ensures GenExpr(Widen(e), v) == Chosen(Widen(e.cond), Widen(e.yes), Widen(e.no), v)
  {
    hide GenExpr, Widen, Chosen, K.ExprCode, K.ExprLabels, N.Compilable;
    ConditionalCode(e, v.nextLabel, v.stack, ne, end);
    WideConditional(e, v);
  }

  lemma ConditionalCode(e: N.Expr, n: nat, d: int, ne: nat, end: nat)
    requires e.Conditional? && ne == n + K.ExprLabels(e.cond) && end == ne + 1 + K.ExprLabels(e.yes)
    ensures N.Compilable(e) == (N.Compilable(e.cond) && N.Compilable(e.yes) && N.Compilable(e.no))
    ensures K.ExprLabels(e) == end + 1 - n + K.ExprLabels(e.no)
    ensures K.ExprCode(e, n, d) == K.ExprCode(e.cond, n, d) + [M.Test, M.Je(ne)] +
      (K.ExprCode(e.yes, ne + 1, d) + [M.Jmp(end), M.Label(ne)] + (K.ExprCode(e.no, end + 1, d) + [M.Label(end)]))
  {
    hide K.ExprCode, K.ExprLabels, N.Compilable;
    E.ConditionalParts(e);
    E.ConditionalLevel(e, n, d, ne, end);
  }

  function Chosen(cond: Expr, yes: Expr, no: Expr, v: View): Result {
    var w :- GenExpr(cond, v);
    var x :- GenExpr(yes, JumpIfZero(Fresh(w), w.nextLabel));
    var y :- GenExpr(no, Emit(Emit(Fresh(x), Jump(x.nextLabel)), Mark(w.nextLabel)));
    Done(Emit(y, Mark(x.nextLabel)))
  }

  lemma WideConditional(e: N.Expr, v: View)
    requires e.Conditional?
    ensures GenExpr(Widen(e), v) == Chosen(Widen(e.cond), Widen(e.yes), Widen(e.no), v)
  {
    hide JumpIfZero, Emit, Fresh;
  }

  lemma {:induction false} SameBinary(e: N.Expr, v: View)
    requires e.Binary?
    ensures Agrees(GenExpr(Widen(e), v), N.Compilable(e), v, K.ExprCode(e, v.nextLabel, v.stack), K.ExprLabels(e))
    decreases e, 0
  {
    hide Grown, GenExpr, N.Compilable, K.ExprCode, K.ExprLabels, Widen, PushReg, K.FinishCode;
    BinaryLevel(e, v);
    SameExpr(e.left, v);
    if N.Compilable(e.left) {
      var c, n := K.ExprCode(e.left, v.nextLabel, v.stack), K.ExprLabels(e.left);
      MorePush(v, c, n, 0, M.RAX);
      var a := c + [M.Push(M.RAX)];
      GrownParts(v, a, n, 8);
      SameExpr(e.right, Grown(v, a, n, 8));
      if N.Compilable(e.right) {
        var b, k := K.ExprCode(e.right, v.nextLabel + n, v.stack + 8), K.ExprLabels(e.right);
        Twice(v, a, n, 8, b, k, 0);
        FinishAgrees(e.op, Grown(v, a + b, n + k, 8));
        Twice(v, a + b, n + k, 8, K.FinishCode(e.op), 0, -8);
        assert a + b + K.FinishCode(e.op) == c + [M.Push(M.RAX)] + (b + K.FinishCode(e.op));
      }
    }
  }

  /** What the whole generator emits once both operands are there. */
  function Finished(op: N.BinaryOp, v: View): Result {
    if op.BothBits? || op.EitherBits? then
      Done(EmitPlain(PopReg(v, M.RCX), if op.EitherBits? then "or %rcx, %rax" else "and %rcx, %rax", 0))
    else
      var kind := if op.Pointer? then Pointer(op.size) else Long;
      Combine(if op.Pointer? && op.size > 1 then EmitPlain(v, "imul $, %rax", op.size) else v, kind, WidenOp(op), Long, false)
  }

  lemma BinaryLevel(e: N.Expr, v: View)
    requires e.Binary?
    ensures N.Compilable(e) == (N.Compilable(e.left) && N.Compilable(e.right))
    ensures K.ExprLabels(e) == K.ExprLabels(e.left) + K.ExprLabels(e.right)
    ensures K.ExprCode(e, v.nextLabel, v.stack) == K.ExprCode(e.left, v.nextLabel, v.stack) + [M.Push(M.RAX)] +
      (K.ExprCode(e.right, v.nextLabel + K.ExprLabels(e.left), v.stack + 8) + K.FinishCode(e.op))
    ensures GenExpr(Widen(e), v) == Combined(e.op, Widen(e.left), Widen(e.right), v)
  {
    hide GenExpr, Widen, Combined, K.FinishCode;
    WholeKind(e.left);
    WholeKind(e.right);
    WideBinary(e, v);
  }

  function Combined(op: N.BinaryOp, left: Expr, right: Expr, v: View): Result {
    var w :- GenExpr(left, v);
    var x :- GenExpr(right, PushReg(w, M.RAX));
    Finished(op, x)
  }

  lemma WideBinary(e: N.Expr, v: View)
    requires e.Binary? && !IsFloating(Widen(e.left).kind) && !IsFloating(Widen(e.right).kind)
    ensures GenExpr(Widen(e), v) == Combined(e.op, Widen(e.left), Widen(e.right), v)
  {
    hide PushReg, PopReg, EmitPlain, FinishInteger, Widen;
    WidenBinary(e);
    if e.op.BothBits? || e.op.EitherBits? {
    } else {
      PlainOperands(e.op, Widen(e.left), Widen(e.right), v);
    }
  }

  lemma WidenBinary(e: N.Expr)
    requires e.Binary?
    ensures Widen(e) ==
      if e.op.BothBits? || e.op.EitherBits? then Bits(Long, e.op.EitherBits?, Widen(e.left), Widen(e.right))
      else Binary(if e.op.Pointer? then Pointer(e.op.size) else Long, WidenOp(e.op), Widen(e.left), Widen(e.right))
  {
    hide WidenOp;
  }

  /** Whole operands are pushed and combined without conversions. */
  lemma PlainOperands(op: N.BinaryOp, left: Expr, right: Expr, v: View)
    requires !op.BothBits? && !op.EitherBits? && !IsFloating(left.kind) && !IsFloating(right.kind)
    ensures GenExpr(Binary(if op.Pointer? then Pointer(op.size) else Long, WidenOp(op), left, right), v) == Combined(op, left, right, v)
  {
    hide PushReg, PopReg, EmitPlain, FinishInteger, WidenOp, GenExpr, PushLeft, Combine, CombinesFloats;
    var kind := if op.Pointer? then Pointer(op.size) else Long;
    var e := Binary(kind, WidenOp(op), left, right);
    GenExprBinary(e, v);
    if GenExpr(left, v).Done? {
      var w := GenExpr(left, v).view;
      PushesWhole(e, w);
      if GenExpr(right, PushReg(w, M.RAX)).Done? {
        CombinesWhole(e, Scale(e, GenExpr(right, PushReg(w, M.RAX)).view));
      }
    }
  }

  lemma GenExprBinary(e: Expr, v: View)
    requires e.Binary?
    ensures GenExpr(e, v) ==
      var w := GenExpr(e.left, v);
      if w.Refused? then Refused else
        var x := GenExpr(e.right, PushLeft(e, w.view));
        if x.Refused? then Refused else Combine(Scale(e, x.view), e.kind, e.op, e.right.kind, CombinesFloats(e))
  {
    hide PushLeft, Combine, Scale, CombinesFloats;
  }

  lemma PushesWhole(e: Expr, w: View)
    requires e.Binary? && (e.kind.Pointer? || e.kind.Long?) && !IsFloating(e.left.kind) && !IsFloating(e.right.kind)
    ensures PushLeft(e, w) == PushReg(w, M.RAX)
  {
    hide PushReg;
  }

  lemma CombinesWhole(e: Expr, w: View)
    requires e.Binary? && (e.kind.Pointer? || e.kind.Long?) && !IsFloating(e.left.kind) && !IsFloating(e.right.kind)
    ensures Combine(w, e.kind, e.op, e.right.kind, CombinesFloats(e)) == Combine(w, e.kind, e.op, Long, false)
  {
    hide PopReg, EmitPlain, FinishInteger;
  }

  /** The two ways of combining whole operands emit the same. */
  lemma FinishAgrees(op: N.BinaryOp, v: View)
    ensures Finished(op, v) == Done(Grown(v, K.FinishCode(op), 0, -8))
  {
    hide Grown, Finished, K.FinishCode;
    if op.BothBits? || op.EitherBits? {
      BitsAgree(op, v);
    } else if op.Pointer? {
      PointerFinishes(op, v);
    } else if IsComparison(WidenOp(op)) {
      CompareAgrees(op, v);
    } else {
      ArithmeticAgrees(op, v);
    }
  }

  lemma BitsAgree(op: N.BinaryOp, v: View)
    requires op.BothBits? || op.EitherBits?
    ensures Finished(op, v) == Done(Grown(v, K.FinishCode(op), 0, -8))
  {
    hide Grown, PopReg, EmitPlain;
    if op.EitherBits? {
      PopAndEmit(v, M.AluReg(M.BitOr, M.RCX, M.RAX), "or %rcx, %rax");
    } else {
      PopAndEmit(v, M.AluReg(M.BitAnd, M.RCX, M.RAX), "and %rcx, %rax");
    }
  }

  lemma PopAndEmit(v: View, i: M.Instr, text: string)
    requires Seen(i) == Plain(text, 0)
    ensures EmitPlain(PopReg(v, M.RCX), text, 0) == Grown(v, [M.Pop(M.RCX), i], 0, -8)
  {
    hide Grown, PopReg, Seen;
    OnePop(v, M.RCX);
    More(v, [M.Pop(M.RCX)], 0, -8, i);
    assert [M.Pop(M.RCX)] + [i] == [M.Pop(M.RCX), i];
  }

  lemma PointerFinishes(op: N.BinaryOp, v: View)
    requires op.Pointer?
    ensures Finished(op, v) == Done(Grown(v, K.FinishCode(op), 0, -8))
  {
    hide Grown, PopReg, EmitPlain;
    PointerAgrees(op.size, v);
    assert K.ArithCode([M.AluReg(M.Add, M.RCX, M.RAX)]) == [M.MovReg(M.RAX, M.RCX), M.Pop(M.RAX), M.AluReg(M.Add, M.RCX, M.RAX)];
  }

  lemma PointerAgrees(size: int, v: View)
    ensures var w := if size > 1 then EmitPlain(v, "imul $, %rax", size) else v;
      EmitPlain(PopReg(EmitPlain(w, "mov %rax, %rcx", 0), M.RAX), "add %rcx, %rax", 0) ==
        Grown(v, (if size > 1 then [M.AluImm(M.Imul, size, M.RAX)] else []) + [M.MovReg(M.RAX, M.RCX), M.Pop(M.RAX), M.AluReg(M.Add, M.RCX, M.RAX)], 0, -8)
  {
    hide Grown;
    Nothing(v);
    var a := if size > 1 then [M.AluImm(M.Imul, size, M.RAX)] else [];
    More(v, [], 0, 0, M.AluImm(M.Imul, size, M.RAX));
    More(v, a, 0, 0, M.MovReg(M.RAX, M.RCX));
    MorePop(v, a + [M.MovReg(M.RAX, M.RCX)], 0, 0, M.RAX);
    More(v, a + [M.MovReg(M.RAX, M.RCX)] + [M.Pop(M.RAX)], 0, -8, M.AluReg(M.Add, M.RCX, M.RAX));
    assert [] + [M.AluImm(M.Imul, size, M.RAX)] == [M.AluImm(M.Imul, size, M.RAX)];
    assert a + [M.MovReg(M.RAX, M.RCX)] + [M.Pop(M.RAX)] + [M.AluReg(M.Add, M.RCX, M.RAX)] ==
      a + [M.MovReg(M.RAX, M.RCX), M.Pop(M.RAX), M.AluReg(M.Add, M.RCX, M.RAX)];
  }

  function ConditionFor(op: N.BinaryOp): M.Condition {
    match op
    case Less => M.IsLess
    case Greater => M.IsGreater
    case Equal => M.IsEqual
    case NotEqual => M.IsNotEqual
    case LessEqual => M.IsLessEqual
    case _ => M.IsGreaterEqual
  }

  lemma CompareAgrees(op: N.BinaryOp, v: View)
    requires !op.Pointer? && IsComparison(WidenOp(op))
    ensures Finished(op, v) == Done(Grown(v, K.FinishCode(op), 0, -8))
  {
    hide Grown, PopReg, Seen, EmitPlain;
    var c := ConditionFor(op);
    CompareSeen(op);
    var w := Grown(v, [M.Pop(M.RCX)], 0, -8);
    PlainIs(w, "cmp %rax, %rcx", 0);
    var x := EmitPlain(w, "cmp %rax, %rcx", 0);
    PlainIs(x, SetByte(WidenOp(op)), 0);
    PlainIs(EmitPlain(x, SetByte(WidenOp(op)), 0), "movzb %al, %eax", 0);
    var a := [M.Pop(M.RCX)] + [M.CmpReg(M.RAX, M.RCX)];
    OnePop(v, M.RCX);
    More(v, [M.Pop(M.RCX)], 0, -8, M.CmpReg(M.RAX, M.RCX));
    More(v, a, 0, -8, M.SetAl(c));
    More(v, a + [M.SetAl(c)], 0, -8, M.MovzbAlEax);
    assert a + [M.SetAl(c)] + [M.MovzbAlEax] == K.CompareCode(c);
  }

  lemma CompareSeen(op: N.BinaryOp)
    requires !op.Pointer? && IsComparison(WidenOp(op))
    ensures Seen(M.CmpReg(M.RAX, M.RCX)) == Plain("cmp %rax, %rcx", 0) && Seen(M.MovzbAlEax) == Plain("movzb %al, %eax", 0)
    ensures Seen(M.SetAl(ConditionFor(op))) == Plain(SetByte(WidenOp(op)), 0)
    ensures K.FinishCode(op) == K.CompareCode(ConditionFor(op))
  {
  }

  lemma ArithmeticAgrees(op: N.BinaryOp, v: View)
    requires !op.Pointer? && !op.BothBits? && !op.EitherBits? && !IsComparison(WidenOp(op))
    ensures Finished(op, v) == Done(Grown(v, K.FinishCode(op), 0, -8))
  {
    hide Grown, PopReg, FinishInteger;
    var a := [M.MovReg(M.RAX, M.RCX)] + [M.Pop(M.RAX)];
    OneMore(v, M.MovReg(M.RAX, M.RCX));
    MorePop(v, [M.MovReg(M.RAX, M.RCX)], 0, 0, M.RAX);
    var ops := FinishIntegerAgrees(op, v, a);
    assert a + ops == K.ArithCode(ops);
  }

  /** The operators that are one instruction. */
  function SingleCode(op: N.BinaryOp): M.Instr {
    match op
    case ShiftL => M.Sal
    case ShiftR => M.Sar
    case Plus => M.AluReg(M.Add, M.RCX, M.RAX)
    case Minus => M.AluReg(M.Sub, M.RCX, M.RAX)
    case Times => M.AluReg(M.Imul, M.RCX, M.RAX)
    case _ => M.AluReg(M.BitXor, M.RCX, M.RAX)
  }

  lemma SingleSeen(op: N.BinaryOp, v: View)
    requires !op.Pointer? && !op.BothBits? && !op.EitherBits? && !IsComparison(WidenOp(op)) && !op.Divide? && !op.Remainder?
    ensures K.FinishCode(op) == K.ArithCode([SingleCode(op)]) && FinishInteger(v, WidenOp(op)) == Emit(v, Seen(SingleCode(op)))
  {
    hide Emit;
  }

  lemma FinishIntegerAgrees(op: N.BinaryOp, v: View, a: seq<M.Instr>) returns (ops: seq<M.Instr>)
    requires !op.Pointer? && !op.BothBits? && !op.EitherBits? && !IsComparison(WidenOp(op))
    ensures K.FinishCode(op) == K.ArithCode(ops) && FinishInteger(Grown(v, a, 0, -8), WidenOp(op)) == Grown(v, a + ops, 0, -8)
  {
    hide Grown, FinishInteger, Seen, K.FinishCode, K.ArithCode;
    if op.Divide? || op.Remainder? {
      ops := DivideAgrees(op, v, a);
    } else {
      ops := [SingleCode(op)];
      SingleSeen(op, Grown(v, a, 0, -8));
      More(v, a, 0, -8, SingleCode(op));
    }
  }

  lemma DivideAgrees(op: N.BinaryOp, v: View, a: seq<M.Instr>) returns (ops: seq<M.Instr>)
    requires op.Divide? || op.Remainder?
    ensures K.FinishCode(op) == K.ArithCode(ops) && FinishInteger(Grown(v, a, 0, -8), WidenOp(op)) == Grown(v, a + ops, 0, -8)
  {
    hide Grown;
    More(v, a, 0, -8, M.Cqto);
    More(v, a + [M.Cqto], 0, -8, M.Idiv(M.RCX));
    ops := [M.Cqto, M.Idiv(M.RCX)];
    assert a + [M.Cqto] + [M.Idiv(M.RCX)] == a + ops;
    if op.Remainder? {
      More(v, a + ops, 0, -8, M.MovEdxEax);
      assert a + ops + [M.MovEdxEax] == a + [M.Cqto, M.Idiv(M.RCX), M.MovEdxEax];
      ops := [M.Cqto, M.Idiv(M.RCX), M.MovEdxEax];
    }
  }

  // -------------------------------------------------------------- calls

  lemma {:induction false} WidenedKinds(args: N.Args)
    ensures |Kinds(WidenArgs(args))| == N.Count(args) && AllLong(Kinds(WidenArgs(args)))
    decreases args
  {
    if args.Arg? {
      WidenedKinds(args.tail);
    }
  }

  predicate AllLong(ks: seq<Kind>) {
    forall i :: 0 <= i < |ks| ==> ks[i] == Long
  }

  lemma {:induction false} NoneFloats(ks: seq<Kind>)
    requires AllLong(ks)
    ensures Floats(ks) == 0 && Wholes(ks) == |ks|
    decreases |ks|
  {
    if |ks| > 0 {
      NoneFloats(ks[..|ks| - 1]);
    }
  }

  lemma {:induction false} SavesAgree(v: View, ks: seq<Kind>)
    requires AllLong(ks) && Wholes(ks) <= 6 && |ks| <= 6
    ensures SaveRegisters(v, ks) == Grown(v, K.SaveArgRegs(|ks|), 0, 8 * |ks|)
    decreases |ks|
  {
    hide Grown, PushReg, Floats, Wholes;
    if |ks| == 0 {
      Nothing(v);
    } else {
      var before := ks[..|ks| - 1];
      NoneFloats(ks);
      NoneFloats(before);
      SavesAgree(v, before);
      MorePush(v, K.SaveArgRegs(|before|), 0, 8 * |before|, M.ArgReg(|before|));
    }
  }

  lemma {:induction false} RestoresAgree(v: View, ks: seq<Kind>)
    requires AllLong(ks) && Wholes(ks) <= 6 && |ks| <= 6
    ensures LoadArguments(v, ks) == RestoreRegisters(v, ks) == Grown(v, K.RestoreArgRegs(|ks|), 0, -8 * |ks|)
    decreases |ks|
  {
    hide Grown, PopReg, Floats, Wholes;
    if |ks| == 0 {
      Nothing(v);
    } else {
      var before := ks[..|ks| - 1];
      NoneFloats(ks);
      NoneFloats(before);
      OnePop(v, M.ArgReg(|before|));
      RestoresAgree(PopReg(v, M.ArgReg(|before|)), before);
      Twice(v, [M.Pop(M.ArgReg(|before|))], 0, -8, K.RestoreArgRegs(|before|), 0, -8 * |before|);
    }
  }

  lemma TransferAgrees(v: View, name: string)
    ensures Transfer(v, name, 0) ==
      Grown(v, [M.MovImm(0, M.RAX)] + K.PadCode(v.stack, M.Sub) + [M.CallName(name)] + K.PadCode(v.stack, M.Add), 0, 0)
  {
    hide Grown;
    var a := [M.MovImm(0, M.RAX)];
    OneMore(v, M.MovImm(0, M.RAX));
    GrownParts(v, a, 0, 0);
    More(v, a, 0, 0, M.AluImm(M.Sub, 8, M.RSP));
    var b := a + K.PadCode(v.stack, M.Sub);
    GrownParts(v, b, 0, 0);
    More(v, b, 0, 0, M.CallName(name));
    GrownParts(v, b + [M.CallName(name)], 0, 0);
    More(v, b + [M.CallName(name)], 0, 0, M.AluImm(M.Add, 8, M.RSP));
    assert a + [] == a && b + [M.CallName(name)] + [] == b + [M.CallName(name)];
  }

  lemma {:induction false} SameArgs(args: N.Args, v: View)
    ensures GenArgs(WidenArgs(args), v) ==
      if N.CompilableArgs(args) then Done(Grown(v, K.ArgsCode(args, v.nextLabel, v.stack), K.ArgsLabels(args), 8 * N.Count(args))) else Refused
    decreases args
  {
    hide Grown, GenExpr, N.Compilable, K.ExprCode, K.ExprLabels, Widen, PushReg, ConvertStored;
    match args {
      case NoArgs => Nothing(v);
      case Arg(e, tail) =>
        SameExpr(e, v);
        WholeKind(e);
        if N.Compilable(e) {
          var c, n := K.ExprCode(e, v.nextLabel, v.stack), K.ExprLabels(e);
          WholeConversions(Grown(v, c, n, 0), Long, Widen(e).kind);
          MorePush(v, c, n, 0, M.RAX);
          var a := c + [M.Push(M.RAX)];
          GrownParts(v, a, n, 8);
          SameArgs(tail, Grown(v, a, n, 8));
          Twice(v, a, n, 8, K.ArgsCode(tail, v.nextLabel + n, v.stack + 8), K.ArgsLabels(tail), 8 * N.Count(tail));
        }
    }
  }

  lemma {:induction false} SameCall(e: N.Expr, v: View)
    requires e.Call?
    ensures Agrees(GenExpr(Widen(e), v), N.Compilable(e), v, K.ExprCode(e, v.nextLabel, v.stack), K.ExprLabels(e))
    decreases e, 0
  {
    hide Grown, GenExpr, GenArgs, SaveRegisters, LoadArguments, RestoreRegisters, Transfer, WidenArgs, Kinds, Floats, Wholes,
      K.ExprCode, K.ArgsCode, K.SaveArgRegs, K.RestoreArgRegs, K.PadCode;
    var ks := Kinds(WidenArgs(e.args));
    var k := N.Count(e.args);
    WidenedKinds(e.args);
    NoneFloats(ks);
    GenExprCall(e, v);
    CallCode(e, v.nextLabel, v.stack);
    if k <= 6 {
      SavesAgree(v, ks);
      var a := K.SaveArgRegs(k);
      GrownParts(v, a, 0, 8 * k);
      SameArgs(e.args, Grown(v, a, 0, 8 * k));
      if N.CompilableArgs(e.args) {
        var n := K.ArgsLabels(e.args);
        var b := K.ArgsCode(e.args, v.nextLabel, v.stack + 8 * k);
        Twice(v, a, 0, 8 * k, b, n, 8 * k);
        var eight: int := 8 * k;
        var w := Grown(v, a + b, n, eight + eight);
        RestoresAgree(w, ks);
        var r := K.RestoreArgRegs(k);
        Twice(v, a + b, n, eight + eight, r, 0, -eight);
        GrownParts(v, a + b + r, n, 8 * k);
        var x := Grown(v, a + b + r, n, 8 * k);
        TransferAgrees(x, e.name);
        var t := [M.MovImm(0, M.RAX)] + K.PadCode(v.stack + 8 * k, M.Sub) + [M.CallName(e.name)] + K.PadCode(v.stack + 8 * k, M.Add);
        Twice(v, a + b + r, n, 8 * k, t, 0, 0);
        RestoresAgree(Grown(v, a + b + r + t, n, 8 * k), ks);
        Twice(v, a + b + r + t, n, eight, r, 0, -eight);
        CallPieces(a, b, r, [M.MovImm(0, M.RAX)], K.PadCode(v.stack + 8 * k, M.Sub), [M.CallName(e.name)], K.PadCode(v.stack + 8 * k, M.Add));
      }
    }
  }

  lemma CallPieces(a: seq<M.Instr>, b: seq<M.Instr>, r: seq<M.Instr>, c: seq<M.Instr>, p: seq<M.Instr>, d: seq<M.Instr>, q: seq<M.Instr>)
    ensures a + b + r + (c + p + d + q) + r == a + b + (r + c + p + d + q + r)
  {
  }

  lemma CallCode(e: N.Expr, n: nat, d: int)
    requires e.Call?
    ensures N.Compilable(e) == (N.Count(e.args) <= 6 && N.CompilableArgs(e.args)) && K.ExprLabels(e) == K.ArgsLabels(e.args)
    ensures var k := N.Count(e.args);
      k <= 6 ==> K.ExprCode(e, n, d) == K.SaveArgRegs(k) + K.ArgsCode(e.args, n, d + 8 * k) + K.TransferCode(e.name, k, d + 8 * k)
  {
  }

  lemma GenExprCall(e: N.Expr, v: View)
    requires e.Call?
    ensures GenExpr(Widen(e), v) == GenCall(Call(Long, e.name, WidenArgs(e.args)), v)
  {
    hide GenCall, WidenArgs;
  }

  // --------------------------------------------------------- statements

  /** Either it is an error for both, or both emit this code and leave these slots. */
  ghost predicate AgreesStmt(r: Result, q: Option<S.Raw>, v: View, labels: nat) {
    r == if q.None? then Refused else Done(Left(v, q.value.code, labels, q.value.slots))
  }

  function Left(v: View, c: seq<M.Instr>, labels: nat, slots: S.Slots): View {
    Grown(v, c, labels, 0).(slots := slots)
  }

  lemma LeftParts(v: View, c: seq<M.Instr>, labels: nat, x: S.Slots)
    ensures var w := Left(v, c, labels, x); w.nextLabel == v.nextLabel + labels && w.stack == v.stack && w.slots == x
    ensures Left(v, c, labels, v.slots) == Grown(v, c, labels, 0)
  {
  }

  /** More code after a statement's, or after code that changes no slot. */
  lemma LeftMore(v: View, a: seq<M.Instr>, m: nat, x: S.Slots, b: seq<M.Instr>, n: nat, y: S.Slots)
    ensures Left(Left(v, a, m, x), b, n, y) == Left(v, a + b, m + n, y)
    ensures Grown(Left(v, a, m, x), b, n, 0) == Left(v, a + b, m + n, x)
  {
    SeenAppend(a, b);
  }

  lemma LeftEmit(v: View, a: seq<M.Instr>, m: nat, x: S.Slots, i: M.Instr)
    ensures Emit(Left(v, a, m, x), Seen(i)) == Left(v, a + [i], m, x)
  {
    OneMore(Left(v, a, m, x), i);
    LeftMore(v, a, m, x, [i], 0, x);
  }

  lemma LeftFresh(v: View, a: seq<M.Instr>, m: nat, x: S.Slots)
    ensures Fresh(Left(v, a, m, x)) == Left(v, a, m + 1, x)
  {
  }

  lemma LeftJump(v: View, a: seq<M.Instr>, m: nat, x: S.Slots, l: nat)
    ensures JumpIfZero(Left(v, a, m, x), l) == Left(v, a + [M.Test, M.Je(l)], m, x)
  {
    hide Left, Emit;
    LeftEmit(v, a, m, x, M.Test);
    LeftEmit(v, a + [M.Test], m, x, M.Je(l));
    assert a + [M.Test] + [M.Je(l)] == a + [M.Test, M.Je(l)];
  }

  lemma LeftLoopEnd(v: View, a: seq<M.Instr>, m: nat, x: S.Slots, begin: nat, end: nat)
    ensures CloseLoop(LoopEnd(Left(v, a, m, x), begin, end)) == Left(v, a + [M.Jmp(begin), M.Label(end)], m, S.Restore(x))
  {
    hide Emit, Grown;
    LeftEmit(v, a, m, x, M.Jmp(begin));
    LeftEmit(v, a + [M.Jmp(begin)], m, x, M.Label(end));
    assert a + [M.Jmp(begin)] + [M.Label(end)] == a + [M.Jmp(begin), M.Label(end)];
  }

  /** An expression inside a statement. */
  lemma ExprLeft(e: N.Expr, v: View, a: seq<M.Instr>, m: nat, x: S.Slots)
    ensures GenExpr(Widen(e), Left(v, a, m, x)) ==
      if N.Compilable(e) then Done(Left(v, a + K.ExprCode(e, v.nextLabel + m, v.stack), m + K.ExprLabels(e), x)) else Refused
  {
    hide Left, Grown, GenExpr, Widen, K.ExprCode, K.ExprLabels, N.Compilable;
    LeftParts(v, a, m, x);
    SameExpr(e, Left(v, a, m, x));
    LeftMore(v, a, m, x, K.ExprCode(e, v.nextLabel + m, v.stack), K.ExprLabels(e), x);
  }

  lemma OptionLeft(e: Option<N.Expr>, v: View, a: seq<M.Instr>, m: nat, x: S.Slots)
    ensures GenOption(WidenOption(e), Left(v, a, m, x)) ==
      if N.CompilableOption(e) then Done(Left(v, a + K.OptionCode(e, v.nextLabel + m, v.stack), m + K.OptionLabels(e), x)) else Refused
  {
    hide Left, GenExpr, Widen, K.ExprCode, K.ExprLabels, N.Compilable;
    if e.Some? {
      ExprLeft(e.value, v, a, m, x);
    } else {
      assert a + [] == a;
    }
  }

  lemma StartLeft(v: View)
    ensures Left(v, [], 0, v.slots) == v
  {
    Nothing(v);
  }

  /** A statement inside another. */
  lemma {:induction false} StmtLeft(s: N.Stmt, v: View, a: seq<M.Instr>, m: nat, x: S.Slots)
    ensures GenStmt(WidenStmt(s), Left(v, a, m, x)) ==
      var q := S.RawStmt(s, v.nextLabel + m, v.stack, x);
      if q.None? then Refused else Done(Left(v, a + q.value.code, m + K.StmtLabels(s), q.value.slots))
    decreases s, 2
  {
    hide Left, GenStmt, WidenStmt, S.RawStmt, K.StmtLabels;
    LeftParts(v, a, m, x);
    SameStmt(s, Left(v, a, m, x));
    var q := S.RawStmt(s, v.nextLabel + m, v.stack, x);
    if q.Some? {
      LeftMore(v, a, m, x, q.value.code, K.StmtLabels(s), q.value.slots);
    }
  }

  /** The two views of a statement's code agree, errors and slots included: what the one
      emits is what is seen of the other. */
  lemma {:induction false} SameStmt(s: N.Stmt, v: View)
    ensures AgreesStmt(GenStmt(WidenStmt(s), v), S.RawStmt(s, v.nextLabel, v.stack, v.slots), v, K.StmtLabels(s))
    decreases s, 1
  {
    hide *;
    StartLeft(v);
    match s {
      case Sequence(_, _) => SameSequence(s, v);
      case If(_, _) => SameIf(s, v);
      case IfElse(_, _, _) => SameIfElse(s, v);
      case While(_, _) => SameWhile(s, v);
      case DoWhile(_, _) => SameDo(s, v);
      case For(_, _, _, _) => SameFor(s, v);
      case Switch(_, _) => SameSwitch(s, v);
      case _ => SameSimple(s, v);
    }
  }

  lemma {:induction false} SameSequence(s: N.Stmt, v: View)
    requires s.Sequence?
    ensures AgreesStmt(GenStmt(WidenStmt(s), v), S.RawStmt(s, v.nextLabel, v.stack, v.slots), v, K.StmtLabels(s))
    decreases s, 0
  {
    hide Left, GenStmt, WidenStmt, S.RawStmt, K.StmtLabels;
    E.LabelsLevel(s);
    var r := S.RawStmt(s.first, v.nextLabel, v.stack, v.slots);
    E.SequenceIs(s, v.nextLabel, v.stack, v.slots, r);
    SequenceLevel(s, v);
    StartLeft(v);
    StmtLeft(s.first, v, [], 0, v.slots);
    if r.Some? {
      assert [] + r.value.code == r.value.code;
      StmtLeft(s.rest, v, r.value.code, K.StmtLabels(s.first), r.value.slots);
    }
  }

  lemma SequenceLevel(s: N.Stmt, v: View)
    requires s.Sequence?
    ensures GenStmt(WidenStmt(s), v) ==
      var w := GenStmt(WidenStmt(s.first), v);
      if w.Refused? then Refused else GenStmt(WidenStmt(s.rest), w.view)
  {
  }

  lemma {:induction false} SameIf(s: N.Stmt, v: View)
    requires s.If?
    ensures AgreesStmt(GenStmt(WidenStmt(s), v), S.RawStmt(s, v.nextLabel, v.stack, v.slots), v, K.StmtLabels(s))
    decreases s, 0
  {
    hide Left, GenStmt, GenExpr, Widen, WidenStmt, S.RawStmt, K.StmtLabels, K.ExprCode, K.ExprLabels, N.Compilable, JumpIfZero, Emit, Fresh;
    E.LabelsLevel(s);
    var n, k := v.nextLabel, K.ExprLabels(s.cond);
    var r := S.RawStmt(s.yes, n + k + 1, v.stack, v.slots);
    E.IfGenerated(s, n, v.stack, v.slots, r);
    IfLevel(s, v);
    StartLeft(v);
    ExprLeft(s.cond, v, [], 0, v.slots);
    var c := K.ExprCode(s.cond, n, v.stack);
    assert [] + c == c;
    if N.Compilable(s.cond) {
      LeftParts(v, c, k, v.slots);
      LeftFresh(v, c, k, v.slots);
      LeftJump(v, c, k + 1, v.slots, n + k);
      var a := c + [M.Test, M.Je(n + k)];
      StmtLeft(s.yes, v, a, k + 1, v.slots);
      if r.Some? {
        LeftEmit(v, a + r.value.code, k + 1 + K.StmtLabels(s.yes), r.value.slots, M.Label(n + k));
        assert a + r.value.code + [M.Label(n + k)] == a + (r.value.code + [M.Label(n + k)]);
      }
    }
  }

  lemma IfLevel(s: N.Stmt, v: View)
    requires s.If?
    ensures GenStmt(WidenStmt(s), v) ==
      var w := GenExpr(Widen(s.cond), v);
      if w.Refused? then Refused else
        var x := GenStmt(WidenStmt(s.yes), JumpIfZero(Fresh(w.view), w.view.nextLabel));
        if x.Refused? then Refused else Done(Emit(x.view, Mark(w.view.nextLabel)))
  {
    hide GenExpr, Widen, JumpIfZero, Emit, Fresh;
  }

  lemma {:induction false} SameIfElse(s: N.Stmt, v: View)
    requires s.IfElse?
    ensures AgreesStmt(GenStmt(WidenStmt(s), v), S.RawStmt(s, v.nextLabel, v.stack, v.slots), v, K.StmtLabels(s))
    decreases s, 0
  {
    hide Left, GenStmt, GenExpr, Widen, WidenStmt, S.RawStmt, K.StmtLabels, K.ExprCode, K.ExprLabels, N.Compilable, JumpIfZero, Emit, Fresh;
    E.LabelsLevel(s);
    var n, k, j := v.nextLabel, K.ExprLabels(s.cond), K.StmtLabels(s.yes);
    var ne, end := n + k, n + k + 1 + j;
    var r := S.RawStmt(s.yes, ne + 1, v.stack, v.slots);
    var q := if r.None? then None else S.RawStmt(s.no, end + 1, v.stack, r.value.slots);
    E.IfElseGenerated(s, n, v.stack, v.slots, ne, end, r, q);
    IfElseLevel(s, v);
    StartLeft(v);
    ExprLeft(s.cond, v, [], 0, v.slots);
    var c := K.ExprCode(s.cond, n, v.stack);
    assert [] + c == c;
    if N.Compilable(s.cond) {
      LeftParts(v, c, k, v.slots);
      LeftFresh(v, c, k, v.slots);
      LeftJump(v, c, k + 1, v.slots, ne);
      var a := c + [M.Test, M.Je(ne)];
      StmtLeft(s.yes, v, a, k + 1, v.slots);
      if r.Some? {
        var b := a + r.value.code;
        LeftArms(v, b, k + 1 + j, r.value.slots, ne, end);
        StmtLeft(s.no, v, b + [M.Jmp(end), M.Label(ne)], k + 1 + j + 1, r.value.slots);
        if q.Some? {
          LeftEmit(v, b + [M.Jmp(end), M.Label(ne)] + q.value.code, k + 1 + j + 1 + K.StmtLabels(s.no), q.value.slots, M.Label(end));
          assert b + [M.Jmp(end), M.Label(ne)] + q.value.code + [M.Label(end)] ==
            a + (r.value.code + [M.Jmp(end), M.Label(ne)] + (q.value.code + [M.Label(end)]));
        }
      }
    }
  }

  lemma LeftArms(v: View, b: seq<M.Instr>, m: nat, x: S.Slots, ne: nat, end: nat)
    requires end == v.nextLabel + m
    ensures var w := Left(v, b, m, x);
      w.nextLabel == end && Emit(Emit(Fresh(w), Jump(end)), Mark(ne)) == Left(v, b + [M.Jmp(end), M.Label(ne)], m + 1, x)
  {
    hide Left, Emit, Fresh;
    LeftParts(v, b, m, x);
    LeftFresh(v, b, m, x);
    LeftEmit(v, b, m + 1, x, M.Jmp(end));
    LeftEmit(v, b + [M.Jmp(end)], m + 1, x, M.Label(ne));
    assert b + [M.Jmp(end)] + [M.Label(ne)] == b + [M.Jmp(end), M.Label(ne)];
  }

  lemma IfElseLevel(s: N.Stmt, v: View)
    requires s.IfElse?
    ensures GenStmt(WidenStmt(s), v) ==
      var w := GenExpr(Widen(s.cond), v);
      if w.Refused? then Refused else
        var x := GenStmt(WidenStmt(s.yes), JumpIfZero(Fresh(w.view), w.view.nextLabel));
        if x.Refused? then Refused else
          var y := GenStmt(WidenStmt(s.no), Emit(Emit(Fresh(x.view), Jump(x.view.nextLabel)), Mark(w.view.nextLabel)));
          if y.Refused? then Refused else Done(Emit(y.view, Mark(x.view.nextLabel)))
  {
    hide GenExpr, Widen, JumpIfZero, Emit, Fresh;
  }

  /** A loop's labels and slots. */
  lemma LeftOpen(v: View, a: seq<M.Instr>, m: nat, x: S.Slots, end: nat, next: nat, begin: nat)
    ensures OpenLoop(Left(v, a, m, x), end, next, begin) == Left(v, a + [M.Label(begin)], m + 2, S.Save(x, end, next))
  {
    hide Emit;
    LeftFresh(v, a, m, x);
    LeftFresh(v, a, m + 1, x);
    LeftEmit(v, a, m + 2, S.Save(x, end, next), M.Label(begin));
  }

  lemma {:induction false} SameWhile(s: N.Stmt, v: View)
    requires s.While?
    ensures AgreesStmt(GenStmt(WidenStmt(s), v), S.RawStmt(s, v.nextLabel, v.stack, v.slots), v, K.StmtLabels(s))
    decreases s, 0
  {
    hide Left, GenStmt, GenExpr, Widen, WidenStmt, S.RawStmt, K.StmtLabels, K.ExprCode, K.ExprLabels, N.Compilable, JumpIfZero, OpenLoop,
      CloseLoop, LoopEnd;
    E.LabelsLevel(s);
    var n, k := v.nextLabel, K.ExprLabels(s.cond);
    var y := S.Save(v.slots, n + 1, n);
    var r := S.RawStmt(s.body, n + 2 + k, v.stack, y);
    E.WhileGenerated(s, n, v.stack, v.slots, r);
    WhileLevel(s, v);
    StartLeft(v);
    LeftOpen(v, [], 0, v.slots, n + 1, n, n);
    var a := [M.Label(n)];
    assert [] + a == a;
    ExprLeft(s.cond, v, a, 2, y);
    if N.Compilable(s.cond) {
      var c := K.ExprCode(s.cond, n + 2, v.stack);
      LeftJump(v, a + c, 2 + k, y, n + 1);
      var b := a + c + [M.Test, M.Je(n + 1)];
      StmtLeft(s.body, v, b, 2 + k, y);
      if r.Some? {
        LeftLoopEnd(v, b + r.value.code, 2 + k + K.StmtLabels(s.body), r.value.slots, n, n + 1);
        assert b + r.value.code + [M.Jmp(n), M.Label(n + 1)] == b + (r.value.code + [M.Jmp(n), M.Label(n + 1)]);
      }
    }
  }

  lemma WhileLevel(s: N.Stmt, v: View)
    requires s.While?
    ensures GenStmt(WidenStmt(s), v) ==
      var begin, end := v.nextLabel, v.nextLabel + 1;
      var w := GenExpr(Widen(s.cond), OpenLoop(v, end, begin, begin));
      if w.Refused? then Refused else
        var x := GenStmt(WidenStmt(s.body), JumpIfZero(w.view, end));
        if x.Refused? then Refused else Done(CloseLoop(LoopEnd(x.view, begin, end)))
  {
    hide GenExpr, Widen, JumpIfZero, OpenLoop, CloseLoop, LoopEnd;
  }

  lemma {:induction false} SameDo(s: N.Stmt, v: View)
    requires s.DoWhile?
    ensures AgreesStmt(GenStmt(WidenStmt(s), v), S.RawStmt(s, v.nextLabel, v.stack, v.slots), v, K.StmtLabels(s))
    decreases s, 0
  {
    hide Left, GenStmt, GenExpr, Widen, WidenStmt, S.RawStmt, K.StmtLabels, K.ExprCode, K.ExprLabels, N.Compilable, JumpIfZero, OpenLoop,
      CloseLoop, LoopEnd;
    E.LabelsLevel(s);
    var n := v.nextLabel;
    var y := S.Save(v.slots, n + 1, n);
    var r := S.RawStmt(s.body, n + 2, v.stack, y);
    E.DoGenerated(s, n, v.stack, v.slots, r);
    DoLevel(s, v);
    StartLeft(v);
    LeftOpen(v, [], 0, v.slots, n + 1, n, n);
    var a := [M.Label(n)];
    assert [] + a == a;
    StmtLeft(s.body, v, a, 2, y);
    if r.Some? {
      var j := K.StmtLabels(s.body);
      ExprLeft(s.cond, v, a + r.value.code, 2 + j, r.value.slots);
      if N.Compilable(s.cond) {
        var c, k := K.ExprCode(s.cond, n + 2 + j, v.stack), K.ExprLabels(s.cond);
        LeftJump(v, a + r.value.code + c, 2 + j + k, r.value.slots, n + 1);
        LeftLoopEnd(v, a + r.value.code + c + [M.Test, M.Je(n + 1)], 2 + j + k, r.value.slots, n, n + 1);
        assert a + r.value.code + c + [M.Test, M.Je(n + 1)] + [M.Jmp(n), M.Label(n + 1)] ==
          a + r.value.code + (c + [M.Test, M.Je(n + 1)] + [M.Jmp(n), M.Label(n + 1)]);
      }
    }
  }

  lemma DoLevel(s: N.Stmt, v: View)
    requires s.DoWhile?
    ensures GenStmt(WidenStmt(s), v) ==
      var begin, end := v.nextLabel, v.nextLabel + 1;
      var w := GenStmt(WidenStmt(s.body), OpenLoop(v, end, begin, begin));
      if w.Refused? then Refused else
        var x := GenExpr(Widen(s.cond), w.view);
        if x.Refused? then Refused else Done(CloseLoop(LoopEnd(JumpIfZero(x.view, end), begin, end)))
  {
    hide GenExpr, Widen, JumpIfZero, OpenLoop, CloseLoop, LoopEnd;
  }

  lemma {:induction false} SameFor(s: N.Stmt, v: View)
    requires s.For?
    ensures AgreesStmt(GenStmt(WidenStmt(s), v), S.RawStmt(s, v.nextLabel, v.stack, v.slots), v, K.StmtLabels(s))
    decreases s, 0
  {
    hide Left, GenStmt, ForLoop, WidenStmt, WidenOption, S.RawStmt, S.ForFrame, K.StmtLabels, K.OptionLabels, N.CompilableOption;
    E.LabelsLevel(s);
    var n, j := v.nextLabel, K.StmtLabels(s.init);
    var b := n + j;
    var r := S.RawStmt(s.init, n, v.stack, v.slots);
    var q := if r.None? then None else E.RawForBody(s, b, v.stack, r.value.slots);
    E.ForGenerated(s, n, v.stack, v.slots, b, r, q);
    ForLevel(s, v);
    StartLeft(v);
    StmtLeft(s.init, v, [], 0, v.slots);
    if r.Some? {
      assert [] + r.value.code == r.value.code;
      SameForLoop(s, v, r.value.code, j, r.value.slots, q);
    }
  }

  lemma ForLevel(s: N.Stmt, v: View)
    requires s.For?
    ensures GenStmt(WidenStmt(s), v) ==
      var w := GenStmt(WidenStmt(s.init), v);
      if w.Refused? then Refused else ForLoop(WidenStmt(s), w.view)
  {
    hide ForLoop;
  }

  /** The labels of a for statement and its test. */
  lemma ForTestLeft(s: N.Stmt, v: View, a: seq<M.Instr>, m: nat, x: S.Slots)
    requires s.For?
    ensures var b := v.nextLabel + m;
      var r := GenOption(WidenOption(s.test), OpenLoop(Fresh(Left(v, a, m, x)), b + 2, b + 1, b));
      var c := a + ([M.Label(b)] + K.TestCode(s.test, b + 3, v.stack, b + 2));
      var w := Left(v, c, m + 3 + K.OptionLabels(s.test), S.Save(x, b + 2, b + 1));
      r.Done? == N.CompilableOption(s.test) && (r.Done? ==> (if s.test.Some? then JumpIfZero(r.view, b + 2) else r.view) == w)
  {
    hide Left, GenOption, WidenOption, K.OptionLabels, K.OptionCode, N.CompilableOption, JumpIfZero, OpenLoop, Fresh, K.TestCode;
    var b := v.nextLabel + m;
    var y := S.Save(x, b + 2, b + 1);
    LeftFresh(v, a, m, x);
    LeftOpen(v, a, m + 1, x, b + 2, b + 1, b);
    var a1 := a + [M.Label(b)];
    OptionLeft(s.test, v, a1, m + 3, y);
    if N.CompilableOption(s.test) {
      LeftJump(v, a1 + K.OptionCode(s.test, b + 3, v.stack), m + 3 + K.OptionLabels(s.test), y, b + 2);
      TestSplit(s.test, a1, b + 3, v.stack, b + 2);
      assert a1 + K.TestCode(s.test, b + 3, v.stack, b + 2) == a + ([M.Label(b)] + K.TestCode(s.test, b + 3, v.stack, b + 2));
    }
  }

  /** From the end of a for statement's body: its step and its end. */
  lemma ForStepLeft(s: N.Stmt, v: View, c: seq<M.Instr>, k: nat, x: S.Slots, b: nat)
    requires s.For?
    ensures var r := GenOption(WidenOption(s.step), Emit(Left(v, c, k, x), Mark(b + 1)));
      var tail := [M.Label(b + 1)] + K.OptionCode(s.step, v.nextLabel + k, v.stack) + [M.Jmp(b), M.Label(b + 2)];
      var w := Left(v, c + tail, k + K.OptionLabels(s.step), S.Restore(x));
      r.Done? == N.CompilableOption(s.step) && (r.Done? ==> CloseLoop(LoopEnd(r.view, b, b + 2)) == w)
  {
    hide Left, GenOption, WidenOption, K.OptionLabels, K.OptionCode, N.CompilableOption, CloseLoop, LoopEnd, Emit;
    LeftEmit(v, c, k, x, M.Label(b + 1));
    var c1 := c + [M.Label(b + 1)];
    OptionLeft(s.step, v, c1, k, x);
    if N.CompilableOption(s.step) {
      var e := K.OptionCode(s.step, v.nextLabel + k, v.stack);
      LeftLoopEnd(v, c1 + e, k + K.OptionLabels(s.step), x, b, b + 2);
      assert c1 + e + [M.Jmp(b), M.Label(b + 2)] == c + ([M.Label(b + 1)] + e + [M.Jmp(b), M.Label(b + 2)]);
    }
  }

  /** A for statement after its first clause. */
  lemma {:induction false} SameForLoop(s: N.Stmt, v: View, a: seq<M.Instr>, m: nat, x: S.Slots, q: Option<S.Raw>)
    requires s.For? && q == E.RawForBody(s, v.nextLabel + m, v.stack, x)
    ensures ForLoop(WidenStmt(s), Left(v, a, m, x)) ==
      if !N.CompilableOption(s.test) || !N.CompilableOption(s.step) || q.None? then Refused else
        Done(Left(v, a + S.ForFrame(s, v.nextLabel + m, v.stack, q.value.code),
          m + 3 + K.OptionLabels(s.test) + K.StmtLabels(s.body) + K.OptionLabels(s.step), S.Restore(q.value.slots)))
    decreases s, 0, 0
  {
    hide Left, GenStmt, GenOption, ForLoop, WidenStmt, WidenOption, S.RawStmt, K.StmtLabels, K.OptionLabels, K.OptionCode, N.CompilableOption,
      JumpIfZero, OpenLoop, CloseLoop, LoopEnd, Emit, Fresh, K.TestCode;
    var b := v.nextLabel + m;
    var y := S.Save(x, b + 2, b + 1);
    LeftParts(v, a, m, x);
    ForLoopLevel(s, Left(v, a, m, x));
    ForTestLeft(s, v, a, m, x);
    if N.CompilableOption(s.test) {
      var k := m + 3 + K.OptionLabels(s.test);
      var c := a + ([M.Label(b)] + K.TestCode(s.test, b + 3, v.stack, b + 2));
      StmtLeft(s.body, v, c, k, y);
      if q.Some? {
        ForStepLeft(s, v, c + q.value.code, k + K.StmtLabels(s.body), q.value.slots, b);
        ForPieces(s, a, b, v.stack, q.value.code);
      }
    }
  }

  lemma ForPieces(s: N.Stmt, a: seq<M.Instr>, b: nat, d: int, body: seq<M.Instr>)
    requires s.For?
    ensures a + ([M.Label(b)] + K.TestCode(s.test, b + 3, d, b + 2)) + body +
      ([M.Label(b + 1)] + K.OptionCode(s.step, b + 3 + K.OptionLabels(s.test) + K.StmtLabels(s.body), d) + [M.Jmp(b), M.Label(b + 2)]) ==
      a + S.ForFrame(s, b, d, body)
  {
    hide K.TestCode, K.OptionCode, K.OptionLabels, K.StmtLabels;
  }

  lemma TestSplit(e: Option<N.Expr>, a: seq<M.Instr>, n: nat, d: int, end: nat)
    ensures a + K.TestCode(e, n, d, end) ==
      if e.Some? then a + K.OptionCode(e, n, d) + [M.Test, M.Je(end)] else a + K.OptionCode(e, n, d)
  {
    hide K.ExprCode;
  }

  lemma ForLoopLevel(s: N.Stmt, v: View)
    requires s.For?
    ensures WidenStmt(s).For? && ForLoop(WidenStmt(s), v) ==
      var begin, next, end := v.nextLabel, v.nextLabel + 1, v.nextLabel + 2;
      var x := GenOption(WidenOption(s.test), OpenLoop(Fresh(v), end, next, begin));
      if x.Refused? then Refused else
        var y := GenStmt(WidenStmt(s.body), if s.test.Some? then JumpIfZero(x.view, end) else x.view);
        if y.Refused? then Refused else
          var z := GenOption(WidenOption(s.step), Emit(y.view, Mark(next)));
          if z.Refused? then Refused else Done(CloseLoop(LoopEnd(z.view, begin, end)))
  {
    hide GenExpr, Widen, JumpIfZero, OpenLoop, CloseLoop, LoopEnd, Emit, Fresh, GenOption;
  }

  lemma {:induction false} SameSwitch(s: N.Stmt, v: View)
    requires s.Switch?
    ensures AgreesStmt(GenStmt(WidenStmt(s), v), S.RawStmt(s, v.nextLabel, v.stack, v.slots), v, K.StmtLabels(s))
    decreases s, 0
  {
    hide Left, GenStmt, GenExpr, Widen, WidenStmt, S.RawStmt, K.StmtLabels, K.ExprCode, K.ExprLabels, N.Compilable, Emit, OpenSwitch, KeepSwitch;
    E.LabelsLevel(s);
    var n, k := v.nextLabel, K.ExprLabels(s.e);
    var l := n + k;
    var y := S.SwitchSave(v.slots, l);
    var r := S.RawStmt(s.body, l + 2, v.stack, y);
    E.SwitchGenerated(s, n, v.stack, v.slots, l, r);
    SwitchLevel(s, v);
    KeepLeft(v);
    var x := v.slots.(swStore := v.slots.sw, brkStore := v.slots.brk);
    ExprLeft(s.e, v, [], 0, x);
    if N.Compilable(s.e) {
      var c := K.ExprCode(s.e, n, v.stack);
      assert [] + c == c;
      OpenLeft(v, c, k, x, l);
      StmtLeft(s.body, v, c + [M.Jmp(l)], k + 2, y);
      if r.Some? && r.value.slots.sw.Some? && r.value.slots.brk.Some? {
        var b, j := c + [M.Jmp(l)] + r.value.code, k + 2 + K.StmtLabels(s.body);
        var p, q := r.value.slots.sw.value, r.value.slots.brk.value;
        LeftParts(v, b, j, r.value.slots);
        LeftEmit(v, b, j, r.value.slots, M.Label(p));
        LeftEmit(v, b + [M.Label(p)], j, r.value.slots, M.Label(q));
        LeftSlots(v, b + [M.Label(p)] + [M.Label(q)], j, r.value.slots, S.SwitchRestore(r.value.slots));
        assert b + [M.Label(p)] + [M.Label(q)] == c + [M.Jmp(l)] + (r.value.code + [M.Label(p), M.Label(q)]);
      }
      if r.Some? {
        LeftParts(v, c + [M.Jmp(l)] + r.value.code, k + 2 + K.StmtLabels(s.body), r.value.slots);
      }
    }
  }

  lemma KeepLeft(v: View)
    ensures KeepSwitch(v) == Left(v, [], 0, v.slots.(swStore := v.slots.sw, brkStore := v.slots.brk))
  {
    Nothing(v);
  }

  lemma LeftSlots(v: View, a: seq<M.Instr>, m: nat, x: S.Slots, y: S.Slots)
    ensures Left(v, a, m, x).(slots := y) == Left(v, a, m, y)
  {
  }

  lemma OpenLeft(v: View, c: seq<M.Instr>, k: nat, x: S.Slots, l: nat)
    requires x == v.slots.(swStore := v.slots.sw, brkStore := v.slots.brk) && l == v.nextLabel + k
    ensures OpenSwitch(Left(v, c, k, x)) == Left(v, c + [M.Jmp(l)], k + 2, S.SwitchSave(v.slots, l))
  {
    hide Emit;
    LeftFresh(v, c, k, x);
    LeftFresh(v, c, k + 1, x);
    LeftEmit(v, c, k + 2, S.SwitchSave(v.slots, l), M.Jmp(l));
  }

  lemma SwitchLevel(s: N.Stmt, v: View)
    requires s.Switch?
    ensures GenStmt(WidenStmt(s), v) ==
      var w := GenExpr(Widen(s.e), KeepSwitch(v));
      if w.Refused? then Refused else
        var x := GenStmt(WidenStmt(s.body), OpenSwitch(w.view));
        if x.Refused? || x.view.slots.sw.None? || x.view.slots.brk.None? then Refused else
          Done(Emit(Emit(x.view, Mark(x.view.slots.sw.value)), Mark(x.view.slots.brk.value)).(slots := S.SwitchRestore(x.view.slots)))
  {
    hide GenExpr, Widen, KeepSwitch, OpenSwitch, Emit;
  }

  lemma SameSimple(s: N.Stmt, v: View)
    requires !s.Sequence? && !s.If? && !s.IfElse? && !s.While? && !s.DoWhile? && !s.For? && !s.Switch?
    ensures AgreesStmt(GenStmt(WidenStmt(s), v), S.RawStmt(s, v.nextLabel, v.stack, v.slots), v, K.StmtLabels(s))
  {
    hide AgreesStmt, GenStmt, S.RawStmt;
    match s {
      case Skip => SameJump(s, v);
      case Break => SameJump(s, v);
      case Continue => SameJump(s, v);
      case Expression(e) => SameExpression(e, v);
      case Initialize(offset, e) => SameInitialize(offset, e, v);
      case Return(r) => SameReturn(r, v);
      case Case(value) => SameCase(value, v);
      case Default => SameDefault(v);
    }
  }

  lemma SameJump(s: N.Stmt, v: View)
    requires s.Skip? || s.Break? || s.Continue?
    ensures AgreesStmt(GenStmt(WidenStmt(s), v), S.RawStmt(s, v.nextLabel, v.stack, v.slots), v, 0)
  {
    hide Left, Emit, GenStmt, S.RawStmt, WidenStmt;
    StartLeft(v);
    JumpLevel(s, v);
    RawJump(s, v.nextLabel, v.stack, v.slots);
    var l := if s.Break? then v.slots.brk else v.slots.cont;
    if !s.Skip? && l.Some? {
      LeftEmit(v, [], 0, v.slots, M.Jmp(l.value));
      assert [] + [M.Jmp(l.value)] == [M.Jmp(l.value)];
    }
  }

  lemma JumpLevel(s: N.Stmt, v: View)
    requires s.Skip? || s.Break? || s.Continue?
    ensures GenStmt(WidenStmt(s), v) ==
      if s.Skip? then Done(v) else
        var l := if s.Break? then v.slots.brk else v.slots.cont;
        if l.None? then Refused else Done(Emit(v, Jump(l.value)))
  {
    hide Emit;
  }

  lemma RawJump(s: N.Stmt, n: nat, d: int, x: S.Slots)
    requires s.Skip? || s.Break? || s.Continue?
    ensures S.RawStmt(s, n, d, x) ==
      if s.Skip? then Some(S.Raw([], x)) else
        var l := if s.Break? then x.brk else x.cont;
        if l.None? then None else Some(S.Raw([M.Jmp(l.value)], x))
  {
  }

  lemma SameExpression(e: N.Expr, v: View)
    ensures AgreesStmt(GenStmt(Expression(Widen(e)), v), S.RawStmt(N.Expression(e), v.nextLabel, v.stack, v.slots), v, K.ExprLabels(e))
  {
    hide Left, GenExpr, Widen, K.ExprCode, K.ExprLabels, N.Compilable;
    StartLeft(v);
    ExprLeft(e, v, [], 0, v.slots);
    assert [] + K.ExprCode(e, v.nextLabel, v.stack) == K.ExprCode(e, v.nextLabel, v.stack);
  }

  lemma SameInitialize(offset: int, e: N.Expr, v: View)
    ensures AgreesStmt(GenStmt(WidenStmt(N.Initialize(offset, e)), v), S.RawStmt(N.Initialize(offset, e), v.nextLabel, v.stack, v.slots), v,
      K.StmtLabels(N.Initialize(offset, e)))
  {
    hide Left, GenExpr, GenStmt, WidenStmt, S.RawStmt, K.ExprCode, K.ExprLabels, N.Compilable, Emit, SaveLocal, SaveLiteral, Widen;
    StartLeft(v);
    InitializeLevel(offset, e, v);
    RawInitialize(offset, e, v.nextLabel, v.stack, v.slots);
    if e.Literal? {
      LiteralAgrees(e.value, offset, v);
      LeftParts(v, K.InitializeCode(offset, e, v.nextLabel, v.stack), 0, v.slots);
    } else {
      ExprLeft(e, v, [], 0, v.slots);
      var c := K.ExprCode(e, v.nextLabel, v.stack);
      assert [] + c == c;
      SaveLocalSeen(Left(v, c, K.ExprLabels(e), v.slots), offset);
      LeftEmit(v, c, K.ExprLabels(e), v.slots, M.Store(M.RAX, offset, M.RBP));
    }
  }

  lemma RawInitialize(offset: int, e: N.Expr, n: nat, d: int, x: S.Slots)
    ensures S.RawStmt(N.Initialize(offset, e), n, d, x) ==
      if N.Compilable(e) then Some(S.Raw(K.InitializeCode(offset, e, n, d), x)) else None
    ensures e.Literal? ==> N.Compilable(e)
  {
    hide K.InitializeCode;
  }

  lemma InitializeLevel(offset: int, e: N.Expr, v: View)
    ensures GenStmt(WidenStmt(N.Initialize(offset, e)), v) ==
      if e.Literal? then SaveLiteral(v, Long, e.value, offset) else
        var w := GenExpr(Widen(e), v); if w.Refused? then Refused else Done(SaveLocal(w.view, Long, offset))
  {
    hide GenExpr, SaveLocal, SaveLiteral;
    var inits := Init(Widen(e), Long, 0, NoInits);
    assert GenStmt(WidenStmt(N.Initialize(offset, e)), v) == GenInits(inits, offset, v);
    if e.Literal? {
      assert Widen(e) == Literal(Long, e.value);
      OneInit(inits, offset, v);
    } else {
      NotLiteral(e);
      OneInit(inits, offset, v);
    }
  }

  lemma OneInit(inits: Inits, base: int, v: View)
    requires inits.Init? && inits.rest.NoInits?
    ensures GenInits(inits, base, v) ==
      if inits.value.Literal? then SaveLiteral(v, inits.kind, inits.value.value, base + inits.offset) else
        var w := GenExpr(inits.value, v); if w.Refused? then Refused else Done(SaveLocal(w.view, inits.kind, base + inits.offset))
  {
    hide GenExpr, SaveLocal, SaveLiteral;
  }

  lemma SaveLocalSeen(v: View, offset: int)
    ensures SaveLocal(v, Long, offset) == Emit(v, Seen(M.Store(M.RAX, offset, M.RBP)))
  {
  }

  lemma NotLiteral(e: N.Expr)
    requires !e.Literal?
    ensures !Widen(e).Literal?
  {
  }

  lemma LiteralAgrees(value: int, offset: int, v: View)
    ensures SaveLiteral(v, Long, value, offset) ==
      Done(Grown(v, [M.Push(M.RAX), M.MovImm(value, M.RAX), M.Store(M.RAX, offset, M.RBP), M.Pop(M.RAX)], 0, 0))
  {
    hide Grown;
    var a := [M.Push(M.RAX)];
    OnePush(v, M.RAX);
    More(v, a, 0, 8, M.MovImm(value, M.RAX));
    More(v, a + [M.MovImm(value, M.RAX)], 0, 8, M.Store(M.RAX, offset, M.RBP));
    MorePop(v, a + [M.MovImm(value, M.RAX)] + [M.Store(M.RAX, offset, M.RBP)], 0, 8, M.RAX);
    assert a + [M.MovImm(value, M.RAX)] + [M.Store(M.RAX, offset, M.RBP)] + [M.Pop(M.RAX)] ==
      [M.Push(M.RAX), M.MovImm(value, M.RAX), M.Store(M.RAX, offset, M.RBP), M.Pop(M.RAX)];
  }

  lemma SameReturn(r: Option<N.Expr>, v: View)
    ensures AgreesStmt(GenStmt(WidenStmt(N.Return(r)), v), S.RawStmt(N.Return(r), v.nextLabel, v.stack, v.slots), v, K.StmtLabels(N.Return(r)))
  {
    hide Left, GenExpr, Widen, K.ExprCode, K.ExprLabels, N.CompilableOption, Emit, GenOption, K.OptionCode, K.OptionLabels, ConvertStored,
      GenStmt, WidenStmt, S.RawStmt, WidenOption;
    StartLeft(v);
    ReturnLevel(r, v);
    RawReturn(r, v.nextLabel, v.stack, v.slots);
    OptionLeft(r, v, [], 0, v.slots);
    var c, n := K.OptionCode(r, v.nextLabel, v.stack), K.OptionLabels(r);
    assert [] + c == c;
    if r.Some? {
      WholeKind(r.value);
      WholeConversions(Left(v, c, n, v.slots), Long, Widen(r.value).kind);
    }
    LeftEmit(v, c, n, v.slots, M.Leave);
    LeftEmit(v, c + [M.Leave], n, v.slots, M.Ret);
    assert c + [M.Leave] + [M.Ret] == c + [M.Leave, M.Ret];
  }

  lemma RawReturn(r: Option<N.Expr>, n: nat, d: int, x: S.Slots)
    ensures S.RawStmt(N.Return(r), n, d, x) ==
      if N.CompilableOption(r) then Some(S.Raw(K.OptionCode(r, n, d) + [M.Leave, M.Ret], x)) else None
    ensures K.StmtLabels(N.Return(r)) == K.OptionLabels(r)
  {
    hide K.OptionCode, N.CompilableOption, K.OptionLabels;
  }

  lemma ReturnLevel(r: Option<N.Expr>, v: View)
    ensures GenStmt(WidenStmt(N.Return(r)), v) ==
      var w := GenOption(WidenOption(r), v);
      if w.Refused? then Refused else
        Done(Emit(Emit(if r.Some? then ConvertStored(w.view, Long, Widen(r.value).kind) else w.view, Leave), Ret))
  {
    hide GenOption, Emit, ConvertStored, Widen;
  }

  lemma SameCase(value: int, v: View)
    ensures AgreesStmt(GenStmt(Case(value), v), S.RawStmt(N.Case(value), v.nextLabel, v.stack, v.slots), v, 2)
  {
    hide Left, GenStmt, S.RawStmt, GenCase;
    CaseLevel(value, v);
    RawCase(value, v.nextLabel, v.stack, v.slots);
    if v.slots.sw.Some? {
      CaseAgrees(value, v);
    }
  }

  lemma CaseLevel(value: int, v: View)
    ensures GenStmt(Case(value), v) == if v.slots.sw.None? then Refused else Done(GenCase(v, value))
  {
    hide GenCase;
  }

  lemma RawCase(value: int, n: nat, d: int, x: S.Slots)
    ensures S.RawStmt(N.Case(value), n, d, x) == if x.sw.None? then None else
      Some(S.Raw([M.Jmp(n), M.Label(x.sw.value), M.CmpImm32(value), M.Jne(n + 1), M.Label(n)], x.(sw := Some(n + 1))))
    ensures S.RawStmt(N.Default, n, d, x) == if x.sw.None? then None else Some(S.Raw([M.Label(x.sw.value)], x.(sw := Some(n))))
  {
  }

  lemma CaseAgrees(value: int, v: View)
    requires v.slots.sw.Some?
    ensures var n := v.nextLabel;
      GenCase(v, value) == Left(v, [M.Jmp(n), M.Label(v.slots.sw.value), M.CmpImm32(value), M.Jne(n + 1), M.Label(n)], 2, v.slots.(sw := Some(n + 1)))
  {
    hide Left, Emit;
    StartLeft(v);
    var n, l, x := v.nextLabel, v.slots.sw.value, v.slots;
    var y := x.(sw := Some(n + 1));
    LeftFresh(v, [], 0, x);
    LeftEmit(v, [], 1, x, M.Jmp(n));
    var a := [] + [M.Jmp(n)];
    LeftEmit(v, a, 1, x, M.Label(l));
    LeftEmit(v, a + [M.Label(l)], 1, x, M.CmpImm32(value));
    var b := a + [M.Label(l)] + [M.CmpImm32(value)];
    LeftFresh(v, b, 1, x);
    LeftSlots(v, b, 2, x, y);
    LeftEmit(v, b, 2, y, M.Jne(n + 1));
    LeftEmit(v, b + [M.Jne(n + 1)], 2, y, M.Label(n));
    assert b + [M.Jne(n + 1)] + [M.Label(n)] == [M.Jmp(n), M.Label(l), M.CmpImm32(value), M.Jne(n + 1), M.Label(n)];
  }

  lemma SameDefault(v: View)
    ensures AgreesStmt(GenStmt(Default, v), S.RawStmt(N.Default, v.nextLabel, v.stack, v.slots), v, 1)
  {
    hide Left, GenStmt, S.RawStmt, GenDefault;
    DefaultLevel(v);
    RawCase(0, v.nextLabel, v.stack, v.slots);
    if v.slots.sw.Some? {
      DefaultAgrees(v);
    }
  }

  lemma DefaultLevel(v: View)
    ensures GenStmt(Default, v) == if v.slots.sw.None? then Refused else Done(GenDefault(v))
  {
    hide GenDefault;
  }

  lemma DefaultAgrees(v: View)
    requires v.slots.sw.Some?
    ensures GenDefault(v) == Left(v, [M.Label(v.slots.sw.value)], 1, v.slots.(sw := Some(v.nextLabel)))
  {
    hide Left, Emit;
    StartLeft(v);
    var n, l, x := v.nextLabel, v.slots.sw.value, v.slots;
    LeftEmit(v, [], 0, x, M.Label(l));
    var a := [] + [M.Label(l)];
    assert a == [M.Label(l)];
    LeftFresh(v, a, 0, x);
    LeftSlots(v, a, 1, x, x.(sw := Some(n)));
  }

  // ------------------------------------------------- what follows for both

  lemma {:induction false} NoGotos(s: N.Stmt, n: nat)
    ensures R.GotosBelow(WidenStmt(s), n)
    decreases s
  {
    match s {
      case Sequence(a, b) => NoGotos(a, n); NoGotos(b, n);
      case If(_, a) => NoGotos(a, n);
      case IfElse(_, a, b) => NoGotos(a, n); NoGotos(b, n);
      case While(_, body) => NoGotos(body, n);
      case DoWhile(body, _) => NoGotos(body, n);
      case For(init, _, _, body) => NoGotos(init, n); NoGotos(body, n);
      case Switch(_, body) => NoGotos(body, n);
      case _ =>
    }
  }

  /** The code the simulation runs is disciplined: whatever an integer body, and however
      its breakable constructs nest, every label has one depth and the whole has none. */
  lemma IntegerBodies(s: N.Stmt, n: nat, d: int, x: S.Slots)
    requires S.RawStmt(s, n, d, x).Some? && R.SlotsBelow(x, n)
    ensures var c := SeenAll(S.RawStmt(s, n, d, x).value.code); R.OneDepth(c) && D.Depth(c) == 0
  {
    hide S.RawStmt, GenStmt, WidenStmt, R.OneDepth, D.Depth, R.GotosBelow;
    var v := View([], d, n, x, {});
    SameStmt(s, v);
    NoGotos(s, n);
    var state := R.State(0, [], map[], map[]);
    R.BodyRuns(WidenStmt(s), v, state, state, 0);
    var r := S.RawStmt(s, n, d, x).value;
    assert [] + SeenAll(r.code) == SeenAll(r.code);
    assert D.Since(v, GenStmt(WidenStmt(s), v).view) == SeenAll(r.code);
  }
}
