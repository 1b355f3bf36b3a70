/** The typed tree the code generator walks, restricted to eight-byte integers and pointers,
    what can be compiled of it, and the case markers inside a statement. */
module Syntax {
  import opened Runs

  /** BothBits and EitherBits are `&` and `|`. The operands of Pointer are a pointer and
      an index, and `size` is the size of what the pointer points to. */
  datatype BinaryOp =
    | Plus | Minus | Times | Divide | Remainder | ExclusiveOr | ShiftL | ShiftR
    | Less | Greater | Equal | NotEqual | LessEqual | GreaterEqual
    | BothBits | EitherBits | Pointer(minus: bool, size: int)

  /** Member is a structure field at a byte offset inside its structure. */
  datatype LValue =
    | Local(offset: int)
    | Deref(address: Expr)
    | Member(structure: LValue, offset: int)

  /** `scale` in IncDec is the size of the pointed-to object for a pointer and 1 for
      an integer. */
  datatype Expr =
    | Literal(value: int)
    | Read(lv: LValue)
    | AddressOf(lv: LValue)
    | Binary(op: BinaryOp, left: Expr, right: Expr)
    | LogicalAnd(left: Expr, right: Expr)
    | LogicalOr(left: Expr, right: Expr)
    | LogicalNot(operand: Expr)
    | OnesComplement(operand: Expr)
    | Assign(lv: LValue, source: Expr)
    | IncDec(lv: LValue, prefix: bool, minus: bool, scale: int)
    | Conditional(cond: Expr, yes: Expr, no: Expr)
    | Call(name: string, args: Args)

  datatype Args = NoArgs | Arg(head: Expr, tail: Args)

  /** A compound statement [s1, ..., sn] is Sequence(s1, ... Sequence(sn, Skip)).
      Initialize is one element of a declaration's initializer list; its offset is
      already relative to the frame base. */
  datatype Stmt =
    | Skip
    | Sequence(first: Stmt, rest: Stmt)
    | Expression(e: Expr)
    | Initialize(offset: int, e: Expr)
    | If(cond: Expr, yes: Stmt)
    | IfElse(cond: Expr, yes: Stmt, no: Stmt)
    | While(cond: Expr, body: Stmt)
    | DoWhile(body: Stmt, cond: Expr)
    | For(init: Stmt, test: Option<Expr>, step: Option<Expr>, body: Stmt)
    | Switch(e: Expr, body: Stmt)
    | Case(value: int)
    | Default
    | Break
    | Continue
    | Return(result: Option<Expr>)

  function Count(args: Args): nat {
    match args
    case NoArgs => 0
    case Arg(_, tail) => 1 + Count(tail)
  }

  /** The variable or pointer a chain of members starts from. */
  function Root(lv: LValue): (r: LValue)
    ensures !r.Member?
  {
    if lv.Member? then Root(lv.structure) else lv
  }

  /** The member's distance from the start of its root. */
  function Displacement(lv: LValue): int {
    if lv.Member? then Displacement(lv.structure) + lv.offset else 0
  }

  // ------------------------------------------------------ switch markers

  datatype Marker = CaseMarker(value: int) | DefaultMarker

  /** The case and default labels that belong to the switch whose body contains s,
      in textual order. */
  function Markers(s: Stmt): seq<Marker> {
    match s
    case Case(v) => [CaseMarker(v)]
    case Default => [DefaultMarker]
    case Sequence(a, b) => Markers(a) + Markers(b)
    case If(_, a) => Markers(a)
    case IfElse(_, a, b) => Markers(a) + Markers(b)
    case While(_, body) => Markers(body)
    case DoWhile(body, _) => Markers(body)
    case For(init, _, _, body) => Markers(init) + Markers(body)
    case _ => []
  }

  /** The first marker that is `default` or equals v, or how many there are. */
  function FirstMatch(v: int, ms: seq<Marker>): (k: nat)
    ensures k <= |ms|
    ensures forall j :: 0 <= j < k ==> ms[j].CaseMarker? && ms[j].value != v
    ensures k < |ms| ==> ms[k] == DefaultMarker || ms[k] == CaseMarker(v)
  {
    if |ms| == 0 || ms[0] == DefaultMarker || ms[0] == CaseMarker(v) then 0
    else 1 + FirstMatch(v, ms[1..])
  }

  lemma FirstMatchAppend(v: int, a: seq<Marker>, b: seq<Marker>)
    ensures FirstMatch(v, a + b) ==
      if FirstMatch(v, a) < |a| then FirstMatch(v, a) else |a| + FirstMatch(v, b)
  {
    FirstMatchUnique(v, a + b, if FirstMatch(v, a) < |a| then FirstMatch(v, a) else |a| + FirstMatch(v, b));
  }

  lemma {:induction false} FirstMatchUnique(v: int, ms: seq<Marker>, k: nat)
    requires k <= |ms|
    requires forall j :: 0 <= j < k ==> ms[j].CaseMarker? && ms[j].value != v
    requires k < |ms| ==> ms[k] == DefaultMarker || ms[k] == CaseMarker(v)
    ensures FirstMatch(v, ms) == k
  {
  }

  // ------------------------------------------------------ lexical nesting

  predicate IsBreakable(s: Stmt) {
    s.While? || s.DoWhile? || s.For? || s.Switch?
  }

  /** Every break is inside a loop or switch, every continue inside a loop, every
      case and default inside a switch. A `for`'s first clause is outside its loop. */
  predicate WellNested(s: Stmt, inBreakable: bool, inLoop: bool, inSwitch: bool) {
    match s
    case Sequence(a, b) => WellNested(a, inBreakable, inLoop, inSwitch) && WellNested(b, inBreakable, inLoop, inSwitch)
    case If(_, a) => WellNested(a, inBreakable, inLoop, inSwitch)
    case IfElse(_, a, b) => WellNested(a, inBreakable, inLoop, inSwitch) && WellNested(b, inBreakable, inLoop, inSwitch)
    case While(_, body) => WellNested(body, true, true, inSwitch)
    case DoWhile(body, _) => WellNested(body, true, true, inSwitch)
    case For(init, _, _, body) => WellNested(init, inBreakable, inLoop, inSwitch) && WellNested(body, true, true, inSwitch)
    case Switch(_, body) => WellNested(body, true, inLoop, true)
    case Case(_) => inSwitch
    case Default => inSwitch
    case Break => inBreakable
    case Continue => inLoop
    case _ => true
  }

  // -------------------------------------------------- what can be compiled

  /** The generator stops with an internal error on the address of a member, and has
      six argument registers. */
  predicate Compilable(e: Expr) {
    match e
    case Literal(_) => true
    case Read(lv) => CompilableLValue(lv)
    case AddressOf(lv) => !lv.Member? && CompilableLValue(lv)
    case Binary(_, l, r) => Compilable(l) && Compilable(r)
    case LogicalAnd(l, r) => Compilable(l) && Compilable(r)
    case LogicalOr(l, r) => Compilable(l) && Compilable(r)
    case LogicalNot(a) => Compilable(a)
    case OnesComplement(a) => Compilable(a)
    case Assign(lv, v) => CompilableLValue(lv) && Compilable(v)
    case IncDec(lv, _, _, _) => CompilableLValue(lv)
    case Conditional(c, y, n) => Compilable(c) && Compilable(y) && Compilable(n)
    case Call(_, args) => Count(args) <= 6 && CompilableArgs(args)
  }

  predicate CompilableLValue(lv: LValue) {
    match lv
    case Local(_) => true
    case Deref(a) => Compilable(a)
    case Member(s, _) => CompilableLValue(s)
  }

  predicate CompilableArgs(args: Args) {
    args.Arg? ==> Compilable(args.head) && CompilableArgs(args.tail)
  }

  predicate CompilableOption(e: Option<Expr>) {
    e.Some? ==> Compilable(e.value)
  }

  predicate CompilableStmt(s: Stmt) {
    match s
    case Sequence(a, b) => CompilableStmt(a) && CompilableStmt(b)
    case Expression(e) => Compilable(e)
    case Initialize(_, e) => Compilable(e)
    case If(c, a) => Compilable(c) && CompilableStmt(a)
    case IfElse(c, a, b) => Compilable(c) && CompilableStmt(a) && CompilableStmt(b)
    case While(c, body) => Compilable(c) && CompilableStmt(body)
    case DoWhile(body, c) => CompilableStmt(body) && Compilable(c)
    case For(init, test, step, body) =>
      CompilableStmt(init) && CompilableOption(test) && CompilableOption(step) && CompilableStmt(body)
    case Switch(e, body) => Compilable(e) && CompilableStmt(body)
    case Return(r) => CompilableOption(r)
    case _ => true
  }
}
