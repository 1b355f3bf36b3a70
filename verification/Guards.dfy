/** Bodies whose code means what C99 says. */
module Guards {
  import opened Words
  import opened Runs
  import opened Machine
  import opened Syntax
  import opened Semantics
  import opened Code
  import opened Relation
  import opened Frames
  import opened SaveSlots
  import opened Dialects
  import E = ExprSim
  import opened StmtSim
  import opened FunctionSim

  // ------------------------------------------------------------ the guard

  /** No remainder, no subtraction from a pointer, no address of a dereference or member,
      steps by one only and of places without an effect, at most six arguments. */
  predicate Guarded(e: Expr) {
    match e
    case Literal(_) => true
    case Read(lv) => GuardedPlace(lv)
    case AddressOf(lv) => lv.Local?
    case Binary(op, l, r) => op != Remainder && (op.Pointer? ==> !op.minus && op.size >= 1) && Guarded(l) && Guarded(r)
    case LogicalAnd(l, r) => Guarded(l) && Guarded(r)
    case LogicalOr(l, r) => Guarded(l) && Guarded(r)
    case LogicalNot(a) => Guarded(a)
    case OnesComplement(a) => Guarded(a)
    case Assign(lv, a) => GuardedPlace(lv) && Guarded(a)
    case IncDec(lv, _, _, scale) => scale == 1 && QuietPlace(lv) && GuardedPlace(lv)
    case Conditional(b, y, n) => Guarded(b) && Guarded(y) && Guarded(n)
    case Call(_, args) => Count(args) <= 6 && GuardedArgs(args)
  }

  predicate GuardedPlace(lv: LValue) {
    match lv
    case Local(_) => true
    case Deref(e) => Guarded(e)
    case Member(s, _) => GuardedPlace(s)
  }

  predicate GuardedArgs(args: Args) {
    args.Arg? ==> Guarded(args.head) && GuardedArgs(args.tail)
  }

  predicate GuardedOption(e: Option<Expr>) {
    e.Some? ==> Guarded(e.value)
  }

  /** No case stands after a default. */
  predicate DefaultLast(ms: seq<Marker>) {
    forall i, j :: 0 <= i < j < |ms| && ms[i].DefaultMarker? ==> ms[j].DefaultMarker?
  }

  /** Guarded expressions, no continue that belongs to a do, and default last in every
      switch. */
  predicate GuardedStmt(s: Stmt) {
    match s
    case Sequence(a, b) => GuardedStmt(a) && GuardedStmt(b)
    case Expression(e) => Guarded(e)
    case Initialize(_, e) => Guarded(e)
    case If(b, y) => Guarded(b) && GuardedStmt(y)
    case IfElse(b, y, n) => Guarded(b) && GuardedStmt(y) && GuardedStmt(n)
    case While(b, body) => Guarded(b) && GuardedStmt(body)
    case DoWhile(body, b) => GuardedStmt(body) && !OwnContinue(body) && Guarded(b)
    case For(init, test, step, body) => GuardedStmt(init) && GuardedOption(test) && GuardedOption(step) && GuardedStmt(body)
    case Switch(e, body) => Guarded(e) && DefaultLast(Markers(body)) && GuardedStmt(body)
    case Return(r) => GuardedOption(r)
    case _ => true
  }

  /** Expressions whose values are those of an `int`: small literals, truth values,
      small masks, and choices and assignments of these. */
  predicate IntValued(e: Expr) {
    match e
    case Literal(v) => IsInt(v)
    case Binary(op, _, r) =>
      E.IsComparison(op) || (op == BothBits && r.Literal? && 0 <= r.value < 0x8000_0000)
    case LogicalAnd(_, _) => true
    case LogicalOr(_, _) => true
    case LogicalNot(_) => true
    case Assign(_, a) => IntValued(a)
    case Conditional(_, y, n) => IntValued(y) && IntValued(n)
    case _ => false
  }

  /** Every switch is on such an expression. */
  predicate IntSwitches(s: Stmt) {
    match s
    case Sequence(a, b) => IntSwitches(a) && IntSwitches(b)
    case If(_, y) => IntSwitches(y)
    case IfElse(_, y, n) => IntSwitches(y) && IntSwitches(n)
    case While(_, body) => IntSwitches(body)
    case DoWhile(body, _) => IntSwitches(body)
    case For(init, _, _, body) => IntSwitches(init) && IntSwitches(body)
    case Switch(e, body) => IntValued(e) && IntSwitches(body)
    case _ => true
  }

  lemma {:induction false} MaskRange(n: nat, a: int, m: int)
    requires 0 <= m
    ensures 0 <= Bitwise(And, n, a, m) <= m
    decreases n
  {
    if n > 0 {
      MaskRange(n - 1, a / 2, m / 2);
    }
  }

  lemma IntApply(d: Dialect, op: BinaryOp, a: Word, b: Word)
    requires E.IsComparison(op) || (op == BothBits && 0 <= b < 0x8000_0000)
    ensures Apply(d, op, a, b).Some? && IsInt(Apply(d, op, a, b).value)
  {
    if op == BothBits {
      MaskRange(63, a, b);
    }
  }

  lemma IntBinary(d: Dialect, c: Context, e: Expr, mem: Memory)
    requires e.Binary? && IntValued(e) && Eval(d, c, e, mem).Some?
    ensures IsInt(Eval(d, c, e, mem).value.value)
  {
    hide Apply;
    var a := Eval(d, c, e.left, mem).value;
    var b := Eval(d, c, e.right, a.mem).value;
    if e.op == BothBits { assert b == Valued(Wrap(e.right.value), a.mem); }
    IntApply(d, e.op, a.value, b.value);
  }

  lemma {:induction false} IntValuedFits(d: Dialect, c: Context, e: Expr, mem: Memory)
    requires IntValued(e) && Eval(d, c, e, mem).Some?
    ensures IsInt(Eval(d, c, e, mem).value.value)
    decreases e
  {
    hide Apply, Place, IncDecLice, Invoke, Complement, Wrap;
    match e {
      case Literal(v) => SmallLiteral(v);
      case Binary(_, _, _) => IntBinary(d, c, e, mem);
      case LogicalAnd(_, _) =>
      case LogicalOr(_, _) =>
      case LogicalNot(_) =>
      case Assign(_, a) => IntValuedFits(d, c, a, mem);
      case Conditional(b, y, n) =>
        var p := Eval(d, c, b, mem).value;
        if p.value != 0 { IntValuedFits(d, c, y, p.mem); } else { IntValuedFits(d, c, n, p.mem); }
    }
  }

  lemma SmallLiteral(v: int)
    requires IsInt(v)
    ensures Wrap(v) == v
  {
  }

  // ------------------------------------- a guarded run meets no departure

  predicate Standard(d: Dialect) { d == Iso || d == Narrow }

  lemma {:induction false} PlaceStays(d: Dialect, c: Context, lv: LValue, mem: Memory)
    requires Standard(d) && GuardedPlace(lv) && Place(d, c, lv, mem).Some?
    ensures Place(Common, c, lv, mem) == Place(d, c, lv, mem)
    decreases lv, 0
  {
    match lv {
      case Local(_) =>
      case Deref(e) => ExprStays(d, c, e, mem);
      case Member(s, _) => PlaceStays(d, c, s, mem);
    }
  }

  lemma {:induction false} ArgsStay(d: Dialect, c: Context, args: Args, mem: Memory)
    requires Standard(d) && GuardedArgs(args) && EvalArgs(d, c, args, mem).Some?
    ensures EvalArgs(Common, c, args, mem) == EvalArgs(d, c, args, mem)
    decreases args
  {
    match args {
      case NoArgs =>
      case Arg(e, tail) =>
        ExprStays(d, c, e, mem);
        ArgsStay(d, c, tail, Eval(d, c, e, mem).value.mem);
    }
  }

  lemma StepStays(d: Dialect, c: Context, lv: LValue, prefix: bool, minus: bool, mem: Memory)
    requires Standard(d) && QuietPlace(lv) && Place(Common, c, lv, mem) == Place(d, c, lv, mem)
    requires Eval(d, c, IncDec(lv, prefix, minus, 1), mem).Some?
    ensures Eval(Common, c, IncDec(lv, prefix, minus, 1), mem) == Eval(d, c, IncDec(lv, prefix, minus, 1), mem)
  {
    hide Place, QuietPlace;
    QuietPlaceKeeps(d, c, lv, mem);
  }

  lemma ApplyStays(d: Dialect, op: BinaryOp, a: Word, b: Word)
    requires Standard(d) && op != Remainder && (op.Pointer? ==> !op.minus && op.size >= 1)
    ensures Apply(Common, op, a, b) == Apply(d, op, a, b)
  {
    hide Wrap, TruncDiv, TruncRem, BitWord, ShiftLeft, ShiftRight;
  }

  lemma {:induction false} ExprStays(d: Dialect, c: Context, e: Expr, mem: Memory)
    requires Standard(d) && Guarded(e) && Eval(d, c, e, mem).Some?
    ensures Eval(Common, c, e, mem) == Eval(d, c, e, mem)
    decreases e
  {
    hide Apply, Wrap, IncDecLice, Fetch, Restored, Invoke, Complement;
    match e {
      case Literal(_) =>
      case Read(lv) => PlaceStays(d, c, lv, mem);
      case AddressOf(lv) =>
      case Binary(op, l, r) =>
        ExprStays(d, c, l, mem);
        var a := Eval(d, c, l, mem).value;
        ExprStays(d, c, r, a.mem);
        ApplyStays(d, op, a.value, Eval(d, c, r, a.mem).value.value);
      case LogicalAnd(l, r) =>
        ExprStays(d, c, l, mem);
        if Eval(d, c, l, mem).value.value != 0 { ExprStays(d, c, r, Eval(d, c, l, mem).value.mem); }
      case LogicalOr(l, r) =>
        ExprStays(d, c, l, mem);
        if Eval(d, c, l, mem).value.value == 0 { ExprStays(d, c, r, Eval(d, c, l, mem).value.mem); }
      case LogicalNot(a) => ExprStays(d, c, a, mem);
      case OnesComplement(a) => ExprStays(d, c, a, mem);
      case Assign(lv, a) =>
        ExprStays(d, c, a, mem);
        PlaceStays(d, c, lv, Eval(d, c, a, mem).value.mem);
      case IncDec(lv, prefix, minus, _) =>
        PlaceStays(d, c, lv, mem);
        assert e == IncDec(lv, prefix, minus, 1);
        StepStays(d, c, lv, prefix, minus, mem);
      case Conditional(b, y, n) =>
        ExprStays(d, c, b, mem);
        var v := Eval(d, c, b, mem).value;
        if v.value != 0 { ExprStays(d, c, y, v.mem); } else { ExprStays(d, c, n, v.mem); }
      case Call(_, args) => ArgsStay(d, c, args, mem);
    }
  }

  lemma OptionStays(d: Dialect, c: Context, e: Option<Expr>, default: Word, mem: Memory)
    requires Standard(d) && GuardedOption(e) && EvalOption(d, c, e, default, mem).Some?
    ensures EvalOption(Common, c, e, default, mem) == EvalOption(d, c, e, default, mem)
  {
    if e.Some? { ExprStays(d, c, e.value, mem); }
  }

  /** What a dialect asks of the switches of s. */
  predicate Ready(d: Dialect, s: Stmt) {
    d == Narrow || (d == Iso && IntSwitches(s))
  }

  lemma {:induction false} StmtStays(d: Dialect, c: Context, s: Stmt, entry: Option<nat>, mem: Memory, fuel: nat)
    requires Ready(d, s) && GuardedStmt(s) && (entry.Some? ==> entry.value < |Markers(s)|)
    requires Exec(d, c, s, entry, mem, fuel).Some?
    ensures Exec(Common, c, s, entry, mem, fuel) == Exec(d, c, s, entry, mem, fuel)
    decreases fuel, s, 2
  {
    hide Eval, Guarded;
    match s {
      case Sequence(a, b) =>
        var j := |Markers(a)|;
        if entry.Some? && entry.value >= j {
          StmtStays(d, c, b, Some(entry.value - j), mem, fuel);
        } else {
          StmtStays(d, c, a, entry, mem, fuel);
          var r := Exec(d, c, a, entry, mem, fuel).value;
          if r.outcome == Normal { StmtStays(d, c, b, None, r.mem, fuel); }
        }
      case Expression(e) => ExprStays(d, c, e, mem);
      case Initialize(off, e) => InitializeStays(d, c, off, e, mem);
      case If(b, y) =>
        if entry.Some? { StmtStays(d, c, y, entry, mem, fuel); } else {
          ExprStays(d, c, b, mem);
          var v := Eval(d, c, b, mem).value;
          if v.value != 0 { StmtStays(d, c, y, None, v.mem, fuel); }
        }
      case IfElse(_, _, _) => IfElseStays(d, c, s, entry, mem, fuel);
      case While(_, _) => WhileStays(d, c, s, entry, mem, fuel);
      case DoWhile(_, _) => DoStays(d, c, s, entry, mem, fuel);
      case For(_, _, _, _) => ForStays(d, c, s, entry, mem, fuel);
      case Switch(_, _) => SwitchStays(d, c, s, mem, fuel);
      case Return(r) => OptionStays(d, c, r, 0, mem);
      case _ =>
    }
  }

  lemma InitializeStays(d: Dialect, c: Context, off: int, e: Expr, mem: Memory)
    requires Standard(d) && Guarded(e) && Eval(d, c, Assign(Local(off), e), mem).Some?
    ensures Eval(Common, c, Assign(Local(off), e), mem) == Eval(d, c, Assign(Local(off), e), mem)
  {
    ExprStays(d, c, Assign(Local(off), e), mem);
  }

  lemma {:induction false} IfElseStays(d: Dialect, c: Context, s: Stmt, entry: Option<nat>, mem: Memory, fuel: nat)
    requires s.IfElse? && Ready(d, s) && GuardedStmt(s) && (entry.Some? ==> entry.value < |Markers(s)|)
    requires Exec(d, c, s, entry, mem, fuel).Some?
    ensures Exec(Common, c, s, entry, mem, fuel) == Exec(d, c, s, entry, mem, fuel)
    decreases fuel, s, 1
  {
    hide Eval, Guarded;
    var IfElse(b, y, n) := s;
    if entry.Some? {
      if entry.value < |Markers(y)| { StmtStays(d, c, y, entry, mem, fuel); }
      else { StmtStays(d, c, n, Some(entry.value - |Markers(y)|), mem, fuel); }
    } else {
      ExprStays(d, c, b, mem);
      var v := Eval(d, c, b, mem).value;
      if v.value != 0 { StmtStays(d, c, y, None, v.mem, fuel); } else { StmtStays(d, c, n, None, v.mem, fuel); }
    }
  }

  lemma {:induction false} WhileStays(d: Dialect, c: Context, s: Stmt, entry: Option<nat>, mem: Memory, fuel: nat)
    requires s.While? && Ready(d, s) && GuardedStmt(s) && (entry.Some? ==> entry.value < |Markers(s)|)
    requires Exec(d, c, s, entry, mem, fuel).Some?
    ensures Exec(Common, c, s, entry, mem, fuel) == Exec(d, c, s, entry, mem, fuel)
    decreases fuel, s, 1
  {
    hide Eval, Guarded;
    if entry.Some? {
      StmtStays(d, c, s.body, entry, mem, fuel);
      AfterWhileStays(d, c, s, Exec(d, c, s.body, entry, mem, fuel), fuel);
    } else {
      ExprStays(d, c, s.cond, mem);
      var v := Eval(d, c, s.cond, mem).value;
      if v.value != 0 {
        StmtStays(d, c, s.body, None, v.mem, fuel);
        AfterWhileStays(d, c, s, Exec(d, c, s.body, None, v.mem, fuel), fuel);
      }
    }
  }

  lemma {:induction false} AfterWhileStays(d: Dialect, c: Context, s: Stmt, r: Option<Done>, fuel: nat)
    requires s.While? && Ready(d, s) && GuardedStmt(s) && AfterWhile(d, c, s, r, fuel).Some?
    ensures AfterWhile(Common, c, s, r, fuel) == AfterWhile(d, c, s, r, fuel)
    decreases fuel, s, 0
  {
    hide Eval, Guarded;
    if !r.value.outcome.Broke? && !r.value.outcome.Returned? {
      StmtStays(d, c, s, None, r.value.mem, fuel - 1);
    }
  }

  lemma {:induction false} DoStays(d: Dialect, c: Context, s: Stmt, entry: Option<nat>, mem: Memory, fuel: nat)
    requires s.DoWhile? && Ready(d, s) && GuardedStmt(s) && (entry.Some? ==> entry.value < |Markers(s)|)
    requires Exec(d, c, s, entry, mem, fuel).Some?
    ensures Exec(Common, c, s, entry, mem, fuel) == Exec(d, c, s, entry, mem, fuel)
    decreases fuel, s, 1
  {
    hide Eval, Guarded;
    var r := Exec(d, c, s.body, entry, mem, fuel);
    StmtStays(d, c, s.body, entry, mem, fuel);
    NeverContinued(d, c, s.body, entry, mem, fuel);
    if !r.value.outcome.Broke? && !r.value.outcome.Returned? {
      ExprStays(d, c, s.cond, r.value.mem);
      var v := Eval(d, c, s.cond, r.value.mem).value;
      if v.value != 0 { StmtStays(d, c, s, None, v.mem, fuel - 1); }
    }
  }

  lemma {:induction false} ForStays(d: Dialect, c: Context, s: Stmt, entry: Option<nat>, mem: Memory, fuel: nat)
    requires s.For? && Ready(d, s) && GuardedStmt(s) && (entry.Some? ==> entry.value < |Markers(s)|)
    requires Exec(d, c, s, entry, mem, fuel).Some?
    ensures Exec(Common, c, s, entry, mem, fuel) == Exec(d, c, s, entry, mem, fuel)
    decreases fuel, s, 1
  {
    hide Eval, ForLoop, Guarded;
    var j := |Markers(s.init)|;
    if entry.Some? && entry.value >= j {
      StmtStays(d, c, s.body, Some(entry.value - j), mem, fuel);
      AfterForStays(d, c, s, Exec(d, c, s.body, Some(entry.value - j), mem, fuel), fuel);
    } else {
      StmtStays(d, c, s.init, entry, mem, fuel);
      var r := Exec(d, c, s.init, entry, mem, fuel).value;
      if r.outcome == Normal { ForLoopStays(d, c, s, r.mem, fuel); }
    }
  }

  lemma {:induction false} AfterForStays(d: Dialect, c: Context, s: Stmt, r: Option<Done>, fuel: nat)
    requires s.For? && Ready(d, s) && GuardedStmt(s) && AfterFor(d, c, s, r, fuel).Some?
    ensures AfterFor(Common, c, s, r, fuel) == AfterFor(d, c, s, r, fuel)
    decreases fuel, s, 0, 0
  {
    hide Exec, ForLoop, EvalOption, Guarded;
    if !r.value.outcome.Broke? && !r.value.outcome.Returned? {
      OptionStays(d, c, s.step, 0, r.value.mem);
      ForLoopStays(d, c, s, EvalOption(d, c, s.step, 0, r.value.mem).value.mem, fuel - 1);
    }
  }

  lemma {:induction false} ForLoopStays(d: Dialect, c: Context, s: Stmt, mem: Memory, fuel: nat)
    requires s.For? && Ready(d, s) && GuardedStmt(s) && ForLoop(d, c, s, mem, fuel).Some?
    ensures ForLoop(Common, c, s, mem, fuel) == ForLoop(d, c, s, mem, fuel)
    decreases fuel, s, 0, 1
  {
    hide Exec, EvalOption, Guarded;
    OptionStays(d, c, s.test, 1, mem);
    var v := EvalOption(d, c, s.test, 1, mem).value;
    if v.value != 0 {
      StmtStays(d, c, s.body, None, v.mem, fuel);
      AfterForStays(d, c, s, Exec(d, c, s.body, None, v.mem, fuel), fuel);
    }
  }

  /** With default last, an int value selects the same marker by both rules. */
  lemma SelectStays(v: Word, ms: seq<Marker>)
    requires IsInt(v) && DefaultLast(ms)
    ensures SelectIso(v, ms) == SelectLice(v, ms)
  {
    var k, j := IndexOf(CaseMarker(v), ms), IndexOf(DefaultMarker, ms);
    SelectAgrees(v, ms);
    IndexRange(v, ms);
  }

  lemma {:induction false} SwitchStays(d: Dialect, c: Context, s: Stmt, mem: Memory, fuel: nat)
    requires s.Switch? && Ready(d, s) && GuardedStmt(s) && Exec(d, c, s, None, mem, fuel).Some?
    ensures Exec(Common, c, s, None, mem, fuel) == Exec(d, c, s, None, mem, fuel)
    decreases fuel, s, 1
  {
    hide Eval, SelectIso, SelectLice, Guarded;
    ExprStays(d, c, s.e, mem);
    var v := Eval(d, c, s.e, mem).value;
    if d == Iso { IntValuedFits(d, c, s.e, mem); }
    SelectStays(v.value, Markers(s.body));
    var target := SelectIso(v.value, Markers(s.body));
    if target.Some? { StmtStays(d, c, s.body, target, v.mem, fuel); }
  }

  /** The guard can be checked before anything runs: where C99 gives a guarded statement a
      run with int values in its switches, the code's rules give it the same run. */
  lemma GuardedRuns(d: Dialect, c: Context, s: Stmt, entry: Option<nat>, mem: Memory, fuel: nat)
    requires Ready(d, s) && GuardedStmt(s) && (entry.Some? ==> entry.value < |Markers(s)|)
    requires Exec(d, c, s, entry, mem, fuel).Some?
    ensures Exec(Iso, c, s, entry, mem, fuel) == Exec(Lice, c, s, entry, mem, fuel) == Exec(d, c, s, entry, mem, fuel)
  {
    hide *;
    StmtStays(d, c, s, entry, mem, fuel);
    CommonStmt(c, s, entry, mem, fuel);
  }

  /** The main theorem against C99: for a function whose body is guarded and never nests
      three label slots deep, the code the generator emits does what ISO/IEC 9899:1999 says
      of the body, from the call to the return. */
  lemma GuardedCorrect(env: Callees, outer: set<int>, prog: Program, p: int, f: Function, n: nat, d: int, x: Slots, s: State, fuel: nat, dialect: Dialect, r: Done)
    returns (t: State)
    requires |f.params| <= 6 && Sized(f) && CompilableStmt(f.body) && WellNested(f.body, false, false, false) && SlotSafe(f.body)
    requires RawStmt(f.body, n, d, x).Some? && CodeAt(prog, p, FunctionCode(f, RawStmt(f.body, n, d, x).value.code))
    requires Called(env, outer, prog, p, f, s, StmtDepth(f.body))
    requires GuardedStmt(f.body) && Ready(dialect, f.body)
    requires Exec(dialect, Context(env, s.rsp - 8), f.body, None, EntryMemory(env, f, s), fuel) == Some(r)
    ensures Exec(Iso, Context(env, s.rsp - 8), f.body, None, EntryMemory(env, f, s), fuel) == Some(r)
    ensures BackWith(env, prog, s, t, if r.outcome.Returned? then r.outcome.value else None, r.mem)
  {
    hide CodeAt, RawStmt, Exec, WellNested, StmtDepth, FunctionCode, BackWith, Sized, GuardedStmt, Ready, SlotSafe;
    GuardedRuns(dialect, Context(env, s.rsp - 8), f.body, None, EntryMemory(env, f, s), fuel);
    t := GeneratedCorrect(env, outer, prog, p, f, n, d, x, s, fuel, r);
  }
}
