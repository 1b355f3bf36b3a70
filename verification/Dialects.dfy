/** Where C99 and the code agree. */
module Dialects {
  import opened Words
  import opened Runs
  import opened Machine
  import opened Syntax
  import opened Semantics

  // -------------------------------- Common is where Iso and Lice agree

  lemma {:induction false} CommonPlace(c: Context, lv: LValue, mem: Memory)
    requires Place(Common, c, lv, mem).Some?
    ensures Place(Iso, c, lv, mem) == Place(Common, c, lv, mem) == Place(Lice, c, lv, mem)
    decreases lv, 0
  {
    match lv {
      case Local(_) =>
      case Deref(e) => CommonExpr(c, e, mem);
      case Member(s, _) => CommonPlace(c, s, mem);
    }
  }

  lemma {:induction false} CommonArgs(c: Context, args: Args, mem: Memory)
    requires EvalArgs(Common, c, args, mem).Some?
    ensures EvalArgs(Iso, c, args, mem) == EvalArgs(Common, c, args, mem) == EvalArgs(Lice, c, args, mem)
    decreases args
  {
    match args {
      case NoArgs =>
      case Arg(e, tail) =>
        CommonExpr(c, e, mem);
        CommonArgs(c, tail, Eval(Common, c, e, mem).value.mem);
    }
  }

  lemma {:induction false} CommonIncDec(c: Context, lv: LValue, mem: Memory, prefix: bool, minus: bool)
    requires IncDecLice(Common, c, lv, mem, prefix, minus).Some?
    ensures IncDecLice(Common, c, lv, mem, prefix, minus) == IncDecLice(Lice, c, lv, mem, prefix, minus)
    decreases lv, 1
  {
    CommonPlace(c, lv, mem);
    CommonPlace(c, lv, Place(Common, c, lv, mem).value.mem);
  }

  lemma CommonApply(op: BinaryOp, a: Word, b: Word)
    requires Apply(Common, op, a, b).Some?
    ensures Apply(Iso, op, a, b) == Apply(Common, op, a, b) == Apply(Lice, op, a, b)
  {
    hide Wrap, TruncDiv, TruncRem, BitWord, ShiftLeft, ShiftRight;
  }

  /** An expression evaluated without meeting a point where the rules differ has the
      same value and effect under both. */
  lemma {:induction false} CommonExpr(c: Context, e: Expr, mem: Memory)
    requires Eval(Common, c, e, mem).Some?
    ensures Eval(Iso, c, e, mem) == Eval(Common, c, e, mem) == Eval(Lice, c, e, mem)
    decreases e
  {
    hide Apply, Wrap, Complement, Invoke;
    match e {
      case Literal(_) =>
      case Read(lv) => CommonPlace(c, lv, mem);
      case AddressOf(lv) => CommonPlace(c, lv, mem);
      case Binary(op, l, r) =>
        CommonExpr(c, l, mem);
        var a := Eval(Common, c, l, mem).value;
        CommonExpr(c, r, a.mem);
        CommonApply(op, a.value, Eval(Common, c, r, a.mem).value.value);
      case LogicalAnd(l, r) =>
        CommonExpr(c, l, mem);
        if Eval(Common, c, l, mem).value.value != 0 { CommonExpr(c, r, Eval(Common, c, l, mem).value.mem); }
      case LogicalOr(l, r) =>
        CommonExpr(c, l, mem);
        if Eval(Common, c, l, mem).value.value == 0 { CommonExpr(c, r, Eval(Common, c, l, mem).value.mem); }
      case LogicalNot(a) => CommonExpr(c, a, mem);
      case OnesComplement(a) => CommonExpr(c, a, mem);
      case Assign(lv, a) =>
        CommonExpr(c, a, mem);
        CommonPlace(c, lv, Eval(Common, c, a, mem).value.mem);
      case IncDec(lv, prefix, minus, _) =>
        CommonIncDec(c, lv, mem, prefix, minus);
        CommonPlace(c, lv, mem);
      case Conditional(b, y, n) =>
        CommonExpr(c, b, mem);
        var v := Eval(Common, c, b, mem).value;
        if v.value != 0 { CommonExpr(c, y, v.mem); } else { CommonExpr(c, n, v.mem); }
      case Call(_, args) => CommonArgs(c, args, mem);
    }
  }

  lemma CommonOption(c: Context, e: Option<Expr>, default: Word, mem: Memory)
    requires EvalOption(Common, c, e, default, mem).Some?
    ensures EvalOption(Iso, c, e, default, mem) == EvalOption(Common, c, e, default, mem) == EvalOption(Lice, c, e, default, mem)
  {
    if e.Some? { CommonExpr(c, e.value, mem); }
  }

  /** The same for a run of a statement. */
  lemma {:induction false} CommonStmt(c: Context, s: Stmt, entry: Option<nat>, mem: Memory, fuel: nat)
    requires entry.Some? ==> entry.value < |Markers(s)|
    requires Exec(Common, c, s, entry, mem, fuel).Some?
    ensures Exec(Iso, c, s, entry, mem, fuel) == Exec(Common, c, s, entry, mem, fuel) == Exec(Lice, c, s, entry, mem, fuel)
    decreases fuel, s, 2
  {
    hide Eval;
    match s {
      case Sequence(a, b) =>
        var j := |Markers(a)|;
        if entry.Some? && entry.value >= j {
          CommonStmt(c, b, Some(entry.value - j), mem, fuel);
        } else {
          CommonStmt(c, a, entry, mem, fuel);
          var r := Exec(Common, c, a, entry, mem, fuel).value;
          if r.outcome == Normal { CommonStmt(c, b, None, r.mem, fuel); }
        }
      case Expression(e) => CommonExpr(c, e, mem);
      case Initialize(off, e) => CommonExpr(c, Assign(Local(off), e), mem);
      case If(b, y) =>
        if entry.Some? { CommonStmt(c, y, entry, mem, fuel); } else {
          CommonExpr(c, b, mem);
          var v := Eval(Common, c, b, mem).value;
          if v.value != 0 { CommonStmt(c, y, None, v.mem, fuel); }
        }
      case IfElse(b, y, n) => CommonIfElse(c, s, entry, mem, fuel);
      case While(b, body) =>
        if entry.Some? {
          CommonStmt(c, body, entry, mem, fuel);
          CommonAfterWhile(c, s, Exec(Common, c, body, entry, mem, fuel), fuel);
        } else {
          CommonExpr(c, b, mem);
          var v := Eval(Common, c, b, mem).value;
          if v.value != 0 {
            CommonStmt(c, body, None, v.mem, fuel);
            CommonAfterWhile(c, s, Exec(Common, c, body, None, v.mem, fuel), fuel);
          }
        }
      case DoWhile(body, b) =>
        CommonStmt(c, body, entry, mem, fuel);
        CommonAfterDo(c, s, Exec(Common, c, body, entry, mem, fuel), fuel);
      case For(_, _, _, _) => CommonFor(c, s, entry, mem, fuel);
      case Switch(_, _) => CommonSwitch(c, s, entry, mem, fuel);
      case Return(r) => CommonOption(c, r, 0, mem);
      case _ =>
    }
  }

  lemma {:induction false} CommonIfElse(c: Context, s: Stmt, entry: Option<nat>, mem: Memory, fuel: nat)
    requires s.IfElse? && (entry.Some? ==> entry.value < |Markers(s)|)
    requires Exec(Common, c, s, entry, mem, fuel).Some?
    ensures Exec(Iso, c, s, entry, mem, fuel) == Exec(Common, c, s, entry, mem, fuel) == Exec(Lice, c, s, entry, mem, fuel)
    decreases fuel, s, 1
  {
    hide Eval;
    var IfElse(b, y, n) := s;
    if entry.Some? {
      if entry.value < |Markers(y)| { CommonStmt(c, y, entry, mem, fuel); }
      else { CommonStmt(c, n, Some(entry.value - |Markers(y)|), mem, fuel); }
    } else {
      CommonExpr(c, b, mem);
      var v := Eval(Common, c, b, mem).value;
      if v.value != 0 { CommonStmt(c, y, None, v.mem, fuel); } else { CommonStmt(c, n, None, v.mem, fuel); }
    }
  }

  lemma {:induction false} CommonAfterWhile(c: Context, s: Stmt, r: Option<Done>, fuel: nat)
    requires s.While? && AfterWhile(Common, c, s, r, fuel).Some?
    ensures AfterWhile(Iso, c, s, r, fuel) == AfterWhile(Common, c, s, r, fuel) == AfterWhile(Lice, c, s, r, fuel)
    decreases fuel, s, 0
  {
    if !r.value.outcome.Broke? && !r.value.outcome.Returned? {
      CommonStmt(c, s, None, r.value.mem, fuel - 1);
    }
  }

  lemma {:induction false} CommonAfterDo(c: Context, s: Stmt, r: Option<Done>, fuel: nat)
    requires s.DoWhile? && AfterDo(Common, c, s, r, fuel).Some?
    ensures AfterDo(Iso, c, s, r, fuel) == AfterDo(Common, c, s, r, fuel) == AfterDo(Lice, c, s, r, fuel)
    decreases fuel, s, 0
  {
    hide Eval, Exec;
    if !r.value.outcome.Broke? && !r.value.outcome.Returned? {
      CommonExpr(c, s.cond, r.value.mem);
      var v := Eval(Common, c, s.cond, r.value.mem).value;
      if v.value != 0 { CommonStmt(c, s, None, v.mem, fuel - 1); }
    }
  }

  lemma {:induction false} CommonFor(c: Context, s: Stmt, entry: Option<nat>, mem: Memory, fuel: nat)
    requires s.For? && (entry.Some? ==> entry.value < |Markers(s)|)
    requires Exec(Common, c, s, entry, mem, fuel).Some?
    ensures Exec(Iso, c, s, entry, mem, fuel) == Exec(Common, c, s, entry, mem, fuel) == Exec(Lice, c, s, entry, mem, fuel)
    decreases fuel, s, 1
  {
    hide Eval, ForLoop, AfterFor;
    var j := |Markers(s.init)|;
    if entry.Some? && entry.value >= j {
      var r := Exec(Common, c, s.body, Some(entry.value - j), mem, fuel);
      AfterForSome(c, s, r, fuel);
      CommonStmt(c, s.body, Some(entry.value - j), mem, fuel);
      CommonAfterFor(c, s, r, fuel);
    } else {
      CommonStmt(c, s.init, entry, mem, fuel);
      var r := Exec(Common, c, s.init, entry, mem, fuel).value;
      if r.outcome == Normal { CommonForLoop(c, s, r.mem, fuel); }
    }
  }

  lemma AfterForSome(c: Context, s: Stmt, r: Option<Done>, fuel: nat)
    requires s.For? && AfterFor(Common, c, s, r, fuel).Some?
    ensures r.Some? && fuel > 0
  {
  }

  lemma {:induction false} CommonAfterFor(c: Context, s: Stmt, r: Option<Done>, fuel: nat)
    requires s.For? && AfterFor(Common, c, s, r, fuel).Some?
    ensures AfterFor(Iso, c, s, r, fuel) == AfterFor(Common, c, s, r, fuel) == AfterFor(Lice, c, s, r, fuel)
    decreases fuel, s, 0, 0
  {
    hide Exec, ForLoop, EvalOption;
    if !r.value.outcome.Broke? && !r.value.outcome.Returned? {
      CommonOption(c, s.step, 0, r.value.mem);
      CommonForLoop(c, s, EvalOption(Common, c, s.step, 0, r.value.mem).value.mem, fuel - 1);
    }
  }

  lemma {:induction false} CommonForLoop(c: Context, s: Stmt, mem: Memory, fuel: nat)
    requires s.For? && ForLoop(Common, c, s, mem, fuel).Some?
    ensures ForLoop(Iso, c, s, mem, fuel) == ForLoop(Common, c, s, mem, fuel) == ForLoop(Lice, c, s, mem, fuel)
    decreases fuel, s, 0, 1
  {
    hide Exec, AfterFor, EvalOption;
    CommonOption(c, s.test, 1, mem);
    var v := EvalOption(Common, c, s.test, 1, mem).value;
    if v.value != 0 {
      var r := Exec(Common, c, s.body, None, v.mem, fuel);
      AfterForSome(c, s, r, fuel);
      CommonStmt(c, s.body, None, v.mem, fuel);
      CommonAfterFor(c, s, r, fuel);
    }
  }

  lemma {:induction false} CommonSwitch(c: Context, s: Stmt, entry: Option<nat>, mem: Memory, fuel: nat)
    requires s.Switch? && entry.None? && Exec(Common, c, s, entry, mem, fuel).Some?
    ensures Exec(Iso, c, s, entry, mem, fuel) == Exec(Common, c, s, entry, mem, fuel) == Exec(Lice, c, s, entry, mem, fuel)
    decreases fuel, s, 1
  {
    hide Eval, SelectIso, SelectLice;
    CommonExpr(c, s.e, mem);
    var v := Eval(Common, c, s.e, mem).value;
    var target := SelectIso(v.value, Markers(s.body));
    if target.Some? { CommonStmt(c, s.body, target, v.mem, fuel); }
  }

  // ------------------------------------------------------------- fuel

  /** More fuel never changes the result of a run that ended. */
  lemma {:induction false} MoreFuel(d: Dialect, c: Context, s: Stmt, entry: Option<nat>, mem: Memory, fuel: nat)
    requires entry.Some? ==> entry.value < |Markers(s)|
    requires Exec(d, c, s, entry, mem, fuel).Some?
    ensures Exec(d, c, s, entry, mem, fuel + 1) == Exec(d, c, s, entry, mem, fuel)
    decreases fuel, s, 2
  {
    hide Eval;
    match s {
      case Sequence(_, _) => MoreFuelSequence(d, c, s, entry, mem, fuel);
      case If(_, _) => MoreFuelIf(d, c, s, entry, mem, fuel);
      case IfElse(_, _, _) => MoreFuelIf(d, c, s, entry, mem, fuel);
      case While(b, body) => MoreFuelWhile(d, c, s, entry, mem, fuel);
      case DoWhile(body, b) =>
        MoreFuel(d, c, body, entry, mem, fuel);
        MoreFuelDo(d, c, s, Exec(d, c, body, entry, mem, fuel), fuel);
      case For(_, _, _, _) => MoreFuelFor(d, c, s, entry, mem, fuel);
      case Switch(e, body) => MoreFuelSwitch(d, c, s, mem, fuel);
      case _ =>
    }
  }

  lemma {:induction false} MoreFuelSequence(d: Dialect, c: Context, s: Stmt, entry: Option<nat>, mem: Memory, fuel: nat)
    requires s.Sequence? && (entry.Some? ==> entry.value < |Markers(s)|) && Exec(d, c, s, entry, mem, fuel).Some?
    ensures Exec(d, c, s, entry, mem, fuel + 1) == Exec(d, c, s, entry, mem, fuel)
    decreases fuel, s, 1
  {
    var j := |Markers(s.first)|;
    if entry.Some? && entry.value >= j {
      MoreFuel(d, c, s.rest, Some(entry.value - j), mem, fuel);
    } else {
      MoreFuel(d, c, s.first, entry, mem, fuel);
      var r := Exec(d, c, s.first, entry, mem, fuel).value;
      if r.outcome == Normal { MoreFuel(d, c, s.rest, None, r.mem, fuel); }
    }
  }

  lemma {:induction false} MoreFuelIf(d: Dialect, c: Context, s: Stmt, entry: Option<nat>, mem: Memory, fuel: nat)
    requires (s.If? || s.IfElse?) && (entry.Some? ==> entry.value < |Markers(s)|) && Exec(d, c, s, entry, mem, fuel).Some?
    ensures Exec(d, c, s, entry, mem, fuel + 1) == Exec(d, c, s, entry, mem, fuel)
    decreases fuel, s, 1
  {
    hide Eval;
    if entry.Some? {
      if entry.value < |Markers(s.yes)| { MoreFuel(d, c, s.yes, entry, mem, fuel); }
      else { MoreFuel(d, c, s.no, Some(entry.value - |Markers(s.yes)|), mem, fuel); }
    } else {
      var v := Eval(d, c, s.cond, mem).value;
      if v.value != 0 { MoreFuel(d, c, s.yes, None, v.mem, fuel); }
      else if s.IfElse? { MoreFuel(d, c, s.no, None, v.mem, fuel); }
    }
  }

  lemma {:induction false} MoreFuelWhile(d: Dialect, c: Context, s: Stmt, entry: Option<nat>, mem: Memory, fuel: nat)
    requires s.While? && (entry.Some? ==> entry.value < |Markers(s)|) && Exec(d, c, s, entry, mem, fuel).Some?
    ensures Exec(d, c, s, entry, mem, fuel + 1) == Exec(d, c, s, entry, mem, fuel)
    decreases fuel, s, 1
  {
    hide Eval;
    if entry.Some? {
      MoreFuel(d, c, s.body, entry, mem, fuel);
      MoreFuelAfterWhile(d, c, s, Exec(d, c, s.body, entry, mem, fuel), fuel);
    } else {
      var v := Eval(d, c, s.cond, mem).value;
      if v.value != 0 {
        MoreFuel(d, c, s.body, None, v.mem, fuel);
        MoreFuelAfterWhile(d, c, s, Exec(d, c, s.body, None, v.mem, fuel), fuel);
      }
    }
  }

  lemma {:induction false} MoreFuelAfterWhile(d: Dialect, c: Context, s: Stmt, r: Option<Done>, fuel: nat)
    requires s.While? && AfterWhile(d, c, s, r, fuel).Some?
    ensures AfterWhile(d, c, s, r, fuel + 1) == AfterWhile(d, c, s, r, fuel)
    decreases fuel, s, 0
  {
    hide Eval;
    if !r.value.outcome.Broke? && !r.value.outcome.Returned? {
      MoreFuel(d, c, s, None, r.value.mem, fuel - 1);
    }
  }

  lemma {:induction false} MoreFuelDo(d: Dialect, c: Context, s: Stmt, r: Option<Done>, fuel: nat)
    requires s.DoWhile? && AfterDo(d, c, s, r, fuel).Some?
    ensures AfterDo(d, c, s, r, fuel + 1) == AfterDo(d, c, s, r, fuel)
    decreases fuel, s, 0
  {
    hide Eval, Exec;
    if r.value.outcome == Continued && d == Lice {
      MoreFuel(d, c, s, None, r.value.mem, fuel - 1);
    } else if !r.value.outcome.Broke? && !r.value.outcome.Returned? {
      var v := Eval(d, c, s.cond, r.value.mem).value;
      if v.value != 0 { MoreFuel(d, c, s, None, v.mem, fuel - 1); }
    }
  }

  lemma {:induction false} MoreFuelFor(d: Dialect, c: Context, s: Stmt, entry: Option<nat>, mem: Memory, fuel: nat)
    requires s.For? && (entry.Some? ==> entry.value < |Markers(s)|) && Exec(d, c, s, entry, mem, fuel).Some?
    ensures Exec(d, c, s, entry, mem, fuel + 1) == Exec(d, c, s, entry, mem, fuel)
    decreases fuel, s, 1
  {
    hide Eval, ForLoop;
    var j := |Markers(s.init)|;
    if entry.Some? && entry.value >= j {
      MoreFuel(d, c, s.body, Some(entry.value - j), mem, fuel);
      MoreFuelAfterFor(d, c, s, Exec(d, c, s.body, Some(entry.value - j), mem, fuel), fuel);
    } else {
      MoreFuel(d, c, s.init, entry, mem, fuel);
      var r := Exec(d, c, s.init, entry, mem, fuel).value;
      if r.outcome == Normal { MoreFuelForLoop(d, c, s, r.mem, fuel); }
    }
  }

  lemma {:induction false} MoreFuelAfterFor(d: Dialect, c: Context, s: Stmt, r: Option<Done>, fuel: nat)
    requires s.For? && AfterFor(d, c, s, r, fuel).Some?
    ensures AfterFor(d, c, s, r, fuel + 1) == AfterFor(d, c, s, r, fuel)
    decreases fuel, s, 0, 0
  {
    hide Exec, ForLoop, EvalOption;
    if !r.value.outcome.Broke? && !r.value.outcome.Returned? {
      MoreFuelForLoop(d, c, s, EvalOption(d, c, s.step, 0, r.value.mem).value.mem, fuel - 1);
    }
  }

  lemma {:induction false} MoreFuelForLoop(d: Dialect, c: Context, s: Stmt, mem: Memory, fuel: nat)
    requires s.For? && ForLoop(d, c, s, mem, fuel).Some?
    ensures ForLoop(d, c, s, mem, fuel + 1) == ForLoop(d, c, s, mem, fuel)
    decreases fuel, s, 0, 1
  {
    hide Exec, EvalOption;
    var v := EvalOption(d, c, s.test, 1, mem).value;
    if v.value != 0 {
      MoreFuel(d, c, s.body, None, v.mem, fuel);
      MoreFuelAfterFor(d, c, s, Exec(d, c, s.body, None, v.mem, fuel), fuel);
    }
  }

  lemma {:induction false} MoreFuelSwitch(d: Dialect, c: Context, s: Stmt, mem: Memory, fuel: nat)
    requires s.Switch? && Exec(d, c, s, None, mem, fuel).Some?
    ensures Exec(d, c, s, None, mem, fuel + 1) == Exec(d, c, s, None, mem, fuel)
    decreases fuel, s, 1
  {
    hide Eval, SelectIso, SelectLice;
    var v := Eval(d, c, s.e, mem).value;
    var target := Pick(d, Some(SelectIso(v.value, Markers(s.body))), Some(SelectLice(v.value, Markers(s.body)))).value;
    if target.Some? { MoreFuel(d, c, s.body, target, v.mem, fuel); }
  }

  // ------------------------------------- exactly when the rules agree

  /** The compare chain picks the C99 target for an int value exactly when no matching
      case stands after a default. */
  lemma SelectAgrees(v: Word, ms: seq<Marker>)
    requires -0x8000_0000 <= v < 0x8000_0000
    ensures SelectLice(v, ms) == SelectIso(v, ms) <==>
      IndexOf(CaseMarker(v), ms) == |ms| || IndexOf(CaseMarker(v), ms) < IndexOf(DefaultMarker, ms)
  {
    hide IndexOf, FirstMatch;
    assert Low32(v) == v;
    FirstMatchIsFirst(v, ms);
    IndexRange(v, ms);
  }

  /** A value outside the range of int matches no case in C99; the chain goes by its
      low half. */
  lemma SelectWide(v: Word, ms: seq<Marker>)
    requires !(-0x8000_0000 <= v < 0x8000_0000)
    requires forall i :: 0 <= i < |ms| && ms[i].CaseMarker? ==> -0x8000_0000 <= ms[i].value < 0x8000_0000
    ensures SelectLice(v, ms) == SelectIso(v, ms) <==>
      IndexOf(CaseMarker(Low32(v)), ms) >= IndexOf(DefaultMarker, ms)
  {
    FirstMatchIsFirst(Low32(v), ms);
    var k := IndexOf(CaseMarker(v), ms);
    assert k == |ms|;
  }

  lemma IndexRange(v: int, ms: seq<Marker>)
    ensures IndexOf(CaseMarker(v), ms) <= |ms| && IndexOf(DefaultMarker, ms) <= |ms|
    ensures IndexOf(CaseMarker(v), ms) == IndexOf(DefaultMarker, ms) ==> IndexOf(DefaultMarker, ms) == |ms|
  {
  }

  lemma {:induction false} FirstMatchIsFirst(v: int, ms: seq<Marker>)
    ensures var k := IndexOf(CaseMarker(v), ms); var j := IndexOf(DefaultMarker, ms);
      FirstMatch(v, ms) == if k < j then k else j
    ensures IndexOf(CaseMarker(v), ms) == IndexOf(DefaultMarker, ms) ==> FirstMatch(v, ms) == |ms|
  {
    if |ms| > 0 && ms[0] != DefaultMarker && ms[0] != CaseMarker(v) {
      FirstMatchIsFirst(v, ms[1..]);
    }
  }

  /** The remainder the code computes is the C99 one exactly when the dividend is not
      negative or a multiple of the divisor, and the remainder is below 2 to the 32. */
  lemma RemainderAgrees(a: Word, b: Word)
    requires b != 0 && !(a == -HALF && b == -1)
    ensures Apply(Lice, Remainder, a, b) == Apply(Iso, Remainder, a, b) <==>
      (a >= 0 || Abs(a) % Abs(b) == 0) && Abs(a) % Abs(b) < LOW32
  {
    var m := Abs(a) % Abs(b);
    assert TruncRem(a, b) == (if a < 0 then -m else m) && m >= 0;
    LowHalfSame(TruncRem(a, b));
    hide TruncRem, Abs;
  }

  lemma LowHalfSame(x: int)
    ensures x % LOW32 == x <==> 0 <= x < LOW32
  {
  }

  /** Subtracting from a pointer is addition in the code, so it is right exactly when
      twice the scaled index is a multiple of the address space. */
  lemma PointerMinusAgrees(size: int, a: Word, b: Word)
    requires size >= 1
    ensures Apply(Lice, Pointer(true, size), a, b) == Apply(Iso, Pointer(true, size), a, b) <==>
      (2 * (size * b)) % MODULUS == 0
  {
    hide Wrap;
    var x := size * b;
    WrapEqual(a + x, a - x);
  }

  lemma WrapEqual(x: int, y: int)
    ensures Wrap(x) == Wrap(y) <==> (x - y) % MODULUS == 0
  {
    var p, q := (x + HALF) / MODULUS, (y + HALF) / MODULUS;
    var r, s := (x + HALF) % MODULUS, (y + HALF) % MODULUS;
    if r == s {
      assert x - y == MODULUS * (p - q) + 0;
      DivUnique(x - y, MODULUS, p - q, 0);
    } else if r > s {
      assert x - y == MODULUS * (p - q) + (r - s);
      DivUnique(x - y, MODULUS, p - q, r - s);
    } else {
      assert x - y == MODULUS * (p - q - 1) + (MODULUS + r - s);
      DivUnique(x - y, MODULUS, p - q - 1, MODULUS + r - s);
    }
  }

  // ------------------------------------------------- ++ and --, evaluated twice

  /** No assignment, step or call anywhere in it. */
  predicate Quiet(e: Expr) {
    match e
    case Literal(_) => true
    case Read(lv) => QuietPlace(lv)
    case AddressOf(lv) => QuietPlace(lv)
    case Binary(_, l, r) => Quiet(l) && Quiet(r)
    case LogicalAnd(l, r) => Quiet(l) && Quiet(r)
    case LogicalOr(l, r) => Quiet(l) && Quiet(r)
    case LogicalNot(a) => Quiet(a)
    case OnesComplement(a) => Quiet(a)
    case Assign(_, _) => false
    case IncDec(_, _, _, _) => false
    case Conditional(b, y, n) => Quiet(b) && Quiet(y) && Quiet(n)
    case Call(_, _) => false
  }

  predicate QuietPlace(lv: LValue) {
    match lv
    case Local(_) => true
    case Deref(e) => Quiet(e)
    case Member(s, _) => QuietPlace(s)
  }

  /** Evaluating it leaves memory as it is. */
  lemma {:induction false} QuietKeeps(d: Dialect, c: Context, e: Expr, mem: Memory)
    requires Quiet(e) && Eval(d, c, e, mem).Some?
    ensures Eval(d, c, e, mem).value.mem == mem
  {
    match e {
      case Literal(_) =>
      case Read(lv) => QuietPlaceKeeps(d, c, lv, mem);
      case AddressOf(lv) =>
        if Place(d, c, lv, mem).Some? { QuietPlaceKeeps(d, c, lv, mem); }
      case Binary(op, l, r) =>
        QuietKeeps(d, c, l, mem);
        QuietKeeps(d, c, r, mem);
      case LogicalAnd(l, r) =>
        QuietKeeps(d, c, l, mem);
        if Eval(d, c, l, mem).value.value != 0 { QuietKeeps(d, c, r, mem); }
      case LogicalOr(l, r) =>
        QuietKeeps(d, c, l, mem);
        if Eval(d, c, l, mem).value.value == 0 { QuietKeeps(d, c, r, mem); }
      case LogicalNot(a) => QuietKeeps(d, c, a, mem);
      case OnesComplement(a) => QuietKeeps(d, c, a, mem);
      case Conditional(b, y, n) =>
        QuietKeeps(d, c, b, mem);
        if Eval(d, c, b, mem).value.value != 0 { QuietKeeps(d, c, y, mem); } else { QuietKeeps(d, c, n, mem); }
    }
  }

  lemma {:induction false} QuietPlaceKeeps(d: Dialect, c: Context, lv: LValue, mem: Memory)
    requires QuietPlace(lv) && Place(d, c, lv, mem).Some?
    ensures Place(d, c, lv, mem).value.mem == mem
  {
    match lv {
      case Local(_) =>
      case Deref(e) => QuietKeeps(d, c, e, mem);
      case Member(s, _) => QuietPlaceKeeps(d, c, s, mem);
    }
  }

  /** The same words everywhere but at a and b. */
  predicate AlikeBut(m: Memory, n: Memory, a: int, b: int) {
    m.Keys == n.Keys && forall x :: x in m && x != a && x != b ==> m[x] == n[x]
  }

  /** What it takes for two evaluations p and q of the lvalue and a step by one to come to
      one evaluation and a step by `scale`: the two end in the same memory and at the same
      place, where the scale is one, or, at two places, either holds what is stored in it. */
  predicate StepsAlike(p: Valued, q: Option<Valued>, prefix: bool, minus: bool, scale: int)
    requires p.value in p.mem
  {
    q.Some? && q.value.value in q.value.mem && AlikeBut(p.mem, q.value.mem, p.value, q.value.value) &&
    (prefix || q.value.value == p.value ==> (scale - 1) % MODULUS == 0) &&
    (q.value.value != p.value ==>
      q.value.mem[p.value] == Stepped(minus, p.mem[p.value], scale) &&
      p.mem[q.value.value] == Stepped(minus, p.mem[p.value], 1))
  }

  lemma SteppedEqual(minus: bool, v: Word, scale: int)
    ensures Stepped(minus, v, scale) == Stepped(minus, v, 1) <==> (scale - 1) % MODULUS == 0
  {
    hide Wrap;
    if minus {
      WrapEqual(v - 1, v - scale);
    } else {
      WrapEqual(v + scale, v + 1);
    }
  }

  /** The code of ++ and -- evaluates its lvalue twice and steps by one: exactly when that
      is what C99 says of a single evaluation and a step by the size of what is pointed to. */
  lemma IncDecAgrees(c: Context, lv: LValue, mem: Memory, prefix: bool, minus: bool, scale: int, p: Valued)
    requires Place(Iso, c, lv, mem) == Some(p) && Place(Lice, c, lv, mem) == Some(p) && p.value in p.mem
    ensures Eval(Lice, c, IncDec(lv, prefix, minus, scale), mem) == Eval(Iso, c, IncDec(lv, prefix, minus, scale), mem) <==>
      StepsAlike(p, Place(Lice, c, lv, p.mem), prefix, minus, scale)
  {
    hide Place, Stepped;
    var q := Place(Lice, c, lv, p.mem);
    var v := p.mem[p.value];
    if q.Some? && q.value.value in q.value.mem {
      SteppedEqual(minus, v, scale);
      StoredAlike(p.mem, p.value, Stepped(minus, v, scale), q.value.mem, q.value.value, Stepped(minus, v, 1), prefix, v);
    }
  }

  /** When two stores leave the same memory. */
  lemma StoredAlike(m: Memory, a: Word, x: Word, n: Memory, b: Word, y: Word, prefix: bool, before: Word)
    requires a in m && b in n
    ensures Restored(prefix, before, Put(n, b, y)) == Restored(prefix, before, Put(m, a, x)) <==>
      AlikeBut(m, n, a, b) && if a == b then x == y else n[a] == x && m[b] == y && (prefix ==> x == y)
  {
    var s, t := m[a := x], n[b := y];
    if s == t {
      assert m.Keys == s.Keys == t.Keys == n.Keys;
      forall k | k in m && k != a && k != b ensures m[k] == n[k] {
        assert s[k] == t[k];
      }
      assert s[a] == t[a] && s[b] == t[b];
    }
    if AlikeBut(m, n, a, b) && if a == b then x == y else n[a] == x && m[b] == y && (prefix ==> x == y) {
      forall k | k in s ensures k in t && s[k] == t[k] {
        assert k in m && k in n;
      }
      assert s.Keys == m.Keys == n.Keys == t.Keys;
      assert s == t;
    }
  }

  /** Where the lvalue has no assignment, step or call in it, the two evaluations are one,
      and only the scale matters. */
  lemma IncDecQuiet(c: Context, lv: LValue, mem: Memory, prefix: bool, minus: bool, scale: int, p: Valued)
    requires QuietPlace(lv)
    requires Place(Iso, c, lv, mem) == Some(p) && Place(Lice, c, lv, mem) == Some(p) && p.value in p.mem
    ensures Eval(Lice, c, IncDec(lv, prefix, minus, scale), mem) == Eval(Iso, c, IncDec(lv, prefix, minus, scale), mem) <==>
      (scale - 1) % MODULUS == 0
  {
    QuietPlaceKeeps(Lice, c, lv, mem);
    IncDecAgrees(c, lv, mem, prefix, minus, scale, p);
  }

  /** p = p + 1, for a pointer p to eight-byte objects in the first local. */
  const MOVE: Expr := Assign(Local(-8), Binary(Pointer(false, 8), Read(Local(-8)), Literal(1)))

  /** (*(p = p + 1))++ steps the next object in C99; the code moves p twice and stores into
      the object after that. */
  lemma MovedTwice(c: Context, mem: Memory, p: Word, next: Word, last: Word)
    requires p == Wrap(c.base - 8) && p in mem && next in mem && last in mem && p != next && p != last
    requires next == Stepped(false, mem[p], 8) && last == Stepped(false, mem[p], 16)
    ensures var e := IncDec(Deref(MOVE), false, false, 1);
      Eval(Iso, c, e, mem) == Some(Valued(mem[next], mem[p := next][next := Stepped(false, mem[next], 1)])) &&
      Eval(Lice, c, e, mem) == Some(Valued(mem[next], mem[p := next][p := last][last := Stepped(false, mem[next], 1)])) &&
      Eval(Iso, c, e, mem) != Eval(Lice, c, e, mem)
  {
    hide Wrap, Stepped;
    MoveOnce(Iso, c, mem, p, mem[p], next);
    MoveOnce(Lice, c, mem, p, mem[p], next);
    SteppedTwice(mem[p]);
    MoveOnce(Lice, c, mem[p := next], p, next, last);
    DerefPlace(Iso, c, MOVE, mem);
    DerefPlace(Lice, c, MOVE, mem);
    DerefPlace(Lice, c, MOVE, mem[p := next]);
    hide Eval, Place;
    SteppedApart(mem[p]);
    StepsApart(c, Deref(MOVE), mem, next, mem[p := next], last, mem[p := next][p := last]);
    assert mem[p := next][next := Stepped(false, mem[next], 1)][p] == next;
    assert mem[p := next][p := last][last := Stepped(false, mem[next], 1)][p] == last;
  }

  lemma DerefPlace(d: Dialect, c: Context, e: Expr, mem: Memory)
    ensures Place(d, c, Deref(e), mem) == Eval(d, c, e, mem)
  {
  }

  /** A step whose two evaluations end at a and b. */
  lemma StepsApart(c: Context, lv: LValue, mem: Memory, a: Word, m: Memory, b: Word, n: Memory)
    requires Place(Iso, c, lv, mem) == Some(Valued(a, m)) && Place(Lice, c, lv, mem) == Some(Valued(a, m))
    requires Place(Lice, c, lv, m) == Some(Valued(b, n)) && a in m && b in n
    ensures Eval(Iso, c, IncDec(lv, false, false, 1), mem) == Some(Valued(m[a], m[a := Stepped(false, m[a], 1)]))
    ensures Eval(Lice, c, IncDec(lv, false, false, 1), mem) == Some(Valued(m[a], n[b := Stepped(false, m[a], 1)]))
  {
    hide Place, Stepped;
  }

  lemma MoveOnce(d: Dialect, c: Context, mem: Memory, p: Word, x: Word, y: Word)
    requires p == Wrap(c.base - 8) && p in mem && mem[p] == x && y == Stepped(false, x, 8) && (d == Iso || d == Lice)
    ensures Eval(d, c, MOVE, mem) == Some(Valued(y, mem[p := y]))
  {
    var sum := Binary(Pointer(false, 8), Read(Local(-8)), Literal(1));
    assert Apply(d, Pointer(false, 8), x, 1) == Some(y);
    assert Eval(d, c, Read(Local(-8)), mem) == Some(Valued(x, mem));
    assert Eval(d, c, Literal(1), mem) == Some(Valued(1, mem));
    assert Eval(d, c, sum, mem) == Some(Valued(y, mem));
  }

  lemma SteppedTwice(x: Word)
    ensures Stepped(false, Stepped(false, x, 8), 8) == Stepped(false, x, 16)
  {
    var i: int := x;
    WrapTwice(i, 8, 8);
  }

  lemma SteppedApart(x: Word)
    ensures Stepped(false, x, 8) != Stepped(false, x, 16)
  {
    var i: int := x;
    WrapEqual(i + 8, i + 16);
  }

  lemma WrapTwice(x: int, y: int, z: int)
    ensures Wrap(Wrap(x + y) + z) == Wrap(x + y + z)
  {
    var q := (x + y + HALF) / MODULUS;
    assert x + y + z - (Wrap(x + y) + z) == MODULUS * q;
    assert (MODULUS * q) % MODULUS == 0 by { DivUnique(MODULUS * q, MODULUS, q, 0); }
    WrapEqual(x + y + z, Wrap(x + y) + z);
  }

  // --------------------------------------------------- continue in a do statement

  /** A continue occurs in s outside its loops: were s the body of a loop, it would be
      that loop's own. */
  predicate OwnContinue(s: Stmt) {
    match s
    case Continue => true
    case Sequence(a, b) => OwnContinue(a) || OwnContinue(b)
    case If(_, y) => OwnContinue(y)
    case IfElse(_, y, n) => OwnContinue(y) || OwnContinue(n)
    case For(init, _, _, _) => OwnContinue(init)
    case Switch(_, body) => OwnContinue(body)
    case _ => false
  }

  /** Without one, no run of s ends in a continue. */
  lemma {:induction false} NeverContinued(d: Dialect, c: Context, s: Stmt, entry: Option<nat>, mem: Memory, fuel: nat)
    requires entry.Some? ==> entry.value < |Markers(s)|
    requires !OwnContinue(s) && Exec(d, c, s, entry, mem, fuel).Some?
    ensures Exec(d, c, s, entry, mem, fuel).value.outcome != Continued
    decreases fuel, s, 2
  {
    hide Eval;
    match s {
      case Sequence(a, b) =>
        var j := |Markers(a)|;
        if entry.Some? && entry.value >= j {
          NeverContinued(d, c, b, Some(entry.value - j), mem, fuel);
        } else {
          NeverContinued(d, c, a, entry, mem, fuel);
          var r := Exec(d, c, a, entry, mem, fuel).value;
          if r.outcome == Normal { NeverContinued(d, c, b, None, r.mem, fuel); }
        }
      case If(b, y) =>
        if entry.Some? { NeverContinued(d, c, y, entry, mem, fuel); } else {
          var v := Eval(d, c, b, mem).value;
          if v.value != 0 { NeverContinued(d, c, y, None, v.mem, fuel); }
        }
      case IfElse(b, y, n) =>
        if entry.Some? {
          if entry.value < |Markers(y)| { NeverContinued(d, c, y, entry, mem, fuel); }
          else { NeverContinued(d, c, n, Some(entry.value - |Markers(y)|), mem, fuel); }
        } else {
          var v := Eval(d, c, b, mem).value;
          if v.value != 0 { NeverContinued(d, c, y, None, v.mem, fuel); } else { NeverContinued(d, c, n, None, v.mem, fuel); }
        }
      case While(_, _) => LoopNeverContinued(d, c, s, entry, mem, fuel);
      case DoWhile(_, _) => LoopNeverContinued(d, c, s, entry, mem, fuel);
      case For(init, _, _, _) =>
        if entry.Some? && entry.value >= |Markers(init)| {
          ForNeverContinued(d, c, s, Exec(d, c, s.body, Some(entry.value - |Markers(init)|), mem, fuel), fuel);
        } else {
          NeverContinued(d, c, init, entry, mem, fuel);
          var r := Exec(d, c, init, entry, mem, fuel).value;
          if r.outcome == Normal { ForLoopNeverContinued(d, c, s, r.mem, fuel); }
        }
      case Switch(e, body) => SwitchNeverContinued(d, c, s, mem, fuel);
      case _ =>
    }
  }

  lemma {:induction false} SwitchNeverContinued(d: Dialect, c: Context, s: Stmt, mem: Memory, fuel: nat)
    requires s.Switch? && !OwnContinue(s) && Exec(d, c, s, None, mem, fuel).Some?
    ensures Exec(d, c, s, None, mem, fuel).value.outcome != Continued
    decreases fuel, s, 1
  {
    hide Eval, SelectIso, SelectLice;
    var v := Eval(d, c, s.e, mem).value;
    var target := Pick(d, Some(SelectIso(v.value, Markers(s.body))), Some(SelectLice(v.value, Markers(s.body)))).value;
    if target.Some? { NeverContinued(d, c, s.body, target, v.mem, fuel); }
  }

  lemma {:induction false} LoopNeverContinued(d: Dialect, c: Context, s: Stmt, entry: Option<nat>, mem: Memory, fuel: nat)
    requires (s.While? || s.DoWhile?) && (entry.Some? ==> entry.value < |Markers(s)|) && Exec(d, c, s, entry, mem, fuel).Some?
    ensures Exec(d, c, s, entry, mem, fuel).value.outcome != Continued
    decreases fuel, s, 1
  {
    hide Eval;
    var start := if s.DoWhile? || entry.Some? then mem else Eval(d, c, s.cond, mem).value.mem;
    var r := Exec(d, c, s.body, entry, start, fuel);
    if r.Some? && fuel > 0 && !r.value.outcome.Broke? && !r.value.outcome.Returned? {
      if s.While? || (r.value.outcome == Continued && d == Lice) {
        if Exec(d, c, s, None, r.value.mem, fuel - 1).Some? { LoopNeverContinued(d, c, s, None, r.value.mem, fuel - 1); }
      } else {
        var v := Eval(d, c, s.cond, r.value.mem);
        if v.Some? && Exec(d, c, s, None, v.value.mem, fuel - 1).Some? { LoopNeverContinued(d, c, s, None, v.value.mem, fuel - 1); }
      }
    }
  }

  lemma {:induction false} ForNeverContinued(d: Dialect, c: Context, s: Stmt, r: Option<Done>, fuel: nat)
    requires s.For? && AfterFor(d, c, s, r, fuel).Some?
    ensures AfterFor(d, c, s, r, fuel).value.outcome != Continued
    decreases fuel, 0
  {
    hide EvalOption;
    if !r.value.outcome.Broke? && !r.value.outcome.Returned? {
      ForLoopNeverContinued(d, c, s, EvalOption(d, c, s.step, 0, r.value.mem).value.mem, fuel - 1);
    }
  }

  lemma {:induction false} ForLoopNeverContinued(d: Dialect, c: Context, s: Stmt, mem: Memory, fuel: nat)
    requires s.For? && ForLoop(d, c, s, mem, fuel).Some?
    ensures ForLoop(d, c, s, mem, fuel).value.outcome != Continued
    decreases fuel, 1
  {
    hide EvalOption;
    var v := EvalOption(d, c, s.test, 1, mem).value;
    if v.value != 0 {
      ForNeverContinued(d, c, s, Exec(d, c, s.body, None, v.mem, fuel), fuel);
    }
  }

  /** The two rules give it the same runs. */
  ghost predicate SameRuns(c: Context, s: Stmt) {
    forall entry: Option<nat>, mem: Memory, fuel: nat :: (entry.Some? ==> entry.value < |Markers(s)|) ==>
      Exec(Iso, c, s, entry, mem, fuel) == Exec(Lice, c, s, entry, mem, fuel)
  }

  ghost predicate SameValue(c: Context, e: Expr) {
    forall mem: Memory :: Eval(Iso, c, e, mem) == Eval(Lice, c, e, mem)
  }

  /** A do statement without a continue of its own means the same by the two rules if its
      body and test do. */
  lemma {:induction false} DoAgrees(c: Context, body: Stmt, b: Expr, entry: Option<nat>, mem: Memory, fuel: nat)
    requires !OwnContinue(body) && SameRuns(c, body) && SameValue(c, b) && (entry.Some? ==> entry.value < |Markers(body)|)
    ensures Exec(Iso, c, DoWhile(body, b), entry, mem, fuel) == Exec(Lice, c, DoWhile(body, b), entry, mem, fuel)
    decreases fuel
  {
    hide Eval;
    var r := Exec(Lice, c, body, entry, mem, fuel);
    if r.Some? && fuel > 0 {
      NeverContinued(Lice, c, body, entry, mem, fuel);
      var v := Eval(Lice, c, b, r.value.mem);
      if v.Some? { DoAgrees(c, body, b, None, v.value.mem, fuel - 1); }
    }
  }

  /** Where a do statement goes on once its body has ended. */
  datatype Round = Again(mem: Memory) | Over(mem: Memory) | Undefined

  function Tested(v: Option<Valued>): Round {
    match v
    case None => Undefined
    case Some(p) => if p.value == 0 then Over(p.mem) else Again(p.mem)
  }

  function FromRound(d: Dialect, c: Context, s: Stmt, round: Round, fuel: nat): Option<Done>
    requires s.DoWhile?
  {
    match round
    case Undefined => None
    case Over(mem) => Some(Done(Normal, mem))
    case Again(mem) => Exec(d, c, s, None, mem, fuel)
  }

  /** After a body that ended in a continue C99 goes to the test and the code goes round
      again: the same exactly when the test is not zero and leaves memory alone. */
  lemma ContinueAgrees(c: Context, s: Stmt, mem: Memory, fuel: nat)
    requires s.DoWhile? && fuel > 0
    ensures var iso := Tested(Eval(Iso, c, s.cond, mem));
      AfterDo(Iso, c, s, Some(Done(Continued, mem)), fuel) == FromRound(Iso, c, s, iso, fuel - 1) &&
      AfterDo(Lice, c, s, Some(Done(Continued, mem)), fuel) == FromRound(Lice, c, s, Again(mem), fuel - 1) &&
      (iso == Again(mem) <==>
        Eval(Iso, c, s.cond, mem).Some? && Eval(Iso, c, s.cond, mem).value.value != 0 && Eval(Iso, c, s.cond, mem).value.mem == mem)
  {
    hide Eval, Exec;
  }

  /** Every run of it that ends, ends in a continue. */
  ghost predicate AlwaysContinues(c: Context, body: Stmt) {
    forall mem: Memory, fuel: nat :: Exec(Lice, c, body, None, mem, fuel).Some? ==>
      Exec(Lice, c, body, None, mem, fuel).value.outcome == Continued
  }

  /** Then the code never leaves the loop; C99 leaves it when the test is zero. */
  lemma {:induction false} DoContinueLoops(c: Context, body: Stmt, b: Expr, mem: Memory, fuel: nat)
    requires AlwaysContinues(c, body)
    ensures Exec(Lice, c, DoWhile(body, b), None, mem, fuel) == None
    ensures fuel > 0 && Exec(Iso, c, body, None, mem, fuel).Some? ==>
      var r := Exec(Iso, c, body, None, mem, fuel).value;
      r.outcome == Continued && Eval(Iso, c, b, r.mem).Some? && Eval(Iso, c, b, r.mem).value.value == 0 ==>
        Exec(Iso, c, DoWhile(body, b), None, mem, fuel) == Some(Done(Normal, Eval(Iso, c, b, r.mem).value.mem))
    decreases fuel
  {
    hide Eval;
    var r := Exec(Lice, c, body, None, mem, fuel);
    if r.Some? && fuel > 0 {
      DoContinueLoops(c, body, b, r.value.mem, fuel - 1);
    }
  }

  /** The statement do continue; while (0); ends at once in C99 and never in the code. */
  lemma DoContinue(c: Context, mem: Memory, fuel: nat)
    ensures Exec(Lice, c, DoWhile(Continue, Literal(0)), None, mem, fuel) == None
    ensures fuel > 0 ==> Exec(Iso, c, DoWhile(Continue, Literal(0)), None, mem, fuel) == Some(Done(Normal, mem))
  {
    DoContinueLoops(c, Continue, Literal(0), mem, fuel);
  }

  // ------------------------------------------------------------ the address of *e

  /** The address of *e is e; the code loads through it, which is right exactly when the
      word stored there is its own address. */
  lemma AddressOfDeref(c: Context, e: Expr, mem: Memory, v: Valued)
    requires Eval(Iso, c, e, mem) == Some(v) && Eval(Lice, c, e, mem) == Some(v)
    ensures Eval(Lice, c, AddressOf(Deref(e)), mem) == Eval(Iso, c, AddressOf(Deref(e)), mem) <==>
      v.value in v.mem && v.mem[v.value] == v.value
  {
    hide Wrap;
  }

  /** An array element is written a[i] and is *(a + i): its address is right exactly when
      the element holds it. */
  lemma AddressOfElement(c: Context, e: Expr, i: Expr, size: int, mem: Memory, a: Valued, k: Valued)
    requires Eval(Iso, c, e, mem) == Some(a) && Eval(Lice, c, e, mem) == Some(a)
    requires Eval(Iso, c, i, a.mem) == Some(k) && Eval(Lice, c, i, a.mem) == Some(k) && size >= 1
    ensures var at := Wrap(a.value + size * k.value);
      var address := AddressOf(Deref(Binary(Pointer(false, size), e, i)));
      Eval(Iso, c, address, mem) == Some(Valued(at, k.mem)) &&
      (Eval(Lice, c, address, mem) == Eval(Iso, c, address, mem) <==> at in k.mem && k.mem[at] == at)
  {
    hide Wrap;
    var sum := Binary(Pointer(false, size), e, i);
    var at := Wrap(a.value + size * k.value);
    assert Apply(Iso, sum.op, a.value, k.value) == Some(at) && Apply(Lice, sum.op, a.value, k.value) == Some(at);
    AddressOfDeref(c, sum, mem, Valued(at, k.mem));
  }
}
