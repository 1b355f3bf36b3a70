/** Endless programs and their endless code. */
module Divergence {
  import opened Words
  import opened Runs
  import opened Machine
  import opened Syntax
  import opened Semantics
  import opened Code
  import opened Relation
  import opened ExprSim
  import opened StmtSim
  import opened Frames
  import opened FunctionSim
  import opened SaveSlots
  import opened Dialects
  import opened Guards

  // ------------------------------------------------------- long executions

  /** The machine makes at least n steps. */
  ghost predicate Lasts(env: Callees, prog: Program, s: State, n: nat) {
    Run(Stepper(env, prog), s, n).Some?
  }

  lemma {:induction false} RunLess(step: State -> Option<State>, s: State, n: nat, m: nat)
    requires m <= n && Run(step, s, n).Some?
    ensures Run(step, s, m).Some?
    decreases n
  {
    if m > 0 {
      RunLess(step, step(s).value, n - 1, m - 1);
    }
  }

  lemma LastsLess(env: Callees, prog: Program, s: State, n: nat, m: nat)
    requires m <= n && Lasts(env, prog, s, n)
    ensures Lasts(env, prog, s, m)
  {
    RunLess(Stepper(env, prog), s, n, m);
  }

  lemma LastsAfter(env: Callees, prog: Program, s: State, t: State, n: nat)
    requires Reaches(env, prog, s, t) && Lasts(env, prog, t, n)
    ensures Lasts(env, prog, s, n)
  {
    var m: nat :| Run(Stepper(env, prog), s, m) == Some(t);
    RunTrans(Stepper(env, prog), s, t, m, n);
    RunLess(Stepper(env, prog), s, m + n, n);
  }

  lemma LastsStep(env: Callees, prog: Program, s: State, t: State, n: nat)
    requires Step(env, prog, s) == Some(t) && Lasts(env, prog, t, n)
    ensures Lasts(env, prog, s, n + 1)
  {
    hide Step;
  }

  // --------------------------------------------------- endless executions

  /** Where a switch enters its body; where the rules differ, none of it under Common. */
  function Selected(d: Dialect, v: Word, ms: seq<Marker>): (k: Option<nat>)
    ensures k.Some? ==> k.value < |ms|
  {
    match Pick(d, Some(SelectIso(v, ms)), Some(SelectLice(v, ms)))
    case None => None
    case Some(k) => k
  }

  /** The run takes more than `fuel` rounds of some loop: it is not stuck, and has not
      ended. */
  predicate Spins(d: Dialect, c: Context, s: Stmt, entry: Option<nat>, mem: Memory, fuel: nat)
    requires entry.Some? ==> entry.value < |Markers(s)|
    decreases fuel, s, 2
  {
    match s
    case Sequence(a, b) =>
      if entry.Some? && entry.value >= |Markers(a)| then
        Spins(d, c, b, Some(entry.value - |Markers(a)|), mem, fuel)
      else
        Spins(d, c, a, entry, mem, fuel) ||
        var r := Exec(d, c, a, entry, mem, fuel);
        r.Some? && r.value.outcome.Normal? && Spins(d, c, b, None, r.value.mem, fuel)
    case If(b, y) =>
      if entry.Some? then Spins(d, c, y, entry, mem, fuel) else
      var v := Eval(d, c, b, mem);
      v.Some? && v.value.value != 0 && Spins(d, c, y, None, v.value.mem, fuel)
    case IfElse(b, y, n) =>
      if entry.Some? then
        if entry.value < |Markers(y)| then Spins(d, c, y, entry, mem, fuel)
        else Spins(d, c, n, Some(entry.value - |Markers(y)|), mem, fuel)
      else
      var v := Eval(d, c, b, mem);
      v.Some? && if v.value.value != 0 then Spins(d, c, y, None, v.value.mem, fuel) else Spins(d, c, n, None, v.value.mem, fuel)
    case While(b, body) =>
      if entry.Some? then SpinsIn(d, c, s, entry, mem, fuel) else
      var v := Eval(d, c, b, mem);
      v.Some? && v.value.value != 0 && SpinsIn(d, c, s, None, v.value.mem, fuel)
    case DoWhile(_, _) => SpinsIn(d, c, s, entry, mem, fuel)
    case For(init, _, _, _) =>
      if entry.Some? && entry.value >= |Markers(init)| then
        SpinsIn(d, c, s, Some(entry.value - |Markers(init)|), mem, fuel)
      else
        Spins(d, c, init, entry, mem, fuel) ||
        var r := Exec(d, c, init, entry, mem, fuel);
        r.Some? && r.value.outcome.Normal? && SpinsLoop(d, c, s, r.value.mem, fuel)
    case Switch(e, body) =>
      var v := Eval(d, c, e, mem);
      v.Some? && (d == Narrow ==> IsInt(v.value.value)) &&
      var target := Selected(d, v.value.value, Markers(body));
      target.Some? && Spins(d, c, body, target, v.value.mem, fuel)
    case _ => false
  }

  /** From inside a loop's body. */
  predicate SpinsIn(d: Dialect, c: Context, s: Stmt, entry: Option<nat>, mem: Memory, fuel: nat)
    requires (s.While? || s.DoWhile? || s.For?) && (entry.Some? ==> entry.value < |Markers(s.body)|)
    decreases fuel, s, 0
  {
    Spins(d, c, s.body, entry, mem, fuel) ||
    var r := Exec(d, c, s.body, entry, mem, fuel);
    r.Some? && (fuel > 0 ==> (r.value.outcome.Normal? || r.value.outcome.Continued?) && SpinsAgain(d, c, s, r.value, fuel))
  }

  /** Once the body has ended without leaving the loop. */
  predicate SpinsAgain(d: Dialect, c: Context, s: Stmt, r: Done, fuel: nat)
    requires (s.While? || s.DoWhile? || s.For?) && fuel > 0
    decreases fuel - 1, s, 3
  {
    match s
    case While(_, _) => Spins(d, c, s, None, r.mem, fuel - 1)
    case DoWhile(_, b) =>
      !(r.outcome.Continued? && d == Common) &&
      if r.outcome.Continued? && d == Lice then Spins(d, c, s, None, r.mem, fuel - 1) else
      var v := Eval(d, c, b, r.mem);
      v.Some? && v.value.value != 0 && Spins(d, c, s, None, v.value.mem, fuel - 1)
    case For(_, _, step, _) =>
      var v := EvalOption(d, c, step, 0, r.mem);
      v.Some? && SpinsLoop(d, c, s, v.value.mem, fuel - 1)
  }

  /** From the test of a for statement. */
  predicate SpinsLoop(d: Dialect, c: Context, s: Stmt, mem: Memory, fuel: nat)
    requires s.For?
    decreases fuel, s, 1
  {
    var v := EvalOption(d, c, s.test, 1, mem);
    v.Some? && v.value.value != 0 && SpinsIn(d, c, s, None, v.value.mem, fuel)
  }

  // ------------------------------------------------------------ simulation

  /** Entered at a marker inside a loop, the first round is not counted. */
  function Rounds(entry: Option<nat>, fuel: nat): nat {
    if entry.Some? && fuel > 0 then fuel - 1 else fuel
  }

  lemma Afresh(c: Context, prog: Program, s0: State, s: State, mem: Memory, k: nat)
    requires At(c, prog, s0, s, mem, k)
    ensures At(c, prog, s, s, mem, k) && Reaches(c.callees, prog, s0, s)
  {
    hide Reaches;
    ConnectedSelfOf(c.callees, prog, s);
  }

  /** A state reached on the way lasts, so this one does. */
  lemma Later(c: Context, prog: Program, s: State, t: State, mem: Memory, k: nat, n: nat, m: nat)
    requires At(c, prog, s, t, mem, k) && Lasts(c.callees, prog, t, n) && m <= n
    ensures Lasts(c.callees, prog, s, m)
  {
    hide Reaches, Lasts, Room, Agree, Kept, Frame;
    LastsAfter(c.callees, prog, s, t, n);
    LastsLess(c.callees, prog, s, n, m);
  }

  /** Past a label or along a jump, in one step. */
  lemma OneStep(c: Context, prog: Program, s: State, p: int, code: seq<Instr>, j: int, q: int, mem: Memory, k: nat) returns (t: State)
    requires CodeAt(prog, p, code) && 0 <= j < |code| && s.pc == p + j && At(c, prog, s, s, mem, k)
    requires (code[j].Label? && q == s.pc + 1) || (code[j].Jmp? && FindLabel(prog, code[j].target) == Some(q))
    ensures Step(c.callees, prog, s) == Some(t) && t == s.(pc := q) && At(c, prog, t, t, mem, k)
  {
    t := s.(pc := q);
    assert prog[p + j] == code[j];
    AtStep(c, prog, s, t, mem, k);
    Afresh(c, prog, s, t, mem, k);
  }

  lemma AtStep(c: Context, prog: Program, s: State, t: State, mem: Memory, k: nat)
    requires At(c, prog, s, s, mem, k) && Step(c.callees, prog, s) == Some(t) && t == s.(pc := t.pc)
    ensures At(c, prog, s, t, mem, k)
  {
    hide Step, Reaches;
    Then(c.callees, prog, s, s, t);
  }

  /** Code of a statement whose run does not end runs for as long as one likes. */
  lemma {:induction false} Goes(c: Context, prog: Program, st: Stmt, entry: Option<nat>, n: nat, d: int, g: Targets, p: int,
    s: State, mem: Memory, k: nat, fuel: nat)
    requires CodeAt(prog, p, StmtCode(st, n, d, g)) && At(c, prog, s, s, mem, k) && StmtDepth(st) <= k && Scope(prog, st, g)
    requires Entering(st, entry, n, d, g, p, s) && Spins(Lice, c, st, entry, mem, fuel)
    ensures Lasts(c.callees, prog, s, Rounds(entry, fuel))
    decreases fuel, st, 5
  {
    hide *;
    match st {
      case Sequence(_, _) => GoesSequence(c, prog, st, entry, n, d, g, p, s, mem, k, fuel);
      case If(_, _) => GoesIf(c, prog, st, entry, n, d, g, p, s, mem, k, fuel);
      case IfElse(_, _, _) => GoesIfElse(c, prog, st, entry, n, d, g, p, s, mem, k, fuel);
      case While(_, _) => GoesWhile(c, prog, st, entry, n, d, g, p, s, mem, k, fuel);
      case DoWhile(_, _) => GoesDo(c, prog, st, entry, n, d, g, p, s, mem, k, fuel);
      case For(_, _, _, _) => GoesFor(c, prog, st, entry, n, d, g, p, s, mem, k, fuel);
      case Switch(_, _) => GoesSwitch(c, prog, st, entry, n, d, g, p, s, mem, k, fuel);
      case _ => EnteringMarker(st, entry, n, d, g, p, s); Ends(Lice, c, st, entry, mem, fuel);
    }
  }

  lemma Ends(dialect: Dialect, c: Context, st: Stmt, entry: Option<nat>, mem: Memory, fuel: nat)
    requires entry.Some? ==> entry.value < |Markers(st)|
    requires !st.Sequence? && !st.If? && !st.IfElse? && !st.While? && !st.DoWhile? && !st.For? && !st.Switch?
    ensures !Spins(dialect, c, st, entry, mem, fuel)
  {
    hide Markers;
  }

  lemma {:induction false} GoesSequence(c: Context, prog: Program, st: Stmt, entry: Option<nat>, n: nat, d: int, g: Targets, p: int,
    s: State, mem: Memory, k: nat, fuel: nat)
    requires st.Sequence?
    requires CodeAt(prog, p, StmtCode(st, n, d, g)) && At(c, prog, s, s, mem, k) && StmtDepth(st) <= k && Scope(prog, st, g)
    requires Entering(st, entry, n, d, g, p, s) && Spins(Lice, c, st, entry, mem, fuel)
    ensures Lasts(c.callees, prog, s, Rounds(entry, fuel))
    decreases fuel, st, 4
  {
    hide Exec, Lasts, CodeAt, At, Landed, FindLabel, StmtCode, Live, ExprCode, Eval, NextSwitch, Markers, EntryOffset, Arms, WhileLayout, DoLayout, ForAt, Depth;
    var Sequence(a, b) := st;
    var q := SequenceParts(prog, p, st, n, d, g);
    SequenceShape(st, n, d, g);
    var m, g', j := n + StmtLabels(a), g.(sw := NextSwitch(a, n, g.sw)), |Markers(a)|;
    if entry.Some? && entry.value >= j {
      Goes(c, prog, b, Some(entry.value - j), m, d, g', q, s, mem, k, fuel);
    } else if Spins(Lice, c, a, entry, mem, fuel) {
      Goes(c, prog, a, entry, n, d, g, p, s, mem, k, fuel);
    } else {
      var r1 := Exec(Lice, c, a, entry, mem, fuel).value;
      var t1 := SimStmt(c, prog, a, entry, n, d, g, p, s, s, mem, k, fuel, r1);
      LandedNormal(c, prog, s, t1, q, g, r1, k);
      Afresh(c, prog, s, t1, r1.mem, k);
      Goes(c, prog, b, None, m, d, g', q, t1, r1.mem, k, fuel);
      Later(c, prog, s, t1, r1.mem, k, fuel, Rounds(entry, fuel));
    }
  }

  lemma {:induction false} GoesIf(c: Context, prog: Program, st: Stmt, entry: Option<nat>, n: nat, d: int, g: Targets, p: int,
    s: State, mem: Memory, k: nat, fuel: nat)
    requires st.If?
    requires CodeAt(prog, p, StmtCode(st, n, d, g)) && At(c, prog, s, s, mem, k) && StmtDepth(st) <= k && Scope(prog, st, g)
    requires Entering(st, entry, n, d, g, p, s) && Spins(Lice, c, st, entry, mem, fuel)
    ensures Lasts(c.callees, prog, s, Rounds(entry, fuel))
    decreases fuel, st, 4
  {
    hide Exec, Lasts, CodeAt, At, Landed, FindLabel, StmtCode, Live, ExprCode, Eval, NextSwitch, Markers, EntryOffset, Arms, WhileLayout, DoLayout, ForAt, Depth;
    var If(b, y) := st;
    var q := IfParts(prog, p, st, n, d, g);
    IfShape(st, n, d, g);
    var ne := n + ExprLabels(b);
    if entry.Some? {
      Goes(c, prog, y, entry, ne + 1, d, g, q, s, mem, k, fuel);
    } else {
      var v := Eval(Lice, c, b, mem).value;
      var t1 := TestAt(c, prog, b, n, d, s, s, mem, k, ne, q + |StmtCode(y, ne + 1, d, g)|, v);
      Afresh(c, prog, s, t1, v.mem, k);
      Goes(c, prog, y, None, ne + 1, d, g, q, t1, v.mem, k, fuel);
      Later(c, prog, s, t1, v.mem, k, fuel, fuel);
    }
  }

  lemma {:induction false} GoesIfElse(c: Context, prog: Program, st: Stmt, entry: Option<nat>, n: nat, d: int, g: Targets, p: int,
    s: State, mem: Memory, k: nat, fuel: nat)
    requires st.IfElse?
    requires CodeAt(prog, p, StmtCode(st, n, d, g)) && At(c, prog, s, s, mem, k) && StmtDepth(st) <= k && Scope(prog, st, g)
    requires Entering(st, entry, n, d, g, p, s) && Spins(Lice, c, st, entry, mem, fuel)
    ensures Lasts(c.callees, prog, s, Rounds(entry, fuel))
    decreases fuel, st, 4
  {
    hide Exec, Lasts, CodeAt, At, Landed, FindLabel, StmtCode, Live, ExprCode, Eval, NextSwitch, Markers, EntryOffset, Arms, WhileLayout, DoLayout, ForAt, Depth;
    var IfElse(b, y, no) := st;
    var q, q' := IfElseParts(prog, p, st, n, d, g);
    IfElseShape(st, n, d, g);
    var ne := n + ExprLabels(b);
    var end := ne + 1 + StmtLabels(y);
    var g', j := g.(sw := NextSwitch(y, ne + 1, g.sw)), |Markers(y)|;
    ArmsEnds(prog, p, ExprCode(b, n, d), StmtCode(y, ne + 1, d, g), StmtCode(no, end + 1, d, g'), ne, end);
    if entry.Some? && entry.value < j {
      Goes(c, prog, y, entry, ne + 1, d, g, q, s, mem, k, fuel);
    } else if entry.Some? {
      Goes(c, prog, no, Some(entry.value - j), end + 1, d, g', q', s, mem, k, fuel);
    } else {
      var v := Eval(Lice, c, b, mem).value;
      var t1 := TestAt(c, prog, b, n, d, s, s, mem, k, ne, q' - 1, v);
      if v.value != 0 {
        Afresh(c, prog, s, t1, v.mem, k);
        Goes(c, prog, y, None, ne + 1, d, g, q, t1, v.mem, k, fuel);
        Later(c, prog, s, t1, v.mem, k, fuel, fuel);
      } else {
        var t2 := PassLabel(c, prog, s, t1, q' - 2, [Jmp(end), Label(ne)], 1, v.mem, k);
        Afresh(c, prog, s, t2, v.mem, k);
        Goes(c, prog, no, None, end + 1, d, g', q', t2, v.mem, k, fuel);
        Later(c, prog, s, t2, v.mem, k, fuel, fuel);
      }
    }
  }

  // ----- loops

  lemma {:induction false} GoesWhile(c: Context, prog: Program, st: Stmt, entry: Option<nat>, n: nat, d: int, g: Targets, p: int,
    s: State, mem: Memory, k: nat, fuel: nat)
    requires st.While?
    requires CodeAt(prog, p, StmtCode(st, n, d, g)) && At(c, prog, s, s, mem, k) && StmtDepth(st) <= k && Scope(prog, st, g)
    requires Entering(st, entry, n, d, g, p, s) && Spins(Lice, c, st, entry, mem, fuel)
    ensures Lasts(c.callees, prog, s, Rounds(entry, fuel))
    decreases fuel, st, 4
  {
    hide Exec, Lasts, SpinsIn, CodeAt, At, Landed, FindLabel, StmtCode, Live, ExprCode, Eval, NextSwitch, Markers, EntryOffset, Arms, WhileLayout, DoLayout, ForAt, Depth;
    var q := WhileParts(prog, p, st, n, d, g);
    WhileShape(st, n, d, g);
    if entry.Some? {
      GoesWhileIn(c, prog, st, entry, n, d, g, p, q, s, mem, k, fuel);
    } else {
      var cond := ExprCode(st.cond, n + 2, d);
      var body := StmtCode(st.body, n + 2 + ExprLabels(st.cond), d, g.(brk := Some(n + 1), cont := Some(n)));
      var v := Eval(Lice, c, st.cond, mem).value;
      WhileEnds(prog, p, cond, body, n);
      var t1 := OneStep(c, prog, s, p, [Label(n)], 0, p + 1, mem, k);
      var t2 := TestAt(c, prog, st.cond, n + 2, d, t1, t1, mem, k, n + 1, q + |body| + 1, v);
      Afresh(c, prog, t1, t2, v.mem, k);
      GoesWhileIn(c, prog, st, None, n, d, g, p, q, t2, v.mem, k, fuel);
      GoesOn(c, prog, s, t1, t2, v.mem, k, fuel);
    }
  }

  /** The step over the label makes up for the round that was not counted. */
  lemma GoesOn(c: Context, prog: Program, s: State, t1: State, t2: State, mem: Memory, k: nat, fuel: nat)
    requires Step(c.callees, prog, s) == Some(t1) && At(c, prog, t1, t2, mem, k)
    requires Lasts(c.callees, prog, t2, if fuel > 0 then fuel - 1 else 0)
    ensures Lasts(c.callees, prog, s, fuel)
  {
    hide Lasts, At, Step;
    var m := if fuel > 0 then fuel - 1 else 0;
    Later(c, prog, t1, t2, mem, k, m, m);
    LastsStep(c.callees, prog, s, t1, m);
    LastsLess(c.callees, prog, s, m + 1, fuel);
  }

  /** From the body, at its start or at a marker: one round less. */
  lemma {:induction false} GoesWhileIn(c: Context, prog: Program, st: Stmt, entry: Option<nat>, n: nat, d: int, g: Targets, p: int, q: int,
    s: State, mem: Memory, k: nat, fuel: nat)
    requires st.While? && StmtDepth(st) <= k && Scope(prog, st, g) && CodeAt(prog, p, StmtCode(st, n, d, g))
    requires var body := StmtCode(st.body, n + 2 + ExprLabels(st.cond), d, g.(brk := Some(n + 1), cont := Some(n)));
      q == p + 1 + |ExprCode(st.cond, n + 2, d)| + 2 && CodeAt(prog, q, body) &&
      WhileLayout(prog, p, ExprCode(st.cond, n + 2, d), body, n) && p + |StmtCode(st, n, d, g)| == q + |body| + 2
    requires At(c, prog, s, s, mem, k)
    requires Entering(st.body, entry, n + 2 + ExprLabels(st.cond), d, g.(brk := Some(n + 1), cont := Some(n)), q, s)
    requires SpinsIn(Lice, c, st, entry, mem, fuel)
    ensures Lasts(c.callees, prog, s, if fuel > 0 then fuel - 1 else 0)
    decreases fuel, st, 3
  {
    hide Exec, Lasts, Spins, LoopLabels, Entering, Scope, CodeAt, At, Landed, FindLabel, StmtCode, Live, ExprCode, Eval, NextSwitch, Markers, EntryOffset, Arms, WhileLayout, DoLayout, ForAt, Depth, EntryPoint;
    var m := n + 2 + ExprLabels(st.cond);
    var g' := g.(brk := Some(n + 1), cont := Some(n));
    var body := StmtCode(st.body, m, d, g');
    var e := q + |body|;
    WhileEnds(prog, p, ExprCode(st.cond, n + 2, d), body, n);
    LoopScope(prog, st, g, n, p, n + 1, e, n);
    EnteringMarker(st.body, entry, m, d, g', q, s);
    if Spins(Lice, c, st.body, entry, mem, fuel) {
      Goes(c, prog, st.body, entry, m, d, g', q, s, mem, k, fuel);
      LastsLess(c.callees, prog, s, Rounds(entry, fuel), if fuel > 0 then fuel - 1 else 0);
    } else if fuel == 0 {
      Still(c, prog, s);
    } else {
      var r1 := Exec(Lice, c, st.body, entry, mem, fuel).value;
      var t1 := SimStmt(c, prog, st.body, entry, m, d, g', q, s, s, mem, k, fuel, r1);
      var t2 := t1;
      if r1.outcome.Normal? {
        LandedNormal(c, prog, s, t1, e, g', r1, k);
        t2 := LoopBack(c, prog, s, t1, n, p, n + 1, e, r1.mem, k);
      } else {
        LandedContinued(c, prog, s, t1, e, g', r1, k);
      }
      Afresh(c, prog, s, t2, r1.mem, k);
      EnterStart(st, n, d, g, p, t2);
      Goes(c, prog, st, None, n, d, g, p, t2, r1.mem, k, fuel - 1);
      Later(c, prog, s, t2, r1.mem, k, fuel - 1, fuel - 1);
    }
  }

  lemma Still(c: Context, prog: Program, s: State)
    ensures Lasts(c.callees, prog, s, 0)
  {
  }

  lemma {:induction false} GoesDo(c: Context, prog: Program, st: Stmt, entry: Option<nat>, n: nat, d: int, g: Targets, p: int,
    s: State, mem: Memory, k: nat, fuel: nat)
    requires st.DoWhile?
    requires CodeAt(prog, p, StmtCode(st, n, d, g)) && At(c, prog, s, s, mem, k) && StmtDepth(st) <= k && Scope(prog, st, g)
    requires Entering(st, entry, n, d, g, p, s) && Spins(Lice, c, st, entry, mem, fuel)
    ensures Lasts(c.callees, prog, s, Rounds(entry, fuel))
    decreases fuel, st, 4
  {
    hide Exec, Lasts, SpinsIn, CodeAt, At, Landed, FindLabel, StmtCode, Live, ExprCode, Eval, NextSwitch, Markers, EntryOffset, Arms, WhileLayout, DoLayout, ForAt, Depth;
    var q := DoParts(prog, p, st, n, d, g);
    DoShape(st, n, d, g);
    var m := n + 2 + StmtLabels(st.body);
    DoEnds(prog, p, StmtCode(st.body, n + 2, d, g.(brk := Some(n + 1), cont := Some(n))), ExprCode(st.cond, m, d), n);
    if entry.Some? {
      GoesDoIn(c, prog, st, entry, n, d, g, p, s, mem, k, fuel);
    } else {
      var t1 := OneStep(c, prog, s, p, [Label(n)], 0, p + 1, mem, k);
      EnterStart(st.body, n + 2, d, g.(brk := Some(n + 1), cont := Some(n)), p + 1, t1);
      GoesDoIn(c, prog, st, None, n, d, g, p, t1, mem, k, fuel);
      GoesOn(c, prog, s, t1, t1, mem, k, fuel);
    }
  }

  lemma {:induction false} GoesDoIn(c: Context, prog: Program, st: Stmt, entry: Option<nat>, n: nat, d: int, g: Targets, p: int,
    s: State, mem: Memory, k: nat, fuel: nat)
    requires st.DoWhile? && StmtDepth(st) <= k && Scope(prog, st, g) && CodeAt(prog, p, StmtCode(st, n, d, g))
    requires var body := StmtCode(st.body, n + 2, d, g.(brk := Some(n + 1), cont := Some(n)));
      var cond := ExprCode(st.cond, n + 2 + StmtLabels(st.body), d);
      CodeAt(prog, p + 1, body) && DoLayout(prog, p, body, cond, n) && p + |StmtCode(st, n, d, g)| == p + 1 + |body| + |cond| + 4
    requires At(c, prog, s, s, mem, k) && Entering(st.body, entry, n + 2, d, g.(brk := Some(n + 1), cont := Some(n)), p + 1, s)
    requires SpinsIn(Lice, c, st, entry, mem, fuel)
    ensures Lasts(c.callees, prog, s, if fuel > 0 then fuel - 1 else 0)
    decreases fuel, st, 3
  {
    hide Exec, Lasts, Spins, LoopLabels, Entering, Scope, CodeAt, At, Landed, FindLabel, StmtCode, Live, ExprCode, Eval, NextSwitch, Markers, EntryOffset, Arms, WhileLayout, DoLayout, ForAt, Depth, EntryPoint;
    var g' := g.(brk := Some(n + 1), cont := Some(n));
    var body, cond := StmtCode(st.body, n + 2, d, g'), ExprCode(st.cond, n + 2 + StmtLabels(st.body), d);
    var pc := p + 1 + |body|;
    DoEnds(prog, p, body, cond, n);
    LoopScope(prog, st, g, n, p, n + 1, pc + |cond| + 2, n);
    EnteringMarker(st.body, entry, n + 2, d, g', p + 1, s);
    if Spins(Lice, c, st.body, entry, mem, fuel) {
      Goes(c, prog, st.body, entry, n + 2, d, g', p + 1, s, mem, k, fuel);
      LastsLess(c.callees, prog, s, Rounds(entry, fuel), if fuel > 0 then fuel - 1 else 0);
    } else if fuel == 0 {
      Still(c, prog, s);
    } else {
      var r1 := Exec(Lice, c, st.body, entry, mem, fuel).value;
      var t1 := SimStmt(c, prog, st.body, entry, n + 2, d, g', p + 1, s, s, mem, k, fuel, r1);
      if r1.outcome.Continued? {
        LandedContinued(c, prog, s, t1, pc, g', r1, k);
        Afresh(c, prog, s, t1, r1.mem, k);
        EnterStart(st, n, d, g, p, t1);
        Goes(c, prog, st, None, n, d, g, p, t1, r1.mem, k, fuel - 1);
      } else {
        LandedNormal(c, prog, s, t1, pc, g', r1, k);
        Afresh(c, prog, s, t1, r1.mem, k);
        GoesDoTest(c, prog, st, n, d, g, p, t1, r1.mem, k, fuel, Eval(Lice, c, st.cond, r1.mem).value);
      }
      Later(c, prog, s, t1, r1.mem, k, fuel - 1, fuel - 1);
    }
  }

  lemma {:induction false} GoesDoTest(c: Context, prog: Program, st: Stmt, n: nat, d: int, g: Targets, p: int,
    s: State, mem: Memory, k: nat, fuel: nat, v: Valued)
    requires st.DoWhile? && StmtDepth(st) <= k && Scope(prog, st, g) && CodeAt(prog, p, StmtCode(st, n, d, g))
    requires var body := StmtCode(st.body, n + 2, d, g.(brk := Some(n + 1), cont := Some(n)));
      var cond := ExprCode(st.cond, n + 2 + StmtLabels(st.body), d);
      CodeAt(prog, p + 1, body) && DoLayout(prog, p, body, cond, n) && p + |StmtCode(st, n, d, g)| == p + 1 + |body| + |cond| + 4
    requires At(c, prog, s, s, mem, k) && s.pc == p + 1 + |StmtCode(st.body, n + 2, d, g.(brk := Some(n + 1), cont := Some(n)))|
    requires fuel > 0 && Eval(Lice, c, st.cond, mem) == Some(v) && v.value != 0 && Spins(Lice, c, st, None, v.mem, fuel - 1)
    ensures Lasts(c.callees, prog, s, fuel - 1)
    decreases fuel, st, 2
  {
    hide Exec, Lasts, Spins, LoopLabels, Scope, CodeAt, At, Landed, FindLabel, StmtCode, Live, ExprCode, Eval, NextSwitch, Markers, EntryOffset, Arms, WhileLayout, DoLayout, ForAt, Depth;
    var body, cond := StmtCode(st.body, n + 2, d, g.(brk := Some(n + 1), cont := Some(n))), ExprCode(st.cond, n + 2 + StmtLabels(st.body), d);
    var e := s.pc + |cond| + 2;
    DoEnds(prog, p, body, cond, n);
    var t1 := TestAt(c, prog, st.cond, n + 2 + StmtLabels(st.body), d, s, s, mem, k, n + 1, e + 1, v);
    var t2 := LoopBack(c, prog, s, t1, n, p, n + 1, e, v.mem, k);
    Afresh(c, prog, s, t2, v.mem, k);
    EnterStart(st, n, d, g, p, t2);
    Goes(c, prog, st, None, n, d, g, p, t2, v.mem, k, fuel - 1);
    Later(c, prog, s, t2, v.mem, k, fuel - 1, fuel - 1);
  }

  lemma {:induction false} GoesFor(c: Context, prog: Program, st: Stmt, entry: Option<nat>, n: nat, d: int, g: Targets, p: int,
    s: State, mem: Memory, k: nat, fuel: nat)
    requires st.For?
    requires CodeAt(prog, p, StmtCode(st, n, d, g)) && At(c, prog, s, s, mem, k) && StmtDepth(st) <= k && Scope(prog, st, g)
    requires Entering(st, entry, n, d, g, p, s) && Spins(Lice, c, st, entry, mem, fuel)
    ensures Lasts(c.callees, prog, s, Rounds(entry, fuel))
    decreases fuel, st, 4
  {
    hide Exec, Lasts, SpinsIn, SpinsLoop, ForCode, TestCode, OptionCode, OptionDepth, CodeAt, At, Landed, FindLabel, StmtCode, Live, ExprCode, Eval, NextSwitch, Markers, EntryOffset, Arms, WhileLayout, DoLayout, ForAt, Depth;
    var b := n + StmtLabels(st.init);
    var g' := g.(sw := NextSwitch(st.init, n, g.sw));
    var pf := p + |StmtCode(st.init, n, d, g)|;
    ForParts(prog, st, n, d, g, p);
    ForShape(st, n, d, g);
    var j := |Markers(st.init)|;
    if entry.Some? && entry.value >= j {
      GoesForIn(c, prog, st, Some(entry.value - j), b, d, g', pf, s, mem, k, fuel);
    } else if Spins(Lice, c, st.init, entry, mem, fuel) {
      Goes(c, prog, st.init, entry, n, d, g, p, s, mem, k, fuel);
    } else {
      var r1 := Exec(Lice, c, st.init, entry, mem, fuel).value;
      var t1 := SimStmt(c, prog, st.init, entry, n, d, g, p, s, s, mem, k, fuel, r1);
      LandedNormal(c, prog, s, t1, pf, g, r1, k);
      Afresh(c, prog, s, t1, r1.mem, k);
      GoesForLoop(c, prog, st, b, d, g', pf, t1, r1.mem, k, fuel);
      Later(c, prog, s, t1, r1.mem, k, fuel, Rounds(entry, fuel));
    }
  }

  /** From the begin label. */
  lemma {:induction false} GoesForLoop(c: Context, prog: Program, st: Stmt, b: nat, d: int, g: Targets, p: int,
    s: State, mem: Memory, k: nat, fuel: nat)
    requires st.For? && StmtDepth(st) <= k && Scope(prog, st, g) && ForAt(prog, p, st, b, d, g) && At(c, prog, s, s, mem, k)
    requires s.pc == p && SpinsLoop(Lice, c, st, mem, fuel)
    ensures Lasts(c.callees, prog, s, fuel)
    decreases fuel, st, 3
  {
    hide Exec, Lasts, SpinsIn, LoopLabels, Scope, EvalOption, ForCode, TestCode, OptionCode, OptionDepth, CodeAt, At, Landed, FindLabel, StmtCode, Live, ExprCode, Eval, NextSwitch, Markers, EntryOffset, Arms, WhileLayout, DoLayout, ForAt, Depth;
    var pb, ps, e := ForEnds(prog, p, st, b, d, g);
    var v := EvalOption(Lice, c, st.test, 1, mem).value;
    var t1 := OneStep(c, prog, s, p, [Label(b)], 0, p + 1, mem, k);
    var t2 := SimForTest(c, prog, st.test, b, d, p + 1, t1, t1, mem, k, e + 1, v);
    Afresh(c, prog, t1, t2, v.mem, k);
    EnterStart(st.body, b + 3 + OptionLabels(st.test), d, g.(brk := Some(b + 2), cont := Some(b + 1)), pb, t2);
    GoesForIn(c, prog, st, None, b, d, g, p, t2, v.mem, k, fuel);
    GoesOn(c, prog, s, t1, t2, v.mem, k, fuel);
  }

  lemma {:induction false} GoesForIn(c: Context, prog: Program, st: Stmt, entry: Option<nat>, b: nat, d: int, g: Targets, p: int,
    s: State, mem: Memory, k: nat, fuel: nat)
    requires st.For? && StmtDepth(st) <= k && Scope(prog, st, g) && ForAt(prog, p, st, b, d, g) && At(c, prog, s, s, mem, k)
    requires Entering(st.body, entry, b + 3 + OptionLabels(st.test), d, g.(brk := Some(b + 2), cont := Some(b + 1)),
      p + 1 + |TestCode(st.test, b + 3, d, b + 2)|, s)
    requires (entry.Some? ==> entry.value < |Markers(st.body)|) && SpinsIn(Lice, c, st, entry, mem, fuel)
    ensures Lasts(c.callees, prog, s, if fuel > 0 then fuel - 1 else 0)
    decreases fuel, st, 2
  {
    hide Exec, Lasts, Spins, SpinsLoop, LoopLabels, Scope, EvalOption, Entering, EntryPoint, ForCode, TestCode, OptionCode, OptionDepth, CodeAt, At, Landed, FindLabel, StmtCode, Live, ExprCode, Eval, NextSwitch, Markers, EntryOffset, Arms, WhileLayout, DoLayout, ForAt, Depth;
    var pb, ps, e := ForEnds(prog, p, st, b, d, g);
    var g' := g.(brk := Some(b + 2), cont := Some(b + 1));
    LoopScope(prog, st, g, b, p, b + 2, e, b + 1);
    var l := b + 3 + OptionLabels(st.test);
    if Spins(Lice, c, st.body, entry, mem, fuel) {
      Goes(c, prog, st.body, entry, l, d, g', pb, s, mem, k, fuel);
      LastsLess(c.callees, prog, s, Rounds(entry, fuel), if fuel > 0 then fuel - 1 else 0);
    } else if fuel == 0 {
      Still(c, prog, s);
    } else {
      var r1 := Exec(Lice, c, st.body, entry, mem, fuel).value;
      var t1 := SimStmt(c, prog, st.body, entry, l, d, g', pb, s, s, mem, k, fuel, r1);
      if r1.outcome.Normal? {
        LandedNormal(c, prog, s, t1, ps, g', r1, k);
      } else {
        LandedContinued(c, prog, s, t1, ps, g', r1, k);
      }
      Afresh(c, prog, s, t1, r1.mem, k);
      GoesForNext(c, prog, st, b, d, g, p, ps, e, t1, r1.mem, k, fuel, EvalOption(Lice, c, st.step, 0, r1.mem).value);
      Later(c, prog, s, t1, r1.mem, k, fuel - 1, fuel - 1);
    }
  }

  /** The step, and around again. */
  lemma {:induction false} GoesForNext(c: Context, prog: Program, st: Stmt, b: nat, d: int, g: Targets, p: int, ps: int, e: int,
    s: State, mem: Memory, k: nat, fuel: nat, v: Valued)
    requires st.For? && StmtDepth(st) <= k && Scope(prog, st, g) && ForAt(prog, p, st, b, d, g) && At(c, prog, s, s, mem, k)
    requires var l := b + 3 + OptionLabels(st.test) + StmtLabels(st.body);
      e == ps + 1 + |OptionCode(st.step, l, d)| && CodeAt(prog, ps, [Label(b + 1)]) && CodeAt(prog, ps + 1, OptionCode(st.step, l, d))
    requires LoopLabels(prog, b, p, b + 2, e) && s.pc == ps && fuel > 0
    requires EvalOption(Lice, c, st.step, 0, mem) == Some(v) && SpinsLoop(Lice, c, st, v.mem, fuel - 1)
    ensures Lasts(c.callees, prog, s, fuel - 1)
    decreases fuel, st, 1
  {
    hide Exec, Lasts, SpinsLoop, LoopLabels, Scope, EvalOption, ForCode, TestCode, OptionCode, OptionDepth, CodeAt, At, Landed, FindLabel, StmtCode, Live, ExprCode, Eval, NextSwitch, Markers, EntryOffset, Arms, WhileLayout, DoLayout, ForAt, Depth;
    var t1 := PassLabel(c, prog, s, s, ps, [Label(b + 1)], 0, mem, k);
    var t2 := SimForStep(c, prog, st.step, b + 3 + OptionLabels(st.test) + StmtLabels(st.body), d, ps + 1, s, t1, mem, k, v);
    var t3 := LoopBack(c, prog, s, t2, b, p, b + 2, e, v.mem, k);
    Afresh(c, prog, s, t3, v.mem, k);
    GoesForLoop(c, prog, st, b, d, g, p, t3, v.mem, k, fuel - 1);
    Later(c, prog, s, t3, v.mem, k, fuel - 1, fuel - 1);
  }

  // ----- switch

  lemma {:induction false} GoesSwitch(c: Context, prog: Program, st: Stmt, entry: Option<nat>, n: nat, d: int, g: Targets, p: int,
    s: State, mem: Memory, k: nat, fuel: nat)
    requires st.Switch?
    requires CodeAt(prog, p, StmtCode(st, n, d, g)) && At(c, prog, s, s, mem, k) && StmtDepth(st) <= k && Scope(prog, st, g)
    requires Entering(st, entry, n, d, g, p, s) && Spins(Lice, c, st, entry, mem, fuel)
    ensures Lasts(c.callees, prog, s, Rounds(entry, fuel))
    decreases fuel, st, 4
  {
    hide Exec, Lasts, SelectLice, CodeAt, At, Landed, FindLabel, StmtCode, Live, ExprCode, Eval, NextSwitch, Markers, EntryOffset, Arms, WhileLayout, DoLayout, ForAt, Depth;
    var sw := n + ExprLabels(st.e);
    var g' := g.(brk := Some(sw + 1), sw := Some(sw));
    var pj, e := SwitchParts(prog, p, st, n, d, g);
    NoMarkers(st);
    var v := Eval(Lice, c, st.e, mem).value;
    var t1 := EvalAt(c, prog, st.e, n, d, s, s, mem, k, v);
    var q := SwitchTarget(prog, st.body, sw + 2, d, g', pj + 1, e);
    Afresh(c, prog, s, t1, v.mem, k);
    var t2 := OneStep(c, prog, t1, pj, [Jmp(sw)], 0, q, v.mem, k);
    var t3 := ChainAt(c, prog, st.body, sw + 2, d, g', pj + 1, t2, t2, v.mem, k, e);
    var target := SelectLice(v.value, Markers(st.body));
    SwitchScope(prog, st, g, sw, sw + 1);
    Afresh(c, prog, t2, t3, v.mem, k);
    Goes(c, prog, st.body, target, sw + 2, d, g', pj + 1, t3, v.mem, k, fuel);
    LastsLess(c.callees, prog, t3, Rounds(target, fuel), if fuel > 0 then fuel - 1 else 0);
    GoesOn(c, prog, t1, t2, t3, v.mem, k, fuel);
    Later(c, prog, s, t1, v.mem, k, fuel, fuel);
  }

  // ---------------------------------------------------- endless statements

  /** The run is never stuck and never ends. */
  ghost predicate NeverEnds(d: Dialect, c: Context, s: Stmt, mem: Memory) {
    forall fuel: nat :: Spins(d, c, s, None, mem, fuel)
  }

  /** A run that takes more rounds than there is fuel for has no result yet. */
  lemma {:induction false} SpinsUnfinished(d: Dialect, c: Context, s: Stmt, entry: Option<nat>, mem: Memory, fuel: nat)
    requires (entry.Some? ==> entry.value < |Markers(s)|) && Spins(d, c, s, entry, mem, fuel)
    ensures Exec(d, c, s, entry, mem, fuel) == None
    decreases fuel, s, 2
  {
    hide Eval, SelectIso, SelectLice;
    match s {
      case Sequence(a, b) =>
        if entry.Some? && entry.value >= |Markers(a)| {
          SpinsUnfinished(d, c, b, Some(entry.value - |Markers(a)|), mem, fuel);
        } else if Spins(d, c, a, entry, mem, fuel) {
          SpinsUnfinished(d, c, a, entry, mem, fuel);
        } else {
          SpinsUnfinished(d, c, b, None, Exec(d, c, a, entry, mem, fuel).value.mem, fuel);
        }
      case If(b, y) =>
        SpinsUnfinished(d, c, y, entry, if entry.Some? then mem else Eval(d, c, b, mem).value.mem, fuel);
      case IfElse(b, y, n) => ArmUnfinished(d, c, s, entry, mem, fuel);
      case While(b, body) =>
        InUnfinished(d, c, s, entry, if entry.Some? then mem else Eval(d, c, b, mem).value.mem, fuel);
      case DoWhile(_, _) => InUnfinished(d, c, s, entry, mem, fuel);
      case For(_, _, _, _) => ForUnfinished(d, c, s, entry, mem, fuel);
      case Switch(e, body) =>
        var v := Eval(d, c, e, mem).value;
        SpinsUnfinished(d, c, body, Selected(d, v.value, Markers(body)), v.mem, fuel);
      case _ => Ends(d, c, s, entry, mem, fuel);
    }
  }

  lemma {:induction false} ArmUnfinished(d: Dialect, c: Context, s: Stmt, entry: Option<nat>, mem: Memory, fuel: nat)
    requires s.IfElse? && (entry.Some? ==> entry.value < |Markers(s)|) && Spins(d, c, s, entry, mem, fuel)
    ensures Exec(d, c, s, entry, mem, fuel) == None
    decreases fuel, s, 1
  {
    hide Eval;
    if entry.Some? {
      if entry.value < |Markers(s.yes)| {
        SpinsUnfinished(d, c, s.yes, entry, mem, fuel);
      } else {
        SpinsUnfinished(d, c, s.no, Some(entry.value - |Markers(s.yes)|), mem, fuel);
      }
    } else {
      var v := Eval(d, c, s.cond, mem).value;
      SpinsUnfinished(d, c, if v.value != 0 then s.yes else s.no, None, v.mem, fuel);
    }
  }

  /** What follows the body of a loop. */
  function AfterBody(d: Dialect, c: Context, s: Stmt, r: Option<Done>, fuel: nat): Option<Done>
    requires s.While? || s.DoWhile? || s.For?
  {
    if s.While? then AfterWhile(d, c, s, r, fuel) else if s.DoWhile? then AfterDo(d, c, s, r, fuel) else AfterFor(d, c, s, r, fuel)
  }

  lemma {:induction false} InUnfinished(d: Dialect, c: Context, s: Stmt, entry: Option<nat>, mem: Memory, fuel: nat)
    requires (s.While? || s.DoWhile? || s.For?) && (entry.Some? ==> entry.value < |Markers(s.body)|) && SpinsIn(d, c, s, entry, mem, fuel)
    ensures AfterBody(d, c, s, Exec(d, c, s.body, entry, mem, fuel), fuel) == None
    decreases fuel, s, 0
  {
    hide Eval, Spins, Exec;
    if Spins(d, c, s.body, entry, mem, fuel) {
      SpinsUnfinished(d, c, s.body, entry, mem, fuel);
    } else if fuel > 0 {
      AgainUnfinished(d, c, s, Exec(d, c, s.body, entry, mem, fuel).value, fuel);
    }
  }

  lemma {:induction false} AgainUnfinished(d: Dialect, c: Context, s: Stmt, r: Done, fuel: nat)
    requires (s.While? || s.DoWhile? || s.For?) && fuel > 0 && SpinsAgain(d, c, s, r, fuel) && (r.outcome.Normal? || r.outcome.Continued?)
    ensures AfterBody(d, c, s, Some(r), fuel) == None
    decreases fuel - 1, s, 4
  {
    hide Eval, Spins, Exec, SpinsLoop;
    match s {
      case While(_, _) => SpinsUnfinished(d, c, s, None, r.mem, fuel - 1);
      case DoWhile(_, b) =>
        SpinsUnfinished(d, c, s, None, if r.outcome.Continued? && d == Lice then r.mem else Eval(d, c, b, r.mem).value.mem, fuel - 1);
      case For(_, _, step, _) => LoopUnfinished(d, c, s, EvalOption(d, c, step, 0, r.mem).value.mem, fuel - 1);
    }
  }

  lemma {:induction false} LoopUnfinished(d: Dialect, c: Context, s: Stmt, mem: Memory, fuel: nat)
    requires s.For? && SpinsLoop(d, c, s, mem, fuel)
    ensures ForLoop(d, c, s, mem, fuel) == None
    decreases fuel, s, 1
  {
    hide Eval, Spins, Exec, SpinsIn, AfterFor;
    var v := EvalOption(d, c, s.test, 1, mem).value;
    InUnfinished(d, c, s, None, v.mem, fuel);
  }

  lemma {:induction false} ForUnfinished(d: Dialect, c: Context, s: Stmt, entry: Option<nat>, mem: Memory, fuel: nat)
    requires s.For? && (entry.Some? ==> entry.value < |Markers(s)|) && Spins(d, c, s, entry, mem, fuel)
    ensures Exec(d, c, s, entry, mem, fuel) == None
    decreases fuel, s, 2, 0
  {
    hide Eval, SpinsIn, SpinsLoop, AfterFor, ForLoop;
    if entry.Some? && entry.value >= |Markers(s.init)| {
      InUnfinished(d, c, s, Some(entry.value - |Markers(s.init)|), mem, fuel);
    } else if Spins(d, c, s.init, entry, mem, fuel) {
      SpinsUnfinished(d, c, s.init, entry, mem, fuel);
    } else {
      LoopUnfinished(d, c, s, Exec(d, c, s.init, entry, mem, fuel).value.mem, fuel);
    }
  }

  /** do continue; while (0); which C99 ends at once, runs for ever. */
  lemma {:induction false} DoContinueSpins(c: Context, mem: Memory, fuel: nat)
    ensures Spins(Lice, c, DoWhile(Continue, Literal(0)), None, mem, fuel)
    decreases fuel
  {
    var s := DoWhile(Continue, Literal(0));
    assert Exec(Lice, c, s.body, None, mem, fuel) == Some(Done(Continued, mem));
    if fuel > 0 {
      DoContinueSpins(c, mem, fuel - 1);
      assert SpinsAgain(Lice, c, s, Done(Continued, mem), fuel);
    }
    assert SpinsIn(Lice, c, s, None, mem, fuel);
  }

  // ------------------------------------------------- endless runs in C99

  /** Guarded parts give the code's rules the same values and the same ended runs. */
  lemma ValueStays(d: Dialect, c: Context, e: Expr, mem: Memory)
    requires Standard(d) && Guarded(e) && Eval(d, c, e, mem).Some?
    ensures Eval(Lice, c, e, mem) == Eval(d, c, e, mem)
  {
    hide *;
    ExprStays(d, c, e, mem);
    CommonExpr(c, e, mem);
  }

  lemma ClauseStays(d: Dialect, c: Context, e: Option<Expr>, default: Word, mem: Memory)
    requires Standard(d) && GuardedOption(e) && EvalOption(d, c, e, default, mem).Some?
    ensures EvalOption(Lice, c, e, default, mem) == EvalOption(d, c, e, default, mem)
  {
    hide Eval, Guarded;
    if e.Some? { ValueStays(d, c, e.value, mem); }
  }

  /** An endless run of C99 is one of the code's rules, where the text is guarded. */
  lemma {:induction false} SpinsStay(d: Dialect, c: Context, s: Stmt, entry: Option<nat>, mem: Memory, fuel: nat)
    requires Ready(d, s) && GuardedStmt(s) && (entry.Some? ==> entry.value < |Markers(s)|)
    requires Spins(d, c, s, entry, mem, fuel)
    ensures Spins(Lice, c, s, entry, mem, fuel)
    decreases fuel, s, 2
  {
    hide Eval, Exec, Guarded, SelectIso, SelectLice;
    match s {
      case Sequence(a, b) =>
        if entry.Some? && entry.value >= |Markers(a)| {
          SpinsStay(d, c, b, Some(entry.value - |Markers(a)|), mem, fuel);
        } else if Spins(d, c, a, entry, mem, fuel) {
          SpinsStay(d, c, a, entry, mem, fuel);
        } else {
          GuardedRuns(d, c, a, entry, mem, fuel);
          SpinsStay(d, c, b, None, Exec(d, c, a, entry, mem, fuel).value.mem, fuel);
        }
      case If(b, y) =>
        if entry.None? { ValueStays(d, c, b, mem); }
        SpinsStay(d, c, y, entry, if entry.Some? then mem else Eval(d, c, b, mem).value.mem, fuel);
      case IfElse(_, _, _) => ArmStays(d, c, s, entry, mem, fuel);
      case While(b, _) =>
        if entry.None? { ValueStays(d, c, b, mem); }
        InStays(d, c, s, entry, if entry.Some? then mem else Eval(d, c, b, mem).value.mem, fuel);
      case DoWhile(_, _) => InStays(d, c, s, entry, mem, fuel);
      case For(_, _, _, _) => ForSpinsStay(d, c, s, entry, mem, fuel);
      case Switch(e, body) => SwitchSpinsStay(d, c, s, entry, mem, fuel);
      case _ => Ends(d, c, s, entry, mem, fuel);
    }
  }

  lemma {:induction false} ArmStays(d: Dialect, c: Context, s: Stmt, entry: Option<nat>, mem: Memory, fuel: nat)
    requires s.IfElse? && Ready(d, s) && GuardedStmt(s) && (entry.Some? ==> entry.value < |Markers(s)|)
    requires Spins(d, c, s, entry, mem, fuel)
    ensures Spins(Lice, c, s, entry, mem, fuel)
    decreases fuel, s, 1
  {
    hide Eval, Exec, Guarded;
    if entry.Some? {
      if entry.value < |Markers(s.yes)| {
        SpinsStay(d, c, s.yes, entry, mem, fuel);
      } else {
        SpinsStay(d, c, s.no, Some(entry.value - |Markers(s.yes)|), mem, fuel);
      }
    } else {
      ValueStays(d, c, s.cond, mem);
      var v := Eval(d, c, s.cond, mem).value;
      SpinsStay(d, c, if v.value != 0 then s.yes else s.no, None, v.mem, fuel);
    }
  }

  lemma {:induction false} SwitchSpinsStay(d: Dialect, c: Context, s: Stmt, entry: Option<nat>, mem: Memory, fuel: nat)
    requires s.Switch? && Ready(d, s) && GuardedStmt(s) && (entry.Some? ==> entry.value < |Markers(s)|)
    requires Spins(d, c, s, entry, mem, fuel)
    ensures Spins(Lice, c, s, entry, mem, fuel)
    decreases fuel, s, 1
  {
    hide Eval, Exec, Guarded, SelectIso, SelectLice;
    ValueStays(d, c, s.e, mem);
    var v := Eval(d, c, s.e, mem).value;
    if d == Iso { IntValuedFits(d, c, s.e, mem); }
    SelectStays(v.value, Markers(s.body));
    SpinsStay(d, c, s.body, SelectIso(v.value, Markers(s.body)), v.mem, fuel);
  }

  lemma {:induction false} InStays(d: Dialect, c: Context, s: Stmt, entry: Option<nat>, mem: Memory, fuel: nat)
    requires (s.While? || s.DoWhile? || s.For?) && Ready(d, s) && GuardedStmt(s) && (entry.Some? ==> entry.value < |Markers(s.body)|)
    requires SpinsIn(d, c, s, entry, mem, fuel)
    ensures SpinsIn(Lice, c, s, entry, mem, fuel)
    decreases fuel, s, 0
  {
    hide Eval, Spins, SpinsAgain, Exec, Guarded;
    if Spins(d, c, s.body, entry, mem, fuel) {
      SpinsStay(d, c, s.body, entry, mem, fuel);
    } else {
      GuardedRuns(d, c, s.body, entry, mem, fuel);
      if fuel > 0 {
        if s.DoWhile? { NeverContinued(d, c, s.body, entry, mem, fuel); }
        AgainStays(d, c, s, Exec(d, c, s.body, entry, mem, fuel).value, fuel);
      }
    }
  }

  lemma {:induction false} AgainStays(d: Dialect, c: Context, s: Stmt, r: Done, fuel: nat)
    requires (s.While? || s.DoWhile? || s.For?) && Ready(d, s) && GuardedStmt(s) && (s.DoWhile? ==> !r.outcome.Continued?)
    requires fuel > 0 && SpinsAgain(d, c, s, r, fuel)
    ensures SpinsAgain(Lice, c, s, r, fuel)
    decreases fuel - 1, s, 4
  {
    hide Eval, EvalOption, Spins, Exec, SpinsLoop, Guarded;
    match s {
      case While(_, _) => SpinsStay(d, c, s, None, r.mem, fuel - 1);
      case DoWhile(_, b) =>
        ValueStays(d, c, b, r.mem);
        SpinsStay(d, c, s, None, Eval(d, c, b, r.mem).value.mem, fuel - 1);
      case For(_, _, step, _) =>
        ClauseStays(d, c, step, 0, r.mem);
        LoopStays(d, c, s, EvalOption(d, c, step, 0, r.mem).value.mem, fuel - 1);
    }
  }

  lemma {:induction false} LoopStays(d: Dialect, c: Context, s: Stmt, mem: Memory, fuel: nat)
    requires s.For? && Ready(d, s) && GuardedStmt(s) && SpinsLoop(d, c, s, mem, fuel)
    ensures SpinsLoop(Lice, c, s, mem, fuel)
    decreases fuel, s, 1
  {
    hide Eval, EvalOption, Spins, Exec, SpinsIn, Guarded;
    ClauseStays(d, c, s.test, 1, mem);
    InStays(d, c, s, None, EvalOption(d, c, s.test, 1, mem).value.mem, fuel);
  }

  lemma {:induction false} ForSpinsStay(d: Dialect, c: Context, s: Stmt, entry: Option<nat>, mem: Memory, fuel: nat)
    requires s.For? && Ready(d, s) && GuardedStmt(s) && (entry.Some? ==> entry.value < |Markers(s)|)
    requires Spins(d, c, s, entry, mem, fuel)
    ensures Spins(Lice, c, s, entry, mem, fuel)
    decreases fuel, s, 2, 0
  {
    hide Eval, Exec, SpinsIn, SpinsLoop, Guarded;
    if entry.Some? && entry.value >= |Markers(s.init)| {
      InStays(d, c, s, Some(entry.value - |Markers(s.init)|), mem, fuel);
    } else if Spins(d, c, s.init, entry, mem, fuel) {
      SpinsStay(d, c, s.init, entry, mem, fuel);
    } else {
      GuardedRuns(d, c, s.init, entry, mem, fuel);
      LoopStays(d, c, s, Exec(d, c, s.init, entry, mem, fuel).value.mem, fuel);
    }
  }

  // -------------------------------------------------------------- functions

  /** A call of a function whose body's run never ends makes the machine run for ever. */
  lemma FunctionForever(env: Callees, outer: set<int>, prog: Program, p: int, f: Function, n: nat, d: int, s: State)
    requires |f.params| <= 6 && Sized(f) && WellNested(f.body, false, false, false)
    requires CodeAt(prog, p, FunctionCode(f, StmtCode(f.body, n, d, Closed)))
    requires Called(env, outer, prog, p, f, s, StmtDepth(f.body))
    requires NeverEnds(Lice, Context(env, s.rsp - 8), f.body, EntryMemory(env, f, s))
    ensures forall m: nat :: Lasts(env, prog, s, m)
  {
    hide CodeAt, StmtCode, Spins, At, WellNested, StmtDepth, FunctionCode, Reaches, Pushed, Lasts;
    var k := StmtDepth(f.body);
    var c := Context(env, s.rsp - 8);
    var mem := EntryMemory(env, f, s);
    StartedRoom(env, outer, prog, p, f, s, k);
    LocalDataSign(f);
    var t0, pb := SimPrologue(env, prog, p, f, StmtCode(f.body, n, d, Closed), s);
    Started(env, outer, prog, p, f, s, k, t0);
    BodyScope(prog, f.body, n, d, pb, t0);
    forall m: nat ensures Lasts(env, prog, s, m) {
      Goes(c, prog, f.body, None, n, d, Closed, pb, t0, mem, k, m);
      LastsAfter(env, prog, s, t0, m);
    }
  }

  // ------------------------------------------------- the function by itself

  /** A number no label of the code has. */
  function Unlabelled(code: seq<Instr>): (l: nat)
    ensures forall i :: 0 <= i < |code| && code[i].Label? ==> code[i].id < l
  {
    if |code| == 0 then 0
    else
      var l := Unlabelled(code[1..]);
      if code[0].Label? && code[0].id >= l then code[0].id + 1 else l
  }

  /** The code, and before it nothing but jumps to a label that does not exist. */
  function Alone(code: seq<Instr>, at: nat): Program {
    seq(at, _ => Jmp(Unlabelled(code))) + code
  }

  lemma AloneAt(prog: Program, p: int, code: seq<Instr>, at: nat)
    requires CodeAt(prog, p, code)
    ensures CodeAt(Alone(code, at), at, code)
  {
    var alone := Alone(code, at);
    forall i, j | 0 <= i < |alone| && 0 <= j < |alone| && alone[i].Label? && alone[i] == alone[j] ensures i == j {
      assert alone[i] == code[i - at] == prog[p + (i - at)] && alone[j] == code[j - at] == prog[p + (j - at)];
    }
  }

  lemma NoSuchLabel(code: seq<Instr>, at: nat)
    ensures Label(Unlabelled(code)) !in Alone(code, at)
  {
    var alone := Alone(code, at);
    forall i | 0 <= i < |alone| ensures alone[i] != Label(Unlabelled(code)) {
      if i >= at { assert alone[i] == code[i - at]; }
    }
  }

  /** Outside the code this program is stuck. */
  lemma StuckOutside(env: Callees, code: seq<Instr>, at: nat, s: State)
    requires !(at <= s.pc < at + |code|)
    ensures Step(env, Alone(code, at), s) == None
  {
    var alone := Alone(code, at);
    if 0 <= s.pc < at {
      assert alone[s.pc] == Jmp(Unlabelled(code));
      NoSuchLabel(code, at);
      hide Alone;
      assert FindLabel(alone, Unlabelled(code)) == None;
    }
  }

  /** A jump lands at the same place in both. */
  lemma SameLabel(prog: Program, p: int, code: seq<Instr>, at: nat, l: nat)
    requires CodeAt(prog, p, code) && FindLabel(Alone(code, at), l).Some?
    ensures FindLabel(prog, l) == Some(FindLabel(Alone(code, at), l).value - at + p)
  {
    var k := FindLabel(Alone(code, at), l).value;
    assert Alone(code, at)[k] == Label(l) && k >= at;
    assert code[k - at] == Label(l);
    hide FindLabel, Alone;
    LabelHere(prog, p, code, k - at, l);
  }

  /** But for ret, both programs take the same step, each in its own place. */
  lemma InStep(env: Callees, prog: Program, p: int, code: seq<Instr>, at: nat, v: State)
    requires CodeAt(prog, p, code) && p <= v.pc < p + |code| && code[v.pc - p] != Ret
    requires Step(env, Alone(code, at), v.(pc := v.pc - p + at)).Some?
    ensures Step(env, prog, v).Some?
    ensures var w := Step(env, prog, v).value;
      Step(env, Alone(code, at), v.(pc := v.pc - p + at)) == Some(w.(pc := w.pc - p + at))
  {
    var i := code[v.pc - p];
    assert prog[p + (v.pc - p)] == i && Alone(code, at)[at + (v.pc - p)] == i;
    if i.Jmp? || i.Je? || i.Jne? {
      JumpInStep(env, prog, p, code, at, v, i);
    } else {
      hide Alone, FindLabel, CodeAt;
      OtherInStep(env, prog, Alone(code, at), i, v, at - p);
      assert v.pc - p + at == v.pc + (at - p);
    }
  }

  lemma JumpInStep(env: Callees, prog: Program, p: int, code: seq<Instr>, at: nat, v: State, i: Instr)
    requires CodeAt(prog, p, code) && (i.Jmp? || i.Je? || i.Jne?)
    requires Execute(env, Alone(code, at), i, v.(pc := v.pc - p + at)).Some?
    ensures Execute(env, prog, i, v).Some?
    ensures var w := Execute(env, prog, i, v).value;
      Execute(env, Alone(code, at), i, v.(pc := v.pc - p + at)) == Some(w.(pc := w.pc - p + at))
  {
    hide Alone, FindLabel, CodeAt;
    if FindLabel(Alone(code, at), i.target).Some? {
      SameLabel(prog, p, code, at, i.target);
    }
  }

  ghost predicate InStepWith(a: Option<State>, b: Option<State>, shift: int) {
    b == match a case None => None case Some(w) => Some(w.(pc := w.pc + shift))
  }

  lemma OtherInStep(env: Callees, prog: Program, other: Program, i: Instr, v: State, shift: int)
    requires !i.Jmp? && !i.Je? && !i.Jne? && !i.Ret?
    ensures InStepWith(Execute(env, prog, i, v), Execute(env, other, i, v.(pc := v.pc + shift)), shift)
  {
    hide Execute, InStepWith;
    match i {
      case Load(_, _, _) => MemoryInStep(env, prog, other, i, v, shift);
      case Store(_, _, _) => MemoryInStep(env, prog, other, i, v, shift);
      case Push(_) => MemoryInStep(env, prog, other, i, v, shift);
      case Pop(_) => MemoryInStep(env, prog, other, i, v, shift);
      case Leave => MemoryInStep(env, prog, other, i, v, shift);
      case CallName(_) => CallInStep(env, prog, other, i, v, shift);
      case Idiv(_) => CallInStep(env, prog, other, i, v, shift);
      case _ => RegisterInStep(env, prog, other, i, v, shift);
    }
  }

  lemma RegistersShift(v: State, shift: int)
    ensures forall r :: Get(v.(pc := v.pc + shift), r) == Get(v, r)
    ensures forall r, x :: Set(v.(pc := v.pc + shift), r, x) == Set(v, r, x).(pc := Set(v, r, x).pc + shift)
  {
  }

  lemma MemoryInStep(env: Callees, prog: Program, other: Program, i: Instr, v: State, shift: int)
    requires i.Load? || i.Store? || i.Push? || i.Pop? || i.Leave?
    ensures InStepWith(Execute(env, prog, i, v), Execute(env, other, i, v.(pc := v.pc + shift)), shift)
  {
    RegistersShift(v, shift);
    RegistersShift(v.(rsp := v.rbp, pc := v.pc), shift);
    RegistersShift(v.(rsp := Wrap(v.rsp + 8)), shift);
    RegistersShift(v.(rsp := v.rbp).(rsp := Wrap(v.rbp + 8)), shift);
    hide Get, Set, Wrap;
  }

  lemma CallInStep(env: Callees, prog: Program, other: Program, i: Instr, v: State, shift: int)
    requires i.CallName? || i.Idiv?
    ensures InStepWith(Execute(env, prog, i, v), Execute(env, other, i, v.(pc := v.pc + shift)), shift)
  {
    RegistersShift(v, shift);
    hide Get, Set, TruncDiv, TruncRem, Unsigned;
  }

  lemma RegisterInStep(env: Callees, prog: Program, other: Program, i: Instr, v: State, shift: int)
    requires !i.Jmp? && !i.Je? && !i.Jne? && !i.Ret? && !i.Load? && !i.Store? && !i.Push? && !i.Pop? && !i.Leave? && !i.CallName? && !i.Idiv?
    ensures InStepWith(Execute(env, prog, i, v), Execute(env, other, i, v.(pc := v.pc + shift)), shift)
  {
    RegistersShift(v, shift);
    hide Set, Get, Wrap, AluResult, Complement, ShiftLeft, ShiftRight, Low32, Holds, Bool;
    SetPc(v, shift);
  }

  lemma SetPc(v: State, shift: int)
    ensures forall r, x :: Set(v, r, x).pc == v.pc
  {
  }

  /** Wherever the code stands alone, it runs for ever. */
  ghost predicate ForeverAlone(env: Callees, code: seq<Instr>, s: State) {
    forall at: nat, m: nat :: Lasts(env, Alone(code, at), s.(pc := at), m)
  }

  /** After n steps, in the program and alone. */
  ghost predicate Both(env: Callees, prog: Program, p: int, code: seq<Instr>, s: State, n: nat, at: nat, v: State) {
    Run(Stepper(env, prog), s, n) == Some(v) && p <= v.pc < p + |code| &&
    Run(Stepper(env, Alone(code, at)), s.(pc := at), n) == Some(v.(pc := v.pc - p + at))
  }

  lemma RunMore(step: State -> Option<State>, s: State, t: State, n: nat)
    requires Run(step, s, n) == Some(t)
    ensures Run(step, s, n + 1) == step(t)
    ensures step(t).Some? ==> Run(step, s, n + 2) == step(step(t).value)
  {
    RunTrans(step, s, t, n, 1);
    assert Run(step, t, 1) == step(t);
    RunTrans(step, s, t, n, 2);
    if step(t).Some? {
      assert Run(step, t, 2) == Run(step, step(t).value, 1) == step(step(t).value);
    }
  }

  /** What never stops alone is never outside the code. */
  lemma InsideAlone(env: Callees, code: seq<Instr>, s: State, n: nat, at: nat, u: State)
    requires ForeverAlone(env, code, s) && Run(Stepper(env, Alone(code, at)), s.(pc := at), n) == Some(u)
    ensures at <= u.pc < at + |code| && Step(env, Alone(code, at), u).Some?
  {
    hide Alone, Step;
    assert Lasts(env, Alone(code, at), s.(pc := at), n + 1);
    RunMore(Stepper(env, Alone(code, at)), s.(pc := at), u, n);
    if !(at <= u.pc < at + |code|) {
      StuckOutside(env, code, at, u);
      assert false;
    }
  }

  lemma {:induction false} Reached(env: Callees, prog: Program, p: int, code: seq<Instr>, s: State, n: nat, at: nat) returns (v: State)
    requires CodeAt(prog, p, code) && s.pc == p && ForeverAlone(env, code, s)
    ensures Both(env, prog, p, code, s, n, at, v)
    decreases n, 0
  {
    hide CodeAt, Alone, Step, ForeverAlone;
    if n == 0 {
      v := s;
      InsideAlone(env, code, s, 0, at, s.(pc := at));
    } else {
      var w := Stays(env, prog, p, code, s, n - 1, at);
      var u := w.(pc := w.pc - p + at);
      InsideAlone(env, code, s, n - 1, at, u);
      InStep(env, prog, p, code, at, w);
      v := Step(env, prog, w).value;
      RunMore(Stepper(env, prog), s, w, n - 1);
      RunMore(Stepper(env, Alone(code, at)), s.(pc := at), u, n - 1);
      InsideAlone(env, code, s, n, at, v.(pc := v.pc - p + at));
    }
  }

  /** And it executes no ret, which from some place or other would lead outside. */
  lemma {:induction false} Stays(env: Callees, prog: Program, p: int, code: seq<Instr>, s: State, n: nat, at: nat) returns (v: State)
    requires CodeAt(prog, p, code) && s.pc == p && ForeverAlone(env, code, s)
    ensures Both(env, prog, p, code, s, n, at, v) && code[v.pc - p] != Ret
    decreases n, 1
  {
    hide CodeAt, Alone, Step, ForeverAlone;
    v := Reached(env, prog, p, code, s, n, at);
    if code[v.pc - p] == Ret {
      var back: int := if v.rsp in v.mem then v.mem[v.rsp] else 0;
      var far: nat := if back < 0 then 0 else back + 1;
      var v' := Reached(env, prog, p, code, s, n, far);
      RetLands(env, prog, p, code, s, n, far, v);
      assert false;
    }
  }

  /** A ret would have to lead into the code, wherever that is. */
  lemma RetLands(env: Callees, prog: Program, p: int, code: seq<Instr>, s: State, n: nat, at: nat, v: State)
    requires ForeverAlone(env, code, s) && Both(env, prog, p, code, s, n, at, v) && code[v.pc - p] == Ret
    ensures v.rsp in v.mem && at <= v.mem[v.rsp]
  {
    var alone := Alone(code, at);
    var u := v.(pc := v.pc - p + at);
    assert alone[u.pc] == Ret;
    hide Alone, ForeverAlone;
    InsideAlone(env, code, s, n, at, u);
    var w := Step(env, alone, u).value;
    assert w.pc == v.mem[v.rsp];
    hide Step;
    RunMore(Stepper(env, alone), s.(pc := at), u, n);
    InsideAlone(env, code, s, n + 1, at, w);
  }

  /** The states it reaches are in the code and not at a ret. */
  lemma NeverLeaves(env: Callees, prog: Program, p: int, code: seq<Instr>, s: State, t: State)
    requires CodeAt(prog, p, code) && s.pc == p && ForeverAlone(env, code, s) && Reaches(env, prog, s, t)
    ensures p <= t.pc < p + |code| && prog[t.pc] != Ret && Step(env, prog, t).Some?
  {
    hide CodeAt, Alone, Step, ForeverAlone, Execute;
    var n: nat :| Run(Stepper(env, prog), s, n) == Some(t);
    var v := Stays(env, prog, p, code, s, n, 0);
    CodeHere(prog, p, code, t.pc - p);
    var w := Reached(env, prog, p, code, s, n + 1, 0);
    RunMore(Stepper(env, prog), s, t, n);
  }

  lemma CodeHere(prog: Program, p: int, code: seq<Instr>, k: nat)
    requires CodeAt(prog, p, code) && k < |code|
    ensures 0 <= p + k < |prog| && prog[p + k] == code[k]
  {
  }

  lemma CalledAlone(env: Callees, outer: set<int>, prog: Program, p: int, f: Function, s: State, k: nat, other: Program, at: nat)
    requires Called(env, outer, prog, p, f, s, k) && |f.params| <= 6
    ensures Called(env, outer, other, at, f, s.(pc := at), k) && EntryMemory(env, f, s.(pc := at)) == EntryMemory(env, f, s)
  {
    hide FrameTop, FunctionSim.FrameCells, EntryMemory;
    EntryAlone(env, f, s, at);
  }

  lemma EntryAlone(env: Callees, f: Function, s: State, at: nat)
    requires |f.params| <= 6 && env.objects <= s.mem.Keys && 8 <= s.rsp
    ensures EntryMemory(env, f, s.(pc := at)) == EntryMemory(env, f, s)
  {
    var u := s.(pc := at);
    assert forall r :: Get(u, r) == Get(s, r);
    hide Get, ArgReg;
  }

  /** A function whose body's run never ends never returns: the code the generator emits for
      it, in its real label slots, goes on for ever and executes no ret. */
  lemma GeneratedForever(env: Callees, outer: set<int>, prog: Program, p: int, f: Function, n: nat, d: int, x: Slots, s: State, t: State)
    requires |f.params| <= 6 && Sized(f) && CompilableStmt(f.body) && WellNested(f.body, false, false, false) && SlotSafe(f.body)
    requires RawStmt(f.body, n, d, x).Some? && CodeAt(prog, p, FunctionCode(f, RawStmt(f.body, n, d, x).value.code))
    requires Called(env, outer, prog, p, f, s, StmtDepth(f.body))
    requires NeverEnds(Lice, Context(env, s.rsp - 8), f.body, EntryMemory(env, f, s))
    requires Reaches(env, prog, s, t)
    ensures Step(env, prog, t).Some? && prog[t.pc] != Ret
    ensures p <= t.pc < p + |FunctionCode(f, RawStmt(f.body, n, d, x).value.code)|
  {
    assert s.pc == p;
    hide *;
    RawIsLexical(f.body, n, d, x);
    var code := FunctionCode(f, StmtCode(f.body, n, d, Closed));
    forall at: nat, m: nat ensures Lasts(env, Alone(code, at), s.(pc := at), m) {
      AloneAt(prog, p, code, at);
      CalledAlone(env, outer, prog, p, f, s, StmtDepth(f.body), Alone(code, at), at);
      FunctionForever(env, outer, Alone(code, at), at, f, n, d, s.(pc := at));
    }
    ForeverHere(env, code, s);
    NeverLeaves(env, prog, p, code, s, t);
  }

  lemma ForeverHere(env: Callees, code: seq<Instr>, s: State)
    requires forall at: nat, m: nat :: Lasts(env, Alone(code, at), s.(pc := at), m)
    ensures ForeverAlone(env, code, s)
  {
  }

  /** For a guarded body it is C99's endless runs that make the code run for ever. */
  lemma GuardedForever(env: Callees, outer: set<int>, prog: Program, p: int, f: Function, n: nat, d: int, x: Slots, s: State, dialect: Dialect, t: State)
    requires |f.params| <= 6 && Sized(f) && CompilableStmt(f.body) && WellNested(f.body, false, false, false) && SlotSafe(f.body)
    requires RawStmt(f.body, n, d, x).Some? && CodeAt(prog, p, FunctionCode(f, RawStmt(f.body, n, d, x).value.code))
    requires Called(env, outer, prog, p, f, s, StmtDepth(f.body))
    requires GuardedStmt(f.body) && Ready(dialect, f.body)
    requires NeverEnds(dialect, Context(env, s.rsp - 8), f.body, EntryMemory(env, f, s))
    requires Reaches(env, prog, s, t)
    ensures Step(env, prog, t).Some? && prog[t.pc] != Ret
    ensures p <= t.pc < p + |FunctionCode(f, RawStmt(f.body, n, d, x).value.code)|
  {
    hide CodeAt, RawStmt, Spins, WellNested, StmtDepth, FunctionCode, Sized, GuardedStmt, Ready, SlotSafe, Reaches, Step;
    var c := Context(env, s.rsp - 8);
    forall fuel: nat ensures Spins(Lice, c, f.body, None, EntryMemory(env, f, s), fuel) {
      SpinsStay(dialect, c, f.body, None, EntryMemory(env, f, s), fuel);
    }
    GeneratedForever(env, outer, prog, p, f, n, d, x, s, t);
  }
}
