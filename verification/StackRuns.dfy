/** Stack discipline, for runs. */
module StackRuns {
  // In every state the code can reach, the stack is as deep as the program counter says,
  // and what was on it before is still there.
  import opened Words
  import opened Runs
  import opened StackCode
  import opened StackDiscipline
  import S = SaveSlots
  import M = Machine

  /** The stack, its top last, and the registers; those not listed hold zero. */
  datatype State = State(pc: nat, stack: seq<Word>, ints: map<M.Reg, Word>, xmms: map<nat, Word>)

  function IntReg(s: State, r: M.Reg): Word {
    if r in s.ints then s.ints[r] else 0
  }

  function XmmReg(s: State, r: nat): Word {
    if r in s.xmms then s.xmms[r] else 0
  }

  function Next(s: State): State {
    s.(pc := s.pc + 1)
  }

  /** Where a jump to the label may go. */
  predicate GoesTo(c: seq<Instr>, l: nat, pc: nat) {
    pc < |c| && c[pc] == Mark(l)
  }

  /** One step, t being a state that may follow s. Instructions whose effect on registers
      does not matter here may change them in any way; so may a callee, which gives the
      stack back as it was. A function that leaves takes no further step. */
  ghost predicate Moves(c: seq<Instr>, s: State, t: State)
    requires s.pc < |c|
  {
    var n := |s.stack|;
    match c[s.pc]
    case Push(r) => t == Next(s).(stack := s.stack + [IntReg(s, r)])
    case Pop(r) => n > 0 && t == Next(s).(stack := s.stack[..n - 1], ints := s.ints[r := s.stack[n - 1]])
    case Reserve => |t.stack| == n + 1 && t.stack[..n] == s.stack && t == Next(s).(stack := t.stack)
    case Release => n > 0 && t == Next(s).(stack := s.stack[..n - 1])
    case SpillXmm(r) => n > 0 && t == Next(s).(stack := s.stack[n - 1 := XmmReg(s, r)])
    case FillXmm(r) => n > 0 && t == Next(s).(xmms := s.xmms[r := s.stack[n - 1]])
    case SetRax(value) => t == Next(s).(ints := s.ints[M.RAX := Wrap(value)])
    case WidenResult => t == Next(s).(xmms := t.xmms) && forall r: nat :: r != 0 ==> XmmReg(t, r) == XmmReg(s, r)
    case Jump(l) => t == s.(pc := t.pc) && GoesTo(c, l, t.pc)
    case Branch(l) => t == Next(s) || (t == s.(pc := t.pc) && GoesTo(c, l, t.pc))
    case Mark(_) => t == Next(s)
    case CallTo(_) => t.pc == s.pc + 1 && t.stack == s.stack
    case Leave => false
    case Ret => false
    case Plain(_, _) => t.pc == s.pc + 1 && t.stack == s.stack
  }

  /** A run of n steps. */
  ghost predicate Reach(c: seq<Instr>, s: State, t: State, n: nat)
    decreases n
  {
    if n == 0 then t == s else exists u: State :: Reach(c, s, u, n - 1) && Steps(c, u, t)
  }

  ghost predicate Steps(c: seq<Instr>, s: State, t: State) {
    s.pc < |c| && Moves(c, s, t)
  }

  /** As deep as the program counter says, over what was there at the start. */
  ghost predicate Deep(c: seq<Instr>, s: State, t: State) {
    t.pc <= |c| && |t.stack| == |s.stack| + Depth(c[..t.pc]) && s.stack <= t.stack
  }

  lemma DepthNext(c: seq<Instr>, i: nat)
    requires i < |c|
    ensures Depth(c[..i + 1]) == Depth(c[..i]) + Effect(c[i])
  {
    assert c[..i + 1][..i] == c[..i];
  }

  /** Code that starts and stays at or above a depth, with one depth for each label. */
  ghost predicate Disciplined(c: seq<Instr>, m: Depths, base: int, lo: nat) {
    Levels(c, m, base, base, lo) && 0 <= Depth(c)
  }

  lemma NeverBelow(c: seq<Instr>, m: Depths, base: int, lo: nat, i: nat)
    requires Disciplined(c, m, base, lo) && i <= |c|
    ensures 0 <= Depth(c[..i]) && (i < |c| && c[i].SpillXmm? ==> 0 < Depth(c[..i]))
  {
    hide Depth;
    if i < |c| {
      assert LevelAt(c, i, m, base, base, lo);
    } else {
      assert c[..i] == c;
    }
  }

  /** A jump and the label it goes to are equally deep. */
  lemma SameDepth(c: seq<Instr>, m: Depths, base: int, lo: nat, i: nat, j: nat)
    requires Levels(c, m, base, base, lo) && i < |c| && j < |c| && LabelOf(c[i]).Some? && LabelOf(c[i]) == LabelOf(c[j])
    ensures Depth(c[..i]) == Depth(c[..j])
  {
    hide Depth;
    assert LevelAt(c, i, m, base, base, lo) && LevelAt(c, j, m, base, base, lo);
  }

  lemma StepDeep(c: seq<Instr>, m: Depths, base: int, lo: nat, s: State, t: State, u: State)
    requires Disciplined(c, m, base, lo) && Deep(c, s, t) && t.pc < |c| && Moves(c, t, u)
    ensures Deep(c, s, u)
  {
    hide Depth, Levels;
    DepthNext(c, t.pc);
    NeverBelow(c, m, base, lo, t.pc);
    NeverBelow(c, m, base, lo, t.pc + 1);
    if (c[t.pc].Jump? || c[t.pc].Branch?) && u.pc != t.pc + 1 {
      SameDepth(c, m, base, lo, t.pc, u.pc);
    }
  }

  lemma StartsDeep(c: seq<Instr>, s: State)
    requires s.pc == 0
    ensures Deep(c, s, s)
  {
    assert c[..0] == [];
  }

  /** Every state of every run. */
  lemma {:induction false} EveryState(c: seq<Instr>, m: Depths, base: int, lo: nat, s: State, t: State, n: nat)
    requires Disciplined(c, m, base, lo) && s.pc == 0 && Reach(c, s, t, n)
    ensures Deep(c, s, t)
    decreases n
  {
    hide Disciplined, Moves, Deep;
    if n == 0 {
      StartsDeep(c, s);
    } else {
      var u :| Reach(c, s, u, n - 1) && Steps(c, u, t);
      EveryState(c, m, base, lo, s, u, n - 1);
      StepDeep(c, m, base, lo, s, u, t);
    }
  }

  // -------------------------------------------------- expressions, bodies

  /** All labels handed out so far, on the ground. */
  function Ground(n: nat): (m: Depths)
    ensures Known(m, n) && forall l :: l in m ==> m[l] == 0
  {
    if n == 0 then map[] else Ground(n - 1)[n - 1 := 0]
  }

  predicate LabelsWithin(c: seq<Instr>, lo: nat, hi: nat) {
    forall i :: 0 <= i < |c| ==> LabelOf(c[i]).Some? ==> lo <= LabelOf(c[i]).value < hi
  }

  /** Wherever a label is defined or jumped to, the stack is equally deep. */
  predicate OneDepth(c: seq<Instr>) {
    forall i, j :: 0 <= i < |c| && 0 <= j < |c| ==> SameLabel(c[i], c[j]) ==> Depth(c[..i]) == Depth(c[..j])
  }

  predicate SameLabel(a: Instr, b: Instr) {
    LabelOf(a).Some? && LabelOf(a) == LabelOf(b)
  }

  /** An expression's code: the count is as before, labels are its own, and in every
      state of every run the stack is as deep as the place says and only deeper than at
      the start; at the end it is as it was. */
  lemma ExpressionRuns(e: Expr, v: View, s: State, t: State, n: nat)
    requires GenExpr(e, v).Done? && s.pc == 0
    ensures var w := GenExpr(e, v).view;
      v.output <= w.output && w.stack == v.stack &&
      LabelsWithin(Since(v, w), v.nextLabel, w.nextLabel) &&
      (Reach(Since(v, w), s, t, n) ==> Deep(Since(v, w), s, t) && (t.pc == |Since(v, w)| ==> t.stack == s.stack))
  {
    hide GenExpr, Depth;
    var m := Ground(v.nextLabel);
    Start(v, m, 0, v.nextLabel);
    var m' := ExprOn(e, Trail(v, 0, 0, v.nextLabel), v, m, 0);
    var w := GenExpr(e, v).view;
    OwnLabels(v, w, m', v.nextLabel, 0);
    if Reach(Since(v, w), s, t, n) {
      EveryState(Since(v, w), m', 0, v.nextLabel, s, t, n);
      Whole(Since(v, w), s, t);
    }
  }

  lemma Whole(c: seq<Instr>, s: State, t: State)
    requires Deep(c, s, t) && Depth(c) == 0
    ensures t.pc == |c| ==> t.stack == s.stack
  {
    assert c[..|c|] == c;
  }

  lemma OwnLabels(v: View, w: View, m: Depths, lo: nat, d: int)
    requires On(Trail(v, 0, 0, lo), w, m, d)
    ensures LabelsWithin(Since(v, w), lo, w.nextLabel)
  {
    hide Depth;
    var c := Since(v, w);
    forall i | 0 <= i < |c| && LabelOf(c[i]).Some? ensures lo <= LabelOf(c[i]).value < w.nextLabel {
      assert LevelAt(c, i, m, 0, 0, lo);
    }
  }

  /** Labels a statement may jump to that were handed out before it. */
  predicate GotosBelow(s: Stmt, n: nat) {
    match s
    case Sequence(first, rest) => GotosBelow(first, n) && GotosBelow(rest, n)
    case If(_, yes) => GotosBelow(yes, n)
    case IfElse(_, yes, no) => GotosBelow(yes, n) && GotosBelow(no, n)
    case While(_, body) => GotosBelow(body, n)
    case DoWhile(body, _) => GotosBelow(body, n)
    case For(init, _, _, body) => GotosBelow(init, n) && GotosBelow(body, n)
    case Switch(_, body) => GotosBelow(body, n)
    case Goto(where) => where < n
    case LabelAt(place) => Below(place, n)
    case _ => true
  }

  predicate Below(l: Option<nat>, n: nat) {
    l.Some? ==> l.value < n
  }

  predicate SlotsBelow(x: S.Slots, n: nat) {
    Below(x.brk, n) && Below(x.cont, n) && Below(x.sw, n) && Below(x.brkStore, n) && Below(x.contStore, n) && Below(x.swStore, n)
  }

  lemma {:induction false} GotosGround(s: Stmt, t: Trail, n: nat)
    requires GotosBelow(s, n) && t.lo == 0
    ensures GroundGotos(s, t, Ground(n), 0)
    decreases s
  {
    match s {
      case Sequence(first, rest) => GotosGround(first, t, n); GotosGround(rest, t, n);
      case If(_, yes) => GotosGround(yes, t, n);
      case IfElse(_, yes, no) => GotosGround(yes, t, n); GotosGround(no, t, n);
      case While(_, body) => GotosGround(body, t, n);
      case DoWhile(body, _) => GotosGround(body, t, n);
      case For(init, _, _, body) => GotosGround(init, t, n); GotosGround(body, t, n);
      case Switch(_, body) => GotosGround(body, t, n);
      case _ =>
    }
  }

  /** A function's body, however its breakable constructs nest and whatever the slots hold
      from before: every label has one depth, and in every state of every run the stack is
      as deep as the place says. */
  lemma BodyRuns(body: Stmt, v: View, s: State, t: State, n: nat)
    requires GenStmt(body, v).Done? && s.pc == 0
    requires SlotsBelow(v.slots, v.nextLabel) && GotosBelow(body, v.nextLabel)
    ensures var w := GenStmt(body, v).view;
      v.output <= w.output && w.stack == v.stack && Depth(Since(v, w)) == 0 &&
      OneDepth(Since(v, w)) &&
      (Reach(Since(v, w), s, t, n) ==> Deep(Since(v, w), s, t))
  {
    hide GenStmt, Depth;
    var m := Ground(v.nextLabel);
    var trail := Trail(v, 0, 0, 0);
    Start(v, m, 0, 0);
    GotosGround(body, trail, v.nextLabel);
    var m' := StmtOn(body, trail, v, m, 0);
    var c := Since(v, GenStmt(body, v).view);
    forall i, j | 0 <= i < |c| && 0 <= j < |c| && SameLabel(c[i], c[j])
      ensures Depth(c[..i]) == Depth(c[..j])
    {
      SameDepth(c, m', 0, 0, i, j);
    }
    if Reach(c, s, t, n) {
      EveryState(c, m', 0, 0, s, t, n);
    }
  }
}
