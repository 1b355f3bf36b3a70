/** Forward simulation for statements, from start or case label. */
module StmtSim {
  import opened Words
  import opened Runs
  import opened Machine
  import opened Syntax
  import opened Semantics
  import opened Code
  import opened Relation
  import opened ExprSim

  function OptionDepth(e: Option<Expr>): nat {
    if e.None? then 0 else Depth(e.value)
  }

  function StmtDepth(s: Stmt): nat {
    match s
    case Sequence(a, b) => Max(StmtDepth(a), StmtDepth(b))
    case Expression(e) => Depth(e)
    case Initialize(_, e) => Max(1, Depth(e))
    case If(b, a) => Max(Depth(b), StmtDepth(a))
    case IfElse(b, y, n) => Max(Depth(b), Max(StmtDepth(y), StmtDepth(n)))
    case While(b, body) => Max(Depth(b), StmtDepth(body))
    case DoWhile(body, b) => Max(Depth(b), StmtDepth(body))
    case For(init, test, step, body) =>
      Max(Max(StmtDepth(init), StmtDepth(body)), Max(OptionDepth(test), OptionDepth(step)))
    case Switch(e, body) => Max(Depth(e), StmtDepth(body))
    case Return(r) => OptionDepth(r)
    case _ => 0
  }

  /** Jumps out of a statement have somewhere to go. */
  ghost predicate Scope(prog: Program, s: Stmt, t: Targets) {
    WellNested(s, t.brk.Some?, t.cont.Some?, true) &&
    (t.brk.Some? ==> FindLabel(prog, t.brk.value).Some?) &&
    (t.cont.Some? ==> FindLabel(prog, t.cont.value).Some?)
  }

  /** The frame: saved rbp and return address lie above the stack pointer and are not
      objects. */
  ghost predicate Frame(c: Context, s0: State) {
    0 <= s0.rsp <= c.base && c.base + 16 < HALF && Aligned(c.base) &&
    c.base in s0.mem && c.base + 8 in s0.mem && c.base !in c.callees.objects && c.base + 8 !in c.callees.objects
  }

  /** The machine has returned to its caller. */
  ghost predicate ReturnedTo(c: Context, prog: Program, s0: State, t: State, v: Option<Word>, mem: Memory)
    requires Frame(c, s0)
  {
    Reaches(c.callees, prog, s0, t) && t.pc == s0.mem[c.base + 8] && t.rbp == s0.mem[c.base] && t.rsp == c.base + 16 &&
    (v.Some? ==> t.rax == v.value) &&
    (forall a :: a in mem ==> a in t.mem && t.mem[a] == mem[a]) && Kept(c, s0, t)
  }

  /** Where a statement that is laid out up to `end` may leave the machine. */
  ghost predicate Landed(c: Context, prog: Program, s0: State, t: State, end: int, g: Targets, r: Done, k: nat) {
    Frame(c, s0) &&
    match r.outcome
    case Returned(v) => ReturnedTo(c, prog, s0, t, v, r.mem)
    case Normal => Live(c, prog, s0, t, r.mem, k) && t.rsp == s0.rsp && t.pc == end
    case Broke => Live(c, prog, s0, t, r.mem, k) && t.rsp == s0.rsp && g.brk.Some? && FindLabel(prog, g.brk.value) == Some(t.pc)
    case Continued => Live(c, prog, s0, t, r.mem, k) && t.rsp == s0.rsp && g.cont.Some? && FindLabel(prog, g.cont.value) == Some(t.pc)
  }

  /** How far into a statement's code its marker number k is. */
  function EntryOffset(s: Stmt, k: nat, n: nat, d: int, t: Targets): int
    requires k < |Markers(s)|
    decreases s
  {
    match s
    case Case(_) => 4
    case Default => 0
    case Sequence(a, b) =>
      if k < |Markers(a)| then EntryOffset(a, k, n, d, t) else
      |StmtCode(a, n, d, t)| + EntryOffset(b, k - |Markers(a)|, n + StmtLabels(a), d, t.(sw := NextSwitch(a, n, t.sw)))
    case If(c, a) => |ExprCode(c, n, d)| + 2 + EntryOffset(a, k, n + ExprLabels(c) + 1, d, t)
    case IfElse(c, a, b) =>
      var ne := n + ExprLabels(c);
      var end := ne + 1 + StmtLabels(a);
      if k < |Markers(a)| then
        |ExprCode(c, n, d)| + 2 + EntryOffset(a, k, ne + 1, d, t)
      else
        (|ExprCode(c, n, d)| + 2 + |StmtCode(a, ne + 1, d, t)| + 2 +
         EntryOffset(b, k - |Markers(a)|, end + 1, d, t.(sw := NextSwitch(a, ne + 1, t.sw))))
    case While(c, body) =>
      1 + |ExprCode(c, n + 2, d)| + 2 +
      EntryOffset(body, k, n + 2 + ExprLabels(c), d, t.(brk := Some(n + 1), cont := Some(n)))
    case DoWhile(body, c) => 1 + EntryOffset(body, k, n + 2, d, t.(brk := Some(n + 1), cont := Some(n)))
    case For(init, test, step, body) =>
      var b := n + StmtLabels(init);
      if k < |Markers(init)| then
        EntryOffset(init, k, n, d, t)
      else
        (|StmtCode(init, n, d, t)| + 1 + |TestCode(test, b + 3, d, b + 2)| +
         EntryOffset(body, k - |Markers(init)|, b + 3 + OptionLabels(test), d,
           t.(brk := Some(b + 2), cont := Some(b + 1), sw := NextSwitch(init, n, t.sw))))
  }

  function EntryPoint(s: Stmt, entry: Option<nat>, n: nat, d: int, t: Targets): int
    requires entry.Some? ==> entry.value < |Markers(s)|
  {
    if entry.None? then 0 else EntryOffset(s, entry.value, n, d, t)
  }

  // ------------------------------------------------------------- layouts

  ghost predicate LoopLabels(prog: Program, begin: nat, p: int, end: nat, q: int) {
    FindLabel(prog, begin) == Some(p) && FindLabel(prog, end) == Some(q + 1) && CodeAt(prog, p, [Label(begin)]) &&
    CodeAt(prog, q, [Jmp(begin), Label(end)])
  }

  ghost predicate WhileLayout(prog: Program, p: int, cond: seq<Instr>, body: seq<Instr>, n: nat) {
    var pb := p + 1 + |cond| + 2;
    LoopLabels(prog, n, p, n + 1, pb + |body|) &&
    CodeAt(prog, p + 1, cond) && CodeAt(prog, p + 1 + |cond|, [Test, Je(n + 1)]) && CodeAt(prog, pb, body)
  }

  lemma LoopSplit(prog: Program, p: int, q: int, begin: nat, end: nat)
    requires CodeAt(prog, p, [Label(begin)]) && CodeAt(prog, q, [Jmp(begin), Label(end)])
    ensures LoopLabels(prog, begin, p, end, q)
  {
    LabelHere(prog, p, [Label(begin)], 0, begin);
    LabelHere(prog, q, [Jmp(begin), Label(end)], 1, end);
  }

  lemma WhileSplit(prog: Program, p: int, cond: seq<Instr>, body: seq<Instr>, n: nat)
    requires CodeAt(prog, p, [Label(n)] + cond + [Test, Je(n + 1)] + (body + [Jmp(n), Label(n + 1)]))
    ensures WhileLayout(prog, p, cond, body, n)
  {
    hide CodeAt, FindLabel;
    CodeSplit3(prog, p, [Label(n)] + cond, [Test, Je(n + 1)], body + [Jmp(n), Label(n + 1)]);
    CodeSplit(prog, p, [Label(n)], cond);
    CodeSplit(prog, p + 1 + |cond| + 2, body, [Jmp(n), Label(n + 1)]);
    LoopSplit(prog, p, p + 1 + |cond| + 2 + |body|, n, n + 1);
  }

  ghost predicate DoLayout(prog: Program, p: int, body: seq<Instr>, cond: seq<Instr>, n: nat) {
    var pc := p + 1 + |body|;
    LoopLabels(prog, n, p, n + 1, pc + |cond| + 2) &&
    CodeAt(prog, p + 1, body) && CodeAt(prog, pc, cond) && CodeAt(prog, pc + |cond|, [Test, Je(n + 1)])
  }

  lemma DoSplit(prog: Program, p: int, body: seq<Instr>, cond: seq<Instr>, n: nat)
    requires CodeAt(prog, p, [Label(n)] + body + (cond + [Test, Je(n + 1)] + [Jmp(n), Label(n + 1)]))
    ensures DoLayout(prog, p, body, cond, n)
  {
    hide CodeAt, FindLabel;
    CodeSplit3(prog, p, [Label(n)], body, cond + [Test, Je(n + 1)] + [Jmp(n), Label(n + 1)]);
    CodeSplit3(prog, p + 1 + |body|, cond, [Test, Je(n + 1)], [Jmp(n), Label(n + 1)]);
    LoopSplit(prog, p, p + 1 + |body| + |cond| + 2, n, n + 1);
  }

  /** A for statement from its begin label. */
  ghost predicate ForLayout(prog: Program, p: int, test: seq<Instr>, body: seq<Instr>, step: seq<Instr>, b: nat) {
    var ps := p + 1 + |test| + |body|;
    LoopLabels(prog, b, p, b + 2, ps + 1 + |step|) && FindLabel(prog, b + 1) == Some(ps) &&
    CodeAt(prog, p + 1, test) && CodeAt(prog, p + 1 + |test|, body) && CodeAt(prog, ps, [Label(b + 1)]) && CodeAt(prog, ps + 1, step)
  }

  lemma ForSplit(prog: Program, p: int, test: seq<Instr>, body: seq<Instr>, step: seq<Instr>, b: nat)
    requires CodeAt(prog, p, [Label(b)] + test + (body + ([Label(b + 1)] + step + [Jmp(b), Label(b + 2)])))
    ensures ForLayout(prog, p, test, body, step, b)
  {
    hide CodeAt, FindLabel;
    CodeSplit3(prog, p, [Label(b)], test, body + ([Label(b + 1)] + step + [Jmp(b), Label(b + 2)]));
    CodeSplit(prog, p + 1 + |test|, body, [Label(b + 1)] + step + [Jmp(b), Label(b + 2)]);
    CodeSplit3(prog, p + 1 + |test| + |body|, [Label(b + 1)], step, [Jmp(b), Label(b + 2)]);
    LabelHere(prog, p + 1 + |test| + |body|, [Label(b + 1)], 0, b + 1);
    LoopSplit(prog, p, p + 1 + |test| + |body| + 1 + |step|, b, b + 2);
  }

  lemma SequenceParts(prog: Program, p: int, st: Stmt, n: nat, d: int, g: Targets) returns (q: int)
    requires st.Sequence? && CodeAt(prog, p, StmtCode(st, n, d, g))
    ensures var g' := g.(sw := NextSwitch(st.first, n, g.sw)); var rest := StmtCode(st.rest, n + StmtLabels(st.first), d, g');
      q == p + |StmtCode(st.first, n, d, g)| && CodeAt(prog, p, StmtCode(st.first, n, d, g)) && CodeAt(prog, q, rest) &&
      p + |StmtCode(st, n, d, g)| == q + |rest|
  {
    hide CodeAt;
    q := p + |StmtCode(st.first, n, d, g)|;
    CodeSplit(prog, p, StmtCode(st.first, n, d, g),
      StmtCode(st.rest, n + StmtLabels(st.first), d, g.(sw := NextSwitch(st.first, n, g.sw))));
  }

  lemma IfParts(prog: Program, p: int, st: Stmt, n: nat, d: int, g: Targets) returns (q: int)
    requires st.If? && CodeAt(prog, p, StmtCode(st, n, d, g))
    ensures var ne := n + ExprLabels(st.cond); var yes := StmtCode(st.yes, ne + 1, d, g);
      q == p + |ExprCode(st.cond, n, d)| + 2 && CodeAt(prog, p, ExprCode(st.cond, n, d)) &&
      CodeAt(prog, q - 2, [Test, Je(ne)]) && CodeAt(prog, q, yes) && CodeAt(prog, q + |yes|, [Label(ne)]) &&
      FindLabel(prog, ne) == Some(q + |yes|) && p + |StmtCode(st, n, d, g)| == q + |yes| + 1
  {
    hide CodeAt, FindLabel;
    var ne := n + ExprLabels(st.cond);
    var yes := StmtCode(st.yes, ne + 1, d, g);
    q := p + |ExprCode(st.cond, n, d)| + 2;
    CodeSplit3(prog, p, ExprCode(st.cond, n, d), [Test, Je(ne)], yes + [Label(ne)]);
    CodeSplit(prog, q, yes, [Label(ne)]);
    LabelHere(prog, q + |yes|, [Label(ne)], 0, ne);
  }

  /** Both arms, at q and q'. */
  lemma IfElseParts(prog: Program, p: int, st: Stmt, n: nat, d: int, g: Targets) returns (q: int, q': int)
    requires st.IfElse? && CodeAt(prog, p, StmtCode(st, n, d, g))
    ensures var ne := n + ExprLabels(st.cond); var end := ne + 1 + StmtLabels(st.yes);
      var yes := StmtCode(st.yes, ne + 1, d, g); var no := StmtCode(st.no, end + 1, d, g.(sw := NextSwitch(st.yes, ne + 1, g.sw)));
      q == p + |ExprCode(st.cond, n, d)| + 2 && q' == q + |yes| + 2 && CodeAt(prog, q, yes) && CodeAt(prog, q', no) &&
      Arms(prog, p, ExprCode(st.cond, n, d), yes, no, ne, end) && p + |StmtCode(st, n, d, g)| == q' + |no| + 1
  {
    hide CodeAt, FindLabel, Arms;
    var ne := n + ExprLabels(st.cond);
    var end := ne + 1 + StmtLabels(st.yes);
    var yes, no := StmtCode(st.yes, ne + 1, d, g), StmtCode(st.no, end + 1, d, g.(sw := NextSwitch(st.yes, ne + 1, g.sw)));
    assert StmtCode(st, n, d, g) == ExprCode(st.cond, n, d) + [Test, Je(ne)] + (yes + [Jmp(end), Label(ne)] + (no + [Label(end)]));
    hide StmtCode, ExprCode, ExprLabels, StmtLabels, NextSwitch;
    ArmsSplit(prog, p, ExprCode(st.cond, n, d), yes, no, ne, end);
    ArmsParts(prog, p, ExprCode(st.cond, n, d), yes, no, ne, end);
    q := p + |ExprCode(st.cond, n, d)| + 2;
    q' := q + |yes| + 2;
  }

  lemma WhileParts(prog: Program, p: int, st: Stmt, n: nat, d: int, g: Targets) returns (q: int)
    requires st.While? && CodeAt(prog, p, StmtCode(st, n, d, g))
    ensures var body := StmtCode(st.body, n + 2 + ExprLabels(st.cond), d, g.(brk := Some(n + 1), cont := Some(n)));
      q == p + 1 + |ExprCode(st.cond, n + 2, d)| + 2 && CodeAt(prog, q, body) &&
      WhileLayout(prog, p, ExprCode(st.cond, n + 2, d), body, n) && p + |StmtCode(st, n, d, g)| == q + |body| + 2
  {
    hide CodeAt, FindLabel, LoopLabels;
    var body := StmtCode(st.body, n + 2 + ExprLabels(st.cond), d, g.(brk := Some(n + 1), cont := Some(n)));
    WhileSplit(prog, p, ExprCode(st.cond, n + 2, d), body, n);
    q := p + 1 + |ExprCode(st.cond, n + 2, d)| + 2;
  }

  lemma DoParts(prog: Program, p: int, st: Stmt, n: nat, d: int, g: Targets) returns (q: int)
    requires st.DoWhile? && CodeAt(prog, p, StmtCode(st, n, d, g))
    ensures var body := StmtCode(st.body, n + 2, d, g.(brk := Some(n + 1), cont := Some(n)));
      var cond := ExprCode(st.cond, n + 2 + StmtLabels(st.body), d);
      q == p + 1 && CodeAt(prog, q, body) && DoLayout(prog, p, body, cond, n) &&
      p + |StmtCode(st, n, d, g)| == q + |body| + |cond| + 4
  {
    hide CodeAt, FindLabel, LoopLabels;
    DoSplit(prog, p, StmtCode(st.body, n + 2, d, g.(brk := Some(n + 1), cont := Some(n))),
      ExprCode(st.cond, n + 2 + StmtLabels(st.body), d), n);
    q := p + 1;
  }

  /** A for statement: its first clause, then the loop. */
  lemma ForParts(prog: Program, st: Stmt, n: nat, d: int, g: Targets, p: int)
    requires st.For? && CodeAt(prog, p, StmtCode(st, n, d, g))
    ensures var b := n + StmtLabels(st.init); var g' := g.(sw := NextSwitch(st.init, n, g.sw));
      CodeAt(prog, p, StmtCode(st.init, n, d, g)) &&
      |StmtCode(st, n, d, g)| == |StmtCode(st.init, n, d, g)| + |ForCode(st, b, d, g')| &&
      ForAt(prog, p + |StmtCode(st.init, n, d, g)|, st, b, d, g')
  {
    hide CodeAt, FindLabel, ExprCode, ForAt, ForCode;
    var b := n + StmtLabels(st.init);
    var g' := g.(sw := NextSwitch(st.init, n, g.sw));
    CodeSplit(prog, p, StmtCode(st.init, n, d, g), ForCode(st, b, d, g'));
    ForIntro(prog, p + |StmtCode(st.init, n, d, g)|, st, b, d, g');
  }

  lemma ForIntro(prog: Program, p: int, st: Stmt, b: nat, d: int, g: Targets)
    requires st.For? && CodeAt(prog, p, ForCode(st, b, d, g))
    ensures ForAt(prog, p, st, b, d, g)
  {
    hide CodeAt, FindLabel, ExprCode, ForLayout, TestCode, OptionCode, StmtCode, StmtLabels, OptionLabels;
    var l := b + 3 + OptionLabels(st.test);
    ForSplit(prog, p, TestCode(st.test, b + 3, d, b + 2),
      StmtCode(st.body, l, d, g.(brk := Some(b + 2), cont := Some(b + 1))), OptionCode(st.step, l + StmtLabels(st.body), d), b);
  }

  ghost predicate ForAt(prog: Program, p: int, st: Stmt, b: nat, d: int, g: Targets)
    requires st.For?
  {
    var l := b + 3 + OptionLabels(st.test);
    ForLayout(prog, p, TestCode(st.test, b + 3, d, b + 2),
      StmtCode(st.body, l, d, g.(brk := Some(b + 2), cont := Some(b + 1))), OptionCode(st.step, l + StmtLabels(st.body), d), b)
  }

  lemma ForBody(prog: Program, p: int, st: Stmt, b: nat, d: int, g: Targets)
    requires st.For? && ForAt(prog, p, st, b, d, g)
    ensures CodeAt(prog, p + 1 + |TestCode(st.test, b + 3, d, b + 2)|,
      StmtCode(st.body, b + 3 + OptionLabels(st.test), d, g.(brk := Some(b + 2), cont := Some(b + 1))))
  {
    hide CodeAt, FindLabel, StmtCode, TestCode, OptionCode;
  }

  // --------------------------------------- one level of the definitions

  /** How far into a statement's code its only substatement starts. */
  function EntryLead(st: Stmt, n: nat, d: int): int
    requires st.If? || st.While? || st.DoWhile?
  {
    match st
    case If(b, _) => |ExprCode(b, n, d)| + 2
    case While(b, _) => 1 + |ExprCode(b, n + 2, d)| + 2
    case DoWhile(_, _) => 1
  }

  lemma SequenceShape(st: Stmt, n: nat, d: int, g: Targets)
    requires st.Sequence?
    ensures Markers(st) == Markers(st.first) + Markers(st.rest)
    ensures NextSwitch(st, n, g.sw) == NextSwitch(st.rest, n + StmtLabels(st.first), NextSwitch(st.first, n, g.sw))
    ensures var m := n + StmtLabels(st.first); var g' := g.(sw := NextSwitch(st.first, n, g.sw)); var j := |Markers(st.first)|;
      forall k :: 0 <= k < |Markers(st)| ==>
        EntryOffset(st, k, n, d, g) ==
        if k < j then EntryOffset(st.first, k, n, d, g) else |StmtCode(st.first, n, d, g)| + EntryOffset(st.rest, k - j, m, d, g')
  {
    hide StmtCode, StmtLabels;
  }

  lemma IfShape(st: Stmt, n: nat, d: int, g: Targets)
    requires st.If?
    ensures Markers(st) == Markers(st.yes)
    ensures NextSwitch(st, n, g.sw) == NextSwitch(st.yes, n + ExprLabels(st.cond) + 1, g.sw)
    ensures forall k :: 0 <= k < |Markers(st)| ==>
      EntryOffset(st, k, n, d, g) == EntryLead(st, n, d) + EntryOffset(st.yes, k, n + ExprLabels(st.cond) + 1, d, g)
  {
    hide StmtCode, StmtLabels, ExprCode, ExprLabels;
  }

  lemma IfElseShape(st: Stmt, n: nat, d: int, g: Targets)
    requires st.IfElse?
    ensures Markers(st) == Markers(st.yes) + Markers(st.no)
    ensures var ne := n + ExprLabels(st.cond); var end := ne + 1 + StmtLabels(st.yes);
      NextSwitch(st, n, g.sw) == NextSwitch(st.no, end + 1, NextSwitch(st.yes, ne + 1, g.sw))
    ensures var ne := n + ExprLabels(st.cond); var m := ne + 1 + StmtLabels(st.yes) + 1; var j := |Markers(st.yes)|;
      var lead := |ExprCode(st.cond, n, d)| + 2; var g' := g.(sw := NextSwitch(st.yes, ne + 1, g.sw));
      forall k :: 0 <= k < |Markers(st)| ==>
        EntryOffset(st, k, n, d, g) ==
        lead + if k < j then EntryOffset(st.yes, k, ne + 1, d, g) else |StmtCode(st.yes, ne + 1, d, g)| + 2 + EntryOffset(st.no, k - j, m, d, g')
  {
    hide StmtCode, StmtLabels, ExprCode, ExprLabels;
  }

  lemma WhileShape(st: Stmt, n: nat, d: int, g: Targets)
    requires st.While?
    ensures Markers(st) == Markers(st.body)
    ensures NextSwitch(st, n, g.sw) == NextSwitch(st.body, n + 2 + ExprLabels(st.cond), g.sw)
    ensures var g' := g.(brk := Some(n + 1), cont := Some(n));
      forall k :: 0 <= k < |Markers(st)| ==>
        EntryOffset(st, k, n, d, g) == EntryLead(st, n, d) + EntryOffset(st.body, k, n + 2 + ExprLabels(st.cond), d, g')
  {
    hide StmtCode, StmtLabels, ExprCode, ExprLabels;
  }

  lemma DoShape(st: Stmt, n: nat, d: int, g: Targets)
    requires st.DoWhile?
    ensures Markers(st) == Markers(st.body)
    ensures NextSwitch(st, n, g.sw) == NextSwitch(st.body, n + 2, g.sw)
    ensures var g' := g.(brk := Some(n + 1), cont := Some(n));
      forall k :: 0 <= k < |Markers(st)| ==>
        EntryOffset(st, k, n, d, g) == EntryLead(st, n, d) + EntryOffset(st.body, k, n + 2, d, g')
  {
    hide StmtCode, StmtLabels, ExprCode, ExprLabels;
  }

  lemma ForShape(st: Stmt, n: nat, d: int, g: Targets)
    requires st.For?
    ensures Markers(st) == Markers(st.init) + Markers(st.body)
    ensures var b := n + StmtLabels(st.init); var l := b + 3 + OptionLabels(st.test); var sw := NextSwitch(st.init, n, g.sw);
      NextSwitch(st, n, g.sw) == NextSwitch(st.body, l, sw)
    ensures var b := n + StmtLabels(st.init); var l := b + 3 + OptionLabels(st.test); var j := |Markers(st.init)|;
      var lead := |StmtCode(st.init, n, d, g)| + 1 + |TestCode(st.test, b + 3, d, b + 2)|;
      var g' := g.(brk := Some(b + 2), cont := Some(b + 1), sw := NextSwitch(st.init, n, g.sw));
      forall k :: 0 <= k < |Markers(st)| ==>
        EntryOffset(st, k, n, d, g) ==
        if k < j then EntryOffset(st.init, k, n, d, g) else lead + EntryOffset(st.body, k - j, l, d, g')
  {
    hide StmtCode, StmtLabels, ExprCode, ExprLabels, TestCode, OptionLabels;
  }

  // ------------------------------------------------------ the case chain

  /** The first marker of a statement defines the label the chain arrives with; a
      statement without markers passes it on. */
  ghost predicate ChainLabelled(prog: Program, s: Stmt, n: nat, t: Targets)
    requires t.sw.Some?
  {
    (|Markers(s)| > 0 ==> FindLabel(prog, t.sw.value).Some?) &&
    (|Markers(s)| == 0 ==> NextSwitch(s, n, t.sw) == t.sw)
  }

  lemma {:induction false} ChainLabel(prog: Program, s: Stmt, n: nat, d: int, t: Targets, p: int)
    requires CodeAt(prog, p, StmtCode(s, n, d, t)) && t.sw.Some?
    ensures ChainLabelled(prog, s, n, t)
    decreases s
  {
    hide *;
    match s {
      case Case(_) => MarkerLabel(prog, s, n, d, t, p);
      case Default => MarkerLabel(prog, s, n, d, t, p);
      case Sequence(a, b) =>
        var q := SequenceParts(prog, p, s, n, d, t);
        var t' := t.(sw := NextSwitch(a, n, t.sw));
        SequenceShape(s, n, d, t);
        ChainLabel(prog, a, n, d, t, p);
        ChainLabel(prog, b, n + StmtLabels(a), d, t', q);
        ChainLabelTwo(prog, s, n, a, n, t, b, n + StmtLabels(a), t');
      case If(c, a) =>
        var q := IfParts(prog, p, s, n, d, t);
        IfShape(s, n, d, t);
        ChainLabel(prog, a, n + ExprLabels(c) + 1, d, t, q);
        ChainLabelOne(prog, s, n, t, a, n + ExprLabels(c) + 1, t);
      case IfElse(c, a, b) =>
        var q, q' := IfElseParts(prog, p, s, n, d, t);
        var ne := n + ExprLabels(c);
        var t' := t.(sw := NextSwitch(a, ne + 1, t.sw));
        IfElseShape(s, n, d, t);
        ChainLabel(prog, a, ne + 1, d, t, q);
        ChainLabel(prog, b, ne + 1 + StmtLabels(a) + 1, d, t', q');
        ChainLabelTwo(prog, s, n, a, ne + 1, t, b, ne + 1 + StmtLabels(a) + 1, t');
      case While(c, body) =>
        var q := WhileParts(prog, p, s, n, d, t);
        var t' := t.(brk := Some(n + 1), cont := Some(n));
        WhileShape(s, n, d, t);
        ChainLabel(prog, body, n + 2 + ExprLabels(c), d, t', q);
        ChainLabelOne(prog, s, n, t, body, n + 2 + ExprLabels(c), t');
      case DoWhile(body, c) =>
        var q := DoParts(prog, p, s, n, d, t);
        var t' := t.(brk := Some(n + 1), cont := Some(n));
        DoShape(s, n, d, t);
        ChainLabel(prog, body, n + 2, d, t', q);
        ChainLabelOne(prog, s, n, t, body, n + 2, t');
      case For(_, _, _, _) => ChainLabelFor(prog, s, n, d, t, p);
      case _ => ChainLabelNone(prog, s, n, t);
    }
  }

  lemma {:induction false} ChainLabelFor(prog: Program, s: Stmt, n: nat, d: int, t: Targets, p: int)
    requires s.For? && CodeAt(prog, p, StmtCode(s, n, d, t)) && t.sw.Some?
    ensures ChainLabelled(prog, s, n, t)
    decreases s, 0
  {
    hide *;
    var b := n + StmtLabels(s.init);
    var l := b + 3 + OptionLabels(s.test);
    var t' := t.(sw := NextSwitch(s.init, n, t.sw));
    var t'' := t'.(brk := Some(b + 2), cont := Some(b + 1));
    ForParts(prog, s, n, d, t, p);
    ForBody(prog, p + |StmtCode(s.init, n, d, t)|, s, b, d, t');
    ForShape(s, n, d, t);
    ChainLabel(prog, s.init, n, d, t, p);
    ChainLabel(prog, s.body, l, d, t'', p + |StmtCode(s.init, n, d, t)| + 1 + |TestCode(s.test, b + 3, d, b + 2)|);
    ChainLabelTwo(prog, s, n, s.init, n, t, s.body, l, t'');
  }

  lemma ChainLabelOne(prog: Program, s: Stmt, n: nat, t: Targets, a: Stmt, na: nat, ta: Targets)
    requires t.sw.Some? && ta.sw == t.sw && Markers(s) == Markers(a) && NextSwitch(s, n, t.sw) == NextSwitch(a, na, t.sw)
    requires ChainLabelled(prog, a, na, ta)
    ensures ChainLabelled(prog, s, n, t)
  {
    hide FindLabel, NextSwitch, Markers;
  }

  lemma ChainLabelTwo(prog: Program, s: Stmt, n: nat, a: Stmt, na: nat, ta: Targets, b: Stmt, nb: nat, tb: Targets)
    requires ta.sw.Some? && tb.sw == NextSwitch(a, na, ta.sw) && Markers(s) == Markers(a) + Markers(b)
    requires NextSwitch(s, n, ta.sw) == NextSwitch(b, nb, tb.sw)
    requires ChainLabelled(prog, a, na, ta) && ChainLabelled(prog, b, nb, tb)
    ensures ChainLabelled(prog, s, n, ta)
  {
    hide FindLabel, NextSwitch, Markers;
  }

  lemma ChainLabelNone(prog: Program, s: Stmt, n: nat, t: Targets)
    requires t.sw.Some? && !s.Case? && !s.Default? && !s.Sequence? && !s.If? && !s.IfElse? && !s.While? && !s.DoWhile? && !s.For?
    ensures ChainLabelled(prog, s, n, t) && Markers(s) == [] && NextSwitch(s, n, t.sw) == t.sw
  {
  }

  lemma MarkerLabel(prog: Program, s: Stmt, n: nat, d: int, t: Targets, p: int)
    requires (s.Case? || s.Default?) && CodeAt(prog, p, StmtCode(s, n, d, t)) && t.sw.Some?
    ensures ChainLabelled(prog, s, n, t)
  {
    hide CodeAt, FindLabel;
    if s.Case? {
      LabelHere(prog, p, StmtCode(s, n, d, t), 1, t.sw.value);
    } else {
      LabelHere(prog, p, StmtCode(s, n, d, t), 0, t.sw.value);
    }
  }

  lemma ArmsParts(prog: Program, p: int, cond: seq<Instr>, yes: seq<Instr>, other: seq<Instr>, ne: nat, end: nat)
    requires Arms(prog, p, cond, yes, other, ne, end)
    ensures CodeAt(prog, p + |cond| + 2, yes) && CodeAt(prog, p + |cond| + 2 + |yes| + 2, other)
  {
    hide CodeAt, FindLabel;
  }

  /** The chain has reached the selected marker, or left the statement unmatched. */
  ghost predicate ChainEnds(prog: Program, st: Stmt, n: nat, d: int, g: Targets, p: int, s: State, t: State)
    requires g.sw.Some?
  {
    var j := FirstMatch(Low32(s.rax), Markers(st));
    t.rsp == s.rsp && t.rax == s.rax &&
    if j < |Markers(st)| then t.pc == p + EntryOffset(st, j, n, d, g)
    else FindLabel(prog, NextSwitch(st, n, g.sw).value) == Some(t.pc)
  }

  /** From the label the chain arrives with, the comparisons lead to the first marker
      that matches rax, and rax survives. */
  lemma {:induction false} SimChain(c: Context, prog: Program, st: Stmt, n: nat, d: int, g: Targets, p: int, s0: State, s: State,
    mem: Memory, k: nat)
    returns (t: State)
    requires CodeAt(prog, p, StmtCode(st, n, d, g)) && Live(c, prog, s0, s, mem, k)
    requires g.sw.Some? && FindLabel(prog, g.sw.value) == Some(s.pc) && FindLabel(prog, NextSwitch(st, n, g.sw).value).Some?
    ensures Live(c, prog, s0, t, mem, k) && ChainEnds(prog, st, n, d, g, p, s, t)
    decreases st, 2
  {
    hide *;
    if st.Case? || st.Default? {
      t := SimCase(c, prog, st, n, d, g, p, s0, s, mem, k);
    } else if st.Sequence? {
      t := SimChainSequence(c, prog, st, n, d, g, p, s0, s, mem, k);
    } else if st.If? {
      t := SimChainIf(c, prog, st, n, d, g, p, s0, s, mem, k);
    } else if st.While? {
      t := SimChainWhile(c, prog, st, n, d, g, p, s0, s, mem, k);
    } else if st.DoWhile? {
      t := SimChainDoWhile(c, prog, st, n, d, g, p, s0, s, mem, k);
    } else if st.IfElse? {
      t := SimChainIfElse(c, prog, st, n, d, g, p, s0, s, mem, k);
    } else if st.For? {
      t := SimChainFor(c, prog, st, n, d, g, p, s0, s, mem, k);
    } else {
      ChainLabelNone(prog, st, n, g);
      t := s;
      ChainNone(prog, st, n, d, g, p, s);
    }
  }

  lemma ChainNone(prog: Program, st: Stmt, n: nat, d: int, g: Targets, p: int, s: State)
    requires g.sw.Some? && Markers(st) == [] && NextSwitch(st, n, g.sw) == g.sw && FindLabel(prog, g.sw.value) == Some(s.pc)
    ensures ChainEnds(prog, st, n, d, g, p, s, s)
  {
    hide FindLabel, NextSwitch, Markers, EntryOffset, Low32;
  }

  lemma SimCase(c: Context, prog: Program, st: Stmt, n: nat, d: int, g: Targets, p: int, s0: State, s: State,
    mem: Memory, k: nat)
    returns (t: State)
    requires st.Case? || st.Default?
    requires CodeAt(prog, p, StmtCode(st, n, d, g)) && Live(c, prog, s0, s, mem, k)
    requires g.sw.Some? && FindLabel(prog, g.sw.value) == Some(s.pc) && FindLabel(prog, NextSwitch(st, n, g.sw).value).Some?
    ensures Live(c, prog, s0, t, mem, k) && ChainEnds(prog, st, n, d, g, p, s, t)
  {
    hide CodeAt, FindLabel, Live, Low32;
    if st.Default? {
      LabelHere(prog, p, StmtCode(st, n, d, g), 0, g.sw.value);
      t := s;
    } else {
      t := SimCompareCase(c, prog, st.value, n, g.sw.value, p, s0, s, mem, k);
    }
  }

  lemma SimCompareCase(c: Context, prog: Program, v: int, n: nat, sw: nat, p: int, s0: State, s: State, mem: Memory, k: nat)
    returns (t: State)
    requires CodeAt(prog, p, [Jmp(n), Label(sw), CmpImm32(v), Jne(n + 1), Label(n)]) && Live(c, prog, s0, s, mem, k)
    requires FindLabel(prog, sw) == Some(s.pc) && FindLabel(prog, n + 1).Some?
    ensures Live(c, prog, s0, t, mem, k) && t.rsp == s.rsp && t.rax == s.rax
    ensures if Low32(s.rax) == v then t.pc == p + 4 else FindLabel(prog, n + 1) == Some(t.pc)
  {
    hide CodeAt, FindLabel, Live, Low32;
    var code := [Jmp(n), Label(sw), CmpImm32(v), Jne(n + 1), Label(n)];
    LabelHere(prog, p, code, 1, sw);
    var t1 := DoQuiet(c, prog, s0, s, p, code, 1, mem, k);
    var t2 := DoQuiet(c, prog, s0, t1, p, code, 2, mem, k);
    t := DoQuiet(c, prog, s0, t2, p, code, 3, mem, k);
  }

  ghost predicate ChainTwoEnds(prog: Program, a: Stmt, na: nat, ga: Targets, pa: int, b: Stmt, nb: nat, gb: Targets, pb: int,
    d: int, s: State, t: State)
    requires gb.sw.Some?
  {
    var j := FirstMatch(Low32(s.rax), Markers(a) + Markers(b));
    t.rsp == s.rsp && t.rax == s.rax &&
    if j < |Markers(a)| then t.pc == pa + EntryOffset(a, j, na, d, ga)
    else if j < |Markers(a)| + |Markers(b)| then t.pc == pb + EntryOffset(b, j - |Markers(a)|, nb, d, gb)
    else FindLabel(prog, NextSwitch(b, nb, gb.sw).value) == Some(t.pc)
  }

  /** The chain through two statements whose code is laid out one after the other. */
  lemma {:induction false} SimChainTwo(c: Context, prog: Program, st: Stmt, a: Stmt, na: nat, ga: Targets, pa: int, b: Stmt, nb: nat, gb: Targets,
    pb: int, d: int, s0: State, s: State, mem: Memory, k: nat)
    returns (t: State)
    requires a < st && b < st
    requires CodeAt(prog, pa, StmtCode(a, na, d, ga)) && CodeAt(prog, pb, StmtCode(b, nb, d, gb)) && Live(c, prog, s0, s, mem, k)
    requires ga.sw.Some? && FindLabel(prog, ga.sw.value) == Some(s.pc)
    requires gb.sw == NextSwitch(a, na, ga.sw) && FindLabel(prog, NextSwitch(b, nb, gb.sw).value).Some?
    ensures Live(c, prog, s0, t, mem, k) && ChainTwoEnds(prog, a, na, ga, pa, b, nb, gb, pb, d, s, t)
    decreases st, 0
  {
    hide *;
    ChainLabel(prog, b, nb, d, gb, pb);
    NextLabelled(prog, b, nb, gb);
    var t1 := SimChain(c, prog, a, na, d, ga, pa, s0, s, mem, k);
    if FirstMatch(Low32(s.rax), Markers(a)) < |Markers(a)| {
      t := t1;
      ChainTwoFirst(prog, a, na, ga, pa, b, nb, gb, pb, d, s, t);
    } else {
      ChainLeft(prog, a, na, d, ga, pa, s, t1);
      t := SimChain(c, prog, b, nb, d, gb, pb, s0, t1, mem, k);
      ChainTwoSecond(prog, a, na, ga, pa, b, nb, gb, pb, d, s, t1, t);
    }
  }

  lemma NextLabelled(prog: Program, b: Stmt, n: nat, g: Targets)
    requires g.sw.Some? && ChainLabelled(prog, b, n, g) && FindLabel(prog, NextSwitch(b, n, g.sw).value).Some?
    ensures FindLabel(prog, g.sw.value).Some?
  {
    hide FindLabel, NextSwitch, Markers;
  }

  lemma ChainLeft(prog: Program, st: Stmt, n: nat, d: int, g: Targets, p: int, s: State, t: State)
    requires g.sw.Some? && ChainEnds(prog, st, n, d, g, p, s, t) && FirstMatch(Low32(s.rax), Markers(st)) >= |Markers(st)|
    ensures FindLabel(prog, NextSwitch(st, n, g.sw).value) == Some(t.pc) && t.rax == s.rax && t.rsp == s.rsp
  {
    hide FindLabel, NextSwitch, Markers, EntryOffset, Low32;
  }

  lemma ChainTwoFirst(prog: Program, a: Stmt, na: nat, ga: Targets, pa: int, b: Stmt, nb: nat, gb: Targets, pb: int, d: int,
    s: State, t: State)
    requires ga.sw.Some? && gb.sw.Some? && ChainEnds(prog, a, na, d, ga, pa, s, t)
    requires FirstMatch(Low32(s.rax), Markers(a)) < |Markers(a)|
    ensures ChainTwoEnds(prog, a, na, ga, pa, b, nb, gb, pb, d, s, t)
  {
    hide CodeAt, FindLabel, Live, StmtCode, StmtLabels, ExprLabels, OptionLabels, NextSwitch, Markers, EntryOffset, FirstMatch, Low32, ExprCode, TestCode;
    FirstMatchAppend(Low32(s.rax), Markers(a), Markers(b));
  }

  lemma ChainTwoSecond(prog: Program, a: Stmt, na: nat, ga: Targets, pa: int, b: Stmt, nb: nat, gb: Targets, pb: int, d: int,
    s: State, t1: State, t: State)
    requires gb.sw.Some? && ChainEnds(prog, b, nb, d, gb, pb, t1, t) && t1.rax == s.rax && t1.rsp == s.rsp
    requires FirstMatch(Low32(s.rax), Markers(a)) >= |Markers(a)|
    ensures ChainTwoEnds(prog, a, na, ga, pa, b, nb, gb, pb, d, s, t)
  {
    hide CodeAt, FindLabel, Live, StmtCode, StmtLabels, ExprLabels, OptionLabels, NextSwitch, Markers, EntryOffset, FirstMatch, Low32, ExprCode, TestCode;
    FirstMatchAppend(Low32(s.rax), Markers(a), Markers(b));
  }

  lemma {:induction false} SimChainSequence(c: Context, prog: Program, st: Stmt, n: nat, d: int, g: Targets, p: int, s0: State, s: State,
    mem: Memory, k: nat)
    returns (t: State)
    requires st.Sequence?
    requires CodeAt(prog, p, StmtCode(st, n, d, g)) && Live(c, prog, s0, s, mem, k)
    requires g.sw.Some? && FindLabel(prog, g.sw.value) == Some(s.pc) && FindLabel(prog, NextSwitch(st, n, g.sw).value).Some?
    ensures Live(c, prog, s0, t, mem, k) && ChainEnds(prog, st, n, d, g, p, s, t)
    decreases st, 1
  {
    hide CodeAt, FindLabel, Live, StmtCode, NextSwitch, Markers, EntryOffset, FirstMatch, Low32, ExprCode, Arms, TestCode, OptionCode, ForAt,
      ForCode, ChainEnds, ChainTwoEnds;
    var q := SequenceParts(prog, p, st, n, d, g);
    var m, g' := n + StmtLabels(st.first), g.(sw := NextSwitch(st.first, n, g.sw));
    SequenceShape(st, n, d, g);
    t := SimChainTwo(c, prog, st, st.first, n, g, p, st.rest, m, g', q, d, s0, s, mem, k);
    SequenceChained(prog, st, n, d, g, p, s, t);
  }

  lemma SequenceChained(prog: Program, st: Stmt, n: nat, d: int, g: Targets, p: int, s: State, t: State)
    requires st.Sequence? && g.sw.Some?
    requires ChainTwoEnds(prog, st.first, n, g, p, st.rest, n + StmtLabels(st.first), g.(sw := NextSwitch(st.first, n, g.sw)),
      p + |StmtCode(st.first, n, d, g)|, d, s, t)
    ensures ChainEnds(prog, st, n, d, g, p, s, t)
  {
    hide CodeAt, FindLabel, Live, StmtCode, StmtLabels, ExprLabels, OptionLabels, NextSwitch, Markers, EntryOffset, FirstMatch, Low32, ExprCode, TestCode;
    SequenceShape(st, n, d, g);
  }

  lemma {:induction false} SimChainIf(c: Context, prog: Program, st: Stmt, n: nat, d: int, g: Targets, p: int, s0: State, s: State,
    mem: Memory, k: nat)
    returns (t: State)
    requires st.If?
    requires CodeAt(prog, p, StmtCode(st, n, d, g)) && Live(c, prog, s0, s, mem, k)
    requires g.sw.Some? && FindLabel(prog, g.sw.value) == Some(s.pc) && FindLabel(prog, NextSwitch(st, n, g.sw).value).Some?
    ensures Live(c, prog, s0, t, mem, k) && ChainEnds(prog, st, n, d, g, p, s, t)
    decreases st, 1
  {
    hide CodeAt, FindLabel, Live, StmtCode, NextSwitch, Markers, EntryOffset, FirstMatch, Low32, ExprCode, WhileLayout, DoLayout, ChainEnds;
    var q := IfParts(prog, p, st, n, d, g);
    IfShape(st, n, d, g);
    t := SimChain(c, prog, st.yes, n + ExprLabels(st.cond) + 1, d, g, q, s0, s, mem, k);
    IfChained(prog, st, n, d, g, p, q, s, t);
  }

  lemma IfChained(prog: Program, st: Stmt, n: nat, d: int, g: Targets, p: int, q: int, s: State, t: State)
    requires st.If? && g.sw.Some? && q == p + EntryLead(st, n, d)
    requires ChainEnds(prog, st.yes, n + ExprLabels(st.cond) + 1, d, g, q, s, t)
    ensures ChainEnds(prog, st, n, d, g, p, s, t)
  {
    hide CodeAt, FindLabel, Live, StmtCode, StmtLabels, ExprLabels, OptionLabels, NextSwitch, Markers, EntryOffset, FirstMatch, Low32, ExprCode, TestCode;
    IfShape(st, n, d, g);
  }

  lemma {:induction false} SimChainWhile(c: Context, prog: Program, st: Stmt, n: nat, d: int, g: Targets, p: int, s0: State, s: State,
    mem: Memory, k: nat)
    returns (t: State)
    requires st.While?
    requires CodeAt(prog, p, StmtCode(st, n, d, g)) && Live(c, prog, s0, s, mem, k)
    requires g.sw.Some? && FindLabel(prog, g.sw.value) == Some(s.pc) && FindLabel(prog, NextSwitch(st, n, g.sw).value).Some?
    ensures Live(c, prog, s0, t, mem, k) && ChainEnds(prog, st, n, d, g, p, s, t)
    decreases st, 1
  {
    hide CodeAt, FindLabel, Live, StmtCode, NextSwitch, Markers, EntryOffset, FirstMatch, Low32, ExprCode, WhileLayout, DoLayout, ChainEnds;
    var q := WhileParts(prog, p, st, n, d, g);
    WhileShape(st, n, d, g);
    t := SimChain(c, prog, st.body, n + 2 + ExprLabels(st.cond), d, g.(brk := Some(n + 1), cont := Some(n)), q, s0, s, mem, k);
    WhileChained(prog, st, n, d, g, p, q, s, t);
  }

  lemma WhileChained(prog: Program, st: Stmt, n: nat, d: int, g: Targets, p: int, q: int, s: State, t: State)
    requires st.While? && g.sw.Some? && q == p + EntryLead(st, n, d)
    requires ChainEnds(prog, st.body, n + 2 + ExprLabels(st.cond), d, g.(brk := Some(n + 1), cont := Some(n)), q, s, t)
    ensures ChainEnds(prog, st, n, d, g, p, s, t)
  {
    hide CodeAt, FindLabel, Live, StmtCode, StmtLabels, ExprLabels, OptionLabels, NextSwitch, Markers, EntryOffset, FirstMatch, Low32, ExprCode, TestCode;
    WhileShape(st, n, d, g);
  }

  lemma {:induction false} SimChainDoWhile(c: Context, prog: Program, st: Stmt, n: nat, d: int, g: Targets, p: int, s0: State, s: State,
    mem: Memory, k: nat)
    returns (t: State)
    requires st.DoWhile?
    requires CodeAt(prog, p, StmtCode(st, n, d, g)) && Live(c, prog, s0, s, mem, k)
    requires g.sw.Some? && FindLabel(prog, g.sw.value) == Some(s.pc) && FindLabel(prog, NextSwitch(st, n, g.sw).value).Some?
    ensures Live(c, prog, s0, t, mem, k) && ChainEnds(prog, st, n, d, g, p, s, t)
    decreases st, 1
  {
    hide CodeAt, FindLabel, Live, StmtCode, NextSwitch, Markers, EntryOffset, FirstMatch, Low32, ExprCode, WhileLayout, DoLayout, ChainEnds;
    var q := DoParts(prog, p, st, n, d, g);
    DoShape(st, n, d, g);
    t := SimChain(c, prog, st.body, n + 2, d, g.(brk := Some(n + 1), cont := Some(n)), q, s0, s, mem, k);
    DoWhileChained(prog, st, n, d, g, p, q, s, t);
  }

  lemma DoWhileChained(prog: Program, st: Stmt, n: nat, d: int, g: Targets, p: int, q: int, s: State, t: State)
    requires st.DoWhile? && g.sw.Some? && q == p + EntryLead(st, n, d)
    requires ChainEnds(prog, st.body, n + 2, d, g.(brk := Some(n + 1), cont := Some(n)), q, s, t)
    ensures ChainEnds(prog, st, n, d, g, p, s, t)
  {
    hide CodeAt, FindLabel, Live, StmtCode, StmtLabels, ExprLabels, OptionLabels, NextSwitch, Markers, EntryOffset, FirstMatch, Low32, ExprCode, TestCode;
    DoShape(st, n, d, g);
  }

  lemma {:induction false} SimChainIfElse(c: Context, prog: Program, st: Stmt, n: nat, d: int, g: Targets, p: int, s0: State, s: State,
    mem: Memory, k: nat)
    returns (t: State)
    requires st.IfElse?
    requires CodeAt(prog, p, StmtCode(st, n, d, g)) && Live(c, prog, s0, s, mem, k)
    requires g.sw.Some? && FindLabel(prog, g.sw.value) == Some(s.pc) && FindLabel(prog, NextSwitch(st, n, g.sw).value).Some?
    ensures Live(c, prog, s0, t, mem, k) && ChainEnds(prog, st, n, d, g, p, s, t)
    decreases st, 1
  {
    hide CodeAt, FindLabel, Live, StmtCode, NextSwitch, Markers, EntryOffset, FirstMatch, Low32, ExprCode, Arms, TestCode, OptionCode, ForAt,
      ForCode, ChainEnds, ChainTwoEnds;
    var q, q' := IfElseParts(prog, p, st, n, d, g);
    var ne := n + ExprLabels(st.cond);
    var end := ne + 1 + StmtLabels(st.yes);
    IfElseShape(st, n, d, g);
    t := SimChainTwo(c, prog, st, st.yes, ne + 1, g, q, st.no, end + 1, g.(sw := NextSwitch(st.yes, ne + 1, g.sw)), q', d, s0, s, mem, k);
    IfElseChained(prog, st, n, d, g, p, q, q', s, t);
  }

  lemma IfElseChained(prog: Program, st: Stmt, n: nat, d: int, g: Targets, p: int, q: int, q': int, s: State, t: State)
    requires st.IfElse? && g.sw.Some?
    requires var ne := n + ExprLabels(st.cond);
      q == p + |ExprCode(st.cond, n, d)| + 2 && q' == q + |StmtCode(st.yes, ne + 1, d, g)| + 2 &&
      ChainTwoEnds(prog, st.yes, ne + 1, g, q, st.no, ne + 1 + StmtLabels(st.yes) + 1, g.(sw := NextSwitch(st.yes, ne + 1, g.sw)), q',
        d, s, t)
    ensures ChainEnds(prog, st, n, d, g, p, s, t)
  {
    hide CodeAt, FindLabel, Live, StmtCode, StmtLabels, ExprLabels, OptionLabels, NextSwitch, Markers, EntryOffset, FirstMatch, Low32, ExprCode, TestCode;
    IfElseShape(st, n, d, g);
  }

  lemma {:induction false} SimChainFor(c: Context, prog: Program, st: Stmt, n: nat, d: int, g: Targets, p: int, s0: State, s: State,
    mem: Memory, k: nat)
    returns (t: State)
    requires st.For?
    requires CodeAt(prog, p, StmtCode(st, n, d, g)) && Live(c, prog, s0, s, mem, k)
    requires g.sw.Some? && FindLabel(prog, g.sw.value) == Some(s.pc) && FindLabel(prog, NextSwitch(st, n, g.sw).value).Some?
    ensures Live(c, prog, s0, t, mem, k) && ChainEnds(prog, st, n, d, g, p, s, t)
    decreases st, 1
  {
    hide CodeAt, FindLabel, Live, StmtCode, NextSwitch, Markers, EntryOffset, FirstMatch, Low32, ExprCode, Arms, TestCode, OptionCode, ForAt,
      ForCode, ChainEnds, ChainTwoEnds;
    var b := n + StmtLabels(st.init);
    var g' := g.(sw := NextSwitch(st.init, n, g.sw));
    var g'' := g'.(brk := Some(b + 2), cont := Some(b + 1));
    var pf := p + |StmtCode(st.init, n, d, g)|;
    ForParts(prog, st, n, d, g, p);
    ForBody(prog, pf, st, b, d, g');
    ForShape(st, n, d, g);
    t := SimChainTwo(c, prog, st, st.init, n, g, p, st.body, b + 3 + OptionLabels(st.test), g'',
      pf + 1 + |TestCode(st.test, b + 3, d, b + 2)|, d, s0, s, mem, k);
    ForChained(prog, st, n, d, g, p, s, t);
  }

  lemma ForChained(prog: Program, st: Stmt, n: nat, d: int, g: Targets, p: int, s: State, t: State)
    requires st.For? && g.sw.Some?
    requires var b := n + StmtLabels(st.init);
      ChainTwoEnds(prog, st.init, n, g, p, st.body, b + 3 + OptionLabels(st.test),
        g.(sw := NextSwitch(st.init, n, g.sw), brk := Some(b + 2), cont := Some(b + 1)),
        p + |StmtCode(st.init, n, d, g)| + 1 + |TestCode(st.test, b + 3, d, b + 2)|, d, s, t)
    ensures ChainEnds(prog, st, n, d, g, p, s, t)
  {
    hide CodeAt, FindLabel, Live, StmtCode, StmtLabels, ExprLabels, OptionLabels, NextSwitch, Markers, EntryOffset, FirstMatch, Low32, ExprCode, TestCode;
    ForShape(st, n, d, g);
  }

  // ----------------------------------------------------------- statements

  /** Between statements: the stack pointer is where the body found it. */
  ghost predicate At(c: Context, prog: Program, s0: State, s: State, mem: Memory, k: nat) {
    Live(c, prog, s0, s, mem, k) && s.rsp == s0.rsp && Frame(c, s0)
  }

  lemma LiveAt(c: Context, prog: Program, s0: State, s: State, mem: Memory, k: nat)
    requires Live(c, prog, s0, s, mem, k) && s.rsp == s0.rsp && Frame(c, s0)
    ensures At(c, prog, s0, s, mem, k)
  {
    hide Live, Frame;
  }

  lemma Land(c: Context, prog: Program, s0: State, t: State, g: Targets, mem: Memory, k: nat)
    requires At(c, prog, s0, t, mem, k)
    ensures Landed(c, prog, s0, t, t.pc, g, Done(Normal, mem), k)
  {
    hide Live, Frame, FindLabel;
  }

  lemma LandedNormal(c: Context, prog: Program, s0: State, t: State, end: int, g: Targets, r: Done, k: nat)
    requires Landed(c, prog, s0, t, end, g, r, k) && r.outcome.Normal?
    ensures At(c, prog, s0, t, r.mem, k) && t.pc == end
  {
    hide Live, Frame, FindLabel;
  }

  lemma LandedBroke(c: Context, prog: Program, s0: State, t: State, end: int, g: Targets, r: Done, k: nat)
    requires Landed(c, prog, s0, t, end, g, r, k) && r.outcome.Broke?
    ensures At(c, prog, s0, t, r.mem, k) && g.brk.Some? && FindLabel(prog, g.brk.value) == Some(t.pc)
  {
    hide Live, Frame, FindLabel;
  }

  lemma LandedContinued(c: Context, prog: Program, s0: State, t: State, end: int, g: Targets, r: Done, k: nat)
    requires Landed(c, prog, s0, t, end, g, r, k) && r.outcome.Continued?
    ensures At(c, prog, s0, t, r.mem, k) && g.cont.Some? && FindLabel(prog, g.cont.value) == Some(t.pc)
  {
    hide Live, Frame, FindLabel;
  }

  /** A jump out is not affected by what surrounds the statement that makes it, as
      long as the labels it uses are the same. */
  lemma LandedOut(c: Context, prog: Program, s0: State, t: State, end: int, g: Targets, r: Done, end': int, g': Targets, k: nat)
    requires Landed(c, prog, s0, t, end, g, r, k) && !r.outcome.Normal?
    requires (r.outcome.Broke? ==> g'.brk == g.brk) && (r.outcome.Continued? ==> g'.cont == g.cont)
    ensures Landed(c, prog, s0, t, end', g', r, k)
  {
    hide Live, Frame, FindLabel;
  }

  /** A register-only instruction between statements. */
  lemma DoAt(c: Context, prog: Program, s0: State, s: State, p: int, code: seq<Instr>, j: int, mem: Memory, k: nat) returns (t: State)
    requires CodeAt(prog, p, code) && 0 <= j < |code| && s.pc == p + j && At(c, prog, s0, s, mem, k)
    requires var r := Execute(c.callees, prog, code[j], s);
      r.Some? && r.value.mem == s.mem && r.value.rbp == s.rbp && r.value.rsp == s.rsp
    ensures Some(t) == Execute(c.callees, prog, code[j], s) && At(c, prog, s0, t, mem, k)
  {
    hide CodeAt, Live, Frame, Execute;
    t := DoQuiet(c, prog, s0, s, p, code, j, mem, k);
  }

  lemma PassLabel(c: Context, prog: Program, s0: State, s: State, p: int, code: seq<Instr>, j: int, mem: Memory, k: nat) returns (t: State)
    requires CodeAt(prog, p, code) && 0 <= j < |code| && s.pc == p + j && At(c, prog, s0, s, mem, k) && code[j].Label?
    ensures t.pc == s.pc + 1 && t.rax == s.rax && At(c, prog, s0, t, mem, k)
  {
    hide CodeAt, At;
    t := DoAt(c, prog, s0, s, p, code, j, mem, k);
  }

  lemma TakeJump(c: Context, prog: Program, s0: State, s: State, p: int, code: seq<Instr>, j: int, mem: Memory, k: nat, q: int)
    returns (t: State)
    requires CodeAt(prog, p, code) && 0 <= j < |code| && s.pc == p + j && At(c, prog, s0, s, mem, k) && code[j].Jmp?
    requires 0 <= q && FindLabel(prog, code[j].target) == Some(q)
    ensures t.pc == q && t.rax == s.rax && At(c, prog, s0, t, mem, k)
  {
    hide CodeAt, At, FindLabel;
    t := DoAt(c, prog, s0, s, p, code, j, mem, k);
  }

  lemma EvalAt(c: Context, prog: Program, e: Expr, n: nat, d: int, s0: State, s: State, mem: Memory, k: nat, v: Valued) returns (t: State)
    requires CodeAt(prog, s.pc, ExprCode(e, n, d)) && At(c, prog, s0, s, mem, k) && Depth(e) <= k && Eval(Lice, c, e, mem) == Some(v)
    ensures At(c, prog, s0, t, v.mem, k) && t.pc == s.pc + |ExprCode(e, n, d)| && t.rax == v.value
  {
    hide CodeAt, ExprCode, Live, Frame, Depth, Eval, Kept;
    t := SimExpr(c, prog, e, n, d, s0, s, mem, k);
  }

  lemma TestAt(c: Context, prog: Program, e: Expr, n: nat, d: int, s0: State, s: State, mem: Memory, k: nat, l: nat, q: int, v: Valued)
    returns (t: State)
    requires CodeAt(prog, s.pc, ExprCode(e, n, d)) && CodeAt(prog, s.pc + |ExprCode(e, n, d)|, [Test, Je(l)])
    requires At(c, prog, s0, s, mem, k) && Depth(e) <= k && Eval(Lice, c, e, mem) == Some(v)
    requires FindLabel(prog, l) == Some(q) && 0 <= q
    ensures At(c, prog, s0, t, v.mem, k) && t.pc == if v.value == 0 then q else s.pc + |ExprCode(e, n, d)| + 2
  {
    hide CodeAt, ExprCode, Live, Frame, Depth, Eval, Kept, FindLabel;
    t := SimTest(c, prog, e, n, d, s0, s, mem, k, l, q, v);
  }

  // ---------------------------------------------------- simple statements

  lemma SimExpression(c: Context, prog: Program, st: Stmt, n: nat, d: int, g: Targets, p: int, s0: State, s: State, mem: Memory, k: nat,
    r: Done, fuel: nat)
    returns (t: State)
    requires st.Expression? && CodeAt(prog, p, StmtCode(st, n, d, g)) && At(c, prog, s0, s, mem, k) && StmtDepth(st) <= k && s.pc == p
    requires Exec(Lice, c, st, None, mem, fuel) == Some(r)
    ensures Landed(c, prog, s0, t, p + |StmtCode(st, n, d, g)|, g, r, k)
  {
    hide CodeAt, At, Landed, Eval, ExprCode, Depth;
    t := EvalAt(c, prog, st.e, n, d, s0, s, mem, k, Eval(Lice, c, st.e, mem).value);
    Land(c, prog, s0, t, g, r.mem, k);
  }

  lemma SimInitialize(c: Context, prog: Program, st: Stmt, n: nat, d: int, g: Targets, p: int, s0: State, s: State, mem: Memory, k: nat,
    r: Done, fuel: nat)
    returns (t: State)
    requires st.Initialize? && CodeAt(prog, p, StmtCode(st, n, d, g)) && At(c, prog, s0, s, mem, k) && StmtDepth(st) <= k && s.pc == p
    requires Exec(Lice, c, st, None, mem, fuel) == Some(r)
    ensures Landed(c, prog, s0, t, p + |StmtCode(st, n, d, g)|, g, r, k)
  {
    hide CodeAt, At, Landed, ExprCode, Depth, Execute, Live;
    assert Eval(Lice, c, Assign(Local(st.offset), st.e), mem).Some?;
    var v := Eval(Lice, c, st.e, mem).value;
    assert Place(Lice, c, Local(st.offset), v.mem) == Some(Valued(Wrap(c.base + st.offset), v.mem));
    if st.e.Literal? {
      t := SimLiteralInit(c, prog, st.offset, st.e.value, p, s0, s, mem, k);
    } else {
      CodeSplit(prog, p, ExprCode(st.e, n, d), [Store(RAX, st.offset, RBP)]);
      var t1 := EvalAt(c, prog, st.e, n, d, s0, s, mem, k, v);
      t := SimStoreLocal(c, prog, st.offset, t1.pc, s0, t1, v.mem, k);
    }
    Land(c, prog, s0, t, g, r.mem, k);
  }

  lemma SimStoreLocal(c: Context, prog: Program, off: int, p: int, s0: State, s: State, mem: Memory, k: nat) returns (t: State)
    requires CodeAt(prog, p, [Store(RAX, off, RBP)]) && s.pc == p && At(c, prog, s0, s, mem, k) && Wrap(c.base + off) in mem
    ensures At(c, prog, s0, t, mem[Wrap(c.base + off) := s.rax], k) && t.pc == p + 1
  {
    hide CodeAt, Live, Frame, Kept, Execute;
    LiveReaches(c, prog, s0, s, mem, k);
    t := StoreObject(c, prog, s0, s, p, [Store(RAX, off, RBP)], 0, mem, k);
  }

  /** rax is saved around a literal initializer. */
  lemma SimLiteralInit(c: Context, prog: Program, off: int, v: int, p: int, s0: State, s: State, mem: Memory, k: nat) returns (t: State)
    requires CodeAt(prog, p, [Push(RAX), MovImm(v, RAX), Store(RAX, off, RBP), Pop(RAX)]) && s.pc == p
    requires At(c, prog, s0, s, mem, k) && k >= 1 && Wrap(c.base + off) in mem
    ensures At(c, prog, s0, t, mem[Wrap(c.base + off) := Wrap(v)], k) && t.pc == p + 4 && t.rax == s.rax
  {
    hide CodeAt, Live, Frame, Kept, OnTop;
    var code := [Push(RAX), MovImm(v, RAX), Store(RAX, off, RBP), Pop(RAX)];
    var t1 := DoPush(c, prog, s0, s, p, code, 0, mem, k);
    var t2 := DoQuiet(c, prog, s0, t1, p, code, 1, mem, k - 1);
    LiveReaches(c, prog, s0, t2, mem, k - 1);
    var t3 := StoreObject(c, prog, s0, t2, p, code, 2, mem, k - 1);
    KeptTrans(c, t1, t2, t3);
    TopKept(c, t1, t3, s.rax);
    t := PopOff(c, prog, p, code, 3, s0, s, mem, t3, mem[Wrap(c.base + off) := Wrap(v)], k, s.rax);
  }

  lemma PopOff(c: Context, prog: Program, p: int, code: seq<Instr>, j: int, s0: State, before: State, memBefore: Memory, s: State,
    mem: Memory, k: nat, v: Word)
    returns (t: State)
    requires CodeAt(prog, p, code) && 0 <= j < |code| && code[j] == Pop(RAX) && s.pc == p + j && k >= 1
    requires Live(c, prog, s0, before, memBefore, k) && Live(c, prog, s0, s, mem, k - 1) && s.rsp == before.rsp - 8 && OnTop(c, s, v)
    ensures Live(c, prog, s0, t, mem, k) && t.pc == s.pc + 1 && t.rax == v && t.rsp == before.rsp
  {
    hide CodeAt, Live, Reaches, Kept;
    WrapId(s.rsp + 8);
    LiveReaches(c, prog, s0, s, mem, k - 1);
    t := Do(c.callees, prog, s0, s, p, code, j);
    Repop(c, prog, s0, before, memBefore, s, t, mem, k, k - 1);
  }

  lemma SimReturn(c: Context, prog: Program, st: Stmt, n: nat, d: int, g: Targets, p: int, s0: State, s: State, mem: Memory, k: nat,
    r: Done, fuel: nat)
    returns (t: State)
    requires st.Return? && CodeAt(prog, p, StmtCode(st, n, d, g)) && At(c, prog, s0, s, mem, k) && StmtDepth(st) <= k && s.pc == p
    requires Exec(Lice, c, st, None, mem, fuel) == Some(r)
    ensures Landed(c, prog, s0, t, p + |StmtCode(st, n, d, g)|, g, r, k)
  {
    hide CodeAt, At, Landed, Eval, ExprCode, Depth, ReturnedTo;
    CodeSplit(prog, p, OptionCode(st.result, n, d), [Leave, Ret]);
    var t1 := s;
    if st.result.Some? {
      t1 := EvalAt(c, prog, st.result.value, n, d, s0, s, mem, k, Eval(Lice, c, st.result.value, mem).value);
    }
    t := SimLeave(c, prog, t1.pc, s0, t1, r.mem, k);
    LandReturned(c, prog, s0, t, p + |StmtCode(st, n, d, g)|, g, r, k, t1.rax);
  }

  lemma LandReturned(c: Context, prog: Program, s0: State, t: State, end: int, g: Targets, r: Done, k: nat, v: Word)
    requires Frame(c, s0) && ReturnedTo(c, prog, s0, t, Some(v), r.mem)
    requires r.outcome.Returned? && (r.outcome.value.Some? ==> r.outcome.value.value == v)
    ensures Landed(c, prog, s0, t, end, g, r, k)
  {
    hide Frame, Reaches, Kept;
  }

  /** leave and ret put back the caller's rbp and rsp and go to the return address. */
  lemma SimLeave(c: Context, prog: Program, p: int, s0: State, s: State, mem: Memory, k: nat) returns (t: State)
    requires CodeAt(prog, p, [Leave, Ret]) && s.pc == p && At(c, prog, s0, s, mem, k)
    ensures Frame(c, s0) && ReturnedTo(c, prog, s0, t, Some(s.rax), mem)
  {
    hide CodeAt, Reaches;
    FrameCells(c, prog, s0, s, mem, k);
    hide Live, Frame, At;
    var t1 := Do(c.callees, prog, s0, s, p, [Leave, Ret], 0);
    t := Do(c.callees, prog, s0, t1, p, [Leave, Ret], 1);
  }

  /** Where the caller's frame pointer and the return address are. */
  lemma FrameCells(c: Context, prog: Program, s0: State, s: State, mem: Memory, k: nat)
    requires At(c, prog, s0, s, mem, k)
    ensures Frame(c, s0) && Kept(c, s0, s) && Reaches(c.callees, prog, s0, s) && forall a :: a in mem ==> a in s.mem && s.mem[a] == mem[a]
    ensures s.rbp == c.base && Aligned(c.base) && 0 <= c.base < HALF - 16
    ensures Wrap(c.base + 8) == c.base + 8 && Wrap(c.base + 16) == c.base + 16
    ensures c.base in s0.mem && c.base in s.mem && s.mem[c.base] == s0.mem[c.base]
    ensures c.base + 8 in s0.mem && c.base + 8 in s.mem && s.mem[c.base + 8] == s0.mem[c.base + 8]
  {
    hide Reaches;
    WrapId(c.base + 8);
    WrapId(c.base + 16);
  }

  lemma SimJump(c: Context, prog: Program, st: Stmt, n: nat, d: int, g: Targets, p: int, s0: State, s: State, mem: Memory, k: nat)
    returns (t: State)
    requires st.Break? || st.Continue?
    requires CodeAt(prog, p, StmtCode(st, n, d, g)) && At(c, prog, s0, s, mem, k) && s.pc == p && Scope(prog, st, g)
    ensures Landed(c, prog, s0, t, p + |StmtCode(st, n, d, g)|, g, Done(if st.Break? then Broke else Continued, mem), k)
  {
    hide CodeAt, Live, Frame, FindLabel;
    var q := FindLabel(prog, if st.Break? then g.brk.value else g.cont.value).value;
    t := TakeJump(c, prog, s0, s, p, StmtCode(st, n, d, g), 0, mem, k, q);
  }

  /** A case or default reached from above falls through; entered by the switch, it
      is already past its comparison. */
  lemma SimMarker(c: Context, prog: Program, st: Stmt, n: nat, d: int, g: Targets, p: int, s0: State, s: State, mem: Memory, k: nat)
    returns (t: State)
    requires st.Case? || st.Default?
    requires CodeAt(prog, p, StmtCode(st, n, d, g)) && At(c, prog, s0, s, mem, k)
    requires s.pc == p || s.pc == p + EntryOffset(st, 0, n, d, g)
    ensures Landed(c, prog, s0, t, p + |StmtCode(st, n, d, g)|, g, Done(Normal, mem), k)
  {
    hide CodeAt, At, FindLabel, Landed;
    var code := StmtCode(st, n, d, g);
    var t1 := s;
    if st.Default? {
      t := PassLabel(c, prog, s0, s, p, code, 0, mem, k);
    } else {
      LabelHere(prog, p, code, 4, n);
      if s.pc == p {
        CodePlace(prog, p, code);
        t1 := TakeJump(c, prog, s0, s, p, code, 0, mem, k, p + 4);
      }
      t := PassLabel(c, prog, s0, t1, p, code, 4, mem, k);
    }
    Land(c, prog, s0, t, g, mem, k);
  }

  /** Control is at the statement's start or just after one of its markers. */
  ghost predicate Entering(st: Stmt, entry: Option<nat>, n: nat, d: int, g: Targets, p: int, s: State) {
    (entry.Some? ==> entry.value < |Markers(st)|) && s.pc == p + EntryPoint(st, entry, n, d, g)
  }

  lemma EnteringMarker(st: Stmt, entry: Option<nat>, n: nat, d: int, g: Targets, p: int, s: State)
    requires Entering(st, entry, n, d, g, p, s)
    ensures entry.Some? ==> entry.value < |Markers(st)|
  {
    hide Markers;
  }

  lemma LandedRegoal(c: Context, prog: Program, s0: State, t: State, end: int, g: Targets, r: Done, g': Targets, k: nat)
    requires Landed(c, prog, s0, t, end, g, r, k) && g'.brk == g.brk && g'.cont == g.cont
    ensures Landed(c, prog, s0, t, end, g', r, k)
  {
    hide Live, Frame, FindLabel;
  }

  /** A statement followed by a label. */
  lemma PassEnd(c: Context, prog: Program, s0: State, s: State, end: int, l: nat, g: Targets, r: Done, g': Targets, k: nat)
    returns (t: State)
    requires Landed(c, prog, s0, s, end, g, r, k) && CodeAt(prog, end, [Label(l)]) && g'.brk == g.brk && g'.cont == g.cont
    ensures Landed(c, prog, s0, t, end + 1, g', r, k)
  {
    hide CodeAt, At, Landed;
    if r.outcome.Normal? {
      LandedNormal(c, prog, s0, s, end, g, r, k);
      t := PassLabel(c, prog, s0, s, end, [Label(l)], 0, r.mem, k);
      Land(c, prog, s0, t, g', r.mem, k);
    } else {
      LandedOut(c, prog, s0, s, end, g, r, end + 1, g', k);
      t := s;
    }
  }

  /** Each statement's code does what the semantics says and leaves the machine at the
      end of the code, at the label a jump names, or back in the caller. */
  lemma {:induction false} SimStmt(c: Context, prog: Program, st: Stmt, entry: Option<nat>, n: nat, d: int, g: Targets, p: int,
    s0: State, s: State, mem: Memory, k: nat, fuel: nat, r: Done)
    returns (t: State)
    requires CodeAt(prog, p, StmtCode(st, n, d, g)) && At(c, prog, s0, s, mem, k) && StmtDepth(st) <= k && Scope(prog, st, g)
    requires Entering(st, entry, n, d, g, p, s) && Exec(Lice, c, st, entry, mem, fuel) == Some(r)
    ensures Landed(c, prog, s0, t, p + |StmtCode(st, n, d, g)|, g, r, k)
    decreases fuel, st, 4
  {
    hide *;
    match st {
      case Sequence(_, _) => t := SimSequence(c, prog, st, entry, n, d, g, p, s0, s, mem, k, fuel, r);
      case If(_, _) => t := SimIf(c, prog, st, entry, n, d, g, p, s0, s, mem, k, fuel, r);
      case IfElse(_, _, _) => t := SimIfElse(c, prog, st, entry, n, d, g, p, s0, s, mem, k, fuel, r);
      case While(_, _) => t := SimWhile(c, prog, st, entry, n, d, g, p, s0, s, mem, k, fuel, r);
      case DoWhile(_, _) => t := SimDo(c, prog, st, entry, n, d, g, p, s0, s, mem, k, fuel, r);
      case For(_, _, _, _) => t := SimFor(c, prog, st, entry, n, d, g, p, s0, s, mem, k, fuel, r);
      case Switch(_, _) => t := SimSwitch(c, prog, st, entry, n, d, g, p, s0, s, mem, k, fuel, r);
      case _ => t := SimSimple(c, prog, st, entry, n, d, g, p, s0, s, mem, k, fuel, r);
    }
  }

  lemma SimSimple(c: Context, prog: Program, st: Stmt, entry: Option<nat>, n: nat, d: int, g: Targets, p: int,
    s0: State, s: State, mem: Memory, k: nat, fuel: nat, r: Done)
    returns (t: State)
    requires !st.Sequence? && !st.If? && !st.IfElse? && !st.While? && !st.DoWhile? && !st.For? && !st.Switch?
    requires CodeAt(prog, p, StmtCode(st, n, d, g)) && At(c, prog, s0, s, mem, k) && StmtDepth(st) <= k && Scope(prog, st, g)
    requires Entering(st, entry, n, d, g, p, s) && Exec(Lice, c, st, entry, mem, fuel) == Some(r)
    ensures Landed(c, prog, s0, t, p + |StmtCode(st, n, d, g)|, g, r, k)
  {
    hide CodeAt, At, Landed, FindLabel, Live, ExprCode, Eval, NextSwitch, Depth;
    match st {
      case Expression(_) => t := SimExpression(c, prog, st, n, d, g, p, s0, s, mem, k, r, fuel);
      case Initialize(_, _) => t := SimInitialize(c, prog, st, n, d, g, p, s0, s, mem, k, r, fuel);
      case Return(_) => t := SimReturn(c, prog, st, n, d, g, p, s0, s, mem, k, r, fuel);
      case Case(_) => t := SimMarker(c, prog, st, n, d, g, p, s0, s, mem, k);
      case Default => t := SimMarker(c, prog, st, n, d, g, p, s0, s, mem, k);
      case Skip => t := s; Land(c, prog, s0, t, g, mem, k);
      case _ => t := SimJump(c, prog, st, n, d, g, p, s0, s, mem, k);
    }
  }

  lemma {:induction false} SimSequence(c: Context, prog: Program, st: Stmt, entry: Option<nat>, n: nat, d: int, g: Targets, p: int,
    s0: State, s: State, mem: Memory, k: nat, fuel: nat, r: Done)
    returns (t: State)
    requires st.Sequence?
    requires CodeAt(prog, p, StmtCode(st, n, d, g)) && At(c, prog, s0, s, mem, k) && StmtDepth(st) <= k && Scope(prog, st, g)
    requires Entering(st, entry, n, d, g, p, s) && Exec(Lice, c, st, entry, mem, fuel) == Some(r)
    ensures Landed(c, prog, s0, t, p + |StmtCode(st, n, d, g)|, g, r, k)
    decreases fuel, st, 1
  {
    hide CodeAt, At, Landed, FindLabel, StmtCode, Live, ExprCode, Eval, NextSwitch, Markers, EntryOffset, Arms, WhileLayout, DoLayout, ForAt, Depth;
    var Sequence(a, b) := st;
    var q := SequenceParts(prog, p, st, n, d, g);
    SequenceShape(st, n, d, g);
    var m, g', j := n + StmtLabels(a), g.(sw := NextSwitch(a, n, g.sw)), |Markers(a)|;
    if entry.Some? && entry.value >= j {
      t := SimStmt(c, prog, b, Some(entry.value - j), m, d, g', q, s0, s, mem, k, fuel, r);
      LandedRegoal(c, prog, s0, t, q + |StmtCode(b, m, d, g')|, g', r, g, k);
    } else {
      var r1 := Exec(Lice, c, a, entry, mem, fuel).value;
      var t1 := SimStmt(c, prog, a, entry, n, d, g, p, s0, s, mem, k, fuel, r1);
      if r1.outcome.Normal? {
        LandedNormal(c, prog, s0, t1, q, g, r1, k);
        t := SimStmt(c, prog, b, None, m, d, g', q, s0, t1, r1.mem, k, fuel, r);
        LandedRegoal(c, prog, s0, t, q + |StmtCode(b, m, d, g')|, g', r, g, k);
      } else {
        LandedOut(c, prog, s0, t1, q, g, r1, p + |StmtCode(st, n, d, g)|, g, k);
        t := t1;
      }
    }
  }

  lemma {:induction false} SimIf(c: Context, prog: Program, st: Stmt, entry: Option<nat>, n: nat, d: int, g: Targets, p: int,
    s0: State, s: State, mem: Memory, k: nat, fuel: nat, r: Done)
    returns (t: State)
    requires st.If?
    requires CodeAt(prog, p, StmtCode(st, n, d, g)) && At(c, prog, s0, s, mem, k) && StmtDepth(st) <= k && Scope(prog, st, g)
    requires Entering(st, entry, n, d, g, p, s) && Exec(Lice, c, st, entry, mem, fuel) == Some(r)
    ensures Landed(c, prog, s0, t, p + |StmtCode(st, n, d, g)|, g, r, k)
    decreases fuel, st, 1
  {
    hide CodeAt, At, Landed, FindLabel, StmtCode, Live, ExprCode, Eval, NextSwitch, Markers, EntryOffset, Arms, WhileLayout, DoLayout, ForAt, Depth;
    var If(b, y) := st;
    var q := IfParts(prog, p, st, n, d, g);
    IfShape(st, n, d, g);
    var ne := n + ExprLabels(b);
    var end := q + |StmtCode(y, ne + 1, d, g)|;
    if entry.Some? {
      var t1 := SimStmt(c, prog, y, entry, ne + 1, d, g, q, s0, s, mem, k, fuel, r);
      t := PassEnd(c, prog, s0, t1, end, ne, g, r, g, k);
    } else {
      var v := Eval(Lice, c, b, mem).value;
      var t1 := TestAt(c, prog, b, n, d, s0, s, mem, k, ne, end, v);
      if v.value == 0 {
        t := PassLabel(c, prog, s0, t1, end, [Label(ne)], 0, v.mem, k);
        Land(c, prog, s0, t, g, v.mem, k);
      } else {
        var t2 := SimStmt(c, prog, y, None, ne + 1, d, g, q, s0, t1, v.mem, k, fuel, r);
        t := PassEnd(c, prog, s0, t2, end, ne, g, r, g, k);
      }
    }
  }

  /** The end of a conditional's first arm. */
  lemma PassElse(c: Context, prog: Program, s0: State, s: State, q: int, q': int, l: nat, ne: nat, g: Targets, r: Done, k: nat)
    returns (t: State)
    requires Landed(c, prog, s0, s, q, g, r, k) && CodeAt(prog, q, [Jmp(l), Label(ne)]) && CodeAt(prog, q', [Label(l)])
    requires FindLabel(prog, l) == Some(q') && 0 <= q'
    ensures Landed(c, prog, s0, t, q' + 1, g, r, k)
  {
    hide CodeAt, At, Landed, FindLabel;
    if r.outcome.Normal? {
      LandedNormal(c, prog, s0, s, q, g, r, k);
      var t1 := TakeJump(c, prog, s0, s, q, [Jmp(l), Label(ne)], 0, r.mem, k, q');
      t := PassLabel(c, prog, s0, t1, q', [Label(l)], 0, r.mem, k);
      Land(c, prog, s0, t, g, r.mem, k);
    } else {
      LandedOut(c, prog, s0, s, q, g, r, q' + 1, g, k);
      t := s;
    }
  }

  lemma ArmsEnds(prog: Program, p: int, cond: seq<Instr>, yes: seq<Instr>, other: seq<Instr>, ne: nat, end: nat)
    requires Arms(prog, p, cond, yes, other, ne, end)
    ensures var p2 := p + |cond| + 2 + |yes|;
      CodeAt(prog, p, cond) && CodeAt(prog, p + |cond|, [Test, Je(ne)]) && CodeAt(prog, p2, [Jmp(end), Label(ne)]) &&
      CodeAt(prog, p2 + 2 + |other|, [Label(end)]) &&
      FindLabel(prog, ne) == Some(p2 + 1) && FindLabel(prog, end) == Some(p2 + 2 + |other|) && p >= 0
  {
    hide CodeAt, FindLabel;
  }

  lemma {:induction false} SimIfElse(c: Context, prog: Program, st: Stmt, entry: Option<nat>, n: nat, d: int, g: Targets, p: int,
    s0: State, s: State, mem: Memory, k: nat, fuel: nat, r: Done)
    returns (t: State)
    requires st.IfElse?
    requires CodeAt(prog, p, StmtCode(st, n, d, g)) && At(c, prog, s0, s, mem, k) && StmtDepth(st) <= k && Scope(prog, st, g)
    requires Entering(st, entry, n, d, g, p, s) && Exec(Lice, c, st, entry, mem, fuel) == Some(r)
    ensures Landed(c, prog, s0, t, p + |StmtCode(st, n, d, g)|, g, r, k)
    decreases fuel, st, 1
  {
    hide CodeAt, At, Landed, FindLabel, StmtCode, Live, ExprCode, Eval, NextSwitch, Markers, EntryOffset, Arms, WhileLayout, DoLayout, ForAt, Depth;
    var IfElse(b, y, no) := st;
    var q, q' := IfElseParts(prog, p, st, n, d, g);
    IfElseShape(st, n, d, g);
    var ne := n + ExprLabels(b);
    var end := ne + 1 + StmtLabels(y);
    var g', j := g.(sw := NextSwitch(y, ne + 1, g.sw)), |Markers(y)|;
    var yes, other := StmtCode(y, ne + 1, d, g), StmtCode(no, end + 1, d, g');
    ArmsEnds(prog, p, ExprCode(b, n, d), yes, other, ne, end);
    if entry.Some? {
      if entry.value < j {
        var t1 := SimStmt(c, prog, y, entry, ne + 1, d, g, q, s0, s, mem, k, fuel, r);
        t := PassElse(c, prog, s0, t1, q' - 2, q' + |other|, end, ne, g, r, k);
      } else {
        var t1 := SimStmt(c, prog, no, Some(entry.value - j), end + 1, d, g', q', s0, s, mem, k, fuel, r);
        t := PassEnd(c, prog, s0, t1, q' + |other|, end, g', r, g, k);
      }
    } else {
      t := SimIfElseTested(c, prog, st, n, d, g, p, q, q', s0, s, mem, k, fuel, r, Eval(Lice, c, b, mem).value);
    }
  }

  lemma {:induction false} SimIfElseTested(c: Context, prog: Program, st: Stmt, n: nat, d: int, g: Targets, p: int, q: int, q': int,
    s0: State, s: State, mem: Memory, k: nat, fuel: nat, r: Done, v: Valued)
    returns (t: State)
    requires st.IfElse? && At(c, prog, s0, s, mem, k) && StmtDepth(st) <= k && Scope(prog, st, g) && s.pc == p
    requires var ne := n + ExprLabels(st.cond); var end := ne + 1 + StmtLabels(st.yes);
      var yes := StmtCode(st.yes, ne + 1, d, g); var no := StmtCode(st.no, end + 1, d, g.(sw := NextSwitch(st.yes, ne + 1, g.sw)));
      q == p + |ExprCode(st.cond, n, d)| + 2 && q' == q + |yes| + 2 && CodeAt(prog, q, yes) && CodeAt(prog, q', no) &&
      Arms(prog, p, ExprCode(st.cond, n, d), yes, no, ne, end) && p + |StmtCode(st, n, d, g)| == q' + |no| + 1
    requires Eval(Lice, c, st.cond, mem) == Some(v)
    requires Exec(Lice, c, if v.value != 0 then st.yes else st.no, None, v.mem, fuel) == Some(r)
    ensures Landed(c, prog, s0, t, p + |StmtCode(st, n, d, g)|, g, r, k)
    decreases fuel, st, 0
  {
    hide Exec, CodeAt, At, Landed, FindLabel, StmtCode, Live, ExprCode, Eval, NextSwitch, Markers, EntryOffset, Arms, WhileLayout, DoLayout, ForAt, Depth;
    var ne := n + ExprLabels(st.cond);
    var end := ne + 1 + StmtLabels(st.yes);
    var g' := g.(sw := NextSwitch(st.yes, ne + 1, g.sw));
    var yes, other := StmtCode(st.yes, ne + 1, d, g), StmtCode(st.no, end + 1, d, g');
    ArmsEnds(prog, p, ExprCode(st.cond, n, d), yes, other, ne, end);
    var t1 := TestAt(c, prog, st.cond, n, d, s0, s, mem, k, ne, q' - 1, v);
    if v.value != 0 {
      var t2 := SimStmt(c, prog, st.yes, None, ne + 1, d, g, q, s0, t1, v.mem, k, fuel, r);
      t := PassElse(c, prog, s0, t2, q' - 2, q' + |other|, end, ne, g, r, k);
    } else {
      var t2 := PassLabel(c, prog, s0, t1, q' - 2, [Jmp(end), Label(ne)], 1, v.mem, k);
      var t3 := SimStmt(c, prog, st.no, None, end + 1, d, g', q', s0, t2, v.mem, k, fuel, r);
      t := PassEnd(c, prog, s0, t3, q' + |other|, end, g', r, g, k);
    }
  }

  // ---------------------------------------------------------------- loops

  /** What the body of a loop leaves: at the end of the body, at one of the loop's two
      labels, or out of the function. */
  lemma LoopExit(c: Context, prog: Program, s0: State, s: State, pb: int, q: int, begin: nat, p: int, end: nat, g: Targets, r: Done, k: nat)
    returns (t: State)
    requires Landed(c, prog, s0, s, pb, g, r, k) && r.outcome.Broke? && g.brk == Some(end) && LoopLabels(prog, begin, p, end, q)
    ensures At(c, prog, s0, t, r.mem, k) && t.pc == q + 2
  {
    hide CodeAt, At, Landed, FindLabel;
    LandedBroke(c, prog, s0, s, pb, g, r, k);
    t := PassLabel(c, prog, s0, s, q, [Jmp(begin), Label(end)], 1, r.mem, k);
  }

  /** Around the loop once more. */
  lemma LoopBack(c: Context, prog: Program, s0: State, s: State, begin: nat, p: int, end: nat, q: int, mem: Memory, k: nat)
    returns (t: State)
    requires At(c, prog, s0, s, mem, k) && s.pc == q && LoopLabels(prog, begin, p, end, q)
    ensures At(c, prog, s0, t, mem, k) && t.pc == p
  {
    hide CodeAt, At, FindLabel;
    CodePlace(prog, p, [Label(begin)]);
    t := TakeJump(c, prog, s0, s, q, [Jmp(begin), Label(end)], 0, mem, k, p);
  }

  lemma LoopScope(prog: Program, st: Stmt, g: Targets, begin: nat, p: int, end: nat, q: int, cont: nat)
    requires (st.While? || st.DoWhile? || st.For?) && Scope(prog, st, g) && LoopLabels(prog, begin, p, end, q)
    requires FindLabel(prog, cont).Some?
    ensures Scope(prog, st.body, g.(brk := Some(end), cont := Some(cont)))
  {
    hide FindLabel, CodeAt;
  }

  lemma {:induction false} SimWhile(c: Context, prog: Program, st: Stmt, entry: Option<nat>, n: nat, d: int, g: Targets, p: int,
    s0: State, s: State, mem: Memory, k: nat, fuel: nat, r: Done)
    returns (t: State)
    requires st.While?
    requires CodeAt(prog, p, StmtCode(st, n, d, g)) && At(c, prog, s0, s, mem, k) && StmtDepth(st) <= k && Scope(prog, st, g)
    requires Entering(st, entry, n, d, g, p, s) && Exec(Lice, c, st, entry, mem, fuel) == Some(r)
    ensures Landed(c, prog, s0, t, p + |StmtCode(st, n, d, g)|, g, r, k)
    decreases fuel, st, 2
  {
    hide CodeAt, At, Landed, FindLabel, StmtCode, Live, ExprCode, Eval, NextSwitch, Markers, EntryOffset, Arms, WhileLayout, DoLayout, ForAt, Depth;
    var q := WhileParts(prog, p, st, n, d, g);
    WhileShape(st, n, d, g);
    if entry.Some? {
      t := SimWhileIn(c, prog, st, entry, n, d, g, p, q, s0, s, mem, k, fuel, r);
    } else {
      t := SimWhileStart(c, prog, st, n, d, g, p, q, s0, s, mem, k, fuel, r, Eval(Lice, c, st.cond, mem).value);
    }
  }

  lemma WhileEnds(prog: Program, p: int, cond: seq<Instr>, body: seq<Instr>, n: nat)
    requires WhileLayout(prog, p, cond, body, n)
    ensures LoopLabels(prog, n, p, n + 1, p + 1 + |cond| + 2 + |body|) && CodeAt(prog, p + 1, cond) &&
      CodeAt(prog, p + 1 + |cond|, [Test, Je(n + 1)])
    ensures FindLabel(prog, n) == Some(p) && FindLabel(prog, n + 1) == Some(p + 1 + |cond| + 2 + |body| + 1)
    ensures CodeAt(prog, p, [Label(n)]) && CodeAt(prog, p + 1 + |cond| + 2 + |body|, [Jmp(n), Label(n + 1)]) && p >= 0
  {
    CodePlace(prog, p, [Label(n)]);
  }

  lemma {:induction false} SimWhileStart(c: Context, prog: Program, st: Stmt, n: nat, d: int, g: Targets, p: int, q: int,
    s0: State, s: State, mem: Memory, k: nat, fuel: nat, r: Done, v: Valued)
    returns (t: State)
    requires st.While? && StmtDepth(st) <= k && Scope(prog, st, g) && CodeAt(prog, p, StmtCode(st, n, d, g))
    requires var body := StmtCode(st.body, n + 2 + ExprLabels(st.cond), d, g.(brk := Some(n + 1), cont := Some(n)));
      q == p + 1 + |ExprCode(st.cond, n + 2, d)| + 2 && CodeAt(prog, q, body) &&
      WhileLayout(prog, p, ExprCode(st.cond, n + 2, d), body, n) && p + |StmtCode(st, n, d, g)| == q + |body| + 2
    requires At(c, prog, s0, s, mem, k) && s.pc == p && Eval(Lice, c, st.cond, mem) == Some(v)
    requires if v.value == 0 then r == Done(Normal, v.mem)
      else AfterWhile(Lice, c, st, Exec(Lice, c, st.body, None, v.mem, fuel), fuel) == Some(r)
    ensures Landed(c, prog, s0, t, p + |StmtCode(st, n, d, g)|, g, r, k)
    decreases fuel, st, 1
  {
    hide Exec, AfterWhile, LoopLabels, CodeAt, At, Landed, FindLabel, StmtCode, Live, ExprCode, Eval, NextSwitch, Markers, EntryOffset, Arms, WhileLayout, DoLayout, ForAt, Depth;
    var m := n + 2 + ExprLabels(st.cond);
    var cond, body := ExprCode(st.cond, n + 2, d), StmtCode(st.body, m, d, g.(brk := Some(n + 1), cont := Some(n)));
    WhileEnds(prog, p, cond, body, n);
    var t1 := PassLabel(c, prog, s0, s, p, [Label(n)], 0, mem, k);
    var t2 := TestAt(c, prog, st.cond, n + 2, d, s0, t1, mem, k, n + 1, q + |body| + 1, v);
    if v.value == 0 {
      t := PassLabel(c, prog, s0, t2, q + |body|, [Jmp(n), Label(n + 1)], 1, v.mem, k);
      Land(c, prog, s0, t, g, v.mem, k);
    } else {
      t := SimWhileIn(c, prog, st, None, n, d, g, p, q, s0, t2, v.mem, k, fuel, r);
    }
  }

  /** The body, entered at its start or at a marker, and whatever follows. */
  lemma {:induction false} SimWhileIn(c: Context, prog: Program, st: Stmt, entry: Option<nat>, n: nat, d: int, g: Targets, p: int, q: int,
    s0: State, s: State, mem: Memory, k: nat, fuel: nat, r: Done)
    returns (t: State)
    requires st.While? && StmtDepth(st) <= k && Scope(prog, st, g) && CodeAt(prog, p, StmtCode(st, n, d, g))
    requires var body := StmtCode(st.body, n + 2 + ExprLabels(st.cond), d, g.(brk := Some(n + 1), cont := Some(n)));
      q == p + 1 + |ExprCode(st.cond, n + 2, d)| + 2 && CodeAt(prog, q, body) &&
      WhileLayout(prog, p, ExprCode(st.cond, n + 2, d), body, n) && p + |StmtCode(st, n, d, g)| == q + |body| + 2
    requires At(c, prog, s0, s, mem, k)
    requires Entering(st.body, entry, n + 2 + ExprLabels(st.cond), d, g.(brk := Some(n + 1), cont := Some(n)), q, s)
    requires AfterWhile(Lice, c, st, Exec(Lice, c, st.body, entry, mem, fuel), fuel) == Some(r)
    ensures Landed(c, prog, s0, t, p + |StmtCode(st, n, d, g)|, g, r, k)
    decreases fuel, st, 0
  {
    hide Exec, LoopLabels, Entering, Scope, CodeAt, At, Landed, FindLabel, StmtCode, Live, ExprCode, Eval, NextSwitch, Markers, EntryOffset, Arms, WhileLayout, DoLayout, ForAt, Depth, EntryPoint;
    var m := n + 2 + ExprLabels(st.cond);
    var g' := g.(brk := Some(n + 1), cont := Some(n));
    var body := StmtCode(st.body, m, d, g');
    var e := q + |body|;
    WhileEnds(prog, p, ExprCode(st.cond, n + 2, d), body, n);
    LoopScope(prog, st, g, n, p, n + 1, e, n);
    EnteringMarker(st.body, entry, m, d, g', q, s);
    var r1 := Exec(Lice, c, st.body, entry, mem, fuel).value;
    var t1 := SimStmt(c, prog, st.body, entry, m, d, g', q, s0, s, mem, k, fuel, r1);
    if r1.outcome.Broke? {
      t := LoopExit(c, prog, s0, t1, e, e, n, p, n + 1, g', r1, k);
      Land(c, prog, s0, t, g, r1.mem, k);
    } else if r1.outcome.Returned? {
      LandedOut(c, prog, s0, t1, e, g', r1, e + 2, g, k);
      t := t1;
    } else {
      var t2 := t1;
      if r1.outcome.Normal? {
        LandedNormal(c, prog, s0, t1, e, g', r1, k);
        t2 := LoopBack(c, prog, s0, t1, n, p, n + 1, e, r1.mem, k);
      } else {
        LandedContinued(c, prog, s0, t1, e, g', r1, k);
      }
      EnterStart(st, n, d, g, p, t2);
      t := SimStmt(c, prog, st, None, n, d, g, p, s0, t2, r1.mem, k, fuel - 1, r);
    }
  }

  lemma EnterStart(st: Stmt, n: nat, d: int, g: Targets, p: int, s: State)
    requires s.pc == p
    ensures Entering(st, None, n, d, g, p, s)
  {
    hide EntryOffset, Markers;
  }

  lemma {:induction false} SimDo(c: Context, prog: Program, st: Stmt, entry: Option<nat>, n: nat, d: int, g: Targets, p: int,
    s0: State, s: State, mem: Memory, k: nat, fuel: nat, r: Done)
    returns (t: State)
    requires st.DoWhile?
    requires CodeAt(prog, p, StmtCode(st, n, d, g)) && At(c, prog, s0, s, mem, k) && StmtDepth(st) <= k && Scope(prog, st, g)
    requires Entering(st, entry, n, d, g, p, s) && Exec(Lice, c, st, entry, mem, fuel) == Some(r)
    ensures Landed(c, prog, s0, t, p + |StmtCode(st, n, d, g)|, g, r, k)
    decreases fuel, st, 2
  {
    hide CodeAt, At, Landed, FindLabel, StmtCode, Live, ExprCode, Eval, NextSwitch, Markers, EntryOffset, Arms, WhileLayout, DoLayout, ForAt, Depth;
    var q := DoParts(prog, p, st, n, d, g);
    DoShape(st, n, d, g);
    var m := n + 2 + StmtLabels(st.body);
    DoEnds(prog, p, StmtCode(st.body, n + 2, d, g.(brk := Some(n + 1), cont := Some(n))), ExprCode(st.cond, m, d), n);
    var t1 := s;
    if entry.None? {
      t1 := PassLabel(c, prog, s0, s, p, [Label(n)], 0, mem, k);
    }
    t := SimDoIn(c, prog, st, entry, n, d, g, p, s0, t1, mem, k, fuel, r);
  }

  lemma DoEnds(prog: Program, p: int, body: seq<Instr>, cond: seq<Instr>, n: nat)
    requires DoLayout(prog, p, body, cond, n)
    ensures var pc := p + 1 + |body|; var e := pc + |cond| + 2;
      LoopLabels(prog, n, p, n + 1, e) && CodeAt(prog, pc, cond) && CodeAt(prog, pc + |cond|, [Test, Je(n + 1)]) &&
      FindLabel(prog, n) == Some(p) && FindLabel(prog, n + 1) == Some(e + 1) && CodeAt(prog, p, [Label(n)]) &&
      CodeAt(prog, e, [Jmp(n), Label(n + 1)]) && p >= 0
  {
    CodePlace(prog, p, [Label(n)]);
  }

  lemma {:induction false} SimDoIn(c: Context, prog: Program, st: Stmt, entry: Option<nat>, n: nat, d: int, g: Targets, p: int,
    s0: State, s: State, mem: Memory, k: nat, fuel: nat, r: Done)
    returns (t: State)
    requires st.DoWhile? && StmtDepth(st) <= k && Scope(prog, st, g) && CodeAt(prog, p, StmtCode(st, n, d, g))
    requires var body := StmtCode(st.body, n + 2, d, g.(brk := Some(n + 1), cont := Some(n)));
      var cond := ExprCode(st.cond, n + 2 + StmtLabels(st.body), d);
      CodeAt(prog, p + 1, body) && DoLayout(prog, p, body, cond, n) && p + |StmtCode(st, n, d, g)| == p + 1 + |body| + |cond| + 4
    requires At(c, prog, s0, s, mem, k) && Entering(st.body, entry, n + 2, d, g.(brk := Some(n + 1), cont := Some(n)), p + 1, s)
    requires AfterDo(Lice, c, st, Exec(Lice, c, st.body, entry, mem, fuel), fuel) == Some(r)
    ensures Landed(c, prog, s0, t, p + |StmtCode(st, n, d, g)|, g, r, k)
    decreases fuel, st, 1
  {
    hide Exec, LoopLabels, Entering, Scope, CodeAt, At, Landed, FindLabel, StmtCode, Live, ExprCode, Eval, NextSwitch, Markers, EntryOffset, Arms, WhileLayout, DoLayout, ForAt, Depth, EntryPoint;
    var g' := g.(brk := Some(n + 1), cont := Some(n));
    var body, cond := StmtCode(st.body, n + 2, d, g'), ExprCode(st.cond, n + 2 + StmtLabels(st.body), d);
    var pc := p + 1 + |body|;
    var e := pc + |cond| + 2;
    DoEnds(prog, p, body, cond, n);
    LoopScope(prog, st, g, n, p, n + 1, e, n);
    EnteringMarker(st.body, entry, n + 2, d, g', p + 1, s);
    var r1 := Exec(Lice, c, st.body, entry, mem, fuel).value;
    var t1 := SimStmt(c, prog, st.body, entry, n + 2, d, g', p + 1, s0, s, mem, k, fuel, r1);
    if r1.outcome.Broke? {
      t := LoopExit(c, prog, s0, t1, pc, e, n, p, n + 1, g', r1, k);
      Land(c, prog, s0, t, g, r1.mem, k);
    } else if r1.outcome.Returned? {
      LandedOut(c, prog, s0, t1, pc, g', r1, e + 2, g, k);
      t := t1;
    } else if r1.outcome.Continued? {
      LandedContinued(c, prog, s0, t1, pc, g', r1, k);
      EnterStart(st, n, d, g, p, t1);
      t := SimStmt(c, prog, st, None, n, d, g, p, s0, t1, r1.mem, k, fuel - 1, r);
    } else {
      LandedNormal(c, prog, s0, t1, pc, g', r1, k);
      t := SimDoTest(c, prog, st, n, d, g, p, s0, t1, r1.mem, k, fuel, r, Eval(Lice, c, st.cond, r1.mem).value);
    }
  }

  lemma {:induction false} SimDoTest(c: Context, prog: Program, st: Stmt, n: nat, d: int, g: Targets, p: int,
    s0: State, s: State, mem: Memory, k: nat, fuel: nat, r: Done, v: Valued)
    returns (t: State)
    requires st.DoWhile? && StmtDepth(st) <= k && Scope(prog, st, g) && CodeAt(prog, p, StmtCode(st, n, d, g))
    requires var body := StmtCode(st.body, n + 2, d, g.(brk := Some(n + 1), cont := Some(n)));
      var cond := ExprCode(st.cond, n + 2 + StmtLabels(st.body), d);
      CodeAt(prog, p + 1, body) && DoLayout(prog, p, body, cond, n) && p + |StmtCode(st, n, d, g)| == p + 1 + |body| + |cond| + 4
    requires At(c, prog, s0, s, mem, k) && s.pc == p + 1 + |StmtCode(st.body, n + 2, d, g.(brk := Some(n + 1), cont := Some(n)))|
    requires fuel > 0 && Eval(Lice, c, st.cond, mem) == Some(v)
    requires if v.value == 0 then r == Done(Normal, v.mem) else Exec(Lice, c, st, None, v.mem, fuel - 1) == Some(r)
    ensures Landed(c, prog, s0, t, p + |StmtCode(st, n, d, g)|, g, r, k)
    decreases fuel, st, 0
  {
    hide Exec, LoopLabels, Scope, CodeAt, At, Landed, FindLabel, StmtCode, Live, ExprCode, Eval, NextSwitch, Markers, EntryOffset, Arms, WhileLayout, DoLayout, ForAt, Depth;
    var body, cond := StmtCode(st.body, n + 2, d, g.(brk := Some(n + 1), cont := Some(n))), ExprCode(st.cond, n + 2 + StmtLabels(st.body), d);
    var e := s.pc + |cond| + 2;
    DoEnds(prog, p, body, cond, n);
    var t1 := TestAt(c, prog, st.cond, n + 2 + StmtLabels(st.body), d, s0, s, mem, k, n + 1, e + 1, v);
    if v.value == 0 {
      t := PassLabel(c, prog, s0, t1, e, [Jmp(n), Label(n + 1)], 1, v.mem, k);
      Land(c, prog, s0, t, g, v.mem, k);
    } else {
      var t2 := LoopBack(c, prog, s0, t1, n, p, n + 1, e, v.mem, k);
      EnterStart(st, n, d, g, p, t2);
      t := SimStmt(c, prog, st, None, n, d, g, p, s0, t2, v.mem, k, fuel - 1, r);
    }
  }

  // for
  lemma {:induction false} SimFor(c: Context, prog: Program, st: Stmt, entry: Option<nat>, n: nat, d: int, g: Targets, p: int,
    s0: State, s: State, mem: Memory, k: nat, fuel: nat, r: Done)
    returns (t: State)
    requires st.For?
    requires CodeAt(prog, p, StmtCode(st, n, d, g)) && At(c, prog, s0, s, mem, k) && StmtDepth(st) <= k && Scope(prog, st, g)
    requires Entering(st, entry, n, d, g, p, s) && Exec(Lice, c, st, entry, mem, fuel) == Some(r)
    ensures Landed(c, prog, s0, t, p + |StmtCode(st, n, d, g)|, g, r, k)
    decreases fuel, st, 3
  {
    hide ForCode, TestCode, OptionCode, OptionDepth, CodeAt, At, Landed, FindLabel, StmtCode, Live, ExprCode, Eval, NextSwitch, Markers, EntryOffset, Arms, WhileLayout, DoLayout, ForAt, Depth;
    var b := n + StmtLabels(st.init);
    var g' := g.(sw := NextSwitch(st.init, n, g.sw));
    var pf := p + |StmtCode(st.init, n, d, g)|;
    var end := p + |StmtCode(st, n, d, g)|;
    ForParts(prog, st, n, d, g, p);
    ForShape(st, n, d, g);
    var j := |Markers(st.init)|;
    if entry.Some? && entry.value >= j {
      t := SimForIn(c, prog, st, Some(entry.value - j), b, d, g', pf, s0, s, mem, k, fuel, r);
      LandedRegoal(c, prog, s0, t, end, g', r, g, k);
    } else {
      var r1 := Exec(Lice, c, st.init, entry, mem, fuel).value;
      var t1 := SimStmt(c, prog, st.init, entry, n, d, g, p, s0, s, mem, k, fuel, r1);
      if r1.outcome.Normal? {
        LandedNormal(c, prog, s0, t1, pf, g, r1, k);
        t := SimForLoop(c, prog, st, b, d, g', pf, s0, t1, r1.mem, k, fuel, r);
        LandedRegoal(c, prog, s0, t, end, g', r, g, k);
      } else {
        LandedOut(c, prog, s0, t1, pf, g, r1, end, g, k);
        t := t1;
      }
    }
  }

  lemma ForEnds(prog: Program, p: int, st: Stmt, b: nat, d: int, g: Targets) returns (pb: int, ps: int, e: int)
    requires st.For? && ForAt(prog, p, st, b, d, g)
    ensures var l := b + 3 + OptionLabels(st.test); var test := TestCode(st.test, b + 3, d, b + 2);
      var body := StmtCode(st.body, l, d, g.(brk := Some(b + 2), cont := Some(b + 1)));
      var step := OptionCode(st.step, l + StmtLabels(st.body), d);
      pb == p + 1 + |test| && ps == pb + |body| && e == ps + 1 + |step| &&
      LoopLabels(prog, b, p, b + 2, e) && FindLabel(prog, b + 1) == Some(ps) && FindLabel(prog, b + 2) == Some(e + 1) &&
      CodeAt(prog, p + 1, test) && CodeAt(prog, pb, body) && CodeAt(prog, ps, [Label(b + 1)]) && CodeAt(prog, ps + 1, step) &&
      CodeAt(prog, p, [Label(b)]) && CodeAt(prog, e, [Jmp(b), Label(b + 2)]) && e >= 0 && p + |ForCode(st, b, d, g)| == e + 2
  {
    hide CodeAt, FindLabel, StmtCode, TestCode, OptionCode, StmtLabels, OptionLabels;
    var l := b + 3 + OptionLabels(st.test);
    pb := p + 1 + |TestCode(st.test, b + 3, d, b + 2)|;
    ps := pb + |StmtCode(st.body, l, d, g.(brk := Some(b + 2), cont := Some(b + 1)))|;
    e := ps + 1 + |OptionCode(st.step, l + StmtLabels(st.body), d)|;
    CodePlace(prog, e, [Jmp(b), Label(b + 2)]);
  }

  /** The test of a for statement, which may be missing. */
  lemma SimForTest(c: Context, prog: Program, test: Option<Expr>, b: nat, d: int, p: int, s0: State, s: State, mem: Memory, k: nat,
    e: int, v: Valued)
    returns (t: State)
    requires CodeAt(prog, p, TestCode(test, b + 3, d, b + 2)) && s.pc == p && At(c, prog, s0, s, mem, k) && OptionDepth(test) <= k
    requires EvalOption(Lice, c, test, 1, mem) == Some(v) && FindLabel(prog, b + 2) == Some(e) && 0 <= e
    ensures At(c, prog, s0, t, v.mem, k)
    ensures t.pc == if v.value == 0 then e else p + |TestCode(test, b + 3, d, b + 2)|
  {
    hide CodeAt, At, FindLabel, ExprCode, Depth, Eval;
    if test.None? {
      t := s;
    } else {
      CodeSplit(prog, p, ExprCode(test.value, b + 3, d), [Test, Je(b + 2)]);
      t := TestAt(c, prog, test.value, b + 3, d, s0, s, mem, k, b + 2, e, v);
    }
  }

  lemma SimForStep(c: Context, prog: Program, step: Option<Expr>, n: nat, d: int, p: int, s0: State, s: State, mem: Memory, k: nat, v: Valued)
    returns (t: State)
    requires CodeAt(prog, p, OptionCode(step, n, d)) && s.pc == p && At(c, prog, s0, s, mem, k) && OptionDepth(step) <= k
    requires EvalOption(Lice, c, step, 0, mem) == Some(v)
    ensures At(c, prog, s0, t, v.mem, k) && t.pc == p + |OptionCode(step, n, d)|
  {
    hide CodeAt, At, ExprCode, Depth, Eval;
    if step.None? {
      t := s;
    } else {
      t := EvalAt(c, prog, step.value, n, d, s0, s, mem, k, v);
    }
  }

  /** From the begin label. */
  lemma {:induction false} SimForLoop(c: Context, prog: Program, st: Stmt, b: nat, d: int, g: Targets, p: int,
    s0: State, s: State, mem: Memory, k: nat, fuel: nat, r: Done)
    returns (t: State)
    requires st.For? && StmtDepth(st) <= k && Scope(prog, st, g) && ForAt(prog, p, st, b, d, g) && At(c, prog, s0, s, mem, k)
    requires s.pc == p && ForLoop(Lice, c, st, mem, fuel) == Some(r)
    ensures Landed(c, prog, s0, t, p + |ForCode(st, b, d, g)|, g, r, k)
    decreases fuel, st, 2
  {
    hide Exec, LoopLabels, Scope, EvalOption, AfterFor, ForCode, TestCode, OptionCode, OptionDepth, CodeAt, At, Landed, FindLabel, StmtCode, Live, ExprCode, Eval, NextSwitch, Markers, EntryOffset, Arms, WhileLayout, DoLayout, ForAt, Depth;
    var pb, ps, e := ForEnds(prog, p, st, b, d, g);
    var v := EvalOption(Lice, c, st.test, 1, mem).value;
    var t1 := PassLabel(c, prog, s0, s, p, [Label(b)], 0, mem, k);
    var t2 := SimForTest(c, prog, st.test, b, d, p + 1, s0, t1, mem, k, e + 1, v);
    if v.value == 0 {
      t := PassLabel(c, prog, s0, t2, e, [Jmp(b), Label(b + 2)], 1, v.mem, k);
      Land(c, prog, s0, t, g, v.mem, k);
    } else {
      EnterStart(st.body, b + 3 + OptionLabels(st.test), d, g.(brk := Some(b + 2), cont := Some(b + 1)), pb, t2);
      t := SimForIn(c, prog, st, None, b, d, g, p, s0, t2, v.mem, k, fuel, r);
    }
  }

  lemma {:induction false} SimForIn(c: Context, prog: Program, st: Stmt, entry: Option<nat>, b: nat, d: int, g: Targets, p: int,
    s0: State, s: State, mem: Memory, k: nat, fuel: nat, r: Done)
    returns (t: State)
    requires st.For? && StmtDepth(st) <= k && Scope(prog, st, g) && ForAt(prog, p, st, b, d, g) && At(c, prog, s0, s, mem, k)
    requires Entering(st.body, entry, b + 3 + OptionLabels(st.test), d, g.(brk := Some(b + 2), cont := Some(b + 1)),
      p + 1 + |TestCode(st.test, b + 3, d, b + 2)|, s)
    requires AfterFor(Lice, c, st, Exec(Lice, c, st.body, entry, mem, fuel), fuel) == Some(r)
    ensures Landed(c, prog, s0, t, p + |ForCode(st, b, d, g)|, g, r, k)
    decreases fuel, st, 1
  {
    hide Exec, LoopLabels, Scope, EvalOption, Entering, EntryPoint, ForLoop, ForCode, TestCode, OptionCode, OptionDepth, CodeAt, At, Landed, FindLabel, StmtCode, Live, ExprCode, Eval, NextSwitch, Markers, EntryOffset, Arms, WhileLayout, DoLayout, ForAt, Depth;
    var pb, ps, e := ForEnds(prog, p, st, b, d, g);
    var g' := g.(brk := Some(b + 2), cont := Some(b + 1));
    LoopScope(prog, st, g, b, p, b + 2, e, b + 1);
    EnteringMarker(st.body, entry, b + 3 + OptionLabels(st.test), d, g', pb, s);
    var r1 := Exec(Lice, c, st.body, entry, mem, fuel).value;
    var t1 := SimStmt(c, prog, st.body, entry, b + 3 + OptionLabels(st.test), d, g', pb, s0, s, mem, k, fuel, r1);
    if r1.outcome.Broke? {
      t := LoopExit(c, prog, s0, t1, ps, e, b, p, b + 2, g', r1, k);
      Land(c, prog, s0, t, g, r1.mem, k);
    } else if r1.outcome.Returned? {
      LandedOut(c, prog, s0, t1, ps, g', r1, e + 2, g, k);
      t := t1;
    } else {
      if r1.outcome.Normal? {
        LandedNormal(c, prog, s0, t1, ps, g', r1, k);
      } else {
        LandedContinued(c, prog, s0, t1, ps, g', r1, k);
      }
      t := SimForNext(c, prog, st, b, d, g, p, ps, e, s0, t1, r1.mem, k, fuel, r, EvalOption(Lice, c, st.step, 0, r1.mem).value);
    }
  }

  /** The step, and around again. */
  lemma {:induction false} SimForNext(c: Context, prog: Program, st: Stmt, b: nat, d: int, g: Targets, p: int, ps: int, e: int,
    s0: State, s: State, mem: Memory, k: nat, fuel: nat, r: Done, v: Valued)
    returns (t: State)
    requires st.For? && StmtDepth(st) <= k && Scope(prog, st, g) && ForAt(prog, p, st, b, d, g) && At(c, prog, s0, s, mem, k)
    requires var l := b + 3 + OptionLabels(st.test) + StmtLabels(st.body);
      e == ps + 1 + |OptionCode(st.step, l, d)| && CodeAt(prog, ps, [Label(b + 1)]) && CodeAt(prog, ps + 1, OptionCode(st.step, l, d))
    requires LoopLabels(prog, b, p, b + 2, e) && s.pc == ps && fuel > 0
    requires EvalOption(Lice, c, st.step, 0, mem) == Some(v) && ForLoop(Lice, c, st, v.mem, fuel - 1) == Some(r)
    ensures Landed(c, prog, s0, t, p + |ForCode(st, b, d, g)|, g, r, k)
    decreases fuel, st, 0
  {
    hide Exec, LoopLabels, Scope, EvalOption, ForLoop, ForCode, TestCode, OptionCode, OptionDepth, CodeAt, At, Landed, FindLabel, StmtCode, Live, ExprCode, Eval, NextSwitch, Markers, EntryOffset, Arms, WhileLayout, DoLayout, ForAt, Depth;
    var t1 := PassLabel(c, prog, s0, s, ps, [Label(b + 1)], 0, mem, k);
    var t2 := SimForStep(c, prog, st.step, b + 3 + OptionLabels(st.test) + StmtLabels(st.body), d, ps + 1, s0, t1, mem, k, v);
    var t3 := LoopBack(c, prog, s0, t2, b, p, b + 2, e, v.mem, k);
    t := SimForLoop(c, prog, st, b, d, g, p, s0, t3, v.mem, k, fuel - 1, r);
  }

  // --------------------------------------------------------------- switch

  lemma SwitchParts(prog: Program, p: int, st: Stmt, n: nat, d: int, g: Targets) returns (pj: int, e: int)
    requires st.Switch? && CodeAt(prog, p, StmtCode(st, n, d, g))
    ensures var sw := n + ExprLabels(st.e); var g' := g.(brk := Some(sw + 1), sw := Some(sw));
      var body := StmtCode(st.body, sw + 2, d, g'); var next := NextSwitch(st.body, sw + 2, Some(sw)).value;
      pj == p + |ExprCode(st.e, n, d)| && e == pj + 1 + |body| && CodeAt(prog, p, ExprCode(st.e, n, d)) && CodeAt(prog, pj, [Jmp(sw)]) &&
      CodeAt(prog, pj + 1, body) && CodeAt(prog, e, [Label(next), Label(sw + 1)]) && p + |StmtCode(st, n, d, g)| == e + 2 &&
      FindLabel(prog, next) == Some(e) && FindLabel(prog, sw + 1) == Some(e + 1) && e >= 0
  {
    hide CodeAt, FindLabel, NextSwitch, ExprCode;
    var sw := n + ExprLabels(st.e);
    var body := StmtCode(st.body, sw + 2, d, g.(brk := Some(sw + 1), sw := Some(sw)));
    var next := NextSwitch(st.body, sw + 2, Some(sw)).value;
    pj, e := SwitchSplit(prog, p, ExprCode(st.e, n, d), body, sw, next);
  }

  lemma SwitchSplit(prog: Program, p: int, value: seq<Instr>, body: seq<Instr>, sw: nat, next: nat) returns (pj: int, e: int)
    requires CodeAt(prog, p, value + [Jmp(sw)] + (body + [Label(next), Label(sw + 1)]))
    ensures pj == p + |value| && e == pj + 1 + |body| && CodeAt(prog, p, value) && CodeAt(prog, pj, [Jmp(sw)]) &&
      CodeAt(prog, pj + 1, body) && CodeAt(prog, e, [Label(next), Label(sw + 1)])
    ensures FindLabel(prog, next) == Some(e) && FindLabel(prog, sw + 1) == Some(e + 1) && e >= 0
  {
    hide CodeAt, FindLabel;
    pj := p + |value|;
    e := pj + 1 + |body|;
    CodeSplit3(prog, p, value, [Jmp(sw)], body + [Label(next), Label(sw + 1)]);
    CodeSplit(prog, pj + 1, body, [Label(next), Label(sw + 1)]);
    LabelHere(prog, e, [Label(next), Label(sw + 1)], 0, next);
    LabelHere(prog, e, [Label(next), Label(sw + 1)], 1, sw + 1);
    CodePlace(prog, e, [Label(next), Label(sw + 1)]);
  }

  lemma {:induction false} SimSwitch(c: Context, prog: Program, st: Stmt, entry: Option<nat>, n: nat, d: int, g: Targets, p: int,
    s0: State, s: State, mem: Memory, k: nat, fuel: nat, r: Done)
    returns (t: State)
    requires st.Switch?
    requires CodeAt(prog, p, StmtCode(st, n, d, g)) && At(c, prog, s0, s, mem, k) && StmtDepth(st) <= k && Scope(prog, st, g)
    requires Entering(st, entry, n, d, g, p, s) && Exec(Lice, c, st, entry, mem, fuel) == Some(r)
    ensures Landed(c, prog, s0, t, p + |StmtCode(st, n, d, g)|, g, r, k)
    decreases fuel, st, 1
  {
    hide SelectLice, CodeAt, At, Landed, FindLabel, StmtCode, Live, ExprCode, Eval, NextSwitch, Markers, EntryOffset, Arms, WhileLayout, DoLayout, ForAt, Depth;
    var sw := n + ExprLabels(st.e);
    var g' := g.(brk := Some(sw + 1), sw := Some(sw));
    var pj, e := SwitchParts(prog, p, st, n, d, g);
    NoMarkers(st);
    var v := Eval(Lice, c, st.e, mem).value;
    var t1 := EvalAt(c, prog, st.e, n, d, s0, s, mem, k, v);
    var q := SwitchTarget(prog, st.body, sw + 2, d, g', pj + 1, e);
    var t2 := TakeJump(c, prog, s0, t1, pj, [Jmp(sw)], 0, v.mem, k, q);
    var t3 := ChainAt(c, prog, st.body, sw + 2, d, g', pj + 1, s0, t2, v.mem, k, e);
    var target := SelectLice(v.value, Markers(st.body));
    if target.None? {
      t := SwitchOut(c, prog, s0, t3, e, NextSwitch(st.body, sw + 2, Some(sw)).value, sw + 1, v.mem, k);
      Land(c, prog, s0, t, g, v.mem, k);
    } else {
      t := SimSwitchBody(c, prog, st, target, n, d, g, p, pj, e, s0, t3, v.mem, k, fuel, r,
        Exec(Lice, c, st.body, target, v.mem, fuel).value);
    }
  }

  lemma NoMarkers(st: Stmt)
    requires st.Switch?
    ensures Markers(st) == []
  {
  }

  /** The first label of the chain exists: in the body, or after it. */
  lemma SwitchTarget(prog: Program, body: Stmt, n: nat, d: int, g: Targets, p: int, e: int) returns (q: int)
    requires CodeAt(prog, p, StmtCode(body, n, d, g)) && g.sw.Some? && FindLabel(prog, NextSwitch(body, n, g.sw).value) == Some(e)
    ensures FindLabel(prog, g.sw.value) == Some(q) && 0 <= q
  {
    hide CodeAt, StmtCode, NextSwitch, Markers, FindLabel;
    ChainLabel(prog, body, n, d, g, p);
    q := FindLabel(prog, g.sw.value).value;
  }

  /** The whole chain of a switch: at the selected marker, or past the body. */
  lemma ChainAt(c: Context, prog: Program, body: Stmt, n: nat, d: int, g: Targets, p: int, s0: State, s: State, mem: Memory, k: nat, e: int)
    returns (t: State)
    requires CodeAt(prog, p, StmtCode(body, n, d, g)) && At(c, prog, s0, s, mem, k)
    requires g.sw.Some? && FindLabel(prog, g.sw.value) == Some(s.pc) && FindLabel(prog, NextSwitch(body, n, g.sw).value) == Some(e)
    ensures At(c, prog, s0, t, mem, k)
    ensures var target := SelectLice(s.rax, Markers(body));
      if target.None? then t.pc == e else Entering(body, target, n, d, g, p, t)
  {
    hide CodeAt, StmtCode, NextSwitch, Markers, FindLabel, Live, Frame, EntryOffset, FirstMatch, Low32;
    t := SimChain(c, prog, body, n, d, g, p, s0, s, mem, k);
  }

  /** Past the two labels at the end of a switch. */
  lemma SwitchOut(c: Context, prog: Program, s0: State, s: State, e: int, next: nat, brk: nat, mem: Memory, k: nat) returns (t: State)
    requires CodeAt(prog, e, [Label(next), Label(brk)]) && At(c, prog, s0, s, mem, k) && (s.pc == e || s.pc == e + 1)
    ensures At(c, prog, s0, t, mem, k) && t.pc == e + 2
  {
    hide CodeAt, At;
    t := s;
    if s.pc == e {
      t := PassLabel(c, prog, s0, s, e, [Label(next), Label(brk)], 0, mem, k);
    }
    t := PassLabel(c, prog, s0, t, e, [Label(next), Label(brk)], 1, mem, k);
  }

  lemma SwitchScope(prog: Program, st: Stmt, g: Targets, sw: nat, brk: nat)
    requires st.Switch? && Scope(prog, st, g) && FindLabel(prog, brk).Some?
    ensures Scope(prog, st.body, g.(brk := Some(brk), sw := Some(sw)))
  {
    hide FindLabel;
  }

  lemma {:induction false} SimSwitchBody(c: Context, prog: Program, st: Stmt, target: Option<nat>, n: nat, d: int, g: Targets, p: int,
    pj: int, e: int, s0: State, s: State, mem: Memory, k: nat, fuel: nat, r: Done, r1: Done)
    returns (t: State)
    requires st.Switch? && At(c, prog, s0, s, mem, k) && StmtDepth(st) <= k && Scope(prog, st, g)
    requires var sw := n + ExprLabels(st.e); var g' := g.(brk := Some(sw + 1), sw := Some(sw));
      var body := StmtCode(st.body, sw + 2, d, g'); var next := NextSwitch(st.body, sw + 2, Some(sw)).value;
      e == pj + 1 + |body| && CodeAt(prog, pj + 1, body) && CodeAt(prog, e, [Label(next), Label(sw + 1)]) &&
      p + |StmtCode(st, n, d, g)| == e + 2 && FindLabel(prog, sw + 1) == Some(e + 1) &&
      Entering(st.body, target, sw + 2, d, g', pj + 1, s)
    requires Exec(Lice, c, st.body, target, mem, fuel) == Some(r1) && r == if r1.outcome.Broke? then r1.(outcome := Normal) else r1
    ensures Landed(c, prog, s0, t, p + |StmtCode(st, n, d, g)|, g, r, k)
    decreases fuel, st, 0
  {
    hide Exec, Entering, EntryPoint, Scope, CodeAt, At, Landed, FindLabel, StmtCode, Live, ExprCode, Eval, NextSwitch, Markers, EntryOffset, Arms, WhileLayout, DoLayout, ForAt, Depth;
    var sw := n + ExprLabels(st.e);
    var g' := g.(brk := Some(sw + 1), sw := Some(sw));
    var next := NextSwitch(st.body, sw + 2, Some(sw)).value;
    SwitchScope(prog, st, g, sw, sw + 1);
    var t1 := SimStmt(c, prog, st.body, target, sw + 2, d, g', pj + 1, s0, s, mem, k, fuel, r1);
    if r1.outcome.Normal? || r1.outcome.Broke? {
      if r1.outcome.Normal? {
        LandedNormal(c, prog, s0, t1, e, g', r1, k);
      } else {
        LandedBroke(c, prog, s0, t1, e, g', r1, k);
      }
      t := SwitchOut(c, prog, s0, t1, e, next, sw + 1, r1.mem, k);
      Land(c, prog, s0, t, g, r1.mem, k);
    } else {
      LandedOut(c, prog, s0, t1, e, g', r1, e + 2, g, k);
      t := t1;
    }
  }
}
