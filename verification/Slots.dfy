/** The single save slots of labels, and when they are good enough. */
module SaveSlots {
  // The generator has one static save slot each for the break, continue and switch labels.
  // RawStmt is the code that leads to; the theorems say exactly when that is the code of the
  // lexical nesting.
  import opened Runs
  import opened Machine
  import opened Syntax
  import opened Code
  import opened Labels

  /** gen_label_break, gen_label_continue, their stores, and the same for switch. */
  datatype Slots = Slots(brk: Option<nat>, cont: Option<nat>, brkStore: Option<nat>, contStore: Option<nat>,
                         sw: Option<nat>, swStore: Option<nat>)

  datatype Raw = Raw(code: seq<Instr>, slots: Slots)

  function Save(x: Slots, brk: nat, cont: nat): Slots {
    x.(brkStore := x.brk, contStore := x.cont, brk := Some(brk), cont := Some(cont))
  }

  function Restore(x: Slots): Slots {
    x.(brk := x.brkStore, cont := x.contStore)
  }

  function SwitchSave(x: Slots, sw: nat): Slots {
    x.(swStore := x.sw, brkStore := x.brk, sw := Some(sw), brk := Some(sw + 1))
  }

  function SwitchRestore(x: Slots): Slots {
    x.(sw := x.swStore, brk := x.brkStore)
  }

  /** None where the generator stops with an internal error. */
  function RawStmt(s: Stmt, n: nat, d: int, x: Slots): Option<Raw>
    decreases s
  {
    match s
    case Skip => Some(Raw([], x))
    case Sequence(a, b) =>
      match RawStmt(a, n, d, x) {
        case None => None
        case Some(r) =>
          match RawStmt(b, n + StmtLabels(a), d, r.slots) {
            case None => None
            case Some(q) => Some(Raw(r.code + q.code, q.slots))
          }
      }
    case Expression(e) => if Compilable(e) then Some(Raw(ExprCode(e, n, d), x)) else None
    case Initialize(off, e) => if Compilable(e) then Some(Raw(InitializeCode(off, e, n, d), x)) else None
    case If(c, a) =>
      if !Compilable(c) then None else
      var ne := n + ExprLabels(c);
      match RawStmt(a, ne + 1, d, x) {
        case None => None
        case Some(r) => Some(Raw(ExprCode(c, n, d) + [Test, Je(ne)] + (r.code + [Label(ne)]), r.slots))
      }
    case IfElse(c, a, b) =>
      if !Compilable(c) then None else
      var ne := n + ExprLabels(c);
      var end := ne + 1 + StmtLabels(a);
      match RawStmt(a, ne + 1, d, x) {
        case None => None
        case Some(r) =>
          match RawStmt(b, end + 1, d, r.slots) {
            case None => None
            case Some(q) =>
              Some(Raw(ExprCode(c, n, d) + [Test, Je(ne)] + (r.code + [Jmp(end), Label(ne)] + (q.code + [Label(end)])), q.slots))
          }
      }
    case While(c, body) =>
      if !Compilable(c) then None else
      match RawStmt(body, n + 2 + ExprLabels(c), d, Save(x, n + 1, n)) {
        case None => None
        case Some(r) =>
          Some(Raw([Label(n)] + ExprCode(c, n + 2, d) + [Test, Je(n + 1)] + (r.code + [Jmp(n), Label(n + 1)]), Restore(r.slots)))
      }
    case DoWhile(body, c) =>
      if !Compilable(c) then None else
      match RawStmt(body, n + 2, d, Save(x, n + 1, n)) {
        case None => None
        case Some(r) =>
          Some(Raw([Label(n)] + r.code + (ExprCode(c, n + 2 + StmtLabels(body), d) + [Test, Je(n + 1)] + [Jmp(n), Label(n + 1)]),
            Restore(r.slots)))
      }
    case For(init, test, step, body) =>
      if !CompilableOption(test) || !CompilableOption(step) then None else
      var b := n + StmtLabels(init);
      var l := b + 3 + OptionLabels(test);
      match RawStmt(init, n, d, x) {
        case None => None
        case Some(r) =>
          match RawStmt(body, l, d, Save(r.slots, b + 2, b + 1)) {
            case None => None
            case Some(q) =>
              Some(Raw(r.code + ([Label(b)] + TestCode(test, b + 3, d, b + 2) +
                (q.code + ([Label(b + 1)] + OptionCode(step, l + StmtLabels(body), d) + [Jmp(b), Label(b + 2)]))),
                Restore(q.slots)))
          }
      }
    case Switch(e, body) =>
      if !Compilable(e) then None else
      var sw := n + ExprLabels(e);
      match RawStmt(body, sw + 2, d, SwitchSave(x, sw)) {
        case None => None
        case Some(r) =>
          if r.slots.sw.None? || r.slots.brk.None? then None else
          Some(Raw(ExprCode(e, n, d) + [Jmp(sw)] + (r.code + [Label(r.slots.sw.value), Label(r.slots.brk.value)]), SwitchRestore(r.slots)))
      }
    case Case(v) =>
      if x.sw.None? then None
      else Some(Raw([Jmp(n), Label(x.sw.value), CmpImm32(v), Jne(n + 1), Label(n)], x.(sw := Some(n + 1))))
    case Default =>
      if x.sw.None? then None else Some(Raw([Label(x.sw.value)], x.(sw := Some(n))))
    case Break => if x.brk.None? then None else Some(Raw([Jmp(x.brk.value)], x))
    case Continue => if x.cont.None? then None else Some(Raw([Jmp(x.cont.value)], x))
    case Return(r) => if CompilableOption(r) then Some(Raw(OptionCode(r, n, d) + [Leave, Ret], x)) else None
  }

  // ------------------------------------------------------- what is inside

  predicate HasBreakable(s: Stmt) {
    match s
    case Sequence(a, b) => HasBreakable(a) || HasBreakable(b)
    case If(_, a) => HasBreakable(a)
    case IfElse(_, a, b) => HasBreakable(a) || HasBreakable(b)
    case _ => IsBreakable(s)
  }

  predicate HasLoop(s: Stmt) {
    match s
    case Sequence(a, b) => HasLoop(a) || HasLoop(b)
    case If(_, a) => HasLoop(a)
    case IfElse(_, a, b) => HasLoop(a) || HasLoop(b)
    case Switch(_, body) => HasLoop(body)
    case _ => IsBreakable(s)
  }

  predicate HasSwitch(s: Stmt) {
    match s
    case Sequence(a, b) => HasSwitch(a) || HasSwitch(b)
    case If(_, a) => HasSwitch(a)
    case IfElse(_, a, b) => HasSwitch(a) || HasSwitch(b)
    case While(_, body) => HasSwitch(body)
    case DoWhile(body, _) => HasSwitch(body)
    case For(init, _, _, body) => HasSwitch(init) || HasSwitch(body)
    case Switch(_, _) => true
    case _ => false
  }

  /** How deep loops and switches nest. */
  function Nesting(s: Stmt): nat {
    match s
    case Sequence(a, b) => Larger(Nesting(a), Nesting(b))
    case If(_, a) => Nesting(a)
    case IfElse(_, a, b) => Larger(Nesting(a), Nesting(b))
    case While(_, body) => 1 + Nesting(body)
    case DoWhile(body, _) => 1 + Nesting(body)
    case For(init, _, _, body) => Larger(Nesting(init), 1 + Nesting(body))
    case Switch(_, body) => 1 + Nesting(body)
    case _ => 0
  }

  function Larger(a: nat, b: nat): nat { if a < b then b else a }

  /** Which of the three current labels are the ones the nesting asks for. */
  datatype Flags = Flags(b: bool, c: bool, w: bool)
  datatype Scanned = Scanned(safe: bool, flags: Flags)

  /** Whether every use of a label in s finds the right one in the slot, and which
      labels are right afterwards. A construct's save slots are spoilt by any construct
      of the same kind in its body. */
  function Scan(s: Stmt, f: Flags): Scanned {
    match s
    case Sequence(a, b) =>
      var r := Scan(a, f);
      var q := Scan(b, r.flags);
      Scanned(r.safe && q.safe, q.flags)
    case If(_, a) => Scan(a, f)
    case IfElse(_, a, b) =>
      var r := Scan(a, f);
      var q := Scan(b, r.flags);
      Scanned(r.safe && q.safe, q.flags)
    case While(_, body) => AfterLoop(body, f, Scan(body, Flags(true, true, f.w)))
    case DoWhile(body, _) => AfterLoop(body, f, Scan(body, Flags(true, true, f.w)))
    case For(init, _, _, body) =>
      var r := Scan(init, f);
      var q := AfterLoop(body, r.flags, Scan(body, Flags(true, true, r.flags.w)));
      Scanned(r.safe && q.safe, q.flags)
    case Switch(_, body) =>
      var r := Scan(body, Flags(true, f.c, true));
      Scanned(r.safe && r.flags.b && r.flags.w, Flags(f.b && !HasBreakable(body), r.flags.c, f.w && !HasSwitch(body)))
    case Case(_) => Scanned(f.w, f)
    case Default => Scanned(f.w, f)
    case Break => Scanned(f.b, f)
    case Continue => Scanned(f.c, f)
    case _ => Scanned(true, f)
  }

  function AfterLoop(body: Stmt, f: Flags, r: Scanned): Scanned {
    Scanned(r.safe, Flags(f.b && !HasBreakable(body), f.c && !HasLoop(body), r.flags.w))
  }

  predicate SlotSafe(s: Stmt) {
    Scan(s, Flags(true, true, true)).safe
  }

  // -------------------------------------------------- it always generates

  /** Labels that are set stay set. */
  ghost predicate StillSet(x: Slots, y: Slots) {
    (x.brk.Some? ==> y.brk.Some?) && (x.cont.Some? ==> y.cont.Some?) && (x.sw.Some? ==> y.sw.Some?)
  }

  /** Code of the same length as the lexical code, with set labels still set. */
  ghost predicate RawFits(s: Stmt, n: nat, d: int, x: Slots, t: Targets) {
    var r := RawStmt(s, n, d, x);
    r.Some? && |r.value.code| == |StmtCode(s, n, d, t)| && StillSet(x, r.value.slots)
  }

  /** A statement without constructs of a kind leaves their labels alone. */
  ghost predicate Untouched(s: Stmt, x: Slots, y: Slots) {
    (!HasBreakable(s) ==> y.brk == x.brk && y.brkStore == x.brkStore) &&
    (!HasLoop(s) ==> y.cont == x.cont && y.contStore == x.contStore) &&
    (!HasSwitch(s) ==> y.swStore == x.swStore)
  }

  lemma {:induction false} RawStores(s: Stmt, n: nat, d: int, x: Slots)
    requires RawStmt(s, n, d, x).Some?
    ensures Untouched(s, x, RawStmt(s, n, d, x).value.slots)
    decreases s, 1
  {
    hide ExprCode, ExprLabels, StmtLabels, Compilable, TestCode, OptionCode, OptionLabels;
    match s {
      case Sequence(_, _) => RawStoresTwo(s, n, d, x);
      case If(c, a) => RawStores(a, n + ExprLabels(c) + 1, d, x);
      case IfElse(_, _, _) => RawStoresTwo(s, n, d, x);
      case While(c, body) => RawStores(body, n + 2 + ExprLabels(c), d, Save(x, n + 1, n));
      case DoWhile(body, c) => RawStores(body, n + 2, d, Save(x, n + 1, n));
      case For(_, _, _, _) => RawStoresTwo(s, n, d, x);
      case Switch(e, body) => RawStores(body, n + ExprLabels(e) + 2, d, SwitchSave(x, n + ExprLabels(e)));
      case _ =>
    }
  }

  lemma {:induction false} RawStoresTwo(s: Stmt, n: nat, d: int, x: Slots)
    requires (s.Sequence? || s.IfElse? || s.For?) && RawStmt(s, n, d, x).Some?
    ensures Untouched(s, x, RawStmt(s, n, d, x).value.slots)
    decreases s, 0
  {
    hide ExprCode, ExprLabels, StmtLabels, Compilable, TestCode, OptionCode, OptionLabels;
    match s {
      case Sequence(a, b) =>
        RawStores(a, n, d, x);
        RawStores(b, n + StmtLabels(a), d, RawStmt(a, n, d, x).value.slots);
      case IfElse(c, a, b) =>
        var ne := n + ExprLabels(c);
        RawStores(a, ne + 1, d, x);
        RawStores(b, ne + 1 + StmtLabels(a) + 1, d, RawStmt(a, ne + 1, d, x).value.slots);
      case For(init, test, step, body) =>
        var b := n + StmtLabels(init);
        var y := RawStmt(init, n, d, x).value.slots;
        RawStores(init, n, d, x);
        RawStores(body, b + 3 + OptionLabels(test), d, Save(y, b + 2, b + 1));
    }
  }

  predicate AtLeast(l: Option<nat>, lo: nat) { l.Some? && l.value >= lo }

  /** Once a construct has been met, what the slots hold are labels no older than the
      ones current before it. */
  ghost predicate Recent(s: Stmt, x: Slots, y: Slots, lo: nat) {
    (AtLeast(x.brk, lo) ==> AtLeast(y.brk, lo) && (HasBreakable(s) ==> AtLeast(y.brkStore, lo))) &&
    (AtLeast(x.cont, lo) ==> AtLeast(y.cont, lo) && (HasLoop(s) ==> AtLeast(y.contStore, lo))) &&
    (AtLeast(x.sw, lo) ==> AtLeast(y.sw, lo) && (HasSwitch(s) ==> AtLeast(y.swStore, lo)))
  }

  lemma {:induction false} RawRecent(s: Stmt, n: nat, d: int, x: Slots, lo: nat)
    requires RawStmt(s, n, d, x).Some? && lo <= n
    ensures Recent(s, x, RawStmt(s, n, d, x).value.slots, lo)
    decreases s, 1
  {
    hide ExprCode, ExprLabels, StmtLabels, Compilable, TestCode, OptionCode, OptionLabels;
    match s {
      case Sequence(_, _) => RawRecentTwo(s, n, d, x, lo);
      case If(c, a) => RawRecent(a, n + ExprLabels(c) + 1, d, x, lo);
      case IfElse(_, _, _) => RawRecentTwo(s, n, d, x, lo);
      case While(c, body) => RawRecentLoop(body, n + 2 + ExprLabels(c), d, x, n + 1, n, lo);
      case DoWhile(body, c) => RawRecentLoop(body, n + 2, d, x, n + 1, n, lo);
      case For(_, _, _, _) => RawRecentFor(s, n, d, x, lo);
      case Switch(e, body) =>
        var sw := n + ExprLabels(e);
        RawStores(body, sw + 2, d, SwitchSave(x, sw));
        RawRecent(body, sw + 2, d, SwitchSave(x, sw), lo);
      case _ =>
    }
  }

  lemma {:induction false} RawRecentTwo(s: Stmt, n: nat, d: int, x: Slots, lo: nat)
    requires (s.Sequence? || s.IfElse?) && RawStmt(s, n, d, x).Some? && lo <= n
    ensures Recent(s, x, RawStmt(s, n, d, x).value.slots, lo)
    decreases s, 0
  {
    hide ExprCode, ExprLabels, StmtLabels, Compilable, TestCode, OptionCode, OptionLabels;
    if s.Sequence? {
      var y := RawStmt(s.first, n, d, x).value.slots;
      RawRecent(s.first, n, d, x, lo);
      RawStores(s.rest, n + StmtLabels(s.first), d, y);
      RawRecent(s.rest, n + StmtLabels(s.first), d, y, lo);
    } else {
      var ne := n + ExprLabels(s.cond);
      var y := RawStmt(s.yes, ne + 1, d, x).value.slots;
      RawRecent(s.yes, ne + 1, d, x, lo);
      RawStores(s.no, ne + 1 + StmtLabels(s.yes) + 1, d, y);
      RawRecent(s.no, ne + 1 + StmtLabels(s.yes) + 1, d, y, lo);
    }
  }

  /** A loop's body between save and restore. */
  lemma {:induction false} RawRecentLoop(body: Stmt, n: nat, d: int, x: Slots, brk: nat, cont: nat, lo: nat)
    requires RawStmt(body, n, d, Save(x, brk, cont)).Some? && lo <= n && lo <= brk && lo <= cont
    ensures var y := Restore(RawStmt(body, n, d, Save(x, brk, cont)).value.slots);
      (AtLeast(x.brk, lo) ==> AtLeast(y.brk, lo) && AtLeast(y.brkStore, lo)) &&
      (AtLeast(x.cont, lo) ==> AtLeast(y.cont, lo) && AtLeast(y.contStore, lo)) &&
      (AtLeast(x.sw, lo) ==> AtLeast(y.sw, lo) && (HasSwitch(body) ==> AtLeast(y.swStore, lo)))
    decreases body, 2
  {
    hide RawStmt;
    RawStores(body, n, d, Save(x, brk, cont));
    RawRecent(body, n, d, Save(x, brk, cont), lo);
  }

  /** The parts of a generated for statement. */
  lemma ForRaw(s: Stmt, n: nat, d: int, x: Slots) returns (r: Raw, q: Raw)
    requires s.For? && RawStmt(s, n, d, x).Some?
    ensures RawStmt(s.init, n, d, x) == Some(r)
    ensures var b := n + StmtLabels(s.init); RawStmt(s.body, b + 3 + OptionLabels(s.test), d, Save(r.slots, b + 2, b + 1)) == Some(q)
    ensures RawStmt(s, n, d, x).value.slots == Restore(q.slots)
  {
    hide StmtLabels, OptionLabels, CompilableOption, TestCode, OptionCode, ExprCode, Compilable, ExprLabels;
    var For(init, test, step, body) := s;
    r := RawStmt(init, n, d, x).value;
    var b := n + StmtLabels(init);
    q := RawStmt(body, b + 3 + OptionLabels(test), d, Save(r.slots, b + 2, b + 1)).value;
    ForRawIs(s, n, d, x, r, q);
  }

  lemma {:induction false} RawRecentFor(s: Stmt, n: nat, d: int, x: Slots, lo: nat)
    requires s.For? && RawStmt(s, n, d, x).Some? && lo <= n
    ensures Recent(s, x, RawStmt(s, n, d, x).value.slots, lo)
    decreases s, 0
  {
    hide RawStmt, StmtLabels, OptionLabels;
    var r, q := ForRaw(s, n, d, x);
    var b := n + StmtLabels(s.init);
    RawRecent(s.init, n, d, x, lo);
    RawRecentLoop(s.body, b + 3 + OptionLabels(s.test), d, r.slots, b + 2, b + 1, lo);
    RawStores(s.body, b + 3 + OptionLabels(s.test), d, Save(r.slots, b + 2, b + 1));
  }

  lemma {:induction false} RawAlways(s: Stmt, n: nat, d: int, x: Slots, t: Targets)
    requires CompilableStmt(s) && WellNested(s, x.brk.Some?, x.cont.Some?, x.sw.Some?)
    ensures RawFits(s, n, d, x, t)
    decreases s, 1
  {
    hide *;
    match s {
      case Sequence(_, _) => RawAlwaysSequence(s, n, d, x, t);
      case If(_, _) => RawAlwaysOne(s, n, d, x, t);
      case IfElse(_, _, _) => RawAlwaysIfElse(s, n, d, x, t);
      case While(_, _) => RawAlwaysOne(s, n, d, x, t);
      case DoWhile(_, _) => RawAlwaysOne(s, n, d, x, t);
      case For(_, _, _, _) => RawAlwaysFor(s, n, d, x, t);
      case Switch(_, _) => RawAlwaysSwitch(s, n, d, x, t);
      case _ => RawAlwaysSimple(s, n, d, x, t);
    }
  }

  lemma RawAlwaysSimple(s: Stmt, n: nat, d: int, x: Slots, t: Targets)
    requires !s.Sequence? && !s.If? && !s.IfElse? && !s.While? && !s.DoWhile? && !s.For? && !s.Switch?
    requires CompilableStmt(s) && WellNested(s, x.brk.Some?, x.cont.Some?, x.sw.Some?)
    ensures RawFits(s, n, d, x, t)
  {
    hide ExprCode, ExprLabels, Compilable, OptionCode, CompilableOption, InitializeCode;
  }

  lemma {:induction false} RawAlwaysOne(s: Stmt, n: nat, d: int, x: Slots, t: Targets)
    requires s.If? || s.While? || s.DoWhile?
    requires CompilableStmt(s) && WellNested(s, x.brk.Some?, x.cont.Some?, x.sw.Some?)
    ensures RawFits(s, n, d, x, t)
    decreases s, 0
  {
    hide ExprCode, ExprLabels, StmtLabels, Compilable;
    match s {
      case If(c, a) => RawAlways(a, n + ExprLabels(c) + 1, d, x, t);
      case While(c, body) => RawAlwaysLoop(body, n + 2 + ExprLabels(c), d, x, n + 1, n, t.(brk := Some(n + 1), cont := Some(n)));
      case DoWhile(body, c) => RawAlwaysLoop(body, n + 2, d, x, n + 1, n, t.(brk := Some(n + 1), cont := Some(n)));
    }
  }

  lemma {:induction false} RawAlwaysSequence(s: Stmt, n: nat, d: int, x: Slots, t: Targets)
    requires s.Sequence? && CompilableStmt(s) && WellNested(s, x.brk.Some?, x.cont.Some?, x.sw.Some?)
    ensures RawFits(s, n, d, x, t)
    decreases s, 0
  {
    hide ExprCode, ExprLabels, StmtLabels, Compilable, TestCode, OptionCode, OptionLabels;
    RawAlways(s.first, n, d, x, t);
    var y := RawStmt(s.first, n, d, x).value.slots;
    Wider(s.rest, x, y);
    RawAlways(s.rest, n + StmtLabels(s.first), d, y, t.(sw := NextSwitch(s.first, n, t.sw)));
  }

  lemma {:induction false} RawAlwaysFor(s: Stmt, n: nat, d: int, x: Slots, t: Targets)
    requires s.For? && CompilableStmt(s) && WellNested(s, x.brk.Some?, x.cont.Some?, x.sw.Some?)
    ensures RawFits(s, n, d, x, t)
    decreases s, 0
  {
    hide RawStmt, StmtCode, StmtLabels, OptionLabels;
    var b := n + StmtLabels(s.init);
    var l := b + 3 + OptionLabels(s.test);
    RawAlways(s.init, n, d, x, t);
    var y := RawStmt(s.init, n, d, x).value.slots;
    WiderFlags(s.body, true, true, x.sw.Some?, true, true, y.sw.Some?);
    var t' := t.(sw := NextSwitch(s.init, n, t.sw));
    RawAlwaysLoop(s.body, l, d, y, b + 2, b + 1, t'.(brk := Some(b + 2), cont := Some(b + 1)));
    ForFits(s, n, d, x, t, RawStmt(s.init, n, d, x).value, RawStmt(s.body, l, d, Save(y, b + 2, b + 1)).value);
  }

  /** A for statement from its parts. */
  lemma ForFits(s: Stmt, n: nat, d: int, x: Slots, t: Targets, r: Raw, q: Raw)
    requires s.For? && CompilableOption(s.test) && CompilableOption(s.step)
    requires RawStmt(s.init, n, d, x) == Some(r) && |r.code| == |StmtCode(s.init, n, d, t)| && StillSet(x, Restore(q.slots))
    requires var b := n + StmtLabels(s.init); var l := b + 3 + OptionLabels(s.test);
      RawStmt(s.body, l, d, Save(r.slots, b + 2, b + 1)) == Some(q) &&
      |q.code| == |StmtCode(s.body, l, d, Targets(Some(b + 2), Some(b + 1), NextSwitch(s.init, n, t.sw)))|
    ensures RawFits(s, n, d, x, t)
  {
    hide RawStmt, StmtCode, StmtLabels, OptionLabels, CompilableOption, TestCode, OptionCode, ExprCode, Compilable, ExprLabels, NextSwitch;
    ForRawIs(s, n, d, x, r, q);
    ForLexical(s, n, d, t);
  }

  lemma ForRawIs(s: Stmt, n: nat, d: int, x: Slots, r: Raw, q: Raw)
    requires s.For? && CompilableOption(s.test) && CompilableOption(s.step) && RawStmt(s.init, n, d, x) == Some(r)
    requires var b := n + StmtLabels(s.init); RawStmt(s.body, b + 3 + OptionLabels(s.test), d, Save(r.slots, b + 2, b + 1)) == Some(q)
    ensures RawStmt(s, n, d, x) == Some(Raw(r.code + ForFrame(s, n + StmtLabels(s.init), d, q.code), Restore(q.slots)))
  {
    hide StmtLabels, OptionLabels, CompilableOption, TestCode, OptionCode, ExprCode, Compilable, ExprLabels;
  }

  /** The code of a for statement after its first clause, around that of its body. */
  function ForFrame(s: Stmt, b: nat, d: int, body: seq<Instr>): seq<Instr>
    requires s.For?
  {
    var l := b + 3 + OptionLabels(s.test);
    [Label(b)] + TestCode(s.test, b + 3, d, b + 2) + (body + ([Label(b + 1)] + OptionCode(s.step, l + StmtLabels(s.body), d) + [Jmp(b), Label(b + 2)]))
  }

  lemma ForLexical(s: Stmt, n: nat, d: int, t: Targets)
    requires s.For?
    ensures var b := n + StmtLabels(s.init); var t' := Targets(Some(b + 2), Some(b + 1), NextSwitch(s.init, n, t.sw));
      StmtCode(s, n, d, t) == StmtCode(s.init, n, d, t) + ForFrame(s, b, d, StmtCode(s.body, b + 3 + OptionLabels(s.test), d, t'))
  {
    hide StmtLabels, OptionLabels, TestCode, OptionCode, ExprCode, ExprLabels, NextSwitch;
  }

  lemma {:induction false} Wider(s: Stmt, x: Slots, y: Slots)
    requires WellNested(s, x.brk.Some?, x.cont.Some?, x.sw.Some?) && StillSet(x, y)
    ensures WellNested(s, y.brk.Some?, y.cont.Some?, y.sw.Some?)
    decreases s
  {
    WiderFlags(s, x.brk.Some?, x.cont.Some?, x.sw.Some?, y.brk.Some?, y.cont.Some?, y.sw.Some?);
  }

  lemma {:induction false} WiderFlags(s: Stmt, b: bool, c: bool, w: bool, b': bool, c': bool, w': bool)
    requires WellNested(s, b, c, w) && (b ==> b') && (c ==> c') && (w ==> w')
    ensures WellNested(s, b', c', w')
    decreases s
  {
    match s {
      case Sequence(p, q) => WiderFlags(p, b, c, w, b', c', w'); WiderFlags(q, b, c, w, b', c', w');
      case If(_, p) => WiderFlags(p, b, c, w, b', c', w');
      case IfElse(_, p, q) => WiderFlags(p, b, c, w, b', c', w'); WiderFlags(q, b, c, w, b', c', w');
      case While(_, p) => WiderFlags(p, true, true, w, true, true, w');
      case DoWhile(p, _) => WiderFlags(p, true, true, w, true, true, w');
      case For(i, _, _, p) => WiderFlags(i, b, c, w, b', c', w'); WiderFlags(p, true, true, w, true, true, w');
      case Switch(_, p) => WiderFlags(p, true, c, true, true, c', true);
      case _ =>
    }
  }

  /** The body of a loop, with its labels saved and restored. */
  lemma {:induction false} RawAlwaysLoop(body: Stmt, n: nat, d: int, x: Slots, brk: nat, cont: nat, t: Targets)
    requires CompilableStmt(body) && WellNested(body, true, true, x.sw.Some?)
    ensures RawFits(body, n, d, Save(x, brk, cont), t)
    ensures var y := RawStmt(body, n, d, Save(x, brk, cont)).value.slots; StillSet(x, Restore(y))
    decreases body, 2
  {
    hide StmtCode, ExprCode, StmtLabels, RawStmt;
    RawAlways(body, n, d, Save(x, brk, cont), t);
    RawStores(body, n, d, Save(x, brk, cont));
    RawRecent(body, n, d, Save(x, brk, cont), 0);
  }

  lemma {:induction false} RawAlwaysIfElse(s: Stmt, n: nat, d: int, x: Slots, t: Targets)
    requires s.IfElse? && CompilableStmt(s) && WellNested(s, x.brk.Some?, x.cont.Some?, x.sw.Some?)
    ensures RawFits(s, n, d, x, t)
    decreases s, 0
  {
    hide ExprCode, ExprLabels, StmtLabels, Compilable;
    var IfElse(c, a, b) := s;
    var ne := n + ExprLabels(c);
    RawAlways(a, ne + 1, d, x, t);
    var y := RawStmt(a, ne + 1, d, x).value.slots;
    Wider(b, x, y);
    RawAlways(b, ne + 1 + StmtLabels(a) + 1, d, y, t.(sw := NextSwitch(a, ne + 1, t.sw)));
  }

  lemma {:induction false} RawAlwaysSwitch(s: Stmt, n: nat, d: int, x: Slots, t: Targets)
    requires s.Switch? && CompilableStmt(s) && WellNested(s, x.brk.Some?, x.cont.Some?, x.sw.Some?)
    ensures RawFits(s, n, d, x, t)
    decreases s, 0
  {
    hide ExprCode, ExprLabels, StmtLabels, Compilable;
    var sw := n + ExprLabels(s.e);
    var x' := SwitchSave(x, sw);
    RawAlways(s.body, sw + 2, d, x', t.(brk := Some(sw + 1), sw := Some(sw)));
    RawStores(s.body, sw + 2, d, x');
    RawRecent(s.body, sw + 2, d, x', 0);
  }

  // ------------------------------------ slots against a stack of labels

  /** A lexical label is in its slot or has been displaced. */
  ghost predicate Tracks(x: Slots, t: Targets, f: Flags) {
    (f.b <==> x.brk == t.brk) && (f.c <==> x.cont == t.cont) && (f.w <==> x.sw == t.sw) &&
    (t.brk.Some? ==> x.brk.Some?) && (t.cont.Some? ==> x.cont.Some?) && (t.sw.Some? ==> x.sw.Some?)
  }

  ghost predicate Below(t: Targets, n: nat) {
    (t.brk.Some? ==> t.brk.value < n) && (t.cont.Some? ==> t.cont.value < n) && (t.sw.Some? ==> t.sw.value < n)
  }

  /** The generated code is the lexical code exactly when the scan finds every label in
      place; and while it is, the slots go on being tracked. */
  ghost predicate Matches(s: Stmt, n: nat, d: int, x: Slots, t: Targets, f: Flags) {
    RawFits(s, n, d, x, t) &&
    var r := RawStmt(s, n, d, x).value;
    (r.code == StmtCode(s, n, d, t) <==> Scan(s, f).safe) &&
    (Scan(s, f).safe ==> Tracks(r.slots, t.(sw := NextSwitch(s, n, t.sw)), Scan(s, f).flags))
  }

  lemma SameEnds(a: seq<Instr>, b: seq<Instr>, b': seq<Instr>, c: seq<Instr>)
    requires |b| == |b'|
    ensures a + (b + c) == a + (b' + c) <==> b == b'
  {
    if a + (b + c) == a + (b' + c) {
      assert b == (a + (b + c))[|a|..|a| + |b|];
      assert b' == (a + (b' + c))[|a|..|a| + |b|];
    }
  }

  lemma SameParts(a: seq<Instr>, a': seq<Instr>, b: seq<Instr>, b': seq<Instr>)
    requires |a| == |a'|
    ensures a + b == a' + b' <==> a == a' && b == b'
  {
    if a + b == a' + b' {
      assert a == (a + b)[..|a|] && b == (a + b)[|a|..];
      assert a' == (a' + b')[..|a|] && b' == (a' + b')[|a|..];
    }
  }

  lemma {:induction false} SlotsMatch(s: Stmt, n: nat, d: int, x: Slots, t: Targets, f: Flags)
    requires CompilableStmt(s) && WellNested(s, t.brk.Some?, t.cont.Some?, t.sw.Some?)
    requires Tracks(x, t, f) && Below(t, n)
    ensures Matches(s, n, d, x, t, f)
    decreases s, 1
  {
    hide *;
    match s {
      case Sequence(_, _) => MatchSequence(s, n, d, x, t, f);
      case If(_, _) => MatchIf(s, n, d, x, t, f);
      case IfElse(_, _, _) => MatchIfElse(s, n, d, x, t, f);
      case While(_, _) => MatchWhile(s, n, d, x, t, f);
      case DoWhile(_, _) => MatchDo(s, n, d, x, t, f);
      case For(_, _, _, _) => MatchFor(s, n, d, x, t, f);
      case Switch(_, _) => MatchSwitch(s, n, d, x, t, f);
      case _ => MatchSimple(s, n, d, x, t, f);
    }
  }

  lemma MatchSimple(s: Stmt, n: nat, d: int, x: Slots, t: Targets, f: Flags)
    requires !s.Sequence? && !s.If? && !s.IfElse? && !s.While? && !s.DoWhile? && !s.For? && !s.Switch?
    requires CompilableStmt(s) && WellNested(s, t.brk.Some?, t.cont.Some?, t.sw.Some?)
    requires Tracks(x, t, f) && Below(t, n)
    ensures Matches(s, n, d, x, t, f)
  {
    hide ExprCode, ExprLabels, Compilable, OptionCode, InitializeCode;
    match s {
      case Case(v) => DifferAt(StmtCode(s, n, d, t), RawStmt(s, n, d, x).value.code, 1);
      case Default => DifferAt(StmtCode(s, n, d, t), RawStmt(s, n, d, x).value.code, 0);
      case Break => DifferAt(StmtCode(s, n, d, t), RawStmt(s, n, d, x).value.code, 0);
      case Continue => DifferAt(StmtCode(s, n, d, t), RawStmt(s, n, d, x).value.code, 0);
      case _ =>
    }
  }

  lemma DifferAt(a: seq<Instr>, b: seq<Instr>, i: int)
    requires |a| == |b| && 0 <= i < |a|
    ensures a == b ==> a[i] == b[i]
  {
  }

  lemma {:induction false} WiderTargets(s: Stmt, x: Slots, t: Targets, f: Flags)
    requires WellNested(s, t.brk.Some?, t.cont.Some?, t.sw.Some?) && Tracks(x, t, f)
    ensures WellNested(s, x.brk.Some?, x.cont.Some?, x.sw.Some?)
  {
    WiderFlags(s, t.brk.Some?, t.cont.Some?, t.sw.Some?, x.brk.Some?, x.cont.Some?, x.sw.Some?);
  }

  /** Two statements in a row: when the first differs, so does the whole; when it does
      not, the second is tracked. */
  lemma {:induction false} MatchTwo(s: Stmt, a: Stmt, na: nat, b: Stmt, nb: nat, d: int, x: Slots, t: Targets, f: Flags)
    requires a < s && b < s && na <= nb
    requires CompilableStmt(a) && WellNested(a, t.brk.Some?, t.cont.Some?, t.sw.Some?) && Tracks(x, t, f) && Below(t, na)
    requires var t' := t.(sw := NextSwitch(a, na, t.sw)); Below(t', nb) && WellNested(b, t'.brk.Some?, t'.cont.Some?, t'.sw.Some?)
    requires CompilableStmt(b) && (NextSwitch(a, na, t.sw).Some? ==> t.sw.Some?)
    ensures RawFits(a, na, d, x, t) && RawFits(b, nb, d, RawStmt(a, na, d, x).value.slots, t.(sw := NextSwitch(a, na, t.sw)))
    ensures var ra := RawStmt(a, na, d, x).value; var t' := t.(sw := NextSwitch(a, na, t.sw)); var rb := RawStmt(b, nb, d, ra.slots).value;
      var fa := Scan(a, f); var fb := Scan(b, fa.flags); var t'' := t'.(sw := NextSwitch(b, nb, t'.sw));
      StillSet(x, rb.slots) &&
      (ra.code == StmtCode(a, na, d, t) && rb.code == StmtCode(b, nb, d, t') <==> fa.safe && fb.safe) &&
      (fa.safe && fb.safe ==> Tracks(rb.slots, t'', fb.flags))
    decreases s, 0, 0
  {
    hide StmtCode, RawStmt, Scan, NextSwitch, CompilableStmt, WellNested;
    SlotsMatch(a, na, d, x, t, f);
    var y := RawStmt(a, na, d, x).value.slots;
    var t' := t.(sw := NextSwitch(a, na, t.sw));
    if Scan(a, f).safe {
      SlotsMatch(b, nb, d, y, t', Scan(a, f).flags);
    } else {
      TwoNested(b, x, y, t, t', f);
      RawAlways(b, nb, d, y, t');
    }
  }

  lemma TwoNested(b: Stmt, x: Slots, y: Slots, t: Targets, t': Targets, f: Flags)
    requires Tracks(x, t, f) && StillSet(x, y) && t'.brk == t.brk && t'.cont == t.cont && (t'.sw.Some? ==> t.sw.Some?)
    requires WellNested(b, t'.brk.Some?, t'.cont.Some?, t'.sw.Some?)
    ensures WellNested(b, y.brk.Some?, y.cont.Some?, y.sw.Some?)
  {
    WiderFlags(b, t'.brk.Some?, t'.cont.Some?, t'.sw.Some?, y.brk.Some?, y.cont.Some?, y.sw.Some?);
  }

  /** The second of two statements in a row is as well nested as the first. */
  lemma InARow(a: Stmt, na: nat, b: Stmt, nb: nat, t: Targets)
    requires WellNested(a, t.brk.Some?, t.cont.Some?, t.sw.Some?) && WellNested(b, t.brk.Some?, t.cont.Some?, t.sw.Some?)
    requires Below(t, na) && na + StmtLabels(a) <= nb
    ensures var t' := t.(sw := NextSwitch(a, na, t.sw)); Below(t', nb) && WellNested(b, t'.brk.Some?, t'.cont.Some?, t'.sw.Some?)
    ensures NextSwitch(a, na, t.sw).Some? ==> t.sw.Some?
  {
    hide StmtLabels, NextSwitch, Markers, WellNested;
    NestedMore(a, t.brk.Some?, t.cont.Some?, t.sw.Some?);
    NextSwitchRange(a, na, t.sw);
  }

  lemma {:induction false} MatchSequence(s: Stmt, n: nat, d: int, x: Slots, t: Targets, f: Flags)
    requires s.Sequence?
    requires CompilableStmt(s) && WellNested(s, t.brk.Some?, t.cont.Some?, t.sw.Some?)
    requires Tracks(x, t, f) && Below(t, n)
    ensures Matches(s, n, d, x, t, f)
    decreases s, 0
  {
    hide StmtLabels, Compilable, WellNested, Tracks, Below, StillSet, RawStmt, StmtCode, Scan, NextSwitch;
    var Sequence(a, b) := s;
    var nb := n + StmtLabels(a);
    SequenceNested(s, t);
    InARow(a, n, b, nb, t);
    MatchTwo(s, a, n, b, nb, d, x, t, f);
    var ra := RawStmt(a, n, d, x).value;
    var rb := RawStmt(b, nb, d, ra.slots).value;
    var t' := t.(sw := NextSwitch(a, n, t.sw));
    SameParts(ra.code, StmtCode(a, n, d, t), rb.code, StmtCode(b, nb, d, t'));
    SequenceLevel(s, n, d, x, t, f, ra, rb);
  }

  lemma SequenceLevel(s: Stmt, n: nat, d: int, x: Slots, t: Targets, f: Flags, ra: Raw, rb: Raw)
    requires s.Sequence?
    requires RawStmt(s.first, n, d, x) == Some(ra) && RawStmt(s.rest, n + StmtLabels(s.first), d, ra.slots) == Some(rb)
    ensures var Sequence(a, b) := s; var nb := n + StmtLabels(a); var t' := t.(sw := NextSwitch(a, n, t.sw));
      RawStmt(s, n, d, x) == Some(Raw(ra.code + rb.code, rb.slots)) &&
      StmtCode(s, n, d, t) == StmtCode(a, n, d, t) + StmtCode(b, nb, d, t') &&
      NextSwitch(s, n, t.sw) == NextSwitch(b, nb, t'.sw) &&
      Scan(s, f) == Scanned(Scan(a, f).safe && Scan(b, Scan(a, f).flags).safe, Scan(b, Scan(a, f).flags).flags)
  {
    hide StmtLabels, Compilable;
  }

  lemma SequenceNested(s: Stmt, t: Targets)
    requires s.Sequence? && WellNested(s, t.brk.Some?, t.cont.Some?, t.sw.Some?)
    ensures WellNested(s.first, t.brk.Some?, t.cont.Some?, t.sw.Some?) && WellNested(s.rest, t.brk.Some?, t.cont.Some?, t.sw.Some?)
  {
  }

  lemma {:induction false} MatchIf(s: Stmt, n: nat, d: int, x: Slots, t: Targets, f: Flags)
    requires s.If?
    requires CompilableStmt(s) && WellNested(s, t.brk.Some?, t.cont.Some?, t.sw.Some?)
    requires Tracks(x, t, f) && Below(t, n)
    ensures Matches(s, n, d, x, t, f)
    decreases s, 0
  {
    hide ExprCode, ExprLabels, StmtLabels, Compilable, Tracks, StillSet;
    var ne := n + ExprLabels(s.cond);
    SlotsMatch(s.yes, ne + 1, d, x, t, f);
    SameEnds(ExprCode(s.cond, n, d) + [Test, Je(ne)], RawStmt(s.yes, ne + 1, d, x).value.code, StmtCode(s.yes, ne + 1, d, t), [Label(ne)]);
  }

  lemma SameArms(p: seq<Instr>, a: seq<Instr>, a': seq<Instr>, m: seq<Instr>, b: seq<Instr>, b': seq<Instr>, e: seq<Instr>)
    requires |a| == |a'| && |b| == |b'|
    ensures p + (a + m + (b + e)) == p + (a' + m + (b' + e)) <==> a == a' && b == b'
  {
    var y, y' := a + m + (b + e), a' + m + (b' + e);
    SameParts(p, p, y, y');
    SameParts(a + m, a' + m, b + e, b' + e);
    SameParts(a, a', m, m);
    SameParts(b, b', e, e);
  }

  lemma IfElseNested2(s: Stmt, n: nat, t: Targets)
    requires s.IfElse? && WellNested(s, t.brk.Some?, t.cont.Some?, t.sw.Some?)
    ensures WellNested(s.yes, t.brk.Some?, t.cont.Some?, t.sw.Some?) && WellNested(s.no, t.brk.Some?, t.cont.Some?, t.sw.Some?)
  {
  }

  /** The parts of an if statement with an else. */
  lemma IfElseIs(s: Stmt, n: nat, d: int, x: Slots, t: Targets, r: Raw, q: Raw, ne: nat, end: nat)
    requires s.IfElse? && Compilable(s.cond) && ne == n + ExprLabels(s.cond) && end == ne + 1 + StmtLabels(s.yes)
    requires RawStmt(s.yes, ne + 1, d, x) == Some(r) && RawStmt(s.no, end + 1, d, r.slots) == Some(q)
    ensures RawStmt(s, n, d, x) == Some(Raw(ExprCode(s.cond, n, d) + [Test, Je(ne)] + (r.code + [Jmp(end), Label(ne)] + (q.code + [Label(end)])), q.slots))
    ensures StmtCode(s, n, d, t) == ExprCode(s.cond, n, d) + [Test, Je(ne)] + (StmtCode(s.yes, ne + 1, d, t) + [Jmp(end), Label(ne)] +
      (StmtCode(s.no, end + 1, d, t.(sw := NextSwitch(s.yes, ne + 1, t.sw))) + [Label(end)]))
  {
    hide Compilable, ExprCode, ExprLabels, StmtLabels, NextSwitch;
  }

  lemma IfElseScan(s: Stmt, n: nat, sw: Option<nat>, f: Flags)
    requires s.IfElse?
    ensures var g := Scan(s.yes, f); var h := Scan(s.no, g.flags); Scan(s, f) == Scanned(g.safe && h.safe, h.flags)
    ensures var ne := n + ExprLabels(s.cond);
      NextSwitch(s, n, sw) == NextSwitch(s.no, ne + 1 + StmtLabels(s.yes) + 1, NextSwitch(s.yes, ne + 1, sw))
  {
    hide ExprLabels, StmtLabels;
  }

  lemma {:induction false} MatchIfElse(s: Stmt, n: nat, d: int, x: Slots, t: Targets, f: Flags)
    requires s.IfElse?
    requires CompilableStmt(s) && WellNested(s, t.brk.Some?, t.cont.Some?, t.sw.Some?)
    requires Tracks(x, t, f) && Below(t, n)
    ensures Matches(s, n, d, x, t, f)
    decreases s, 0
  {
    hide ExprCode, ExprLabels, StmtLabels, Compilable, WellNested, Tracks, StillSet, RawStmt, StmtCode, Scan, NextSwitch, Below;
    var IfElse(c, a, b) := s;
    var ne := n + ExprLabels(c);
    var end := ne + 1 + StmtLabels(a);
    BelowLater(t, n, ne + 1);
    IfElseNested2(s, n, t);
    InARow(a, ne + 1, b, end + 1, t);
    MatchTwo(s, a, ne + 1, b, end + 1, d, x, t, f);
    var r := RawStmt(a, ne + 1, d, x).value;
    var q := RawStmt(b, end + 1, d, r.slots).value;
    var t' := t.(sw := NextSwitch(a, ne + 1, t.sw));
    IfElseIs(s, n, d, x, t, r, q, ne, end);
    IfElseScan(s, n, t.sw, f);
    SameArms(ExprCode(c, n, d) + [Test, Je(ne)], r.code, StmtCode(a, ne + 1, d, t), [Jmp(end), Label(ne)],
      q.code, StmtCode(b, end + 1, d, t'), [Label(end)]);
  }

  /** After a loop, a slot holds its old label exactly when the body did not spoil it. */
  lemma {:induction false} MatchLoop(s: Stmt, body: Stmt, n: nat, d: int, lo: nat, x: Slots, t: Targets, f: Flags, brk: nat, cont: nat)
    requires body < s && lo <= brk < n && lo <= cont < n && Below(t, lo) && Tracks(x, t, f)
    requires CompilableStmt(body) && WellNested(body, true, true, t.sw.Some?)
    ensures var t' := t.(brk := Some(brk), cont := Some(cont)); var x' := Save(x, brk, cont);
      var r := Scan(body, Flags(true, true, f.w));
      RawFits(body, n, d, x', t') &&
      (RawStmt(body, n, d, x').value.code == StmtCode(body, n, d, t') <==> r.safe) &&
      StillSet(x, Restore(RawStmt(body, n, d, x').value.slots)) &&
      (r.safe ==> Tracks(Restore(RawStmt(body, n, d, x').value.slots), t.(sw := NextSwitch(body, n, t.sw)), AfterLoop(body, f, r).flags))
    decreases s, 0, 1
  {
    hide StmtCode, RawStmt, Scan, NextSwitch, Recent, Untouched, AfterLoop, StillSet;
    var t' := t.(brk := Some(brk), cont := Some(cont));
    var x' := Save(x, brk, cont);
    SlotsMatch(body, n, d, x', t', Flags(true, true, f.w));
    RawStores(body, n, d, x');
    RawRecent(body, n, d, x', lo);
    LoopTracks(body, x, x', RawStmt(body, n, d, x').value.slots, t, f, Scan(body, Flags(true, true, f.w)), NextSwitch(body, n, t.sw), lo);
  }

  lemma LoopTracks(body: Stmt, x: Slots, x': Slots, y: Slots, t: Targets, f: Flags, r: Scanned, next: Option<nat>, lo: nat)
    requires x'.brkStore == x.brk && x'.contStore == x.cont && x'.sw == x.sw && AtLeast(x'.brk, lo) && AtLeast(x'.cont, lo)
    requires Below(t, lo) && Tracks(x, t, f) && StillSet(x', y) && Untouched(body, x', y) && Recent(body, x', y, lo)
    requires r.safe ==> (r.flags.w <==> y.sw == next) && (next.Some? ==> y.sw.Some?)
    ensures StillSet(x, Restore(y))
    ensures r.safe ==> Tracks(Restore(y), t.(sw := next), AfterLoop(body, f, r).flags)
  {
    hide HasBreakable, HasLoop, HasSwitch;
  }

  lemma {:induction false} MatchWhile(s: Stmt, n: nat, d: int, x: Slots, t: Targets, f: Flags)
    requires s.While?
    requires CompilableStmt(s) && WellNested(s, t.brk.Some?, t.cont.Some?, t.sw.Some?)
    requires Tracks(x, t, f) && Below(t, n)
    ensures Matches(s, n, d, x, t, f)
    decreases s, 0
  {
    hide ExprCode, ExprLabels, StmtLabels, Compilable, Tracks, StillSet, HasBreakable, HasLoop, HasSwitch;
    var m := n + 2 + ExprLabels(s.cond);
    MatchLoop(s, s.body, m, d, n, x, t, f, n + 1, n);
    SameEnds([Label(n)] + ExprCode(s.cond, n + 2, d) + [Test, Je(n + 1)], RawStmt(s.body, m, d, Save(x, n + 1, n)).value.code,
      StmtCode(s.body, m, d, t.(brk := Some(n + 1), cont := Some(n))), [Jmp(n), Label(n + 1)]);
  }

  lemma {:induction false} MatchDo(s: Stmt, n: nat, d: int, x: Slots, t: Targets, f: Flags)
    requires s.DoWhile?
    requires CompilableStmt(s) && WellNested(s, t.brk.Some?, t.cont.Some?, t.sw.Some?)
    requires Tracks(x, t, f) && Below(t, n)
    ensures Matches(s, n, d, x, t, f)
    decreases s, 0
  {
    hide ExprCode, ExprLabels, StmtLabels, Compilable, Tracks, StillSet, HasBreakable, HasLoop, HasSwitch;
    MatchLoop(s, s.body, n + 2, d, n, x, t, f, n + 1, n);
    var r, c := RawStmt(s.body, n + 2, d, Save(x, n + 1, n)).value.code, StmtCode(s.body, n + 2, d, t.(brk := Some(n + 1), cont := Some(n)));
    var tail := ExprCode(s.cond, n + 2 + StmtLabels(s.body), d) + [Test, Je(n + 1)] + [Jmp(n), Label(n + 1)];
    SameParts([Label(n)] + r, [Label(n)] + c, tail, tail);
    SameParts([Label(n)], [Label(n)], r, c);
  }

  lemma ForNested2(s: Stmt, n: nat, t: Targets)
    requires s.For? && WellNested(s, t.brk.Some?, t.cont.Some?, t.sw.Some?) && Below(t, n)
    ensures WellNested(s.init, t.brk.Some?, t.cont.Some?, t.sw.Some?)
    ensures var sw' := NextSwitch(s.init, n, t.sw);
      WellNested(s.body, true, true, sw'.Some?) && (sw'.Some? ==> sw'.value < n + StmtLabels(s.init)) && (t.sw.Some? ==> sw'.Some?)
  {
    hide StmtLabels;
    NestedMore(s.init, t.brk.Some?, t.cont.Some?, t.sw.Some?);
    NextSwitchRange(s.init, n, t.sw);
  }

  /** The loop of a for statement after its first clause. */
  lemma {:induction false} MatchForLoop(s: Stmt, b: nat, d: int, y: Slots, t: Targets, f: Flags)
    requires s.For? && CompilableStmt(s) && WellNested(s.body, true, true, t.sw.Some?) && Tracks(y, t, f) && Below(t, b)
    ensures var l := b + 3 + OptionLabels(s.test); var x' := Save(y, b + 2, b + 1); var t' := t.(brk := Some(b + 2), cont := Some(b + 1));
      var r := Scan(s.body, Flags(true, true, f.w));
      RawFits(s.body, l, d, x', t') &&
      (RawStmt(s.body, l, d, x').value.code == StmtCode(s.body, l, d, t') <==> r.safe) &&
      (r.safe ==> Tracks(Restore(RawStmt(s.body, l, d, x').value.slots), t.(sw := NextSwitch(s.body, l, t.sw)), AfterLoop(s.body, f, r).flags))
    decreases s, 0, 2
  {
    hide StmtCode, RawStmt, Scan, NextSwitch, HasBreakable, HasLoop, HasSwitch, WellNested, Tracks, StillSet, OptionLabels;
    MatchLoop(s, s.body, b + 3 + OptionLabels(s.test), d, b, y, t, f, b + 2, b + 1);
  }

  lemma SameFor(s: Stmt, b: nat, d: int, i: seq<Instr>, i': seq<Instr>, a: seq<Instr>, a': seq<Instr>)
    requires s.For? && |i| == |i'| && |a| == |a'|
    ensures i + ForFrame(s, b, d, a) == i' + ForFrame(s, b, d, a') <==> i == i' && a == a'
  {
    hide StmtLabels, OptionLabels, TestCode, OptionCode;
    SameParts(i, i', ForFrame(s, b, d, a), ForFrame(s, b, d, a'));
    SameEnds([Label(b)] + TestCode(s.test, b + 3, d, b + 2), a, a',
      [Label(b + 1)] + OptionCode(s.step, b + 3 + OptionLabels(s.test) + StmtLabels(s.body), d) + [Jmp(b), Label(b + 2)]);
  }

  lemma ForScan(s: Stmt, n: nat, f: Flags, sw: Option<nat>)
    requires s.For?
    ensures var g := Scan(s.init, f).flags; var r := AfterLoop(s.body, g, Scan(s.body, Flags(true, true, g.w)));
      Scan(s, f) == Scanned(Scan(s.init, f).safe && r.safe, r.flags)
    ensures NextSwitch(s, n, sw) ==
      NextSwitch(s.body, n + StmtLabels(s.init) + 3 + OptionLabels(s.test), NextSwitch(s.init, n, sw))
  {
    hide StmtLabels, OptionLabels, HasBreakable, HasLoop;
  }

  /** A for statement from what is known of its two statements. */
  lemma ForMatches(s: Stmt, n: nat, b: nat, l: nat, d: int, x: Slots, t: Targets, t1: Targets, f: Flags, r: Raw, q: Raw)
    requires s.For? && CompilableOption(s.test) && CompilableOption(s.step)
    requires b == n + StmtLabels(s.init) && l == b + 3 + OptionLabels(s.test) && t1 == t.(sw := NextSwitch(s.init, n, t.sw))
    requires RawFits(s, n, d, x, t) && Matches(s.init, n, d, x, t, f)
    requires RawStmt(s.init, n, d, x) == Some(r) && RawStmt(s.body, l, d, Save(r.slots, b + 2, b + 1)) == Some(q)
    requires |q.code| == |StmtCode(s.body, l, d, t1.(brk := Some(b + 2), cont := Some(b + 1)))|
    requires var g := Scan(s.init, f); var k := Scan(s.body, Flags(true, true, g.flags.w));
      g.safe ==>
        (q.code == StmtCode(s.body, l, d, t1.(brk := Some(b + 2), cont := Some(b + 1))) <==> k.safe) &&
        (k.safe ==> Tracks(Restore(q.slots), t1.(sw := NextSwitch(s.body, l, t1.sw)), AfterLoop(s.body, g.flags, k).flags))
    ensures Matches(s, n, d, x, t, f)
  {
    hide StmtLabels, OptionLabels, CompilableOption, TestCode, OptionCode, ExprCode, Compilable, ExprLabels, NextSwitch, Scan, RawStmt, StmtCode,
      Tracks, ForFrame, HasBreakable, HasLoop, StillSet;
    ForRawIs(s, n, d, x, r, q);
    ForLexical(s, n, d, t);
    ForScan(s, n, f, t.sw);
    SameFor(s, b, d, r.code, StmtCode(s.init, n, d, t), q.code, StmtCode(s.body, l, d, t1.(brk := Some(b + 2), cont := Some(b + 1))));
  }

  lemma {:induction false} MatchFor(s: Stmt, n: nat, d: int, x: Slots, t: Targets, f: Flags)
    requires s.For?
    requires CompilableStmt(s) && WellNested(s, t.brk.Some?, t.cont.Some?, t.sw.Some?)
    requires Tracks(x, t, f) && Below(t, n)
    ensures Matches(s, n, d, x, t, f)
    decreases s, 0
  {
    hide StmtLabels, WellNested, Tracks, StillSet, HasBreakable, HasLoop, HasSwitch, OptionLabels, TestCode, OptionCode, Below,
      CompilableOption, AfterLoop, StmtCode, RawStmt, Scan, NextSwitch, ExprCode, Compilable, ExprLabels;
    var b := n + StmtLabels(s.init);
    var l := b + 3 + OptionLabels(s.test);
    var t1 := t.(sw := NextSwitch(s.init, n, t.sw));
    ForNested2(s, n, t);
    RawAlwaysTracked(s, n, d, x, t, f);
    SlotsMatch(s.init, n, d, x, t, f);
    var r := RawStmt(s.init, n, d, x).value;
    var q := RawStmt(s.body, l, d, Save(r.slots, b + 2, b + 1)).value;
    BelowMore(t, t1, n, b);
    if Scan(s.init, f).safe {
      MatchForLoop(s, b, d, r.slots, t1, Scan(s.init, f).flags);
    }
    ForMatches(s, n, b, l, d, x, t, t1, f, r, q);
  }

  lemma BelowLater(t: Targets, n: nat, b: nat)
    requires Below(t, n) && n <= b
    ensures Below(t, b)
  {
  }

  lemma BelowMore(t: Targets, t1: Targets, n: nat, b: nat)
    requires Below(t, n) && n <= b && t1.brk == t.brk && t1.cont == t.cont && (t1.sw.Some? ==> t1.sw.value < b)
    ensures Below(t1, b)
  {
  }

  /** Whatever the scan says, a for statement is generated at its proper length. */
  lemma RawAlwaysTracked(s: Stmt, n: nat, d: int, x: Slots, t: Targets, f: Flags)
    requires s.For? && CompilableStmt(s) && WellNested(s, t.brk.Some?, t.cont.Some?, t.sw.Some?) && Tracks(x, t, f)
    ensures RawFits(s, n, d, x, t) && RawFits(s.init, n, d, x, t)
    ensures var b := n + StmtLabels(s.init); var y := RawStmt(s.init, n, d, x).value.slots;
      RawFits(s.body, b + 3 + OptionLabels(s.test), d, Save(y, b + 2, b + 1),
        t.(sw := NextSwitch(s.init, n, t.sw), brk := Some(b + 2), cont := Some(b + 1)))
  {
    hide StmtCode, RawStmt, NextSwitch, RawFits, StmtLabels, OptionLabels;
    WiderTargets(s, x, t, f);
    RawAlways(s, n, d, x, t);
    RawAlways(s.init, n, d, x, t);
    FitsSet(s.init, n, d, x, t);
    var b := n + StmtLabels(s.init);
    var y := RawStmt(s.init, n, d, x).value.slots;
    WiderFlags(s.body, true, true, x.sw.Some?, true, true, y.sw.Some?);
    RawAlways(s.body, b + 3 + OptionLabels(s.test), d, Save(y, b + 2, b + 1),
      t.(sw := NextSwitch(s.init, n, t.sw), brk := Some(b + 2), cont := Some(b + 1)));
  }

  lemma FitsSet(s: Stmt, n: nat, d: int, x: Slots, t: Targets)
    requires RawFits(s, n, d, x, t)
    ensures RawStmt(s, n, d, x).Some? && StillSet(x, RawStmt(s, n, d, x).value.slots)
  {
    hide StmtCode, RawStmt;
  }

  /** The parts of a switch statement. */
  lemma SwitchIs(s: Stmt, n: nat, d: int, x: Slots, t: Targets, r: Raw, a: nat, z: nat, next: nat)
    requires s.Switch? && Compilable(s.e)
    requires RawStmt(s.body, n + ExprLabels(s.e) + 2, d, SwitchSave(x, n + ExprLabels(s.e))) == Some(r)
    requires r.slots.sw == Some(a) && r.slots.brk == Some(z)
    requires NextSwitch(s.body, n + ExprLabels(s.e) + 2, Some(n + ExprLabels(s.e))) == Some(next)
    ensures var sw := n + ExprLabels(s.e);
      RawStmt(s, n, d, x) == Some(Raw(ExprCode(s.e, n, d) + [Jmp(sw)] + (r.code + [Label(a), Label(z)]), SwitchRestore(r.slots))) &&
      StmtCode(s, n, d, t) == ExprCode(s.e, n, d) + [Jmp(sw)] +
        (StmtCode(s.body, sw + 2, d, t.(brk := Some(sw + 1), sw := Some(sw))) + [Label(next), Label(sw + 1)])
    ensures NextSwitch(s, n, t.sw) == t.sw
  {
    SwitchRaw(s, n, d, x, r, a, z);
    SwitchCode(s, n, d, t, next);
    hide RawStmt, StmtCode;
  }

  lemma SwitchRaw(s: Stmt, n: nat, d: int, x: Slots, r: Raw, a: nat, z: nat)
    requires s.Switch? && Compilable(s.e)
    requires RawStmt(s.body, n + ExprLabels(s.e) + 2, d, SwitchSave(x, n + ExprLabels(s.e))) == Some(r)
    requires r.slots.sw == Some(a) && r.slots.brk == Some(z)
    ensures RawStmt(s, n, d, x) ==
      Some(Raw(ExprCode(s.e, n, d) + [Jmp(n + ExprLabels(s.e))] + (r.code + [Label(a), Label(z)]), SwitchRestore(r.slots)))
  {
    hide Compilable, ExprCode, ExprLabels, StmtLabels, StmtCode, NextSwitch;
  }

  lemma SwitchCode(s: Stmt, n: nat, d: int, t: Targets, next: nat)
    requires s.Switch? && NextSwitch(s.body, n + ExprLabels(s.e) + 2, Some(n + ExprLabels(s.e))) == Some(next)
    ensures var sw := n + ExprLabels(s.e);
      StmtCode(s, n, d, t) == ExprCode(s.e, n, d) + [Jmp(sw)] +
        (StmtCode(s.body, sw + 2, d, t.(brk := Some(sw + 1), sw := Some(sw))) + [Label(next), Label(sw + 1)])
  {
    hide ExprCode, ExprLabels, StmtLabels, RawStmt;
  }

  lemma SwitchScan(s: Stmt, f: Flags)
    requires s.Switch?
    ensures var r := Scan(s.body, Flags(true, f.c, true));
      Scan(s, f) == Scanned(r.safe && r.flags.b && r.flags.w, Flags(f.b && !HasBreakable(s.body), r.flags.c, f.w && !HasSwitch(s.body)))
  {
    hide HasBreakable, HasSwitch;
  }

  /** After a switch, a slot holds its old label exactly when the body did not spoil it. */
  lemma {:induction false} MatchSwitchBody(s: Stmt, sw: nat, d: int, x: Slots, t: Targets, f: Flags) returns (r: Raw, a: nat, z: nat, next: nat)
    requires s.Switch? && CompilableStmt(s) && WellNested(s.body, true, t.cont.Some?, true) && Tracks(x, t, f) && Below(t, sw)
    ensures RawStmt(s.body, sw + 2, d, SwitchSave(x, sw)) == Some(r) && r.slots.sw == Some(a) && r.slots.brk == Some(z)
    ensures NextSwitch(s.body, sw + 2, Some(sw)) == Some(next) && StillSet(x, SwitchRestore(r.slots))
    ensures var t' := t.(brk := Some(sw + 1), sw := Some(sw)); var k := Scan(s.body, Flags(true, f.c, true));
      |r.code| == |StmtCode(s.body, sw + 2, d, t')| && (r.code == StmtCode(s.body, sw + 2, d, t') <==> k.safe) &&
      (k.safe ==> (k.flags.w <==> a == next) && (k.flags.b <==> z == sw + 1)) &&
      (k.safe ==> Tracks(SwitchRestore(r.slots), t, Flags(f.b && !HasBreakable(s.body), k.flags.c, f.w && !HasSwitch(s.body))))
    decreases s, 0, 1
  {
    hide StmtCode, RawStmt, Scan, HasBreakable, HasSwitch, HasLoop;
    var t' := t.(brk := Some(sw + 1), sw := Some(sw));
    var x' := SwitchSave(x, sw);
    SlotsMatch(s.body, sw + 2, d, x', t', Flags(true, f.c, true));
    RawStores(s.body, sw + 2, d, x');
    r := RawStmt(s.body, sw + 2, d, x').value;
    RawRecent(s.body, sw + 2, d, x', sw);
    a, z, next := r.slots.sw.value, r.slots.brk.value, NextSwitch(s.body, sw + 2, Some(sw)).value;
  }

  lemma {:induction false} MatchSwitch(s: Stmt, n: nat, d: int, x: Slots, t: Targets, f: Flags)
    requires s.Switch?
    requires CompilableStmt(s) && WellNested(s, t.brk.Some?, t.cont.Some?, t.sw.Some?)
    requires Tracks(x, t, f) && Below(t, n)
    ensures Matches(s, n, d, x, t, f)
    decreases s, 0
  {
    hide StmtCode, RawStmt, Scan, HasBreakable, HasSwitch, HasLoop, ExprCode, ExprLabels, NextSwitch, Tracks, Compilable, StillSet;
    var sw := n + ExprLabels(s.e);
    BelowLater(t, n, sw);
    var r, a, z, next := MatchSwitchBody(s, sw, d, x, t, f);
    SwitchIs(s, n, d, x, t, r, a, z, next);
    SwitchScan(s, f);
    SameEndLabels(ExprCode(s.e, n, d) + [Jmp(sw)], r.code, StmtCode(s.body, sw + 2, d, t.(brk := Some(sw + 1), sw := Some(sw))), a, z, next, sw + 1);
  }

  lemma SameEndLabels(p: seq<Instr>, a: seq<Instr>, a': seq<Instr>, x: nat, y: nat, x': nat, y': nat)
    requires |a| == |a'|
    ensures p + (a + [Label(x), Label(y)]) == p + (a' + [Label(x'), Label(y')]) <==> a == a' && x == x' && y == y'
  {
    SameParts(p, p, a + [Label(x), Label(y)], a' + [Label(x'), Label(y')]);
    SameParts(a, a', [Label(x), Label(y)], [Label(x'), Label(y')]);
    SameParts([Label(x)], [Label(x')], [Label(y)], [Label(y')]);
    assert [Label(x), Label(y)] == [Label(x)] + [Label(y)] && [Label(x'), Label(y')] == [Label(x')] + [Label(y')];
    assert [Label(x)] == [Label(x')] <==> [Label(x)][0] == [Label(x')][0];
    assert [Label(y)] == [Label(y')] <==> [Label(y)][0] == [Label(y')][0];
  }

  // -------------------------------------------------- the main results

  /** A scan only depends on the labels the nesting allows the statement to use. */
  lemma {:induction false} ScanUsed(s: Stmt, f: Flags, g: Flags, b: bool, c: bool, w: bool)
    requires WellNested(s, b, c, w) && (b ==> f.b == g.b) && (c ==> f.c == g.c) && (w ==> f.w == g.w)
    ensures var p, q := Scan(s, f), Scan(s, g);
      p.safe == q.safe && (b ==> p.flags.b == q.flags.b) && (c ==> p.flags.c == q.flags.c) && (w ==> p.flags.w == q.flags.w)
    decreases s, 1
  {
    hide HasBreakable, HasLoop, HasSwitch;
    match s {
      case Sequence(x, y) => ScanUsed(x, f, g, b, c, w); ScanUsed(y, Scan(x, f).flags, Scan(x, g).flags, b, c, w);
      case If(_, x) => ScanUsed(x, f, g, b, c, w);
      case IfElse(_, x, y) => ScanUsed(x, f, g, b, c, w); ScanUsed(y, Scan(x, f).flags, Scan(x, g).flags, b, c, w);
      case While(_, _) => LoopScanUsed(s, f, g, b, c, w);
      case DoWhile(_, _) => LoopScanUsed(s, f, g, b, c, w);
      case For(_, _, _, _) => LoopScanUsed(s, f, g, b, c, w);
      case Switch(_, x) => ScanUsed(x, Flags(true, f.c, true), Flags(true, g.c, true), true, c, true);
      case _ =>
    }
  }

  lemma {:induction false} LoopScanUsed(s: Stmt, f: Flags, g: Flags, b: bool, c: bool, w: bool)
    requires (s.While? || s.DoWhile? || s.For?) && WellNested(s, b, c, w)
    requires (b ==> f.b == g.b) && (c ==> f.c == g.c) && (w ==> f.w == g.w)
    ensures var p, q := Scan(s, f), Scan(s, g);
      p.safe == q.safe && (b ==> p.flags.b == q.flags.b) && (c ==> p.flags.c == q.flags.c) && (w ==> p.flags.w == q.flags.w)
    decreases s, 0
  {
    hide HasBreakable, HasLoop, HasSwitch;
    if s.For? {
      ScanUsed(s.init, f, g, b, c, w);
      ScanUsed(s.body, Flags(true, true, Scan(s.init, f).flags.w), Flags(true, true, Scan(s.init, g).flags.w), true, true, w);
    } else {
      ScanUsed(s.body, Flags(true, true, f.w), Flags(true, true, g.w), true, true, w);
    }
  }

  const Closed := Targets(None, None, None)

  /** A function body is always generated, whatever labels earlier functions left in the
      slots; and its code is that of the lexical nesting exactly when it is safe. */
  lemma RawIsLexical(s: Stmt, n: nat, d: int, x: Slots)
    requires CompilableStmt(s) && WellNested(s, false, false, false)
    ensures RawStmt(s, n, d, x).Some?
    ensures RawStmt(s, n, d, x).value.code == StmtCode(s, n, d, Closed) <==> SlotSafe(s)
  {
    hide RawStmt, StmtCode, WellNested, CompilableStmt, Scan, NextSwitch;
    var f := Flags(x.brk == None, x.cont == None, x.sw == None);
    SlotsMatch(s, n, d, x, Closed, f);
    ScanUsed(s, f, Flags(true, true, true), false, false, false);
  }

  /** A statement with no construct inside a construct leaves the slots as they were. */
  lemma {:induction false} ShallowSafe(s: Stmt, f: Flags, b: bool, c: bool, w: bool)
    requires Nesting(s) <= 1 && WellNested(s, b, c, w) && (b ==> f.b) && (c ==> f.c) && (w ==> f.w)
    ensures Scan(s, f) == Scanned(true, f)
    decreases s
  {
    match s {
      case Sequence(x, y) => ShallowSafe(x, f, b, c, w); ShallowSafe(y, f, b, c, w);
      case If(_, x) => ShallowSafe(x, f, b, c, w);
      case IfElse(_, x, y) => ShallowSafe(x, f, b, c, w); ShallowSafe(y, f, b, c, w);
      case While(_, x) => Flat(x); ShallowSafe(x, Flags(true, true, f.w), true, true, w);
      case DoWhile(x, _) => Flat(x); ShallowSafe(x, Flags(true, true, f.w), true, true, w);
      case For(i, _, _, x) =>
        Flat(x);
        ShallowSafe(i, f, b, c, w);
        ShallowSafe(x, Flags(true, true, f.w), true, true, w);
      case Switch(_, x) => Flat(x); ShallowSafe(x, Flags(true, f.c, true), true, c, true);
      case _ =>
    }
  }

  lemma {:induction false} Flat(s: Stmt)
    requires Nesting(s) == 0
    ensures !HasBreakable(s) && !HasLoop(s) && !HasSwitch(s)
    decreases s
  {
    match s {
      case Sequence(x, y) => Flat(x); Flat(y);
      case If(_, x) => Flat(x);
      case IfElse(_, x, y) => Flat(x); Flat(y);
      case _ =>
    }
  }

  /** With loops and switches nested at most two deep, every break, continue and case
      finds the label of its own construct. */
  lemma {:induction false} TwoDeepSafe(s: Stmt, f: Flags)
    requires Nesting(s) <= 2 && WellNested(s, false, false, false)
    ensures Scan(s, f).safe
    decreases s
  {
    match s {
      case Sequence(x, y) => TwoDeepSafe(x, f); TwoDeepSafe(y, Scan(x, f).flags);
      case If(_, x) => TwoDeepSafe(x, f);
      case IfElse(_, x, y) => TwoDeepSafe(x, f); TwoDeepSafe(y, Scan(x, f).flags);
      case While(_, x) => ShallowSafe(x, Flags(true, true, f.w), true, true, false);
      case DoWhile(x, _) => ShallowSafe(x, Flags(true, true, f.w), true, true, false);
      case For(i, _, _, x) => TwoDeepSafe(i, f); ShallowSafe(x, Flags(true, true, Scan(i, f).flags.w), true, true, false);
      case Switch(_, x) => ShallowSafe(x, Flags(true, f.c, true), true, false, true);
      case _ =>
    }
  }

  predicate Older(l: Option<nat>, n: nat) { l.Some? ==> l.value < n }

  /** After a loop or switch the break label is what it was before exactly when the body
      holds no other loop or switch; and after a loop the continue label is, exactly when
      the body holds no other loop. */
  lemma {:induction false} RestoredExactly(s: Stmt, n: nat, d: int, x: Slots)
    requires IsBreakable(s) && (s.For? ==> !HasBreakable(s.init))
    requires RawStmt(s, n, d, x).Some? && Older(x.brk, n) && Older(x.cont, n)
    ensures var y := RawStmt(s, n, d, x).value.slots;
      (y.brk == x.brk <==> !HasBreakable(s.body)) && (!s.Switch? ==> (y.cont == x.cont <==> !HasLoop(s.body)))
  {
    hide ExprCode, ExprLabels, StmtLabels, Compilable, TestCode, OptionCode, OptionLabels, RawStmt, HasBreakable, HasLoop;
    match s {
      case While(c, body) => LoopParts(s, n, d, x); LoopRestores(body, n + 2 + ExprLabels(c), d, x, n + 1, n, n);
      case DoWhile(body, c) => LoopParts(s, n, d, x); LoopRestores(body, n + 2, d, x, n + 1, n, n);
      case For(init, test, _, body) =>
        var r, q := ForRaw(s, n, d, x);
        var b := n + StmtLabels(init);
        RawStores(init, n, d, x);
        BreakableLoop(init);
        LoopRestores(body, b + 3 + OptionLabels(test), d, r.slots, b + 2, b + 1, n);
      case Switch(e, body) => SwitchRestores(s, n, d, x);
    }
  }

  lemma {:induction false} BreakableLoop(s: Stmt)
    requires !HasBreakable(s)
    ensures !HasLoop(s)
    decreases s
  {
    match s {
      case Sequence(x, y) => BreakableLoop(x); BreakableLoop(y);
      case If(_, x) => BreakableLoop(x);
      case IfElse(_, x, y) => BreakableLoop(x); BreakableLoop(y);
      case _ =>
    }
  }

  lemma LoopParts(s: Stmt, n: nat, d: int, x: Slots)
    requires (s.While? || s.DoWhile?) && RawStmt(s, n, d, x).Some?
    ensures var r := RawStmt(s.body, if s.While? then n + 2 + ExprLabels(s.cond) else n + 2, d, Save(x, n + 1, n));
      r.Some? && RawStmt(s, n, d, x).value.slots == Restore(r.value.slots)
  {
    hide ExprCode, ExprLabels, StmtLabels, Compilable;
  }

  lemma LoopRestores(body: Stmt, n: nat, d: int, x: Slots, brk: nat, cont: nat, lo: nat)
    requires RawStmt(body, n, d, Save(x, brk, cont)).Some? && lo <= brk && lo <= cont && lo <= n
    requires Older(x.brk, lo) && Older(x.cont, lo)
    ensures var y := Restore(RawStmt(body, n, d, Save(x, brk, cont)).value.slots);
      (y.brk == x.brk <==> !HasBreakable(body)) && (y.cont == x.cont <==> !HasLoop(body))
  {
    hide RawStmt, HasBreakable, HasLoop, HasSwitch;
    RawStores(body, n, d, Save(x, brk, cont));
    RawRecent(body, n, d, Save(x, brk, cont), lo);
  }

  lemma SwitchRestores(s: Stmt, n: nat, d: int, x: Slots)
    requires s.Switch? && RawStmt(s, n, d, x).Some? && Older(x.brk, n)
    ensures RawStmt(s, n, d, x).value.slots.brk == x.brk <==> !HasBreakable(s.body)
  {
    hide ExprCode, ExprLabels, StmtLabels, Compilable, HasBreakable, HasLoop, HasSwitch;
    var sw := n + ExprLabels(s.e);
    RawStores(s.body, sw + 2, d, SwitchSave(x, sw));
    RawRecent(s.body, sw + 2, d, SwitchSave(x, sw), n);
  }

  function Forever(n: nat, body: seq<Instr>): seq<Instr> {
    [Label(n), MovImm(1, RAX), Test, Je(n + 1)] + (body + [Jmp(n), Label(n + 1)])
  }

  lemma ForeverIs(body: Stmt, n: nat, x: Slots, t: Targets, r: Raw)
    requires RawStmt(body, n + 2, 0, Save(x, n + 1, n)) == Some(r)
    ensures RawStmt(While(Literal(1), body), n, 0, x) == Some(Raw(Forever(n, r.code), Restore(r.slots)))
    ensures StmtCode(While(Literal(1), body), n, 0, t) == Forever(n, StmtCode(body, n + 2, 0, t.(brk := Some(n + 1), cont := Some(n))))
    ensures StmtLabels(While(Literal(1), body)) == 2 + StmtLabels(body)
  {
    var head := [Label(n)] + ExprCode(Literal(1), n + 2, 0) + [Test, Je(n + 1)];
    assert head == [Label(n), MovImm(1, RAX), Test, Je(n + 1)];
  }

  /** Three deep, a break can leave the wrong loop: this one is in the outermost loop and
      jumps to the end of the middle one. */
  lemma ThreeDeep(x: Slots)
    ensures var s := While(Literal(1), Sequence(While(Literal(1), While(Literal(1), Skip)), Break));
      Nesting(s) == 3 && WellNested(s, false, false, false) && !SlotSafe(s)
    ensures var s := While(Literal(1), Sequence(While(Literal(1), While(Literal(1), Skip)), Break));
      RawStmt(s, 0, 0, x).Some? && |RawStmt(s, 0, 0, x).value.code| == 19 && RawStmt(s, 0, 0, x).value.code[16] == Jmp(3) &&
      |StmtCode(s, 0, 0, Closed)| == 19 && StmtCode(s, 0, 0, Closed)[16] == Jmp(1)
  {
    hide RawStmt, StmtCode, Nesting, WellNested, Scan, ExprCode;
    var inner := While(Literal(1), Skip);
    var mid := While(Literal(1), inner);
    var a := Save(x, 1, 0);
    var b := Save(a, 3, 2);
    SkipIs(6, Save(b, 5, 4), Targets(Some(5), Some(4), None));
    var loop1 := Forever(4, []);
    var loop2 := Forever(2, loop1);
    ForeverIs(Skip, 4, b, Targets(Some(3), Some(2), None), Raw([], Save(b, 5, 4)));
    ForeverIs(inner, 2, a, Targets(Some(1), Some(0), None), Raw(loop1, Restore(Save(b, 5, 4))));
    var y := Restore(Restore(Save(b, 5, 4)));
    ThreeDeepEnd(x, mid, y, loop2);
    ForeverAt(loop2, Jmp(3));
    ForeverAt(loop2, Jmp(1));
    ThreeDeepShape(inner);
  }

  lemma SkipIs(n: nat, x: Slots, t: Targets)
    ensures RawStmt(Skip, n, 0, x) == Some(Raw([], x)) && StmtCode(Skip, n, 0, t) == []
  {
  }

  lemma ThreeDeepEnd(x: Slots, mid: Stmt, y: Slots, code: seq<Instr>)
    requires RawStmt(mid, 2, 0, Save(x, 1, 0)) == Some(Raw(code, y)) && y.brk == Some(3)
    requires StmtCode(mid, 2, 0, Targets(Some(1), Some(0), None)) == code
    ensures RawStmt(While(Literal(1), Sequence(mid, Break)), 0, 0, x) == Some(Raw(Forever(0, code + [Jmp(3)]), Restore(y)))
    ensures StmtCode(While(Literal(1), Sequence(mid, Break)), 0, 0, Closed) == Forever(0, code + [Jmp(1)])
  {
    hide Forever, StmtLabels, NextSwitch;
    var body := Sequence(mid, Break);
    assert RawStmt(body, 2, 0, Save(x, 1, 0)) == Some(Raw(code + [Jmp(3)], y));
    assert StmtCode(body, 2, 0, Targets(Some(1), Some(0), None)) == code + [Jmp(1)];
    ForeverIs(body, 0, x, Closed, Raw(code + [Jmp(3)], y));
  }

  lemma ForeverAt(code: seq<Instr>, i: Instr)
    requires |code| == 12
    ensures |Forever(0, code + [i])| == 19 && Forever(0, code + [i])[16] == i
  {
  }

  lemma ThreeDeepShape(inner: Stmt)
    requires inner == While(Literal(1), Skip)
    ensures var s := While(Literal(1), Sequence(While(Literal(1), inner), Break));
      Nesting(s) == 3 && WellNested(s, false, false, false) && !SlotSafe(s)
  {
    var mid := While(Literal(1), inner);
    var f := Flags(true, true, true);
    assert Nesting(mid) == 2 && WellNested(mid, true, true, false) && HasBreakable(inner);
    assert !Scan(mid, f).flags.b;
    assert !Scan(Sequence(mid, Break), f).safe;
  }
}
