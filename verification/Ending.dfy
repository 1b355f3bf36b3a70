/** How a run can end: it ends, is stuck, or never ends. */
module Endings {
  import opened Words
  import opened Runs
  import opened Machine
  import opened Syntax
  import opened Semantics
  import opened Dialects
  import opened Divergence

  /** The run meets, within the fuel, an operation that has no meaning in the dialect. */
  predicate Stuck(d: Dialect, c: Context, s: Stmt, entry: Option<nat>, mem: Memory, fuel: nat)
    requires entry.Some? ==> entry.value < |Markers(s)|
    decreases fuel, s, 2
  {
    match s
    case Sequence(a, b) =>
      if entry.Some? && entry.value >= |Markers(a)| then
        Stuck(d, c, b, Some(entry.value - |Markers(a)|), mem, fuel)
      else
        Stuck(d, c, a, entry, mem, fuel) ||
        var r := Exec(d, c, a, entry, mem, fuel);
        r.Some? && r.value.outcome.Normal? && Stuck(d, c, b, None, r.value.mem, fuel)
    case Expression(e) => Eval(d, c, e, mem).None?
    case Initialize(off, e) => Eval(d, c, Assign(Local(off), e), mem).None?
    case If(b, y) =>
      if entry.Some? then Stuck(d, c, y, entry, mem, fuel) else
      var v := Eval(d, c, b, mem);
      v.None? || (v.value.value != 0 && Stuck(d, c, y, None, v.value.mem, fuel))
    case IfElse(b, y, n) =>
      if entry.Some? then
        if entry.value < |Markers(y)| then Stuck(d, c, y, entry, mem, fuel)
        else Stuck(d, c, n, Some(entry.value - |Markers(y)|), mem, fuel)
      else
      var v := Eval(d, c, b, mem);
      v.None? || if v.value.value != 0 then Stuck(d, c, y, None, v.value.mem, fuel) else Stuck(d, c, n, None, v.value.mem, fuel)
    case While(b, body) =>
      if entry.Some? then StuckIn(d, c, s, entry, mem, fuel) else
      var v := Eval(d, c, b, mem);
      v.None? || (v.value.value != 0 && StuckIn(d, c, s, None, v.value.mem, fuel))
    case DoWhile(_, _) => StuckIn(d, c, s, entry, mem, fuel)
    case For(init, _, _, _) =>
      if entry.Some? && entry.value >= |Markers(init)| then
        StuckIn(d, c, s, Some(entry.value - |Markers(init)|), mem, fuel)
      else
        Stuck(d, c, init, entry, mem, fuel) ||
        var r := Exec(d, c, init, entry, mem, fuel);
        r.Some? && r.value.outcome.Normal? && StuckLoop(d, c, s, r.value.mem, fuel)
    case Switch(e, body) =>
      var v := Eval(d, c, e, mem);
      v.None? || (d == Narrow && !IsInt(v.value.value)) || Choice(d, v.value.value, Markers(body)).None? ||
      var target := Selected(d, v.value.value, Markers(body));
      target.Some? && Stuck(d, c, body, target, v.value.mem, fuel)
    case Return(r) => EvalOption(d, c, r, 0, mem).None?
    case _ => false
  }

  function Choice(d: Dialect, v: Word, ms: seq<Marker>): Option<Option<nat>> {
    Pick(d, Some(SelectIso(v, ms)), Some(SelectLice(v, ms)))
  }

  predicate StuckIn(d: Dialect, c: Context, s: Stmt, entry: Option<nat>, mem: Memory, fuel: nat)
    requires (s.While? || s.DoWhile? || s.For?) && (entry.Some? ==> entry.value < |Markers(s.body)|)
    decreases fuel, s, 0
  {
    Stuck(d, c, s.body, entry, mem, fuel) ||
    var r := Exec(d, c, s.body, entry, mem, fuel);
    r.Some? && (r.value.outcome.Normal? || r.value.outcome.Continued?) && fuel > 0 && StuckAgain(d, c, s, r.value, fuel)
  }

  predicate StuckAgain(d: Dialect, c: Context, s: Stmt, r: Done, fuel: nat)
    requires (s.While? || s.DoWhile? || s.For?) && fuel > 0
    decreases fuel - 1, s, 3
  {
    match s
    case While(_, _) => Stuck(d, c, s, None, r.mem, fuel - 1)
    case DoWhile(_, b) =>
      (r.outcome.Continued? && d == Common) ||
      if r.outcome.Continued? && d == Lice then Stuck(d, c, s, None, r.mem, fuel - 1) else
      var v := Eval(d, c, b, r.mem);
      v.None? || (v.value.value != 0 && Stuck(d, c, s, None, v.value.mem, fuel - 1))
    case For(_, _, step, _) =>
      var v := EvalOption(d, c, step, 0, r.mem);
      v.None? || StuckLoop(d, c, s, v.value.mem, fuel - 1)
  }

  predicate StuckLoop(d: Dialect, c: Context, s: Stmt, mem: Memory, fuel: nat)
    requires s.For?
    decreases fuel, s, 1
  {
    var v := EvalOption(d, c, s.test, 1, mem);
    v.None? || (v.value.value != 0 && StuckIn(d, c, s, None, v.value.mem, fuel))
  }

  // ------------------------------------------------------- one of the three

  /** One, and only one, of these. */
  predicate OneOf(ended: bool, stuck: bool, spins: bool) {
    (ended || stuck || spins) && !(ended && stuck) && !(ended && spins) && !(stuck && spins)
  }

  /** With any fuel a run has ended, is stuck, or needs more. */
  lemma {:induction false} Three(d: Dialect, c: Context, s: Stmt, entry: Option<nat>, mem: Memory, fuel: nat)
    requires entry.Some? ==> entry.value < |Markers(s)|
    ensures OneOf(Exec(d, c, s, entry, mem, fuel).Some?, Stuck(d, c, s, entry, mem, fuel), Spins(d, c, s, entry, mem, fuel))
    decreases fuel, s, 3
  {
    hide Eval, SelectIso, SelectLice;
    match s {
      case Sequence(a, b) =>
        if entry.Some? && entry.value >= |Markers(a)| {
          Three(d, c, b, Some(entry.value - |Markers(a)|), mem, fuel);
        } else {
          Three(d, c, a, entry, mem, fuel);
          var r := Exec(d, c, a, entry, mem, fuel);
          if r.Some? { Three(d, c, b, None, r.value.mem, fuel); }
        }
      case If(_, _) => ThreeIf(d, c, s, entry, mem, fuel);
      case IfElse(_, _, _) => ThreeIfElse(d, c, s, entry, mem, fuel);
      case While(_, _) => ThreeWhile(d, c, s, entry, mem, fuel);
      case DoWhile(_, _) => ThreeIn(d, c, s, entry, mem, fuel);
      case For(_, _, _, _) => ThreeFor(d, c, s, entry, mem, fuel);
      case Switch(_, _) => ThreeSwitch(d, c, s, entry, mem, fuel);
      case _ =>
    }
  }

  lemma {:induction false} ThreeIf(d: Dialect, c: Context, s: Stmt, entry: Option<nat>, mem: Memory, fuel: nat)
    requires s.If? && (entry.Some? ==> entry.value < |Markers(s)|)
    ensures OneOf(Exec(d, c, s, entry, mem, fuel).Some?, Stuck(d, c, s, entry, mem, fuel), Spins(d, c, s, entry, mem, fuel))
    decreases fuel, s, 1
  {
    hide Eval;
    var v := Eval(d, c, s.cond, mem);
    if entry.Some? { Three(d, c, s.yes, entry, mem, fuel); } else if v.Some? { Three(d, c, s.yes, None, v.value.mem, fuel); }
  }

  lemma {:induction false} ThreeWhile(d: Dialect, c: Context, s: Stmt, entry: Option<nat>, mem: Memory, fuel: nat)
    requires s.While? && (entry.Some? ==> entry.value < |Markers(s)|)
    ensures OneOf(Exec(d, c, s, entry, mem, fuel).Some?, Stuck(d, c, s, entry, mem, fuel), Spins(d, c, s, entry, mem, fuel))
    decreases fuel, s, 1
  {
    hide Eval, AfterWhile, SpinsIn, StuckIn;
    var v := Eval(d, c, s.cond, mem);
    if entry.Some? { ThreeIn(d, c, s, entry, mem, fuel); } else if v.Some? { ThreeIn(d, c, s, None, v.value.mem, fuel); }
  }

  lemma {:induction false} ThreeIfElse(d: Dialect, c: Context, s: Stmt, entry: Option<nat>, mem: Memory, fuel: nat)
    requires s.IfElse? && (entry.Some? ==> entry.value < |Markers(s)|)
    ensures OneOf(Exec(d, c, s, entry, mem, fuel).Some?, Stuck(d, c, s, entry, mem, fuel), Spins(d, c, s, entry, mem, fuel))
    decreases fuel, s, 1
  {
    hide Eval;
    if entry.Some? {
      if entry.value < |Markers(s.yes)| {
        Three(d, c, s.yes, entry, mem, fuel);
      } else {
        Three(d, c, s.no, Some(entry.value - |Markers(s.yes)|), mem, fuel);
      }
    } else {
      var v := Eval(d, c, s.cond, mem);
      if v.Some? { Three(d, c, if v.value.value != 0 then s.yes else s.no, None, v.value.mem, fuel); }
    }
  }

  lemma {:induction false} ThreeSwitch(d: Dialect, c: Context, s: Stmt, entry: Option<nat>, mem: Memory, fuel: nat)
    requires s.Switch? && (entry.Some? ==> entry.value < |Markers(s)|)
    ensures OneOf(Exec(d, c, s, entry, mem, fuel).Some?, Stuck(d, c, s, entry, mem, fuel), Spins(d, c, s, entry, mem, fuel))
    decreases fuel, s, 1
  {
    hide Eval, SelectIso, SelectLice;
    var v := Eval(d, c, s.e, mem);
    if v.Some? {
      var target := Selected(d, v.value.value, Markers(s.body));
      if target.Some? { Three(d, c, s.body, target, v.value.mem, fuel); }
    }
  }

  lemma {:induction false} ThreeIn(d: Dialect, c: Context, s: Stmt, entry: Option<nat>, mem: Memory, fuel: nat)
    requires (s.While? || s.DoWhile? || s.For?) && (entry.Some? ==> entry.value < |Markers(s.body)|)
    ensures OneOf(AfterBody(d, c, s, Exec(d, c, s.body, entry, mem, fuel), fuel).Some?, StuckIn(d, c, s, entry, mem, fuel), SpinsIn(d, c, s, entry, mem, fuel))
    decreases fuel, s, 0
  {
    hide Eval, Spins, Stuck, StuckAgain, SpinsAgain, Exec, AfterBody;
    Three(d, c, s.body, entry, mem, fuel);
    var r := Exec(d, c, s.body, entry, mem, fuel);
    BodyMissing(d, c, s, r, fuel);
    if r.Some? && fuel > 0 && (r.value.outcome.Normal? || r.value.outcome.Continued?) {
      ThreeAgain(d, c, s, r.value, fuel);
    }
  }

  lemma BodyMissing(d: Dialect, c: Context, s: Stmt, r: Option<Done>, fuel: nat)
    requires s.While? || s.DoWhile? || s.For?
    ensures r.None? || fuel == 0 ==> AfterBody(d, c, s, r, fuel) == None
    ensures r.Some? && fuel > 0 && (r.value.outcome.Broke? || r.value.outcome.Returned?) ==> AfterBody(d, c, s, r, fuel).Some?
  {
    hide Exec, ForLoop, Eval;
  }

  lemma {:induction false} ThreeAgain(d: Dialect, c: Context, s: Stmt, r: Done, fuel: nat)
    requires (s.While? || s.DoWhile? || s.For?) && fuel > 0 && (r.outcome.Normal? || r.outcome.Continued?)
    ensures OneOf(AfterBody(d, c, s, Some(r), fuel).Some?, StuckAgain(d, c, s, r, fuel), SpinsAgain(d, c, s, r, fuel))
    decreases fuel - 1, s, 4
  {
    hide Eval, EvalOption, Spins, Stuck, Exec, SpinsLoop, StuckLoop;
    match s {
      case While(_, _) => Three(d, c, s, None, r.mem, fuel - 1);
      case DoWhile(_, b) =>
        Three(d, c, s, None, r.mem, fuel - 1);
        var v := Eval(d, c, b, r.mem);
        if v.Some? { Three(d, c, s, None, v.value.mem, fuel - 1); }
      case For(_, _, step, _) =>
        var v := EvalOption(d, c, step, 0, r.mem);
        if v.Some? { ThreeLoop(d, c, s, v.value.mem, fuel - 1); }
    }
  }

  lemma {:induction false} ThreeLoop(d: Dialect, c: Context, s: Stmt, mem: Memory, fuel: nat)
    requires s.For?
    ensures OneOf(ForLoop(d, c, s, mem, fuel).Some?, StuckLoop(d, c, s, mem, fuel), SpinsLoop(d, c, s, mem, fuel))
    decreases fuel, s, 1
  {
    hide Eval, EvalOption, Exec, AfterFor, SpinsIn, StuckIn;
    var v := EvalOption(d, c, s.test, 1, mem);
    if v.Some? && v.value.value != 0 { ThreeIn(d, c, s, None, v.value.mem, fuel); }
  }

  lemma {:induction false} ThreeFor(d: Dialect, c: Context, s: Stmt, entry: Option<nat>, mem: Memory, fuel: nat)
    requires s.For? && (entry.Some? ==> entry.value < |Markers(s)|)
    ensures OneOf(Exec(d, c, s, entry, mem, fuel).Some?, Stuck(d, c, s, entry, mem, fuel), Spins(d, c, s, entry, mem, fuel))
    decreases fuel, s, 2
  {
    hide Eval, AfterFor, ForLoop, SpinsIn, SpinsLoop, StuckIn, StuckLoop;
    if entry.Some? && entry.value >= |Markers(s.init)| {
      ThreeIn(d, c, s, Some(entry.value - |Markers(s.init)|), mem, fuel);
    } else {
      Three(d, c, s.init, entry, mem, fuel);
      var r := Exec(d, c, s.init, entry, mem, fuel);
      if r.Some? && r.value.outcome.Normal? { ThreeLoop(d, c, s, r.value.mem, fuel); }
    }
  }

  // ------------------------------------------------------------- more fuel

  /** A run that is stuck stays stuck. */
  lemma {:induction false} StuckMore(d: Dialect, c: Context, s: Stmt, entry: Option<nat>, mem: Memory, fuel: nat)
    requires (entry.Some? ==> entry.value < |Markers(s)|) && Stuck(d, c, s, entry, mem, fuel)
    ensures Stuck(d, c, s, entry, mem, fuel + 1)
    decreases fuel, s, 3
  {
    hide Eval, Exec, SelectIso, SelectLice;
    match s {
      case Sequence(a, b) =>
        if entry.Some? && entry.value >= |Markers(a)| {
          StuckMore(d, c, b, Some(entry.value - |Markers(a)|), mem, fuel);
        } else if Stuck(d, c, a, entry, mem, fuel) {
          StuckMore(d, c, a, entry, mem, fuel);
        } else {
          MoreFuel(d, c, a, entry, mem, fuel);
          StuckMore(d, c, b, None, Exec(d, c, a, entry, mem, fuel).value.mem, fuel);
        }
      case If(b, y) =>
        var v := Eval(d, c, b, mem);
        if entry.Some? { StuckMore(d, c, y, entry, mem, fuel); } else if v.Some? { StuckMore(d, c, y, None, v.value.mem, fuel); }
      case IfElse(_, _, _) => IfElseMore(d, c, s, entry, mem, fuel);
      case While(b, _) =>
        var v := Eval(d, c, b, mem);
        if entry.Some? { StuckInMore(d, c, s, entry, mem, fuel); } else if v.Some? { StuckInMore(d, c, s, None, v.value.mem, fuel); }
      case DoWhile(_, _) => StuckInMore(d, c, s, entry, mem, fuel);
      case For(_, _, _, _) => ForMore(d, c, s, entry, mem, fuel);
      case Switch(e, body) =>
        var v := Eval(d, c, e, mem);
        if v.Some? {
          var target := Selected(d, v.value.value, Markers(body));
          if target.Some? && Stuck(d, c, body, target, v.value.mem, fuel) { StuckMore(d, c, body, target, v.value.mem, fuel); }
        }
      case _ =>
    }
  }

  lemma {:induction false} IfElseMore(d: Dialect, c: Context, s: Stmt, entry: Option<nat>, mem: Memory, fuel: nat)
    requires s.IfElse? && (entry.Some? ==> entry.value < |Markers(s)|) && Stuck(d, c, s, entry, mem, fuel)
    ensures Stuck(d, c, s, entry, mem, fuel + 1)
    decreases fuel, s, 1
  {
    hide Eval, Exec;
    if entry.Some? {
      if entry.value < |Markers(s.yes)| {
        StuckMore(d, c, s.yes, entry, mem, fuel);
      } else {
        StuckMore(d, c, s.no, Some(entry.value - |Markers(s.yes)|), mem, fuel);
      }
    } else {
      var v := Eval(d, c, s.cond, mem);
      if v.Some? { StuckMore(d, c, if v.value.value != 0 then s.yes else s.no, None, v.value.mem, fuel); }
    }
  }

  lemma {:induction false} StuckInMore(d: Dialect, c: Context, s: Stmt, entry: Option<nat>, mem: Memory, fuel: nat)
    requires (s.While? || s.DoWhile? || s.For?) && (entry.Some? ==> entry.value < |Markers(s.body)|) && StuckIn(d, c, s, entry, mem, fuel)
    ensures StuckIn(d, c, s, entry, mem, fuel + 1)
    decreases fuel, s, 0
  {
    hide Eval, Exec, Stuck, StuckAgain;
    if Stuck(d, c, s.body, entry, mem, fuel) {
      StuckMore(d, c, s.body, entry, mem, fuel);
    } else {
      MoreFuel(d, c, s.body, entry, mem, fuel);
      AgainMore(d, c, s, Exec(d, c, s.body, entry, mem, fuel).value, fuel);
    }
  }

  lemma {:induction false} AgainMore(d: Dialect, c: Context, s: Stmt, r: Done, fuel: nat)
    requires (s.While? || s.DoWhile? || s.For?) && fuel > 0 && StuckAgain(d, c, s, r, fuel)
    ensures StuckAgain(d, c, s, r, fuel + 1)
    decreases fuel - 1, s, 4
  {
    hide Eval, EvalOption, Stuck, StuckLoop;
    match s {
      case While(_, _) => StuckMore(d, c, s, None, r.mem, fuel - 1);
      case DoWhile(_, b) =>
        var v := Eval(d, c, b, r.mem);
        if r.outcome.Continued? && d == Lice {
          StuckMore(d, c, s, None, r.mem, fuel - 1);
        } else if !(r.outcome.Continued? && d == Common) && v.Some? {
          StuckMore(d, c, s, None, v.value.mem, fuel - 1);
        }
      case For(_, _, step, _) =>
        var v := EvalOption(d, c, step, 0, r.mem);
        if v.Some? { LoopMore(d, c, s, v.value.mem, fuel - 1); }
    }
  }

  lemma {:induction false} LoopMore(d: Dialect, c: Context, s: Stmt, mem: Memory, fuel: nat)
    requires s.For? && StuckLoop(d, c, s, mem, fuel)
    ensures StuckLoop(d, c, s, mem, fuel + 1)
    decreases fuel, s, 1
  {
    hide Eval, EvalOption, StuckIn;
    var v := EvalOption(d, c, s.test, 1, mem);
    if v.Some? { StuckInMore(d, c, s, None, v.value.mem, fuel); }
  }

  lemma {:induction false} ForMore(d: Dialect, c: Context, s: Stmt, entry: Option<nat>, mem: Memory, fuel: nat)
    requires s.For? && (entry.Some? ==> entry.value < |Markers(s)|) && Stuck(d, c, s, entry, mem, fuel)
    ensures Stuck(d, c, s, entry, mem, fuel + 1)
    decreases fuel, s, 2
  {
    hide Eval, Exec, StuckIn, StuckLoop;
    if entry.Some? && entry.value >= |Markers(s.init)| {
      StuckInMore(d, c, s, Some(entry.value - |Markers(s.init)|), mem, fuel);
    } else if Stuck(d, c, s.init, entry, mem, fuel) {
      StuckMore(d, c, s.init, entry, mem, fuel);
    } else {
      MoreFuel(d, c, s.init, entry, mem, fuel);
      LoopMore(d, c, s, Exec(d, c, s.init, entry, mem, fuel).value.mem, fuel);
    }
  }

  lemma {:induction false} StuckFor(d: Dialect, c: Context, s: Stmt, mem: Memory, fuel: nat, more: nat)
    requires Stuck(d, c, s, None, mem, fuel)
    ensures Stuck(d, c, s, None, mem, fuel + more)
    decreases more
  {
    hide Stuck;
    if more > 0 {
      StuckFor(d, c, s, mem, fuel, more - 1);
      StuckMore(d, c, s, None, mem, fuel + more - 1);
    }
  }

  lemma {:induction false} EndedFor(d: Dialect, c: Context, s: Stmt, mem: Memory, fuel: nat, more: nat)
    requires Exec(d, c, s, None, mem, fuel).Some?
    ensures Exec(d, c, s, None, mem, fuel + more) == Exec(d, c, s, None, mem, fuel)
    decreases more
  {
    hide Exec;
    if more > 0 {
      EndedFor(d, c, s, mem, fuel, more - 1);
      MoreFuel(d, c, s, None, mem, fuel + more - 1);
    }
  }

  // ------------------------------------------------------------- the result

  ghost predicate EverEnds(d: Dialect, c: Context, s: Stmt, mem: Memory) {
    exists fuel: nat :: Exec(d, c, s, None, mem, fuel).Some?
  }

  ghost predicate EverStuck(d: Dialect, c: Context, s: Stmt, mem: Memory) {
    exists fuel: nat :: Stuck(d, c, s, None, mem, fuel)
  }

  /** Every run ends, is stuck or never ends, and does only one of these. */
  lemma {:induction false} EndsStuckOrNever(d: Dialect, c: Context, s: Stmt, mem: Memory)
    ensures OneOf(EverEnds(d, c, s, mem), EverStuck(d, c, s, mem), NeverEnds(d, c, s, mem))
  {
    hide Exec, Stuck, Spins;
    if !EverEnds(d, c, s, mem) && !EverStuck(d, c, s, mem) {
      forall fuel: nat ensures Spins(d, c, s, None, mem, fuel) {
        Three(d, c, s, None, mem, fuel);
      }
    }
    if EverEnds(d, c, s, mem) {
      var f: nat :| Exec(d, c, s, None, mem, f).Some?;
      Three(d, c, s, None, mem, f);
      forall g: nat ensures !Stuck(d, c, s, None, mem, g) {
        NotBoth(d, c, s, mem, f, g);
      }
    } else if EverStuck(d, c, s, mem) {
      var g: nat :| Stuck(d, c, s, None, mem, g);
      Three(d, c, s, None, mem, g);
    }
  }

  lemma {:induction false} NotBoth(d: Dialect, c: Context, s: Stmt, mem: Memory, f: nat, g: nat)
    requires Exec(d, c, s, None, mem, f).Some?
    ensures !Stuck(d, c, s, None, mem, g)
  {
    hide Exec, Stuck, Spins;
    EndedFor(d, c, s, mem, f, g);
    Three(d, c, s, None, mem, f + g);
    if Stuck(d, c, s, None, mem, g) {
      StuckFor(d, c, s, mem, g, f);
      assert false;
    }
  }
}
