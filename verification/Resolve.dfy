/** Where a function's jumps go, gotos included: the whole generator marks every label it
    hands out exactly once, a label statement's when it is placed, and every jump and branch
    goes to a label that is marked. */
module JumpTargets {
  import opened Runs
  import opened StackCode
  import opened StackDiscipline
  import opened StackRuns
  import S = SaveSlots
  import M = Machine
  import N = Syntax
  import C = Code
  import L = Labels
  import G = Gotos

  // -------------------------------------------------------- counting labels

  /** How often the label is marked, and how often it is jumped to. */
  function Marks(c: seq<Instr>, l: nat): nat {
    if |c| == 0 then 0 else Marks(c[..|c| - 1], l) + if c[|c| - 1] == Mark(l) then 1 else 0
  }

  function Jumps(c: seq<Instr>, l: nat): nat {
    if |c| == 0 then 0 else Jumps(c[..|c| - 1], l) + if c[|c| - 1] == Jump(l) || c[|c| - 1] == Branch(l) then 1 else 0
  }

  lemma {:induction false} Counted(v: View, i: Instr, l: nat)
    ensures Marks(Emit(v, i).output, l) == Marks(v.output, l) + (if i == Mark(l) then 1 else 0)
    ensures Jumps(Emit(v, i).output, l) == Jumps(v.output, l) + if i == Jump(l) || i == Branch(l) then 1 else 0
  {
    var c := v.output + [i];
    assert c[..|c| - 1] == v.output;
  }

  /** Labels that do not occur in what was added are not counted there. */
  lemma {:induction false} NotAdded(a: seq<Instr>, b: seq<Instr>, l: nat)
    requires forall i :: 0 <= i < |b| ==> LabelOf(b[i]) != Some(l)
    ensures Marks(a + b, l) == Marks(a, l) && Jumps(a + b, l) == Jumps(a, l)
    decreases |b|
  {
    if |b| == 0 {
      assert a + b == a;
    } else {
      var n := |b| - 1;
      assert (a + b)[..|a + b| - 1] == a + b[..n];
      NotAdded(a, b[..n], l);
    }
  }

  lemma {:induction false} Added(a: seq<Instr>, b: seq<Instr>, l: nat)
    ensures Marks(a + b, l) == Marks(a, l) + Marks(b, l) && Jumps(a + b, l) == Jumps(a, l) + Jumps(b, l)
    decreases |b|
  {
    if |b| == 0 {
      assert a + b == a;
    } else {
      var n := |b| - 1;
      assert (a + b)[..|a + b| - 1] == a + b[..n];
      Added(a, b[..n], l);
    }
  }

  lemma {:induction false} JumpCounts(c: seq<Instr>, i: nat, l: nat)
    requires i < |c| && (c[i] == Jump(l) || c[i] == Branch(l))
    ensures Jumps(c, l) > 0
    decreases |c|
  {
    if i < |c| - 1 {
      JumpCounts(c[..|c| - 1], i, l);
    }
  }

  // ------------------------------------------------------------ expressions

  /** Since v every label handed out was marked once, but for the open ones, and no other. */
  ghost predicate Pending(v: View, w: View, open: set<nat>) {
    v.nextLabel <= w.nextLabel && v.emitted <= w.emitted &&
    forall l: nat :: Marks(w.output, l) == Marks(v.output, l) + if v.nextLabel <= l < w.nextLabel && l !in open then 1 else 0
  }

  /** Nothing was marked or handed out. */
  ghost predicate Quiet(v: View, w: View) {
    w.nextLabel == v.nextLabel && v.emitted <= w.emitted && forall l: nat :: Marks(w.output, l) == Marks(v.output, l)
  }

  lemma {:induction false} PendingNow(v: View)
    ensures Pending(v, v, {})
  {
  }

  lemma {:induction false} Further(v: View, w: View, x: View, open: set<nat>)
    requires Pending(v, w, open) && Pending(w, x, {}) && forall l :: l in open ==> v.nextLabel <= l < w.nextLabel
    ensures Pending(v, x, open)
  {
  }

  lemma {:induction false} QuietFurther(v: View, w: View, x: View, open: set<nat>)
    requires Pending(v, w, open) && Quiet(w, x)
    ensures Pending(v, x, open)
  {
  }

  lemma {:induction false} QuietTwice(v: View, w: View, x: View)
    requires Quiet(v, w) && Quiet(w, x)
    ensures Quiet(v, x)
  {
  }

  lemma {:induction false} QuietClosed(v: View, w: View)
    requires Quiet(v, w)
    ensures Pending(v, w, {})
  {
  }

  lemma {:induction false} Opens(v: View, w: View, open: set<nat>)
    requires Pending(v, w, open)
    ensures Pending(v, Fresh(w), open + {w.nextLabel})
  {
  }

  lemma {:induction false} Closes(v: View, w: View, open: set<nat>, l: nat)
    requires Pending(v, w, open) && l in open && v.nextLabel <= l < w.nextLabel
    ensures Pending(v, Emit(w, Mark(l)), open - {l})
  {
    forall k: nat ensures Marks(Emit(w, Mark(l)).output, k) == Marks(w.output, k) + if k == l then 1 else 0 {
      Counted(w, Mark(l), k);
    }
  }

  lemma {:induction false} QuietEmit(v: View, i: Instr)
    requires !i.Mark?
    ensures Quiet(v, Emit(v, i))
  {
    forall l: nat ensures Marks(Emit(v, i).output, l) == Marks(v.output, l) {
      Counted(v, i, l);
    }
  }

  /** What the stack discipline says of code that takes no label. */
  lemma {:induction false} QuietOn(t: Trail, w: View, m: Depths, d: int)
    requires On(t, w, m, d) && Known(m, t.v.nextLabel) && t.lo == t.v.nextLabel
    ensures Quiet(t.v, w)
  {
    var n := t.v.nextLabel;
    var c := Since(t.v, w);
    assert w.output == t.v.output + c;
    SameNext(m, n, w.nextLabel);
    forall i, l: nat | 0 <= i < |c| ensures LabelOf(c[i]) != Some(l) {
      assert LevelAt(c, i, m, t.base, t.floor, t.lo);
    }
    forall l: nat ensures Marks(w.output, l) == Marks(t.v.output, l) {
      NotAdded(t.v.output, c, l);
    }
  }

  lemma {:induction false} SameNext(m: Depths, n: nat, k: nat)
    requires Known(m, n) && Known(m, k)
    ensures n == k
  {
    assert n !in m && k !in m;
  }

  /** The start of such code on a deep enough stack. */
  lemma {:induction false} Opening(v: View, base: nat) returns (t: Trail, m: Depths)
    ensures t == Trail(v, base, 0, v.nextLabel) && On(t, v, m, base) && Known(m, v.nextLabel)
  {
    t, m := Trail(v, base, 0, v.nextLabel), Ground(v.nextLabel);
  }

  lemma {:induction false} QuietMoves(v: View, to: Kind, from: Kind, base: string, offset: int)
    ensures Quiet(v, Convert(v, to, from)) && Quiet(v, ConvertStored(v, to, from)) && Quiet(v, LoadLocal(v, to, base, offset))
    ensures Quiet(v, SaveLocal(v, to, offset)) && Quiet(v, SaveGlobal(v, to, offset)) && Quiet(v, SaveThrough(v, to, offset))
  {
    hide *;
    var t, m := Opening(v, 1);
    ConvertOn(t, v, m, 1, to, from);
    LoadLocalOn(t, v, m, 1, to, base, offset);
    SaveLocalOn(t, v, m, 1, to, offset);
    SaveGlobalOn(t, v, m, 1, to, offset);
    SaveThroughOn(t, v, m, 1, to, offset);
    QuietOn(t, Convert(v, to, from), m, 1);
    QuietOn(t, ConvertStored(v, to, from), m, 1);
    QuietOn(t, LoadLocal(v, to, base, offset), m, 1);
    QuietOn(t, SaveLocal(v, to, offset), m, 1);
    QuietOn(t, SaveGlobal(v, to, offset), m, 1);
    QuietOn(t, SaveThrough(v, to, offset), m, 0);
  }

  lemma {:induction false} QuietLoadGlobal(v: View, k: Kind, tag: nat, offset: int)
    ensures Quiet(v, LoadGlobal(v, k, tag, offset))
  {
    hide *;
    var t, m := Opening(v, 1);
    LoadGlobalOn(t, v, m, 1, k, tag, offset);
    QuietOn(t, LoadGlobal(v, k, tag, offset), m, 1);
  }

  lemma {:induction false} QuietLiteral(v: View, k: Kind, value: int, offset: int)
    requires SaveLiteral(v, k, value, offset).Done?
    ensures Quiet(v, SaveLiteral(v, k, value, offset).view)
  {
    hide *;
    var t, m := Opening(v, 1);
    SaveLiteralOn(t, v, m, 1, k, value, offset);
    QuietOn(t, SaveLiteral(v, k, value, offset).view, m, 1);
  }

  lemma {:induction false} QuietStack(v: View, r: M.Reg, x: nat)
    ensures Quiet(v, PushReg(v, r)) && Quiet(v, PopReg(v, r)) && Quiet(v, PushXmm(v, x)) && Quiet(v, PopXmm(v, x))
  {
    hide *;
    var t, m := Opening(v, 1);
    Pushed(t, v, m, 1, r);
    PushedXmm(t, v, m, 1, x);
    Popped(t, v, m, 1, r);
    PoppedXmm(t, v, m, 1, x);
    QuietOn(t, PushReg(v, r), m, 2);
    QuietOn(t, PushXmm(v, x), m, 2);
    QuietOn(t, PopReg(v, r), m, 0);
    QuietOn(t, PopXmm(v, x), m, 0);
  }

  lemma {:induction false} QuietPlain(v: View, text: string, operand: int)
    ensures Quiet(v, EmitPlain(v, text, operand))
  {
    hide Quiet, Emit;
    QuietEmit(v, Plain(text, operand));
  }

  lemma {:induction false} QuietPushLeft(e: Expr, v: View)
    requires e.Binary?
    ensures Quiet(v, PushLeft(e, v)) && Quiet(v, Scale(e, v))
  {
    QuietNow(v);
    hide Quiet, PushLeft, EmitPlain, On, Known;
    var t, m := Opening(v, 1);
    PushLeftOn(e, t, v, m, 1);
    QuietOn(t, PushLeft(e, v), m, 2);
    QuietPlain(v, "imul $, %rax", if e.kind.Pointer? then e.kind.scale else 0);
  }

  lemma {:induction false} QuietNow(v: View)
    ensures Quiet(v, v)
  {
  }

  lemma {:induction false} QuietCombine(v: View, kind: Kind, op: Op, right: Kind, floating: bool)
    requires Combine(v, kind, op, right, floating).Done?
    ensures Quiet(v, Combine(v, kind, op, right, floating).view)
  {
    hide *;
    var t, m := Opening(v, 1);
    CombineOn(t, v, m, 1, kind, op, right, floating);
    QuietOn(t, Combine(v, kind, op, right, floating).view, m, 0);
  }

  lemma {:induction false} QuietSaved(v: View, ks: seq<Kind>)
    requires Wholes(ks) <= 6
    ensures Quiet(v, SaveRegisters(v, ks))
  {
    hide *;
    var t, m := Opening(v, 1);
    SaveRegistersOn(t, v, m, 1, ks);
    QuietOn(t, SaveRegisters(v, ks), m, 1 + Saved(ks));
  }

  /** The call itself. */
  lemma {:induction false} QuietCall(v: View, ks: seq<Kind>, name: string, widen: bool)
    requires Wholes(ks) <= 6
    ensures var x := RestoreRegisters(Transfer(LoadArguments(v, ks), name, Floats(ks)), ks);
      Quiet(v, x) && Quiet(v, Emit(x, WidenResult))
  {
    var x := RestoreRegisters(Transfer(LoadArguments(v, ks), name, Floats(ks)), ks);
    hide *;
    var t, m := Opening(v, Saved(ks) + |ks|);
    LoadArgumentsOn(t, v, m, Saved(ks) + |ks|, ks);
    TransferOn(t, LoadArguments(v, ks), m, Saved(ks), name, Floats(ks));
    RestoreRegistersOn(t, Transfer(LoadArguments(v, ks), name, Floats(ks)), m, Saved(ks), ks);
    QuietOn(t, x, m, 0);
    QuietEmit(x, WidenResult);
    QuietTwice(v, x, Emit(x, WidenResult));
  }

  lemma {:induction false} InitsMark(inits: Inits, base: int, v: View)
    requires GenInits(inits, base, v).Done?
    ensures Pending(v, GenInits(inits, base, v).view, {})
    decreases inits, 0
  {
    hide Pending, Quiet, GenExpr, SaveLiteral, SaveLocal;
    match inits {
      case NoInits => PendingNow(v);
      case Init(value, k, offset, rest) =>
        if value.Literal? {
          QuietLiteral(v, k, value.value, base + offset);
          var w := SaveLiteral(v, k, value.value, base + offset).view;
          QuietClosed(v, w);
          InitsMark(rest, base, w);
          Further(v, w, GenInits(rest, base, w).view, {});
        } else {
          ExprMark(value, v);
          var w := GenExpr(value, v).view;
          QuietMoves(w, k, k, "", base + offset);
          var x := SaveLocal(w, k, base + offset);
          QuietFurther(v, w, x, {});
          InitsMark(rest, base, x);
          Further(v, x, GenInits(rest, base, x).view, {});
        }
    }
  }

  lemma {:induction false} EnsureMark(inits: Inits, offset: int, v: View)
    requires EnsureInits(inits, offset, v).Done?
    ensures Pending(v, EnsureInits(inits, offset, v).view, {})
    decreases inits, 1
  {
    hide GenInits;
    if inits.Init? && offset !in v.emitted {
      InitsMark(inits, offset, v);
    }
  }

  lemma {:induction false} ArgsMark(args: Args, v: View)
    requires GenArgs(args, v).Done?
    ensures Pending(v, GenArgs(args, v).view, {})
    decreases args, 0
  {
    hide Pending, Quiet, GenExpr, ConvertStored, PushReg, PushXmm;
    match args {
      case NoArgs => PendingNow(v);
      case Arg(value, k, rest) =>
        ExprMark(value, v);
        var w := GenExpr(value, v).view;
        QuietMoves(w, k, value.kind, "", 0);
        var x := ConvertStored(w, k, value.kind);
        QuietStack(x, M.RAX, 0);
        var y := if IsFloating(k) then PushXmm(x, 0) else PushReg(x, M.RAX);
        QuietFurther(v, w, x, {});
        QuietFurther(v, x, y, {});
        ArgsMark(rest, y);
        Further(v, y, GenArgs(rest, y).view, {});
    }
  }

  /** A store through an address that is computed meanwhile. */
  lemma {:induction false} ThroughMark(operand: Expr, k: Kind, shift: int, v: View)
    requires GenExpr(operand, PushReg(v, M.RAX)).Done?
    ensures Pending(v, SaveThrough(GenExpr(operand, PushReg(v, M.RAX)).view, k, shift), {})
    decreases operand, 4
  {
    hide Pending, Quiet, GenExpr, PushReg, SaveThrough;
    var w := PushReg(v, M.RAX);
    QuietStack(v, M.RAX, 0);
    ExprMark(operand, w);
    var x := GenExpr(operand, w).view;
    QuietMoves(x, k, k, "", shift);
    QuietClosed(v, w);
    Further(v, w, x, {});
    QuietFurther(v, x, SaveThrough(x, k, shift), {});
  }

  lemma {:induction false} AssignMark(place: Expr, v: View)
    requires GenAssign(place, v).Done?
    ensures Pending(v, GenAssign(place, v).view, {})
    decreases place, 0
  {
    hide Pending, Quiet, GenExpr, EnsureInits, GenAssignMember, SaveLocal, SaveGlobal, SaveThrough, PushReg;
    match place {
      case Deref(k, operand) => ThroughMark(operand, k, 0, v);
      case Member(k, structure, offset) => AssignMemberMark(structure, k, offset, v);
      case Local(k, offset, inits) =>
        EnsureMark(inits, offset, v);
        var w := EnsureInits(inits, offset, v).view;
        QuietMoves(w, k, k, "", offset);
        QuietFurther(v, w, SaveLocal(w, k, offset), {});
      case Global(k, _) =>
        QuietMoves(v, k, k, "", 0);
        QuietClosed(v, SaveGlobal(v, k, 0));
      case _ => assert false;
    }
  }

  lemma {:induction false} AssignMemberMark(structure: Expr, field: Kind, shift: int, v: View)
    requires GenAssignMember(structure, field, shift, v).Done?
    ensures Pending(v, GenAssignMember(structure, field, shift, v).view, {})
    decreases structure, 0
  {
    hide Pending, Quiet, GenExpr, EnsureInits, SaveLocal, SaveGlobal, SaveThrough, PushReg;
    match structure {
      case Deref(_, operand) => ThroughMark(operand, field, shift, v);
      case Member(_, outer, offset) => AssignMemberMark(outer, field, shift + offset, v);
      case Local(_, offset, inits) =>
        EnsureMark(inits, offset, v);
        var w := EnsureInits(inits, offset, v).view;
        QuietMoves(w, field, field, "", offset + shift);
        QuietFurther(v, w, SaveLocal(w, field, offset + shift), {});
      case Global(_, _) =>
        QuietMoves(v, field, field, "", shift);
        QuietClosed(v, SaveGlobal(v, field, shift));
      case _ => assert false;
    }
  }

  lemma {:induction false} LoadMemberMark(structure: Expr, field: Kind, shift: int, v: View)
    requires GenLoadMember(structure, field, shift, v).Done?
    ensures Pending(v, GenLoadMember(structure, field, shift, v).view, {})
    decreases structure, 4
  {
    hide Pending, Quiet, GenExpr, EnsureInits, LoadLocal, LoadGlobal;
    match structure {
      case Deref(_, operand) =>
        ExprMark(operand, v);
        var w := GenExpr(operand, v).view;
        QuietMoves(w, field, field, "%rax", shift);
        QuietFurther(v, w, LoadLocal(w, field, "%rax", shift), {});
      case Member(_, outer, offset) => LoadMemberMark(outer, field, shift + offset, v);
      case Local(_, offset, inits) =>
        EnsureMark(inits, offset, v);
        var w := EnsureInits(inits, offset, v).view;
        QuietMoves(w, field, field, "%rbp", offset + shift);
        QuietFurther(v, w, LoadLocal(w, field, "%rbp", offset + shift), {});
      case Global(_, tag) =>
        QuietLoadGlobal(v, field, tag, shift);
        QuietClosed(v, LoadGlobal(v, field, tag, shift));
      case _ => assert false;
    }
  }

  lemma {:induction false} AddressMark(place: Expr, v: View)
    requires GenAddress(place, v).Done?
    ensures Pending(v, GenAddress(place, v).view, {})
    decreases place, 4
  {
    hide Pending, Quiet, GenExpr, EnsureInits, EmitPlain;
    match place {
      case Deref(_, _) => ExprMark(place, v);
      case Local(_, offset, inits) =>
        EnsureMark(inits, offset, v);
        var w := EnsureInits(inits, offset, v).view;
        QuietPlain(w, "lea (%rbp), %rax", offset);
        QuietFurther(v, w, EmitPlain(w, "lea (%rbp), %rax", offset), {});
      case Global(_, _) =>
        QuietPlain(v, "lea label(%rip), %rax", 0);
        QuietClosed(v, EmitPlain(v, "lea label(%rip), %rax", 0));
      case _ => assert false;
    }
  }

  /** An expression marks the labels it takes, each once. */
  lemma {:induction false} ExprMark(e: Expr, v: View)
    requires GenExpr(e, v).Done?
    ensures Pending(v, GenExpr(e, v).view, {})
    decreases e, 3
  {
    hide *;
    match e {
      case Literal(_, _) => LeafMark(e, v);
      case Text(_, _) => LeafMark(e, v);
      case Local(_, _, _) => LeafMark(e, v);
      case Global(_, _) => LeafMark(e, v);
      case Call(_, _, _) => CallMark(e, v);
      case AddressOf(_, _) => UnaryMark(e, v);
      case Deref(_, _) => UnaryMark(e, v);
      case Member(_, _, _) => UnaryMark(e, v);
      case Not(_, _) => UnaryMark(e, v);
      case Complement(_, _) => UnaryMark(e, v);
      case Cast(_, _) => UnaryMark(e, v);
      case Conditional(_, _, _, _) => ConditionalMark(e, v);
      case And(_, _, _) => LogicalMark(e, 0, 1, v);
      case Or(_, _, _) => LogicalMark(e, 1, 0, v);
      case Bits(_, _, _, _) => BitsMark(e, v);
      case Step(_, _, _, _) => StepMark(e, v);
      case Assign(_, _, _) => AssignmentMark(e, v);
      case Binary(_, _, _, _) => BinaryMark(e, v);
    }
  }

  lemma {:induction false} LeafMark(e: Expr, v: View)
    requires (e.Literal? || e.Text? || e.Local? || e.Global?) && GenExpr(e, v).Done?
    ensures Pending(v, GenExpr(e, v).view, {})
    decreases e, 2
  {
    hide Pending, Quiet, EnsureInits, EmitPlain, Emit, LoadLocal, LoadGlobal;
    match e {
      case Literal(_, value) =>
        QuietEmit(v, SetRax(value));
        QuietClosed(v, Emit(v, SetRax(value)));
        QuietPlain(v, "movsd label(%rip), %xmm0", value);
        QuietClosed(v, EmitPlain(v, "movsd label(%rip), %xmm0", value));
      case Text(_, tag) =>
        QuietPlain(v, "lea label(%rip), %rax", tag);
        QuietClosed(v, EmitPlain(v, "lea label(%rip), %rax", tag));
      case Local(k, offset, inits) =>
        EnsureMark(inits, offset, v);
        var w := EnsureInits(inits, offset, v).view;
        QuietMoves(w, k, k, "%rbp", offset);
        QuietFurther(v, w, LoadLocal(w, k, "%rbp", offset), {});
      case Global(k, tag) =>
        QuietLoadGlobal(v, k, tag, 0);
        QuietClosed(v, LoadGlobal(v, k, tag, 0));
    }
  }

  lemma {:induction false} UnaryMark(e: Expr, v: View)
    requires e.AddressOf? || e.Deref? || e.Member? || e.Not? || e.Complement? || e.Cast?
    requires GenExpr(e, v).Done?
    ensures Pending(v, GenExpr(e, v).view, {})
    decreases e, 2
  {
    hide Pending, Quiet, GenAddress, GenLoadMember, EmitPlain, LoadLocal, Convert;
    if e.AddressOf? {
      AddressMark(e.operand, v);
    } else if e.Member? {
      LoadMemberMark(e.structure, e.kind, e.offset, v);
    } else {
      ExprMark(e.operand, v);
      var x := GenExpr(e.operand, v).view;
      match e {
        case Deref(k, _) =>
          var y := LoadLocal(x, k, "%rax", 0);
          QuietMoves(x, k, k, "%rax", 0);
          QuietMoves(y, k, k, "%rax", 0);
          QuietFurther(v, x, y, {});
          QuietFurther(v, y, Convert(y, k, k), {});
        case Not(_, _) =>
          var y := EmitPlain(x, "cmp $, %rax", 0);
          var z := EmitPlain(y, SetByte(Equal), 0);
          QuietPlain(x, "cmp $, %rax", 0);
          QuietPlain(y, SetByte(Equal), 0);
          QuietPlain(z, "movzb %al, %eax", 0);
          QuietFurther(v, x, y, {});
          QuietFurther(v, y, z, {});
          QuietFurther(v, z, EmitPlain(z, "movzb %al, %eax", 0), {});
        case Complement(_, _) =>
          QuietPlain(x, "not %rax", 0);
          QuietFurther(v, x, EmitPlain(x, "not %rax", 0), {});
        case Cast(k, operand) =>
          QuietMoves(x, k, operand.kind, "", 0);
          QuietFurther(v, x, Convert(x, k, operand.kind), {});
      }
    }
  }

  lemma {:induction false} BitsMark(e: Expr, v: View)
    requires e.Bits? && GenExpr(e, v).Done?
    ensures Pending(v, GenExpr(e, v).view, {})
    decreases e, 2
  {
    hide Pending, Quiet, EmitPlain, PushReg, PopReg;
    ExprMark(e.left, v);
    var x := GenExpr(e.left, v).view;
    var y := PushReg(x, M.RAX);
    QuietStack(x, M.RAX, 0);
    QuietFurther(v, x, y, {});
    ExprMark(e.right, y);
    var z := GenExpr(e.right, y).view;
    Further(v, y, z, {});
    QuietStack(z, M.RCX, 0);
    var text := if e.either then "or %rcx, %rax" else "and %rcx, %rax";
    QuietPlain(PopReg(z, M.RCX), text, 0);
    QuietFurther(v, z, PopReg(z, M.RCX), {});
    QuietFurther(v, PopReg(z, M.RCX), EmitPlain(PopReg(z, M.RCX), text, 0), {});
  }

  lemma {:induction false} StepMark(e: Expr, v: View)
    requires e.Step? && GenExpr(e, v).Done?
    ensures Pending(v, GenExpr(e, v).view, {})
    decreases e, 2
  {
    hide Pending, Quiet, EmitPlain, PushReg, PopReg, GenAssign;
    ExprMark(e.operand, v);
    var w := GenExpr(e.operand, v).view;
    QuietStack(w, M.RAX, 0);
    QuietNow(w);
    var x := if e.prefix then w else PushReg(w, M.RAX);
    var text := if e.minus then "sub $, %rax" else "add $, %rax";
    QuietFurther(v, w, x, {});
    QuietPlain(x, text, 1);
    var y := EmitPlain(x, text, 1);
    QuietFurther(v, x, y, {});
    AssignMark(e.operand, y);
    var z := GenAssign(e.operand, y).view;
    Further(v, y, z, {});
    QuietStack(z, M.RAX, 0);
    QuietFurther(v, z, PopReg(z, M.RAX), {});
  }

  lemma {:induction false} AssignmentMark(e: Expr, v: View)
    requires e.Assign? && GenExpr(e, v).Done?
    ensures Pending(v, GenExpr(e, v).view, {})
    decreases e, 2
  {
    hide Pending, Quiet, Convert, GenAssign;
    ExprMark(e.right, v);
    var x := GenExpr(e.right, v).view;
    var y := Convert(x, e.kind, e.right.kind);
    QuietMoves(x, e.kind, e.right.kind, "", 0);
    QuietFurther(v, x, y, {});
    AssignMark(e.left, y);
    Further(v, y, GenAssign(e.left, y).view, {});
  }

  lemma {:induction false} BinaryMark(e: Expr, v: View)
    requires e.Binary? && GenExpr(e, v).Done?
    ensures Pending(v, GenExpr(e, v).view, {})
    decreases e, 2
  {
    hide Pending, Quiet, PushLeft, Combine, CombinesFloats, Scale;
    ExprMark(e.left, v);
    var w := GenExpr(e.left, v).view;
    var x := PushLeft(e, w);
    QuietPushLeft(e, w);
    QuietFurther(v, w, x, {});
    ExprMark(e.right, x);
    var y := GenExpr(e.right, x).view;
    Further(v, x, y, {});
    QuietPushLeft(e, y);
    QuietFurther(v, y, Scale(e, y), {});
    QuietCombine(Scale(e, y), e.kind, e.op, e.right.kind, CombinesFloats(e));
    QuietFurther(v, Scale(e, y), Combine(Scale(e, y), e.kind, e.op, e.right.kind, CombinesFloats(e)).view, {});
  }

  lemma {:induction false} CallMark(e: Expr, v: View)
    requires e.Call? && GenExpr(e, v).Done?
    ensures Pending(v, GenExpr(e, v).view, {})
    decreases e, 2
  {
    hide Pending, Quiet, SaveRegisters, LoadArguments, RestoreRegisters, Transfer, Emit, Floats, Wholes;
    var ks := Kinds(e.args);
    var w := SaveRegisters(v, ks);
    QuietSaved(v, ks);
    QuietClosed(v, w);
    ArgsMark(e.args, w);
    var x := GenArgs(e.args, w).view;
    Further(v, w, x, {});
    QuietCall(x, ks, e.name, true);
    var y := RestoreRegisters(Transfer(LoadArguments(x, ks), e.name, Floats(ks)), ks);
    QuietFurther(v, x, y, {});
    QuietFurther(v, x, Emit(y, WidenResult), {});
  }

  lemma {:induction false} QuietTest(v: View, value: int, l: nat)
    ensures Quiet(v, JumpIfZero(v, l)) && Quiet(v, TestTo(v, value, l))
  {
    hide Quiet, Emit;
    var w := EmitPlain(v, "test %rax, %rax", 0);
    QuietPlain(v, "test %rax, %rax", 0);
    QuietEmit(w, Branch(l));
    QuietTwice(v, w, Emit(w, Branch(l)));
    QuietEmit(w, SetRax(value));
    var x := Emit(w, SetRax(value));
    QuietTwice(v, w, x);
    QuietEmit(x, Branch(l));
    QuietTwice(v, x, Emit(x, Branch(l)));
  }

  lemma {:induction false} LogicalMark(e: Expr, short: int, other: int, v: View)
    requires (e.And? && short == 0 && other == 1) || (e.Or? && short == 1 && other == 0)
    requires GenExpr(e, v).Done?
    ensures Pending(v, GenExpr(e, v).view, {})
    decreases e, 2
  {
    hide Pending, Quiet, TestTo, Emit;
    var l := v.nextLabel;
    PendingNow(v);
    Opens(v, v, {});
    assert {} + {l} == {l};
    ExprMark(e.left, Fresh(v));
    var x := GenExpr(e.left, Fresh(v)).view;
    Later(Fresh(v), x);
    Further(v, Fresh(v), x, {l});
    QuietTest(x, short, l);
    var y := TestTo(x, short, l);
    QuietFurther(v, x, y, {l});
    QuietLater(x, y);
    ExprMark(e.right, y);
    var z := GenExpr(e.right, y).view;
    Later(y, z);
    Further(v, y, z, {l});
    QuietTest(z, short, l);
    var u := TestTo(z, short, l);
    QuietFurther(v, z, u, {l});
    QuietLater(z, u);
    QuietEmit(u, SetRax(other));
    QuietFurther(v, u, Emit(u, SetRax(other)), {l});
    QuietLater(u, Emit(u, SetRax(other)));
    Closes(v, Emit(u, SetRax(other)), {l}, l);
    assert {l} - {l} == {};
  }

  lemma {:induction false} Later(v: View, w: View)
    requires Pending(v, w, {})
    ensures v.nextLabel <= w.nextLabel
  {
  }

  lemma {:induction false} QuietLater(v: View, w: View)
    requires Quiet(v, w)
    ensures v.nextLabel == w.nextLabel
  {
  }

  lemma {:induction false} ConditionalMark(e: Expr, v: View)
    requires e.Conditional? && GenExpr(e, v).Done?
    ensures Pending(v, GenExpr(e, v).view, {})
    decreases e, 2
  {
    hide Pending, Quiet, JumpIfZero, Emit;
    ExprMark(e.cond, v);
    var w := GenExpr(e.cond, v).view;
    Later(v, w);
    var a := w.nextLabel;
    var w' := JumpIfZero(Fresh(w), a);
    BranchMark(v, w);
    ExprMark(e.yes, w');
    var x := GenExpr(e.yes, w').view;
    Later(w', x);
    Further(v, w', x, {a});
    var b := x.nextLabel;
    var y := Emit(Emit(Fresh(x), Jump(b)), Mark(a));
    MiddleMark(v, x, a);
    ExprMark(e.no, y);
    var z := GenExpr(e.no, y).view;
    Later(y, z);
    Further(v, y, z, {b});
    Closes(v, z, {b}, b);
    assert {b} - {b} == {};
  }

  /** A fresh label and a branch to it. */
  lemma {:induction false} BranchMark(v: View, w: View)
    requires Pending(v, w, {})
    ensures var x := JumpIfZero(Fresh(w), w.nextLabel); Pending(v, x, {w.nextLabel}) && x.nextLabel == w.nextLabel + 1
  {
    hide Pending, Quiet, JumpIfZero;
    Opens(v, w, {});
    assert {} + {w.nextLabel} == {w.nextLabel};
    QuietTest(Fresh(w), 0, w.nextLabel);
    QuietFurther(v, Fresh(w), JumpIfZero(Fresh(w), w.nextLabel), {w.nextLabel});
    QuietLater(Fresh(w), JumpIfZero(Fresh(w), w.nextLabel));
  }

  /** Between two arms: a fresh label, a jump to it, and the mark of the one that was open. */
  lemma {:induction false} MiddleMark(v: View, x: View, a: nat)
    requires Pending(v, x, {a}) && v.nextLabel <= a < x.nextLabel
    ensures var b := x.nextLabel; var y := Emit(Emit(Fresh(x), Jump(b)), Mark(a)); Pending(v, y, {b}) && y.nextLabel == b + 1
  {
    hide Pending, Quiet;
    var b := x.nextLabel;
    Opens(v, x, {a});
    QuietEmit(Fresh(x), Jump(b));
    QuietFurther(v, Fresh(x), Emit(Fresh(x), Jump(b)), {a} + {b});
    Closes(v, Emit(Fresh(x), Jump(b)), {a} + {b}, a);
    assert {a} + {b} - {a} == {b};
  }

  // ----------------------------------------------- the control of a statement

  /** An expression that takes k labels. */
  function Taking(k: nat): N.Expr {
    if k == 0 then N.Literal(0) else N.LogicalAnd(Taking(k - 1), N.Literal(0))
  }

  lemma {:induction false} TakingLabels(k: nat)
    ensures C.ExprLabels(Taking(k)) == k && N.Compilable(Taking(k))
  {
    if k > 0 {
      TakingLabels(k - 1);
    }
  }

  /** How many labels an expression takes here. */
  ghost function Taken(e: Expr, v: View): nat
    requires GenExpr(e, v).Done?
  {
    ExprMark(e, v);
    GenExpr(e, v).view.nextLabel - v.nextLabel
  }

  ghost function Bare(e: Expr, v: View): N.Expr
    requires GenExpr(e, v).Done?
  {
    Taking(Taken(e, v))
  }

  ghost function BareOption(e: Option<Expr>, v: View): Option<N.Expr>
    requires GenOption(e, v).Done?
  {
    if e.None? then None else Some(Bare(e.value, v))
  }

  /** The statement with its control alone: expressions are stand-ins that take as many
      labels, gotos and labels are gone. */
  ghost function Control(s: Stmt, v: View): N.Stmt
    requires GenStmt(s, v).Done?
    decreases s
  {
    match s
    case Skip => N.Skip
    case Sequence(first, rest) => N.Sequence(Control(first, v), Control(rest, GenStmt(first, v).view))
    case Expression(e) => N.Expression(Bare(e, v))
    case Declare(base, inits) =>
      InitsMark(inits, base, v);
      N.Expression(Taking(GenInits(inits, base, v).view.nextLabel - v.nextLabel))
    case If(cond, yes) =>
      var w := GenExpr(cond, v).view;
      N.If(Bare(cond, v), Control(yes, JumpIfZero(Fresh(w), w.nextLabel)))
    case IfElse(cond, yes, no) =>
      var w := GenExpr(cond, v).view;
      var w' := JumpIfZero(Fresh(w), w.nextLabel);
      var x := GenStmt(yes, w').view;
      N.IfElse(Bare(cond, v), Control(yes, w'), Control(no, Emit(Emit(Fresh(x), Jump(x.nextLabel)), Mark(w.nextLabel))))
    case While(cond, body) =>
      var begin, end := v.nextLabel, v.nextLabel + 1;
      var u := OpenLoop(v, end, begin, begin);
      N.While(Bare(cond, u), Control(body, JumpIfZero(GenExpr(cond, u).view, end)))
    case DoWhile(body, cond) =>
      var begin, end := v.nextLabel, v.nextLabel + 1;
      var u := OpenLoop(v, end, begin, begin);
      N.DoWhile(Control(body, u), Bare(cond, GenStmt(body, u).view))
    case For(init, test, step, body) =>
      var w := GenStmt(init, v).view;
      assert ForLoop(s, w).Done?;
      var begin, next, end := w.nextLabel, w.nextLabel + 1, w.nextLabel + 2;
      var u := OpenLoop(Fresh(w), end, next, begin);
      var x := GenOption(test, u).view;
      var x' := if test.Some? then JumpIfZero(x, end) else x;
      var y := GenStmt(body, x').view;
      N.For(Control(init, v), BareOption(test, u), BareOption(step, Emit(y, Mark(next))), Control(body, x'))
    case Switch(e, body) =>
      N.Switch(Bare(e, KeepSwitch(v)), Control(body, OpenSwitch(GenExpr(e, KeepSwitch(v)).view)))
    case Case(value) => N.Case(value)
    case Default => N.Default
    case Break => N.Break
    case Continue => N.Continue
    case Goto(_) => N.Skip
    case LabelAt(_) => N.Skip
    case Return(_, result) => N.Return(BareOption(result, v))
  }

  /** How often the statement places the label, and how often it goes to it. */
  function Placed(s: Stmt, l: nat): nat {
    match s
    case Sequence(first, rest) => Placed(first, l) + Placed(rest, l)
    case If(_, yes) => Placed(yes, l)
    case IfElse(_, yes, no) => Placed(yes, l) + Placed(no, l)
    case While(_, body) => Placed(body, l)
    case DoWhile(body, _) => Placed(body, l)
    case For(init, _, _, body) => Placed(init, l) + Placed(body, l)
    case Switch(_, body) => Placed(body, l)
    case LabelAt(place) => if place == Some(l) then 1 else 0
    case _ => 0
  }

  function Gone(s: Stmt, l: nat): nat {
    match s
    case Sequence(first, rest) => Gone(first, l) + Gone(rest, l)
    case If(_, yes) => Gone(yes, l)
    case IfElse(_, yes, no) => Gone(yes, l) + Gone(no, l)
    case While(_, body) => Gone(body, l)
    case DoWhile(body, _) => Gone(body, l)
    case For(init, _, _, body) => Gone(init, l) + Gone(body, l)
    case Switch(_, body) => Gone(body, l)
    case Goto(where) => if where == l then 1 else 0
    case _ => 0
  }

  // ------------------------------------- the two generators' labels and jumps

  function Aims(code: seq<M.Instr>, l: nat): nat {
    if |code| == 0 then 0 else (if L.AimOf(code[0]) == Some(l) then 1 else 0) + Aims(code[1..], l)
  }

  lemma {:induction false} AimsAppend(a: seq<M.Instr>, b: seq<M.Instr>, l: nat)
    ensures Aims(a + b, l) == Aims(a, l) + Aims(b, l)
  {
    if |a| == 0 {
      assert a + b == b;
    } else {
      assert (a + b)[1..] == a[1..] + b;
      AimsAppend(a[1..], b, l);
    }
  }

  /** No jump outside the labels handed out. */
  lemma {:induction false} AimsOutside(code: seq<M.Instr>, lo: nat, hi: nat, l: nat)
    requires L.AimsIn(code, lo, hi, L.Nowhere) && !(lo <= l < hi)
    ensures Aims(code, l) == 0
  {
    if |code| > 0 {
      assert L.AimOf(code[0]).Some? ==> L.Allowed(L.AimOf(code[0]).value, lo, hi, L.Nowhere);
      assert forall i :: 0 <= i < |code[1..]| ==> code[1..][i] == code[i + 1];
      AimsOutside(code[1..], lo, hi, l);
    }
  }

  /** From v to w the one marked and jumped as this code of the other does, but for p more
      marks and g more jumps; jumps are not compared where labels were just handed out. */
  ghost predicate Alike(v: View, w: View, code: seq<M.Instr>, p: nat, g: nat, l: nat) {
    v.nextLabel <= w.nextLabel && v.emitted <= w.emitted && Marks(w.output, l) == Marks(v.output, l) + L.Defs(code, l) + p &&
    (l < v.nextLabel || w.nextLabel <= l ==> Jumps(w.output, l) == Jumps(v.output, l) + Aims(code, l) + g)
  }

  lemma {:induction false} AlikeJoin(v: View, w: View, x: View, a: seq<M.Instr>, b: seq<M.Instr>, p: nat, q: nat, g: nat, h: nat, l: nat)
    requires Alike(v, w, a, p, g, l) && Alike(w, x, b, q, h, l)
    ensures Alike(v, x, a + b, p + q, g + h, l)
  {
    hide Marks, Jumps, L.Defs, Aims;
    L.DefsAppend(a, b, l);
    AimsAppend(a, b, l);
  }

  lemma {:induction false} AlikeNow(v: View, w: View, l: nat)
    requires v.output == w.output && v.nextLabel <= w.nextLabel && v.emitted <= w.emitted
    ensures Alike(v, w, [], 0, 0, l)
  {
    hide Marks, Jumps;
  }

  lemma {:induction false} AlikeSlots(v: View, w: View, w': View, code: seq<M.Instr>, p: nat, g: nat, l: nat)
    requires Alike(v, w, code, p, g, l) && w'.output == w.output && w'.nextLabel == w.nextLabel && w'.emitted == w.emitted
    ensures Alike(v, w', code, p, g, l)
  {
  }

  lemma {:induction false} OneCount(i: M.Instr, l: nat)
    ensures L.Defs([i], l) == (if i == M.Label(l) then 1 else 0) && Aims([i], l) == (if L.AimOf(i) == Some(l) then 1 else 0)
  {
    assert [i][1..] == [];
  }

  lemma {:induction false} TwoCounts(i: M.Instr, j: M.Instr, l: nat)
    ensures L.Defs([i, j], l) == (if i == M.Label(l) then 1 else 0) + (if j == M.Label(l) then 1 else 0)
    ensures Aims([i, j], l) == (if L.AimOf(i) == Some(l) then 1 else 0) + (if L.AimOf(j) == Some(l) then 1 else 0)
  {
    assert [i, j][1..] == [j];
    OneCount(j, l);
  }

  lemma {:induction false} ThreeCounts(i: M.Instr, j: M.Instr, k: M.Instr, l: nat)
    ensures L.Defs([i, j, k], l) == (if i == M.Label(l) then 1 else 0) + L.Defs([j, k], l)
    ensures Aims([i, j, k], l) == (if L.AimOf(i) == Some(l) then 1 else 0) + Aims([j, k], l)
    ensures L.Defs([j, k], l) == (if j == M.Label(l) then 1 else 0) + (if k == M.Label(l) then 1 else 0)
    ensures Aims([j, k], l) == (if L.AimOf(j) == Some(l) then 1 else 0) + (if L.AimOf(k) == Some(l) then 1 else 0)
  {
    assert [i, j, k][1..] == [j, k];
    TwoCounts(j, k, l);
  }

  /** Single instructions. */
  lemma {:induction false} AlikeMark(v: View, k: nat, l: nat)
    ensures Alike(v, Emit(v, Mark(k)), [M.Label(k)], 0, 0, l)
  {
    hide Marks, Jumps;
    Counted(v, Mark(k), l);
    OneCount(M.Label(k), l);
  }

  lemma {:induction false} AlikeJump(v: View, k: nat, l: nat)
    ensures Alike(v, Emit(v, Jump(k)), [M.Jmp(k)], 0, 0, l)
  {
    hide Marks, Jumps;
    Counted(v, Jump(k), l);
    OneCount(M.Jmp(k), l);
  }

  lemma {:induction false} AlikeOther(v: View, i: Instr, code: seq<M.Instr>, l: nat)
    requires LabelOf(i).None? && forall k :: 0 <= k < |code| ==> L.AimOf(code[k]).None? && !code[k].Label?
    ensures Alike(v, Emit(v, i), code, 0, 0, l)
  {
    hide Marks, Jumps;
    Counted(v, i, l);
    NoneCounted(code, l);
  }

  lemma {:induction false} NoneCounted(code: seq<M.Instr>, l: nat)
    requires forall k :: 0 <= k < |code| ==> L.AimOf(code[k]).None? && !code[k].Label?
    ensures Aims(code, l) == 0 && L.Defs(code, l) == 0
  {
    if |code| > 0 {
      assert forall i :: 0 <= i < |code[1..]| ==> code[1..][i] == code[i + 1];
      NoneCounted(code[1..], l);
    }
  }

  /** The code of a stand-in. */
  lemma {:induction false} TakingCode(k: nat, n: nat, d: int, l: nat)
    ensures L.Defs(C.ExprCode(Taking(k), n, d), l) == L.Within(n, k, l)
    ensures !(n <= l < n + k) ==> Aims(C.ExprCode(Taking(k), n, d), l) == 0
  {
    hide L.Defs, Aims, Taking, C.ExprCode, L.AimsIn;
    TakingLabels(k);
    L.ExprDefs(Taking(k), n, d, l);
    L.ExprAims(Taking(k), n, d);
    if !(n <= l < n + k) {
      AimsOutside(C.ExprCode(Taking(k), n, d), n, n + k, l);
    }
  }

  /** What an expression adds, as counts. */
  lemma {:induction false} ExprAlike(e: Expr, v: View, d: int, l: nat)
    requires GenExpr(e, v).Done?
    ensures var w := GenExpr(e, v).view;
      Alike(v, w, C.ExprCode(Bare(e, v), v.nextLabel, d), 0, 0, l) && w.nextLabel == v.nextLabel + C.ExprLabels(Bare(e, v))
  {
    hide GenExpr, Marks, Jumps, L.Defs, Aims, C.ExprCode, C.ExprLabels, Taking;
    var w := GenExpr(e, v).view;
    ExprMark(e, v);
    TakingLabels(Taken(e, v));
    TakingCode(Taken(e, v), v.nextLabel, d, l);
    ExprSame(e, v, l);
  }

  lemma {:induction false} ExprSame(e: Expr, v: View, l: nat)
    requires GenExpr(e, v).Done?
    ensures var w := GenExpr(e, v).view; l < v.nextLabel || w.nextLabel <= l ==> Jumps(w.output, l) == Jumps(v.output, l)
  {
    hide GenExpr, Marks, Jumps, On;
    var w := GenExpr(e, v).view;
    var t, m := Opening(v, 0);
    var m' := ExprOn(e, t, v, m, 0);
    OwnLabels(v, w, m', v.nextLabel, 0);
    if l < v.nextLabel || w.nextLabel <= l {
      OutsideAdded(v, w, m', l);
    }
  }

  lemma {:induction false} OutsideAdded(v: View, w: View, m: Depths, l: nat)
    requires On(Trail(v, 0, 0, v.nextLabel), w, m, 0) && LabelsWithin(Since(v, w), v.nextLabel, w.nextLabel) && !(v.nextLabel <= l < w.nextLabel)
    ensures Jumps(w.output, l) == Jumps(v.output, l)
  {
    hide Jumps, Marks, Levels;
    var c := Since(v, w);
    assert w.output == v.output + c;
    forall i | 0 <= i < |c| ensures LabelOf(c[i]) != Some(l) {
    }
    NotAdded(v.output, c, l);
  }

  lemma {:induction false} OptionAlike(e: Option<Expr>, v: View, d: int, l: nat)
    requires GenOption(e, v).Done?
    ensures var w := GenOption(e, v).view; var b := BareOption(e, v);
      Alike(v, w, C.OptionCode(b, v.nextLabel, d), 0, 0, l) && w.nextLabel == v.nextLabel + C.OptionLabels(b)
  {
    hide GenExpr, Alike, Bare;
    if e.Some? { ExprAlike(e.value, v, d, l); } else { AlikeNow(v, v, l); }
  }

  lemma {:induction false} InitsAlike(inits: Inits, base: int, v: View, d: int, l: nat)
    requires GenInits(inits, base, v).Done?
    ensures var w := GenInits(inits, base, v).view;
      w.nextLabel >= v.nextLabel && Alike(v, w, C.ExprCode(Taking(w.nextLabel - v.nextLabel), v.nextLabel, d), 0, 0, l)
  {
    hide GenInits, Marks, Jumps, L.Defs, Aims, C.ExprCode, Taking, On;
    var w := GenInits(inits, base, v).view;
    InitsMark(inits, base, v);
    TakingCode(w.nextLabel - v.nextLabel, v.nextLabel, d, l);
    var t, m := Opening(v, 0);
    var m' := InitsOn(inits, base, t, v, m, 0);
    OwnLabels(v, w, m', v.nextLabel, 0);
    if l < v.nextLabel || w.nextLabel <= l {
      OutsideAdded(v, w, m', l);
    }
  }

  // --------------------------------------------------------------- statements

  /** What relates a statement's code to that of its control. */
  ghost predicate Follows(s: Stmt, v: View, d: int, l: nat) {
    GenStmt(s, v).Done? &&
    var w := GenStmt(s, v).view;
    var r := S.RawStmt(Control(s, v), v.nextLabel, d, v.slots);
    r.Some? && r.value.slots == w.slots && w.nextLabel == v.nextLabel + C.StmtLabels(Control(s, v)) &&
    Alike(v, w, r.value.code, Placed(s, l), Gone(s, l), l)
  }

  lemma {:induction false} StmtAlike(s: Stmt, v: View, d: int, l: nat)
    requires GenStmt(s, v).Done?
    ensures Follows(s, v, d, l)
    decreases s, 1
  {
    hide *;
    match s {
      case Sequence(_, _) => SequenceAlike(s, v, d, l);
      case If(_, _) => IfAlike(s, v, d, l);
      case IfElse(_, _, _) => IfElseAlike(s, v, d, l);
      case While(_, _) => WhileAlike(s, v, d, l);
      case DoWhile(_, _) => DoAlike(s, v, d, l);
      case For(_, _, _, _) => ForAlike(s, v, d, l);
      case Switch(_, _) => SwitchAlike(s, v, d, l);
      case Case(_) => CaseAlike(s, v, d, l);
      case Default => DefaultAlike(s, v, d, l);
      case _ => SimpleAlike(s, v, d, l);
    }
  }

  lemma {:induction false} SimpleAlike(s: Stmt, v: View, d: int, l: nat)
    requires s.Skip? || s.Expression? || s.Declare? || s.Break? || s.Continue? || s.Goto? || s.LabelAt? || s.Return?
    requires GenStmt(s, v).Done?
    ensures Follows(s, v, d, l)
  {
    hide Alike, GenExpr, GenInits, GenOption, Emit, ConvertStored, Bare, BareOption, Taking, C.ExprCode, C.ExprLabels;
    AlikeNow(v, v, l);
    match s {
      case Skip =>
      case Expression(e) =>
        ExprAlike(e, v, d, l);
        TakingLabels(Taken(e, v));
        BareTaking(e, v);
      case Declare(base, inits) =>
        InitsAlike(inits, base, v, d, l);
        TakingLabels(GenInits(inits, base, v).view.nextLabel - v.nextLabel);
      case Break => AlikeJump(v, v.slots.brk.value, l);
      case Continue => AlikeJump(v, v.slots.cont.value, l);
      case Goto(where) => GotoAlike(v, where, l);
      case LabelAt(place) => if place.Some? { PlaceAlike(v, place.value, l); }
      case Return(_, _) => ReturnAlike(s, v, d, l);
    }
    EmitSame(v);
  }

  lemma {:induction false} BareTaking(e: Expr, v: View)
    requires GenExpr(e, v).Done?
    ensures Bare(e, v) == Taking(Taken(e, v))
  {
    hide GenExpr, Taking;
  }

  lemma {:induction false} EmitSame(v: View)
    ensures forall i :: Emit(v, i).slots == v.slots && Emit(v, i).nextLabel == v.nextLabel && Emit(v, i).emitted == v.emitted
  {
  }

  lemma {:induction false} GotoAlike(v: View, where: nat, l: nat)
    ensures Alike(v, Emit(v, Jump(where)), [], 0, if where == l then 1 else 0, l)
  {
    hide Marks, Jumps;
    Counted(v, Jump(where), l);
  }

  lemma {:induction false} PlaceAlike(v: View, place: nat, l: nat)
    ensures Alike(v, Emit(v, Mark(place)), [], if place == l then 1 else 0, 0, l)
  {
    hide Marks, Jumps;
    Counted(v, Mark(place), l);
  }

  lemma {:induction false} ReturnAlike(s: Stmt, v: View, d: int, l: nat)
    requires s.Return? && GenStmt(s, v).Done?
    ensures Follows(s, v, d, l)
  {
    hide Alike, GenExpr, GenOption, Emit, ConvertStored, Bare, BareOption, C.ExprCode, C.ExprLabels, C.OptionCode, C.OptionLabels, Quiet;
    OptionAlike(s.result, v, d, l);
    var w := GenOption(s.result, v).view;
    var x := if s.result.Some? then ConvertStored(w, s.kind, s.result.value.kind) else w;
    ConvertAlike(w, s.kind, if s.result.Some? then s.result.value.kind else s.kind, l);
    AlikeNow(w, w, l);
    var code := C.OptionCode(BareOption(s.result, v), v.nextLabel, d);
    AlikeOther(x, Leave, [M.Leave], l);
    AlikeOther(Emit(x, Leave), Ret, [M.Ret], l);
    AlikeJoin(x, Emit(x, Leave), Emit(Emit(x, Leave), Ret), [M.Leave], [M.Ret], 0, 0, 0, 0, l);
    AlikeJoin(v, w, x, code, [], 0, 0, 0, 0, l);
    assert code + [] == code && [M.Leave] + [M.Ret] == [M.Leave, M.Ret];
    AlikeJoin(v, x, Emit(Emit(x, Leave), Ret), code, [M.Leave, M.Ret], 0, 0, 0, 0, l);
    EmitSame(x);
    EmitSame(Emit(x, Leave));
    BareOptionCompiles(s.result, v);
  }

  lemma {:induction false} BareOptionCompiles(e: Option<Expr>, v: View)
    requires GenOption(e, v).Done?
    ensures N.CompilableOption(BareOption(e, v))
  {
    hide GenExpr, Taking;
    if e.Some? { TakingLabels(Taken(e.value, v)); }
  }

  lemma {:induction false} BareCompiles(e: Expr, v: View)
    requires GenExpr(e, v).Done?
    ensures N.Compilable(Bare(e, v))
  {
    hide GenExpr, Taking;
    TakingLabels(Taken(e, v));
  }

  lemma {:induction false} ConvertAlike(v: View, to: Kind, from: Kind, l: nat)
    ensures var w := ConvertStored(v, to, from); Alike(v, w, [], 0, 0, l) && w.nextLabel == v.nextLabel && w.slots == v.slots
  {
    ConvertKeeps(v, to, from);
    hide ConvertStored, Marks, Jumps, On, Known;
    var t, m := Opening(v, 0);
    ConvertOn(t, v, m, 0, to, from);
    QuietOn(t, ConvertStored(v, to, from), m, 0);
    OwnLabels(v, ConvertStored(v, to, from), m, v.nextLabel, 0);
    OutsideAdded(v, ConvertStored(v, to, from), m, l);
  }

  lemma {:induction false} SequenceAlike(s: Stmt, v: View, d: int, l: nat)
    requires s.Sequence? && GenStmt(s, v).Done?
    ensures Follows(s, v, d, l)
    decreases s, 0
  {
    hide *;
    var w, x := SequencePieces(s, v);
    SequenceCounts(s, l);
    var y, z := Control(s.first, v), Control(s.rest, w);
    StmtAlike(s.first, v, d, l);
    StmtAlike(s.rest, w, d, l);
    var a := FollowsParts(s.first, v, w, d, l);
    var b := FollowsParts(s.rest, w, x, d, l);
    AlikeJoin(v, w, x, a.code, b.code, Placed(s.first, l), Placed(s.rest, l), Gone(s.first, l), Gone(s.rest, l), l);
    SequenceRaw(N.Sequence(y, z), v.nextLabel, d, v.slots, a, b);
    SequenceRawLabels(y, z);
    FollowsFrom(s, v, x, d, l, S.Raw(a.code + b.code, b.slots));
  }

  lemma {:induction false} SequencePieces(s: Stmt, v: View) returns (w: View, x: View)
    requires s.Sequence? && GenStmt(s, v).Done?
    ensures GenStmt(s.first, v) == Done(w) && GenStmt(s.rest, w) == Done(x) && GenStmt(s, v) == Done(x)
    ensures Control(s, v) == N.Sequence(Control(s.first, v), Control(s.rest, w))
  {
    w := GenStmt(s.first, v).view;
    x := GenStmt(s.rest, w).view;
  }

  lemma {:induction false} SequenceCounts(s: Stmt, l: nat)
    requires s.Sequence?
    ensures Placed(s, l) == Placed(s.first, l) + Placed(s.rest, l) && Gone(s, l) == Gone(s.first, l) + Gone(s.rest, l)
  {
  }

  lemma {:induction false} SequenceRaw(st: N.Stmt, n: nat, d: int, x: S.Slots, a: S.Raw, b: S.Raw)
    requires st.Sequence?
    requires S.RawStmt(st.first, n, d, x) == Some(a) && S.RawStmt(st.rest, n + C.StmtLabels(st.first), d, a.slots) == Some(b)
    ensures S.RawStmt(st, n, d, x) == Some(S.Raw(a.code + b.code, b.slots))
  {
    hide C.StmtLabels;
  }

  lemma {:induction false} SequenceRawLabels(y: N.Stmt, z: N.Stmt)
    ensures C.StmtLabels(N.Sequence(y, z)) == C.StmtLabels(y) + C.StmtLabels(z)
  {
  }

  /** The test and the branch over an arm, with the fresh label of the branch. */
  lemma {:induction false} BranchAlike(w: View, l: nat)
    ensures var x := JumpIfZero(Fresh(w), w.nextLabel);
      Alike(w, x, [M.Test, M.Je(w.nextLabel)], 0, 0, l) && x.nextLabel == w.nextLabel + 1 && x.slots == w.slots
  {
    hide Alike;
    AlikeNow(w, Fresh(w), l);
    TestAlike(Fresh(w), w.nextLabel, l);
    AlikeJoin(w, Fresh(w), JumpIfZero(Fresh(w), w.nextLabel), [], [M.Test, M.Je(w.nextLabel)], 0, 0, 0, 0, l);
    assert [] + [M.Test, M.Je(w.nextLabel)] == [M.Test, M.Je(w.nextLabel)];
  }

  lemma {:induction false} TestAlike(v: View, k: nat, l: nat)
    ensures var x := JumpIfZero(v, k); Alike(v, x, [M.Test, M.Je(k)], 0, 0, l) && x.nextLabel == v.nextLabel && x.slots == v.slots
  {
    hide Marks, Jumps;
    var w := EmitPlain(v, "test %rax, %rax", 0);
    Counted(v, Plain("test %rax, %rax", 0), l);
    Counted(w, Branch(k), l);
    TwoCounts(M.Test, M.Je(k), l);
  }

  lemma {:induction false} IfAlike(s: Stmt, v: View, d: int, l: nat)
    requires s.If? && GenStmt(s, v).Done?
    ensures Follows(s, v, d, l)
    decreases s, 0
  {
    hide Alike, GenExpr, Bare, JumpIfZero, Emit, C.ExprCode, C.ExprLabels, C.StmtLabels, S.RawStmt;
    ExprAlike(s.cond, v, d, l);
    BareCompiles(s.cond, v);
    var w := GenExpr(s.cond, v).view;
    var a := C.ExprCode(Bare(s.cond, v), v.nextLabel, d);
    var ne := w.nextLabel;
    var w' := JumpIfZero(Fresh(w), ne);
    BranchAlike(w, l);
    StmtAlike(s.yes, w', d, l);
    var x := GenStmt(s.yes, w').view;
    var r := S.RawStmt(Control(s.yes, w'), w'.nextLabel, d, w'.slots).value;
    AlikeMark(x, ne, l);
    EmitSame(x);
    AlikeJoin(v, w, w', a, [M.Test, M.Je(ne)], 0, 0, 0, 0, l);
    AlikeJoin(w', x, Emit(x, Mark(ne)), r.code, [M.Label(ne)], Placed(s.yes, l), 0, Gone(s.yes, l), 0, l);
    AlikeJoin(v, w', Emit(x, Mark(ne)), a + [M.Test, M.Je(ne)], r.code + [M.Label(ne)], 0, Placed(s.yes, l), 0, Gone(s.yes, l), l);
    IfRaw(N.If(Bare(s.cond, v), Control(s.yes, w')), v.nextLabel, d, v.slots, r);
    IfRawLabels(Bare(s.cond, v), Control(s.yes, w'));
  }

  lemma {:induction false} IfRaw(st: N.Stmt, n: nat, d: int, x: S.Slots, r: S.Raw)
    requires st.If?
    requires N.Compilable(st.cond) && S.RawStmt(st.yes, n + C.ExprLabels(st.cond) + 1, d, x) == Some(r)
    ensures var ne := n + C.ExprLabels(st.cond);
      S.RawStmt(st, n, d, x) == Some(S.Raw(C.ExprCode(st.cond, n, d) + [M.Test, M.Je(ne)] + (r.code + [M.Label(ne)]), r.slots))
  {
    hide C.ExprCode, C.ExprLabels, C.StmtLabels, N.Compilable;
  }

  lemma {:induction false} IfRawLabels(c: N.Expr, y: N.Stmt)
    ensures C.StmtLabels(N.If(c, y)) == C.ExprLabels(c) + 1 + C.StmtLabels(y)
  {
  }

  lemma {:induction false} IfElseAlike(s: Stmt, v: View, d: int, l: nat)
    requires s.IfElse? && GenStmt(s, v).Done?
    ensures Follows(s, v, d, l)
    decreases s, 0
  {
    hide Alike, GenExpr, Bare, JumpIfZero, Emit, C.ExprCode, C.ExprLabels, C.StmtLabels, S.RawStmt;
    ExprAlike(s.cond, v, d, l);
    BareCompiles(s.cond, v);
    var w := GenExpr(s.cond, v).view;
    var a := C.ExprCode(Bare(s.cond, v), v.nextLabel, d);
    var ne := w.nextLabel;
    var w' := JumpIfZero(Fresh(w), ne);
    BranchAlike(w, l);
    StmtAlike(s.yes, w', d, l);
    var x := GenStmt(s.yes, w').view;
    var r := S.RawStmt(Control(s.yes, w'), w'.nextLabel, d, w'.slots).value;
    var end := x.nextLabel;
    var y := Emit(Emit(Fresh(x), Jump(end)), Mark(ne));
    MiddleAlike(x, end, ne, l);
    StmtAlike(s.no, y, d, l);
    var z := GenStmt(s.no, y).view;
    var q := S.RawStmt(Control(s.no, y), y.nextLabel, d, y.slots).value;
    AlikeMark(z, end, l);
    EmitSame(z);
    AlikeJoin(y, z, Emit(z, Mark(end)), q.code, [M.Label(end)], Placed(s.no, l), 0, Gone(s.no, l), 0, l);
    AlikeJoin(w', x, y, r.code, [M.Jmp(end), M.Label(ne)], Placed(s.yes, l), 0, Gone(s.yes, l), 0, l);
    AlikeJoin(w', y, Emit(z, Mark(end)), r.code + [M.Jmp(end), M.Label(ne)], q.code + [M.Label(end)],
      Placed(s.yes, l), Placed(s.no, l), Gone(s.yes, l), Gone(s.no, l), l);
    AlikeJoin(v, w, w', a, [M.Test, M.Je(ne)], 0, 0, 0, 0, l);
    AlikeJoin(v, w', Emit(z, Mark(end)), a + [M.Test, M.Je(ne)], r.code + [M.Jmp(end), M.Label(ne)] + (q.code + [M.Label(end)]),
      0, Placed(s, l), 0, Gone(s, l), l);
    IfElseRaw(N.IfElse(Bare(s.cond, v), Control(s.yes, w'), Control(s.no, y)), v.nextLabel, d, v.slots, r, q);
    IfElseRawLabels(Bare(s.cond, v), Control(s.yes, w'), Control(s.no, y));
  }

  lemma {:induction false} MiddleAlike(x: View, end: nat, ne: nat, l: nat)
    requires end == x.nextLabel
    ensures var y := Emit(Emit(Fresh(x), Jump(end)), Mark(ne));
      Alike(x, y, [M.Jmp(end), M.Label(ne)], 0, 0, l) && y.nextLabel == end + 1 && y.slots == x.slots
  {
    hide Marks, Jumps;
    Counted(Fresh(x), Jump(end), l);
    Counted(Emit(Fresh(x), Jump(end)), Mark(ne), l);
    TwoCounts(M.Jmp(end), M.Label(ne), l);
  }

  lemma {:induction false} IfElseRaw(st: N.Stmt, n: nat, d: int, x: S.Slots, r: S.Raw, q: S.Raw)
    requires st.IfElse?
    requires N.Compilable(st.cond) && S.RawStmt(st.yes, n + C.ExprLabels(st.cond) + 1, d, x) == Some(r)
    requires S.RawStmt(st.no, n + C.ExprLabels(st.cond) + 1 + C.StmtLabels(st.yes) + 1, d, r.slots) == Some(q)
    ensures var ne := n + C.ExprLabels(st.cond); var end := ne + 1 + C.StmtLabels(st.yes);
      S.RawStmt(st, n, d, x) == Some(S.Raw(C.ExprCode(st.cond, n, d) + [M.Test, M.Je(ne)] +
        (r.code + [M.Jmp(end), M.Label(ne)] + (q.code + [M.Label(end)])), q.slots))
  {
    hide C.ExprCode, C.ExprLabels, C.StmtLabels, N.Compilable;
  }

  lemma {:induction false} IfElseRawLabels(c: N.Expr, y: N.Stmt, z: N.Stmt)
    ensures C.StmtLabels(N.IfElse(c, y, z)) == C.ExprLabels(c) + 1 + C.StmtLabels(y) + 1 + C.StmtLabels(z)
  {
  }

  /** The start and the end of a loop. */
  lemma {:induction false} OpenAlike(v: View, end: nat, next: nat, begin: nat, l: nat)
    ensures var u := OpenLoop(v, end, next, begin);
      Alike(v, u, [M.Label(begin)], 0, 0, l) && u.nextLabel == v.nextLabel + 2 && u.slots == S.Save(v.slots, end, next)
  {
    hide Marks, Jumps;
    Counted(Fresh(Fresh(v)).(slots := S.Save(v.slots, end, next)), Mark(begin), l);
    OneCount(M.Label(begin), l);
  }

  lemma {:induction false} CloseAlike(v: View, begin: nat, end: nat, l: nat)
    ensures var u := CloseLoop(LoopEnd(v, begin, end));
      Alike(v, u, [M.Jmp(begin), M.Label(end)], 0, 0, l) && u.nextLabel == v.nextLabel && u.slots == S.Restore(v.slots)
  {
    hide Marks, Jumps;
    Counted(v, Jump(begin), l);
    Counted(Emit(v, Jump(begin)), Mark(end), l);
    TwoCounts(M.Jmp(begin), M.Label(end), l);
  }

  lemma {:induction false} WhileAlike(s: Stmt, v: View, d: int, l: nat)
    requires s.While? && GenStmt(s, v).Done?
    ensures Follows(s, v, d, l)
    decreases s, 0
  {
    hide Alike, GenExpr, Bare, JumpIfZero, OpenLoop, CloseLoop, LoopEnd, C.ExprCode, C.ExprLabels, C.StmtLabels, S.RawStmt;
    var begin, end := v.nextLabel, v.nextLabel + 1;
    var u := OpenLoop(v, end, begin, begin);
    OpenAlike(v, end, begin, begin, l);
    ExprAlike(s.cond, u, d, l);
    BareCompiles(s.cond, u);
    var a := C.ExprCode(Bare(s.cond, u), u.nextLabel, d);
    var w := GenExpr(s.cond, u).view;
    var w' := JumpIfZero(w, end);
    TestAlike(w, end, l);
    StmtAlike(s.body, w', d, l);
    var x := GenStmt(s.body, w').view;
    var r := S.RawStmt(Control(s.body, w'), w'.nextLabel, d, w'.slots).value;
    var z := CloseLoop(LoopEnd(x, begin, end));
    CloseAlike(x, begin, end, l);
    AlikeJoin(v, u, w, [M.Label(begin)], a, 0, 0, 0, 0, l);
    AlikeJoin(v, w, w', [M.Label(begin)] + a, [M.Test, M.Je(end)], 0, 0, 0, 0, l);
    AlikeJoin(w', x, z, r.code, [M.Jmp(begin), M.Label(end)], Placed(s.body, l), 0, Gone(s.body, l), 0, l);
    AlikeJoin(v, w', z, [M.Label(begin)] + a + [M.Test, M.Je(end)], r.code + [M.Jmp(begin), M.Label(end)],
      0, Placed(s.body, l), 0, Gone(s.body, l), l);
    WhileRaw(N.While(Bare(s.cond, u), Control(s.body, w')), v.nextLabel, d, v.slots, r);
    WhileRawLabels(Bare(s.cond, u), Control(s.body, w'));
  }

  lemma {:induction false} WhileRaw(st: N.Stmt, n: nat, d: int, x: S.Slots, r: S.Raw)
    requires st.While?
    requires N.Compilable(st.cond) && S.RawStmt(st.body, n + 2 + C.ExprLabels(st.cond), d, S.Save(x, n + 1, n)) == Some(r)
    ensures S.RawStmt(st, n, d, x) == Some(S.Raw([M.Label(n)] + C.ExprCode(st.cond, n + 2, d) + [M.Test, M.Je(n + 1)] +
      (r.code + [M.Jmp(n), M.Label(n + 1)]), S.Restore(r.slots)))
  {
    hide C.ExprCode, C.ExprLabels, C.StmtLabels, N.Compilable;
  }

  lemma {:induction false} WhileRawLabels(c: N.Expr, y: N.Stmt)
    ensures C.StmtLabels(N.While(c, y)) == 2 + C.ExprLabels(c) + C.StmtLabels(y)
  {
  }

  lemma {:induction false} DoAlike(s: Stmt, v: View, d: int, l: nat)
    requires s.DoWhile? && GenStmt(s, v).Done?
    ensures Follows(s, v, d, l)
    decreases s, 0
  {
    hide Alike, GenExpr, Bare, JumpIfZero, OpenLoop, CloseLoop, LoopEnd, C.ExprCode, C.ExprLabels, C.StmtLabels, S.RawStmt;
    var begin, end := v.nextLabel, v.nextLabel + 1;
    var u := OpenLoop(v, end, begin, begin);
    OpenAlike(v, end, begin, begin, l);
    StmtAlike(s.body, u, d, l);
    var x := GenStmt(s.body, u).view;
    var r := S.RawStmt(Control(s.body, u), u.nextLabel, d, u.slots).value;
    ExprAlike(s.cond, x, d, l);
    BareCompiles(s.cond, x);
    var a := C.ExprCode(Bare(s.cond, x), x.nextLabel, d);
    var y := GenExpr(s.cond, x).view;
    var y' := JumpIfZero(y, end);
    TestAlike(y, end, l);
    var z := CloseLoop(LoopEnd(y', begin, end));
    CloseAlike(y', begin, end, l);
    AlikeJoin(v, u, x, [M.Label(begin)], r.code, 0, Placed(s.body, l), 0, Gone(s.body, l), l);
    AlikeJoin(x, y, y', a, [M.Test, M.Je(end)], 0, 0, 0, 0, l);
    AlikeJoin(x, y', z, a + [M.Test, M.Je(end)], [M.Jmp(begin), M.Label(end)], 0, 0, 0, 0, l);
    AlikeJoin(v, x, z, [M.Label(begin)] + r.code, a + [M.Test, M.Je(end)] + [M.Jmp(begin), M.Label(end)],
      Placed(s.body, l), 0, Gone(s.body, l), 0, l);
    DoRaw(N.DoWhile(Control(s.body, u), Bare(s.cond, x)), v.nextLabel, d, v.slots, r);
    DoRawLabels(Control(s.body, u), Bare(s.cond, x));
  }

  lemma {:induction false} DoRaw(st: N.Stmt, n: nat, d: int, x: S.Slots, r: S.Raw)
    requires st.DoWhile?
    requires N.Compilable(st.cond) && S.RawStmt(st.body, n + 2, d, S.Save(x, n + 1, n)) == Some(r)
    ensures S.RawStmt(st, n, d, x) == Some(S.Raw([M.Label(n)] + r.code +
      (C.ExprCode(st.cond, n + 2 + C.StmtLabels(st.body), d) + [M.Test, M.Je(n + 1)] + [M.Jmp(n), M.Label(n + 1)]), S.Restore(r.slots)))
  {
    hide C.ExprCode, C.ExprLabels, C.StmtLabels, N.Compilable;
  }

  lemma {:induction false} DoRawLabels(y: N.Stmt, c: N.Expr)
    ensures C.StmtLabels(N.DoWhile(y, c)) == 2 + C.StmtLabels(y) + C.ExprLabels(c)
  {
  }

  /** The body of a for statement starts here. */
  function ForStart(test: Option<Expr>, x: View, end: nat): View {
    if test.Some? then JumpIfZero(x, end) else x
  }

  /** The views between the parts of a for statement. */
  lemma {:induction false} ForPieces(s: Stmt, v: View) returns (w: View, u: View, x: View, y: View, z: View)
    requires s.For? && GenStmt(s, v).Done?
    ensures GenStmt(s.init, v) == Done(w) && u == OpenLoop(Fresh(w), w.nextLabel + 2, w.nextLabel + 1, w.nextLabel)
    ensures GenOption(s.test, u).Done? && x == ForStart(s.test, GenOption(s.test, u).view, w.nextLabel + 2)
    ensures GenStmt(s.body, x) == Done(y) && GenOption(s.step, Emit(y, Mark(w.nextLabel + 1))) == Done(z)
    ensures GenStmt(s, v) == Done(CloseLoop(LoopEnd(z, w.nextLabel, w.nextLabel + 2)))
    ensures Control(s, v) == N.For(Control(s.init, v), BareOption(s.test, u), BareOption(s.step, Emit(y, Mark(w.nextLabel + 1))), Control(s.body, x))
  {
    hide GenOption, BareOption, JumpIfZero, OpenLoop, CloseLoop, LoopEnd, Emit;
    w := GenStmt(s.init, v).view;
    assert ForLoop(s, w).Done?;
    u := OpenLoop(Fresh(w), w.nextLabel + 2, w.nextLabel + 1, w.nextLabel);
    x := ForStart(s.test, GenOption(s.test, u).view, w.nextLabel + 2);
    y := GenStmt(s.body, x).view;
    z := GenOption(s.step, Emit(y, Mark(w.nextLabel + 1))).view;
  }

  lemma {:induction false} ForAlike(s: Stmt, v: View, d: int, l: nat)
    requires s.For? && GenStmt(s, v).Done?
    ensures Follows(s, v, d, l)
    decreases s, 0
  {
    hide *;
    var w, u, x, y, z := ForPieces(s, v);
    StmtAlike(s.init, v, d, l);
    var r := FollowsParts(s.init, v, w, d, l);
    var b := w.nextLabel;
    ForOpenAlike(w, s.test, b, d, l);
    StmtAlike(s.body, x, d, l);
    var q := FollowsParts(s.body, x, y, d, l);
    var y' := Emit(y, Mark(b + 1));
    var end := CloseLoop(LoopEnd(z, b, b + 2));
    ForCloseAlike(y, s.step, b, d, l);
    var test, step := BareOption(s.test, u), BareOption(s.step, y');
    var head := [M.Label(b)] + C.TestCode(test, b + 3, d, b + 2);
    var tail := [M.Label(b + 1)] + C.OptionCode(step, y.nextLabel, d) + [M.Jmp(b), M.Label(b + 2)];
    AlikeJoin(x, y, end, q.code, tail, Placed(s.body, l), 0, Gone(s.body, l), 0, l);
    AlikeJoin(w, x, end, head, q.code + tail, 0, Placed(s.body, l), 0, Gone(s.body, l), l);
    AlikeJoin(v, w, end, r.code, head + (q.code + tail), Placed(s.init, l), Placed(s.body, l), Gone(s.init, l), Gone(s.body, l), l);
    BareOptionCompiles(s.test, u);
    BareOptionCompiles(s.step, y');
    ForRaw(N.For(Control(s.init, v), test, step, Control(s.body, x)), v.nextLabel, d, v.slots, r, q);
    ForRawLabels(Control(s.init, v), test, step, Control(s.body, x));
    ForCounts(s, l);
    FollowsFrom(s, v, end, d, l, S.Raw(r.code + (head + (q.code + tail)), S.Restore(q.slots)));
  }

  lemma {:induction false} ForCounts(s: Stmt, l: nat)
    requires s.For?
    ensures Placed(s, l) == Placed(s.init, l) + Placed(s.body, l) && Gone(s, l) == Gone(s.init, l) + Gone(s.body, l)
  {
  }

  lemma {:induction false} FollowsParts(s: Stmt, v: View, w: View, d: int, l: nat) returns (r: S.Raw)
    requires Follows(s, v, d, l) && GenStmt(s, v) == Done(w)
    ensures S.RawStmt(Control(s, v), v.nextLabel, d, v.slots) == Some(r) && r.slots == w.slots
    ensures w.nextLabel == v.nextLabel + C.StmtLabels(Control(s, v)) && Alike(v, w, r.code, Placed(s, l), Gone(s, l), l)
  {
    hide GenStmt, Control, S.RawStmt, C.StmtLabels, Alike, Placed, Gone;
    r := S.RawStmt(Control(s, v), v.nextLabel, d, v.slots).value;
  }

  lemma {:induction false} FollowsFrom(s: Stmt, v: View, w: View, d: int, l: nat, r: S.Raw)
    requires GenStmt(s, v) == Done(w) && S.RawStmt(Control(s, v), v.nextLabel, d, v.slots) == Some(r) && r.slots == w.slots
    requires w.nextLabel == v.nextLabel + C.StmtLabels(Control(s, v)) && Alike(v, w, r.code, Placed(s, l), Gone(s, l), l)
    ensures Follows(s, v, d, l)
  {
    hide GenStmt, Control, S.RawStmt, C.StmtLabels, Alike, Placed, Gone;
  }

  /** From the begin label to the body. */
  lemma {:induction false} ForOpenAlike(w: View, test: Option<Expr>, b: nat, d: int, l: nat)
    requires b == w.nextLabel && GenOption(test, OpenLoop(Fresh(w), b + 2, b + 1, b)).Done?
    ensures var u := OpenLoop(Fresh(w), b + 2, b + 1, b); var x := GenOption(test, u).view;
      var x' := ForStart(test, x, b + 2);
      Alike(w, x', [M.Label(b)] + C.TestCode(BareOption(test, u), b + 3, d, b + 2), 0, 0, l) &&
      x'.nextLabel == b + 3 + C.OptionLabels(BareOption(test, u)) && x'.slots == S.Save(w.slots, b + 2, b + 1)
  {
    hide Alike, GenExpr, Bare, JumpIfZero, OpenLoop, C.ExprCode, C.ExprLabels;
    var u := OpenLoop(Fresh(w), b + 2, b + 1, b);
    AlikeNow(w, Fresh(w), l);
    OpenAlike(Fresh(w), b + 2, b + 1, b, l);
    AlikeJoin(w, Fresh(w), u, [], [M.Label(b)], 0, 0, 0, 0, l);
    assert [] + [M.Label(b)] == [M.Label(b)];
    if test.Some? {
      ExprAlike(test.value, u, d, l);
      var x := GenExpr(test.value, u).view;
      var a := C.ExprCode(Bare(test.value, u), u.nextLabel, d);
      TestAlike(x, b + 2, l);
      AlikeJoin(u, x, JumpIfZero(x, b + 2), a, [M.Test, M.Je(b + 2)], 0, 0, 0, 0, l);
      AlikeJoin(w, u, JumpIfZero(x, b + 2), [M.Label(b)], a + [M.Test, M.Je(b + 2)], 0, 0, 0, 0, l);
    } else {
      assert [M.Label(b)] + [] == [M.Label(b)];
    }
  }

  /** From the step label to the end. */
  lemma {:induction false} ForCloseAlike(y: View, step: Option<Expr>, b: nat, d: int, l: nat)
    requires GenOption(step, Emit(y, Mark(b + 1))).Done?
    ensures var y' := Emit(y, Mark(b + 1)); var z := GenOption(step, y').view; var end := CloseLoop(LoopEnd(z, b, b + 2));
      Alike(y, end, [M.Label(b + 1)] + C.OptionCode(BareOption(step, y'), y.nextLabel, d) + [M.Jmp(b), M.Label(b + 2)], 0, 0, l) &&
      end.nextLabel == y.nextLabel + C.OptionLabels(BareOption(step, y')) && end.slots == S.Restore(y.slots)
  {
    hide Alike, GenOption, BareOption, CloseLoop, LoopEnd, C.OptionCode, C.OptionLabels;
    var y' := Emit(y, Mark(b + 1));
    AlikeMark(y, b + 1, l);
    OptionAlike(step, y', d, l);
    var z := GenOption(step, y').view;
    CloseAlike(z, b, b + 2, l);
    AlikeJoin(y, y', z, [M.Label(b + 1)], C.OptionCode(BareOption(step, y'), y.nextLabel, d), 0, 0, 0, 0, l);
    AlikeJoin(y, z, CloseLoop(LoopEnd(z, b, b + 2)), [M.Label(b + 1)] + C.OptionCode(BareOption(step, y'), y.nextLabel, d),
      [M.Jmp(b), M.Label(b + 2)], 0, 0, 0, 0, l);
  }

  lemma {:induction false} ForRaw(st: N.Stmt, n: nat, d: int, x: S.Slots, r: S.Raw, q: S.Raw)
    requires st.For?
    requires N.CompilableOption(st.test) && N.CompilableOption(st.step) && S.RawStmt(st.init, n, d, x) == Some(r)
    requires var b := n + C.StmtLabels(st.init); S.RawStmt(st.body, b + 3 + C.OptionLabels(st.test), d, S.Save(r.slots, b + 2, b + 1)) == Some(q)
    ensures var b := n + C.StmtLabels(st.init); var k := b + 3 + C.OptionLabels(st.test);
      S.RawStmt(st, n, d, x) == Some(S.Raw(r.code + ([M.Label(b)] + C.TestCode(st.test, b + 3, d, b + 2) +
        (q.code + ([M.Label(b + 1)] + C.OptionCode(st.step, k + C.StmtLabels(st.body), d) + [M.Jmp(b), M.Label(b + 2)]))), S.Restore(q.slots)))
  {
    hide C.OptionCode, C.OptionLabels, C.TestCode, C.StmtLabels, N.CompilableOption;
  }

  lemma {:induction false} ForRawLabels(i: N.Stmt, test: Option<N.Expr>, step: Option<N.Expr>, y: N.Stmt)
    ensures C.StmtLabels(N.For(i, test, step, y)) == C.StmtLabels(i) + 3 + C.OptionLabels(test) + C.StmtLabels(y) + C.OptionLabels(step)
  {
  }

  lemma {:induction false} SwitchAlike(s: Stmt, v: View, d: int, l: nat)
    requires s.Switch? && GenStmt(s, v).Done?
    ensures Follows(s, v, d, l)
    decreases s, 0
  {
    hide Alike, GenExpr, Bare, Emit, OpenSwitch, KeepSwitch, C.ExprCode, C.ExprLabels, C.StmtLabels, S.RawStmt;
    var u := KeepSwitch(v);
    KeepSame(v);
    AlikeNow(v, u, l);
    ExprAlike(s.e, u, d, l);
    BareCompiles(s.e, u);
    var w := GenExpr(s.e, u).view;
    var a := C.ExprCode(Bare(s.e, u), v.nextLabel, d);
    var sw := w.nextLabel;
    OpenSwitchAlike(v, w, l);
    StmtAlike(s.body, OpenSwitch(w), d, l);
    var x := GenStmt(s.body, OpenSwitch(w)).view;
    var r := S.RawStmt(Control(s.body, OpenSwitch(w)), sw + 2, d, OpenSwitch(w).slots).value;
    var p, q := x.slots.sw.value, x.slots.brk.value;
    var y := Emit(Emit(x, Mark(p)), Mark(q));
    var z := y.(slots := S.SwitchRestore(x.slots));
    TwoMarks(x, p, q, l);
    AlikeJoin(v, u, w, [], a, 0, 0, 0, 0, l);
    assert [] + a == a;
    AlikeJoin(v, w, OpenSwitch(w), a, [M.Jmp(sw)], 0, 0, 0, 0, l);
    AlikeJoin(OpenSwitch(w), x, y, r.code, [M.Label(p), M.Label(q)], Placed(s.body, l), 0, Gone(s.body, l), 0, l);
    AlikeJoin(v, OpenSwitch(w), y, a + [M.Jmp(sw)], r.code + [M.Label(p), M.Label(q)], 0, Placed(s.body, l), 0, Gone(s.body, l), l);
    AlikeSlots(v, y, z, a + [M.Jmp(sw)] + (r.code + [M.Label(p), M.Label(q)]), Placed(s.body, l), Gone(s.body, l), l);
    SwitchRaw(N.Switch(Bare(s.e, u), Control(s.body, OpenSwitch(w))), v.nextLabel, d, v.slots, r, p, q);
    SwitchRawLabels(Bare(s.e, u), Control(s.body, OpenSwitch(w)));
  }

  lemma {:induction false} KeepSame(v: View)
    ensures KeepSwitch(v).output == v.output && KeepSwitch(v).nextLabel == v.nextLabel && KeepSwitch(v).emitted == v.emitted
    ensures KeepSwitch(v).slots == v.slots.(swStore := v.slots.sw, brkStore := v.slots.brk)
  {
  }

  lemma {:induction false} OpenSwitchAlike(v: View, w: View, l: nat)
    requires w.slots == v.slots.(swStore := v.slots.sw, brkStore := v.slots.brk)
    ensures var x := OpenSwitch(w);
      Alike(w, x, [M.Jmp(w.nextLabel)], 0, 0, l) && x.nextLabel == w.nextLabel + 2 && x.slots == S.SwitchSave(v.slots, w.nextLabel)
  {
    hide Marks, Jumps;
    Counted(Fresh(Fresh(w)).(slots := w.slots.(sw := Some(w.nextLabel), brk := Some(w.nextLabel + 1))), Jump(w.nextLabel), l);
    OneCount(M.Jmp(w.nextLabel), l);
  }

  lemma {:induction false} TwoMarks(x: View, p: nat, q: nat, l: nat)
    ensures var y := Emit(Emit(x, Mark(p)), Mark(q)); Alike(x, y, [M.Label(p), M.Label(q)], 0, 0, l) && y.nextLabel == x.nextLabel
  {
    hide Marks, Jumps;
    Counted(x, Mark(p), l);
    Counted(Emit(x, Mark(p)), Mark(q), l);
    TwoCounts(M.Label(p), M.Label(q), l);
  }

  lemma {:induction false} SwitchRaw(st: N.Stmt, n: nat, d: int, x: S.Slots, r: S.Raw, p: nat, q: nat)
    requires st.Switch?
    requires N.Compilable(st.e) && S.RawStmt(st.body, n + C.ExprLabels(st.e) + 2, d, S.SwitchSave(x, n + C.ExprLabels(st.e))) == Some(r)
    requires r.slots.sw == Some(p) && r.slots.brk == Some(q)
    ensures S.RawStmt(st, n, d, x) == Some(S.Raw(C.ExprCode(st.e, n, d) + [M.Jmp(n + C.ExprLabels(st.e))] +
      (r.code + [M.Label(p), M.Label(q)]), S.SwitchRestore(r.slots)))
  {
    hide C.ExprCode, C.ExprLabels, C.StmtLabels, N.Compilable;
  }

  lemma {:induction false} SwitchRawLabels(e: N.Expr, y: N.Stmt)
    ensures C.StmtLabels(N.Switch(e, y)) == C.ExprLabels(e) + 2 + C.StmtLabels(y)
  {
  }

  lemma {:induction false} CaseAlike(s: Stmt, v: View, d: int, l: nat)
    requires s.Case? && GenStmt(s, v).Done?
    ensures Follows(s, v, d, l)
  {
    hide Alike;
    CaseCounts(v, s.value, l);
  }

  lemma {:induction false} CaseCounts(v: View, value: int, l: nat)
    requires v.slots.sw.Some?
    ensures var n := v.nextLabel;
      Alike(v, GenCase(v, value), [M.Jmp(n), M.Label(v.slots.sw.value), M.CmpImm32(value), M.Jne(n + 1), M.Label(n)], 0, 0, l)
  {
    hide Marks, Jumps, Emit;
    var n, sw := v.nextLabel, v.slots.sw.value;
    var a := Emit(Fresh(v), Jump(n));
    var b := Emit(a, Mark(sw));
    var c := EmitPlain(b, "cmp $, %eax", value);
    var e := Fresh(c).(slots := v.slots.(sw := Some(n + 1)));
    Counted(Fresh(v), Jump(n), l);
    Counted(a, Mark(sw), l);
    Counted(b, Plain("cmp $, %eax", value), l);
    Counted(e, Branch(n + 1), l);
    Counted(Emit(e, Branch(n + 1)), Mark(n), l);
    EmitSame(Fresh(v));
    EmitSame(a);
    EmitSame(b);
    EmitSame(e);
    EmitSame(Emit(e, Branch(n + 1)));
    CaseCode(n, sw, value, l);
  }

  lemma {:induction false} CaseCode(n: nat, sw: nat, value: int, l: nat)
    ensures var code := [M.Jmp(n), M.Label(sw), M.CmpImm32(value), M.Jne(n + 1), M.Label(n)];
      L.Defs(code, l) == (if l == sw then 1 else 0) + (if l == n then 1 else 0) &&
      (l != n && l != n + 1 ==> Aims(code, l) == 0)
  {
    var a, b := [M.Jmp(n), M.Label(sw), M.CmpImm32(value)], [M.Jne(n + 1), M.Label(n)];
    assert a + b == [M.Jmp(n), M.Label(sw), M.CmpImm32(value), M.Jne(n + 1), M.Label(n)];
    L.DefsAppend(a, b, l);
    AimsAppend(a, b, l);
    ThreeCounts(M.Jmp(n), M.Label(sw), M.CmpImm32(value), l);
    TwoCounts(M.Jne(n + 1), M.Label(n), l);
  }

  lemma {:induction false} DefaultAlike(s: Stmt, v: View, d: int, l: nat)
    requires s.Default? && GenStmt(s, v).Done?
    ensures Follows(s, v, d, l)
  {
    hide Alike;
    var k := v.slots.sw.value;
    var w := Emit(v, Mark(k));
    AlikeMark(v, k, l);
    AlikeNow(w, GenDefault(v), l);
    AlikeJoin(v, w, GenDefault(v), [M.Label(k)], [], 0, 0, 0, 0, l);
    assert [M.Label(k)] + [] == [M.Label(k)];
  }

  // ------------------------------------------------------------ whole bodies

  /** The loops, switches, breaks and markers of a statement, all expressions alike. */
  function Shape(s: Stmt): N.Stmt {
    match s
    case Sequence(first, rest) => N.Sequence(Shape(first), Shape(rest))
    case Expression(_) => N.Expression(N.Literal(0))
    case Declare(_, _) => N.Expression(N.Literal(0))
    case If(_, yes) => N.If(N.Literal(0), Shape(yes))
    case IfElse(_, yes, no) => N.IfElse(N.Literal(0), Shape(yes), Shape(no))
    case While(_, body) => N.While(N.Literal(0), Shape(body))
    case DoWhile(body, _) => N.DoWhile(Shape(body), N.Literal(0))
    case For(init, _, _, body) => N.For(Shape(init), None, None, Shape(body))
    case Switch(_, body) => N.Switch(N.Literal(0), Shape(body))
    case Case(value) => N.Case(value)
    case Default => N.Default
    case Break => N.Break
    case Continue => N.Continue
    case Return(_, _) => N.Return(None)
    case _ => N.Skip
  }

  /** The same of the other tree. */
  function Naked(s: N.Stmt): N.Stmt {
    match s
    case Sequence(a, b) => N.Sequence(Naked(a), Naked(b))
    case Expression(_) => N.Expression(N.Literal(0))
    case Initialize(_, _) => N.Expression(N.Literal(0))
    case If(_, y) => N.If(N.Literal(0), Naked(y))
    case IfElse(_, y, z) => N.IfElse(N.Literal(0), Naked(y), Naked(z))
    case While(_, y) => N.While(N.Literal(0), Naked(y))
    case DoWhile(y, _) => N.DoWhile(Naked(y), N.Literal(0))
    case For(i, _, _, y) => N.For(Naked(i), None, None, Naked(y))
    case Switch(_, y) => N.Switch(N.Literal(0), Naked(y))
    case Return(_) => N.Return(None)
    case _ => s
  }

  lemma {:induction false} NakedHas(s: N.Stmt)
    ensures S.HasBreakable(Naked(s)) == S.HasBreakable(s) && S.HasLoop(Naked(s)) == S.HasLoop(s) && S.HasSwitch(Naked(s)) == S.HasSwitch(s)
    decreases s
  {
    match s {
      case Sequence(a, b) => NakedHas(a); NakedHas(b);
      case If(_, y) => NakedHas(y);
      case IfElse(_, y, z) => NakedHas(y); NakedHas(z);
      case While(_, y) => NakedHas(y);
      case DoWhile(y, _) => NakedHas(y);
      case For(i, _, _, y) => NakedHas(i); NakedHas(y);
      case Switch(_, y) => NakedHas(y);
      case _ =>
    }
  }

  lemma {:induction false} NakedScan(s: N.Stmt, f: S.Flags)
    ensures S.Scan(Naked(s), f) == S.Scan(s, f)
    decreases s
  {
    hide S.HasBreakable, S.HasLoop, S.HasSwitch;
    match s {
      case Sequence(a, b) => NakedScan(a, f); NakedScan(b, S.Scan(a, f).flags);
      case If(_, y) => NakedScan(y, f);
      case IfElse(_, y, z) => NakedScan(y, f); NakedScan(z, S.Scan(y, f).flags);
      case While(_, y) => NakedHas(y); NakedScan(y, S.Flags(true, true, f.w));
      case DoWhile(y, _) => NakedHas(y); NakedScan(y, S.Flags(true, true, f.w));
      case For(i, _, _, y) => NakedHas(y); NakedScan(i, f); NakedScan(y, S.Flags(true, true, S.Scan(i, f).flags.w));
      case Switch(_, y) => NakedHas(y); NakedScan(y, S.Flags(true, f.c, true));
      case _ =>
    }
  }

  lemma {:induction false} NakedNested(s: N.Stmt, b: bool, c: bool, w: bool)
    ensures N.WellNested(Naked(s), b, c, w) == N.WellNested(s, b, c, w)
    decreases s
  {
    match s {
      case Sequence(x, y) => NakedNested(x, b, c, w); NakedNested(y, b, c, w);
      case If(_, y) => NakedNested(y, b, c, w);
      case IfElse(_, y, z) => NakedNested(y, b, c, w); NakedNested(z, b, c, w);
      case While(_, y) => NakedNested(y, true, true, w);
      case DoWhile(y, _) => NakedNested(y, true, true, w);
      case For(i, _, _, y) => NakedNested(i, b, c, w); NakedNested(y, true, true, w);
      case Switch(_, y) => NakedNested(y, true, c, true);
      case _ =>
    }
  }

  /** The control of a statement has its shape, and can be compiled. */
  lemma {:induction false} ControlShape(s: Stmt, v: View)
    requires GenStmt(s, v).Done?
    ensures Naked(Control(s, v)) == Shape(s) && N.CompilableStmt(Control(s, v))
    decreases s
  {
    hide GenExpr, GenInits, GenOption, Bare, BareOption, Taking, Emit, JumpIfZero, OpenLoop, CloseLoop, LoopEnd, OpenSwitch, KeepSwitch;
    match s {
      case Sequence(_, _) => SequenceShape(s, v);
      case Expression(e) => BareCompiles(e, v);
      case Declare(base, inits) =>
        InitsMark(inits, base, v);
        TakingLabels(GenInits(inits, base, v).view.nextLabel - v.nextLabel);
      case If(_, _) => IfShape(s, v);
      case IfElse(_, _, _) => IfElseShape(s, v);
      case While(_, _) => LoopShape(s, v);
      case DoWhile(_, _) => LoopShape(s, v);
      case For(_, _, _, _) => ForShape(s, v);
      case Switch(_, _) => SwitchShape(s, v);
      case Return(_, result) => BareOptionCompiles(result, v);
      case _ =>
    }
  }

  lemma {:induction false} SequenceShape(s: Stmt, v: View)
    requires s.Sequence? && GenStmt(s, v).Done?
    ensures Naked(Control(s, v)) == Shape(s) && N.CompilableStmt(Control(s, v))
    decreases s, 0
  {
    ControlShape(s.first, v);
    ControlShape(s.rest, GenStmt(s.first, v).view);
  }

  lemma {:induction false} IfShape(s: Stmt, v: View)
    requires s.If? && GenStmt(s, v).Done?
    ensures Naked(Control(s, v)) == Shape(s) && N.CompilableStmt(Control(s, v))
    decreases s, 0
  {
    hide GenExpr, Bare, Taking, Emit, JumpIfZero;
    var w := GenExpr(s.cond, v).view;
    BareCompiles(s.cond, v);
    ControlShape(s.yes, JumpIfZero(Fresh(w), w.nextLabel));
  }

  lemma {:induction false} SwitchShape(s: Stmt, v: View)
    requires s.Switch? && GenStmt(s, v).Done?
    ensures Naked(Control(s, v)) == Shape(s) && N.CompilableStmt(Control(s, v))
    decreases s, 0
  {
    hide GenExpr, Bare, Taking, Emit, OpenSwitch, KeepSwitch;
    BareCompiles(s.e, KeepSwitch(v));
    ControlShape(s.body, OpenSwitch(GenExpr(s.e, KeepSwitch(v)).view));
  }

  lemma {:induction false} IfElseShape(s: Stmt, v: View)
    requires s.IfElse? && GenStmt(s, v).Done?
    ensures Naked(Control(s, v)) == Shape(s) && N.CompilableStmt(Control(s, v))
    decreases s, 0
  {
    hide GenExpr, Bare, Taking, Emit, JumpIfZero;
    var w := GenExpr(s.cond, v).view;
    var w' := JumpIfZero(Fresh(w), w.nextLabel);
    var x := GenStmt(s.yes, w').view;
    BareCompiles(s.cond, v);
    ControlShape(s.yes, w');
    ControlShape(s.no, Emit(Emit(Fresh(x), Jump(x.nextLabel)), Mark(w.nextLabel)));
  }

  lemma {:induction false} LoopShape(s: Stmt, v: View)
    requires (s.While? || s.DoWhile?) && GenStmt(s, v).Done?
    ensures Naked(Control(s, v)) == Shape(s) && N.CompilableStmt(Control(s, v))
    decreases s, 0
  {
    hide GenExpr, Bare, Taking, JumpIfZero, OpenLoop, CloseLoop, LoopEnd;
    var u := OpenLoop(v, v.nextLabel + 1, v.nextLabel, v.nextLabel);
    if s.While? {
      BareCompiles(s.cond, u);
      ControlShape(s.body, JumpIfZero(GenExpr(s.cond, u).view, v.nextLabel + 1));
    } else {
      ControlShape(s.body, u);
      BareCompiles(s.cond, GenStmt(s.body, u).view);
    }
  }

  lemma {:induction false} ForShape(s: Stmt, v: View)
    requires s.For? && GenStmt(s, v).Done?
    ensures Naked(Control(s, v)) == Shape(s) && N.CompilableStmt(Control(s, v))
    decreases s, 0
  {
    var w, u, x, y, z := ForPieces(s, v);
    hide GenStmt, Control, GenOption, BareOption, ForStart, OpenLoop, CloseLoop, LoopEnd, Emit;
    ControlShape(s.init, v);
    ControlShape(s.body, x);
    BareOptionCompiles(s.test, u);
    BareOptionCompiles(s.step, Emit(y, Mark(w.nextLabel + 1)));
  }

  /** What label resolution leaves: no label is placed twice, those placed were handed out
      before, and every goto goes to one of them. */
  ghost predicate Resolved(body: Stmt, n: nat) {
    forall l: nat :: Placed(body, l) <= 1 && (Placed(body, l) > 0 ==> l < n) && (Gone(body, l) > 0 ==> Placed(body, l) > 0)
  }

  /** Such a body jumps and places below n only. */
  lemma {:induction false} BelowAll(s: Stmt, n: nat)
    requires forall l: nat :: Placed(s, l) > 0 || Gone(s, l) > 0 ==> l < n
    ensures GotosBelow(s, n)
    decreases s
  {
    match s {
      case Sequence(first, rest) => BelowPart(s, first, n); BelowPart(s, rest, n);
      case If(_, yes) => BelowPart(s, yes, n);
      case IfElse(_, yes, no) => BelowPart(s, yes, n); BelowPart(s, no, n);
      case While(_, body) => BelowPart(s, body, n);
      case DoWhile(body, _) => BelowPart(s, body, n);
      case For(init, _, _, body) => BelowPart(s, init, n); BelowPart(s, body, n);
      case Switch(_, body) => BelowPart(s, body, n);
      case Goto(where) => assert Gone(s, where) > 0;
      case LabelAt(place) => if place.Some? { assert Placed(s, place.value) > 0; }
      case _ =>
    }
  }

  lemma {:induction false} BelowPart(s: Stmt, part: Stmt, n: nat)
    requires part < s && forall l: nat :: Placed(part, l) <= Placed(s, l) && Gone(part, l) <= Gone(s, l)
    requires forall l: nat :: Placed(s, l) > 0 || Gone(s, l) > 0 ==> l < n
    ensures GotosBelow(part, n)
    decreases s, 0
  {
    forall l: nat | Placed(part, l) > 0 || Gone(part, l) > 0 ensures l < n {
      assert Placed(s, l) > 0 || Gone(s, l) > 0;
    }
    BelowAll(part, n);
  }

  /** The labels of a body whose slots are safe: its own, and those that its label
      statements place, each marked once; it jumps to its own and those it goes to. */
  lemma {:induction false} BodyCounts(body: Stmt, v: View, l: nat)
    requires GenStmt(body, v).Done? && N.WellNested(Shape(body), false, false, false) && S.SlotSafe(Shape(body))
    ensures var w := GenStmt(body, v).view;
      v.nextLabel <= w.nextLabel &&
      Marks(w.output, l) == Marks(v.output, l) + L.Within(v.nextLabel, w.nextLabel - v.nextLabel, l) + Placed(body, l) &&
      (l < v.nextLabel || w.nextLabel <= l ==> Jumps(w.output, l) == Jumps(v.output, l) + Gone(body, l))
  {
    hide GenStmt, Control, Shape, Naked, S.RawStmt, S.Scan, C.StmtCode, C.StmtLabels, N.WellNested, N.CompilableStmt, Marks, Jumps, L.Defs, Aims, Placed, Gone, L.AimsIn;
    var w := GenStmt(body, v).view;
    var k := Control(body, v);
    StmtAlike(body, v, 0, l);
    ControlShape(body, v);
    NakedScan(k, S.Flags(true, true, true));
    NakedNested(k, false, false, false);
    S.RawIsLexical(k, v.nextLabel, 0, v.slots);
    L.BodyLabels(k, v.nextLabel, 0, l);
    L.NestedOutside(k);
    L.StmtAims(k, v.nextLabel, 0, L.Nowhere);
    if l < v.nextLabel || w.nextLabel <= l {
      AimsOutside(C.StmtCode(k, v.nextLabel, 0, L.Nowhere), v.nextLabel, w.nextLabel, l);
    }
  }

  /** The main theorem: in the code of a body whose gotos are resolved and whose save slots
      are safe, every jump and branch goes to a label that this code marks exactly once. */
  lemma {:induction false} BodyTargets(body: Stmt, v: View, i: nat)
    requires GenStmt(body, v).Done? && N.WellNested(Shape(body), false, false, false) && S.SlotSafe(Shape(body))
    requires Resolved(body, v.nextLabel) && SlotsBelow(v.slots, v.nextLabel)
    requires var c := Since(v, GenStmt(body, v).view); i < |c| && (c[i].Jump? || c[i].Branch?)
    ensures var c := Since(v, GenStmt(body, v).view); Marks(c, c[i].target) == 1
  {
    hide GenStmt, Shape, S.Scan, N.WellNested, Marks, Jumps, Placed, Gone;
    var w := GenStmt(body, v).view;
    var c := Since(v, w);
    var l := c[i].target;
    BelowAll(body, v.nextLabel);
    Prefix(body, v);
    assert w.output == v.output + c;
    Added(v.output, c, l);
    JumpCounts(c, i, l);
    BodyCounts(body, v, l);
  }

  lemma {:induction false} Prefix(body: Stmt, v: View)
    requires GenStmt(body, v).Done? && SlotsBelow(v.slots, v.nextLabel) && GotosBelow(body, v.nextLabel)
    ensures v.output <= GenStmt(body, v).view.output
  {
    hide GenStmt;
    var s := State(0, [], map[], map[]);
    BodyRuns(body, v, s, s, 0);
  }

  // ---------------------------------------------------- from the table of labels

  /** The labels that the label statements place, and where the gotos go, as written. */
  function PlacesOf(s: Stmt): seq<Option<nat>> {
    match s
    case Sequence(first, rest) => PlacesOf(first) + PlacesOf(rest)
    case If(_, yes) => PlacesOf(yes)
    case IfElse(_, yes, no) => PlacesOf(yes) + PlacesOf(no)
    case While(_, body) => PlacesOf(body)
    case DoWhile(body, _) => PlacesOf(body)
    case For(init, _, _, body) => PlacesOf(init) + PlacesOf(body)
    case Switch(_, body) => PlacesOf(body)
    case LabelAt(place) => [place]
    case _ => []
  }

  function GotosOf(s: Stmt): seq<nat> {
    match s
    case Sequence(first, rest) => GotosOf(first) + GotosOf(rest)
    case If(_, yes) => GotosOf(yes)
    case IfElse(_, yes, no) => GotosOf(yes) + GotosOf(no)
    case While(_, body) => GotosOf(body)
    case DoWhile(body, _) => GotosOf(body)
    case For(init, _, _, body) => GotosOf(init) + GotosOf(body)
    case Switch(_, body) => GotosOf(body)
    case Goto(where) => [where]
    case _ => []
  }

  lemma CountsOf(s: Stmt, l: nat)
    ensures Placed(s, l) == multiset(PlacesOf(s))[Some(l)] && Gone(s, l) == multiset(GotosOf(s))[l]
  {
    hide *;
    PlacesCount(s, l);
    GotosCount(s, l);
  }

  lemma {:induction false} PlacesCount(s: Stmt, l: nat)
    ensures Placed(s, l) == multiset(PlacesOf(s))[Some(l)]
    decreases s
  {
    match s {
      case Sequence(first, rest) => PlacesCount(first, l); PlacesCount(rest, l);
      case If(_, yes) => PlacesCount(yes, l);
      case IfElse(_, yes, no) => PlacesCount(yes, l); PlacesCount(no, l);
      case While(_, body) => PlacesCount(body, l);
      case DoWhile(body, _) => PlacesCount(body, l);
      case For(init, _, _, body) => PlacesCount(init, l); PlacesCount(body, l);
      case Switch(_, body) => PlacesCount(body, l);
      case _ =>
    }
  }

  lemma {:induction false} GotosCount(s: Stmt, l: nat)
    ensures Gone(s, l) == multiset(GotosOf(s))[l]
    decreases s
  {
    match s {
      case Sequence(first, rest) => GotosCount(first, l); GotosCount(rest, l);
      case If(_, yes) => GotosCount(yes, l);
      case IfElse(_, yes, no) => GotosCount(yes, l); GotosCount(no, l);
      case While(_, body) => GotosCount(body, l);
      case DoWhile(body, _) => GotosCount(body, l);
      case For(init, _, _, body) => GotosCount(init, l); GotosCount(body, l);
      case Switch(_, body) => GotosCount(body, l);
      case _ =>
    }
  }

  lemma {:induction false} OnceAtMost(s: seq<Option<nat>>, x: Option<nat>)
    requires forall i, j :: 0 <= i < j < |s| && s[i] == x ==> s[j] != x
    ensures multiset(s)[x] <= 1
    decreases |s|
  {
    if |s| > 0 {
      var n := |s| - 1;
      assert s == s[..n] + [s[n]];
      OnceAtMost(s[..n], x);
      if s[n] == x {
        forall i | 0 <= i < n ensures s[..n][i] != x {
        }
        assert x !in s[..n];
      }
    }
  }

  /** The body's label statements, in order, are those of the table, each under its own name,
      and its gotos are the table's. */
  ghost predicate Spells(table: G.LabelTable, body: Stmt, names: seq<string>)
    reads table, table.gotos, table.labels.Values
  {
    |names| == |PlacesOf(body)| && (forall i, j :: 0 <= i < j < |names| ==> names[i] != names[j]) &&
    (forall i :: 0 <= i < |names| ==> names[i] in table.labels && PlacesOf(body)[i] == table.labels[names[i]].destination) &&
    (forall l :: l in table.labels ==> l in names) &&
    |table.gotos| == |GotosOf(body)| && forall i :: 0 <= i < |table.gotos| ==> table.gotos[i].destination == Some(GotosOf(body)[i])
  }

  /** What parse_label_backfill leaves is a resolved body. */
  lemma {:induction false} TableResolves(table: G.LabelTable, body: Stmt, names: seq<string>, from: nat)
    requires table.Filled(|table.gotos|) && table.Numbered(from) && Spells(table, body, names)
    ensures Resolved(body, table.nextLabel)
  {
    forall l: nat
      ensures Placed(body, l) <= 1 && (Placed(body, l) > 0 ==> l < table.nextLabel) && (Gone(body, l) > 0 ==> Placed(body, l) > 0)
    {
      CountsOf(body, l);
      TableCounts(table, body, names, from, l);
    }
  }

  lemma {:induction false} TableCounts(table: G.LabelTable, body: Stmt, names: seq<string>, from: nat, l: nat)
    requires table.Filled(|table.gotos|) && table.Numbered(from) && Spells(table, body, names)
    ensures multiset(PlacesOf(body))[Some(l)] <= 1
    ensures Some(l) in PlacesOf(body) ==> l < table.nextLabel
    ensures l in GotosOf(body) ==> Some(l) in PlacesOf(body)
  {
    var places, gotos := PlacesOf(body), GotosOf(body);
    forall i, j | 0 <= i < j < |places| && places[i] == Some(l) ensures places[j] != Some(l) {
      assert table.labels[names[i]].destination == Some(l);
      assert names[i] != names[j];
    }
    OnceAtMost(places, Some(l));
    if l in gotos {
      var i :| 0 <= i < |gotos| && gotos[i] == l;
      var name := table.gotos[i].name;
      assert table.gotos[i].destination == Some(l) == table.labels[name].destination;
      var k :| 0 <= k < |names| && names[k] == name;
      assert places[k] == Some(l);
    }
  }

  // -------------------------------------------------- literals' initializers

  /** Once a compound literal's initializers are out, no use of it puts them out again,
      whatever statements stand between. */
  lemma {:induction false} InitsOnce(inits: Inits, offset: int, v: View, between: Stmt)
    requires EnsureInits(inits, offset, v).Done? && GenStmt(between, EnsureInits(inits, offset, v).view).Done?
    ensures var x := GenStmt(between, EnsureInits(inits, offset, v).view).view; EnsureInits(inits, offset, x) == Done(x)
  {
    hide GenInits, GenStmt, Marks, Jumps;
    var w := EnsureInits(inits, offset, v).view;
    StmtAlike(between, w, 0, 0);
    AlikeEmits(between, w);
  }

  lemma {:induction false} AlikeEmits(s: Stmt, v: View)
    requires Follows(s, v, 0, 0)
    ensures v.emitted <= GenStmt(s, v).view.emitted
  {
    hide GenStmt, Marks, Jumps, Control, Placed, Gone;
  }
}
