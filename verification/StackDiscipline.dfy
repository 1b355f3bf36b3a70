/** Stack discipline of the emitted code: every label is reached with one depth of the
    stack from wherever it is jumped to, no code pops below where it started, and the
    generator's count moves with the machine's stack. */
module StackDiscipline {
  import opened Runs
  import opened StackCode
  import S = SaveSlots
  import M = Machine

  /** By how many words an instruction deepens the stack. */
  function Effect(i: Instr): int {
    if i.Push? || i.Reserve? then 1 else if i.Pop? || i.Release? then -1 else 0
  }

  function Depth(c: seq<Instr>): int {
    if |c| == 0 then 0 else Depth(c[..|c| - 1]) + Effect(c[|c| - 1])
  }

  /** The label an instruction defines or jumps to. */
  function LabelOf(i: Instr): Option<nat> {
    if i.Jump? || i.Branch? || i.Mark? then Some(i.target) else None
  }

  /** Which depth each label is reached with. */
  type Depths = map<nat, int>

  /** Instruction i of code that starts at depth `base`: its label, if it has one, belongs
      to this depth and is not older than `lo`, and the stack is no shallower than `floor`. */
  ghost predicate LevelAt(c: seq<Instr>, i: nat, m: Depths, base: int, floor: int, lo: nat)
    requires i < |c|
  {
    var d := base + Depth(c[..i]);
    floor <= d && (c[i].SpillXmm? ==> floor < d) &&
    (LabelOf(c[i]).Some? ==> lo <= LabelOf(c[i]).value && LabelOf(c[i]).value in m && m[LabelOf(c[i]).value] == d)
  }

  ghost predicate Levels(c: seq<Instr>, m: Depths, base: int, floor: int, lo: nat) {
    forall i :: 0 <= i < |c| ==> LevelAt(c, i, m, base, floor, lo)
  }

  ghost predicate Known(m: Depths, n: nat) {
    forall l: nat :: l in m <==> l < n
  }

  ghost predicate Extends(m: Depths, m': Depths) {
    forall l :: l in m ==> l in m' && m'[l] == m[l]
  }

  /** Code that starts when the generator holds `v` and the stack is `base` words deep. */
  datatype Trail = Trail(v: View, base: int, floor: int, lo: nat)

  /** The code since the trail's start. */
  function Since(v: View, w: View): seq<Instr> {
    if |v.output| <= |w.output| then w.output[|v.output|..] else []
  }

  /** The trail has reached w, with the stack d words deep. */
  ghost predicate On(t: Trail, w: View, m: Depths, d: int) {
    t.v.emitted <= w.emitted &&
    t.v.output <= w.output && Levels(Since(t.v, w), m, t.base, t.floor, t.lo) &&
    d == t.base + Depth(Since(t.v, w)) && t.floor <= d && t.lo <= w.nextLabel && Known(m, w.nextLabel) &&
    w.stack == t.v.stack + 8 * (d - t.base)
  }

  lemma Start(v: View, m: Depths, base: int, lo: nat)
    requires Known(m, v.nextLabel) && lo <= v.nextLabel
    ensures On(Trail(v, base, base, lo), v, m, base)
  {
  }

  // ------------------------------------------------- one more instruction

  lemma Extend(t: Trail, w: View, m: Depths, d: int, i: Instr, x: View)
    requires On(t, w, m, d) && x == w.(output := w.output + [i], stack := w.stack + 8 * Effect(i)) && t.floor <= d + Effect(i)
    requires i.SpillXmm? ==> t.floor < d
    requires LabelOf(i).Some? ==> t.lo <= LabelOf(i).value && LabelOf(i).value in m && m[LabelOf(i).value] == d
    ensures On(t, x, m, d + Effect(i))
  {
    var c, c' := Since(t.v, w), Since(t.v, x);
    assert c' == c + [i] && c'[..|c|] == c;
    forall k | 0 <= k < |c'| ensures LevelAt(c', k, m, t.base, t.floor, t.lo) {
      if k < |c| {
        assert c'[..k] == c[..k];
        assert LevelAt(c, k, m, t.base, t.floor, t.lo);
      }
    }
  }

  lemma Plainly(t: Trail, w: View, m: Depths, d: int, i: Instr)
    requires On(t, w, m, d) && Effect(i) == 0 && LabelOf(i).None? && !i.SpillXmm?
    ensures On(t, Emit(w, i), m, d)
  {
    hide On;
    Floor(t, w, m, d);
    Extend(t, w, m, d, i, Emit(w, i));
  }

  lemma Floor(t: Trail, w: View, m: Depths, d: int)
    requires On(t, w, m, d)
    ensures t.floor <= d && t.lo <= w.nextLabel
  {
  }

  lemma Labelled(t: Trail, w: View, m: Depths, d: int, i: Instr)
    requires On(t, w, m, d) && LabelOf(i).Some? && t.lo <= LabelOf(i).value && LabelOf(i).value in m && m[LabelOf(i).value] == d
    ensures On(t, Emit(w, i), m, d)
  {
    hide On;
    Floor(t, w, m, d);
    Extend(t, w, m, d, i, Emit(w, i));
  }

  lemma Pushed(t: Trail, w: View, m: Depths, d: int, r: M.Reg)
    requires On(t, w, m, d)
    ensures On(t, PushReg(w, r), m, d + 1)
  {
    hide On;
    Floor(t, w, m, d);
    Extend(t, w, m, d, Push(r), PushReg(w, r));
  }

  lemma Popped(t: Trail, w: View, m: Depths, d: int, r: M.Reg)
    requires On(t, w, m, d) && t.floor < d
    ensures On(t, PopReg(w, r), m, d - 1)
  {
    hide On;
    Extend(t, w, m, d, Pop(r), PopReg(w, r));
  }

  lemma PushedXmm(t: Trail, w: View, m: Depths, d: int, r: nat)
    requires On(t, w, m, d)
    ensures On(t, PushXmm(w, r), m, d + 1)
  {
    hide On;
    Floor(t, w, m, d);
    var x := Emit(w, Reserve).(stack := w.stack + 8);
    Extend(t, w, m, d, Reserve, x);
    Extend(t, x, m, d + 1, SpillXmm(r), PushXmm(w, r));
  }

  lemma PoppedXmm(t: Trail, w: View, m: Depths, d: int, r: nat)
    requires On(t, w, m, d) && t.floor < d
    ensures On(t, PopXmm(w, r), m, d - 1)
  {
    hide On;
    var x := Emit(w, FillXmm(r));
    Extend(t, w, m, d, FillXmm(r), x);
    Extend(t, x, m, d, Release, PopXmm(w, r));
  }

  /** A fresh label belongs to the depth it is handed out at. */
  lemma Labelling(t: Trail, w: View, m: Depths, d: int) returns (m': Depths)
    requires On(t, w, m, d)
    ensures On(t, Fresh(w), m', d) && Extends(m, m') && w.nextLabel in m' && m'[w.nextLabel] == d
  {
    m' := m[w.nextLabel := d];
    var c := Since(t.v, w);
    forall i | 0 <= i < |c| ensures LevelAt(c, i, m', t.base, t.floor, t.lo) {
      assert LevelAt(c, i, m, t.base, t.floor, t.lo);
    }
  }

  // ---------------------------------------------------- small pieces of code

  lemma EmitPlainOn(t: Trail, w: View, m: Depths, d: int, text: string, operand: int)
    requires On(t, w, m, d)
    ensures On(t, EmitPlain(w, text, operand), m, d)
  {
    hide On, Emit;
    Plainly(t, w, m, d, Plain(text, operand));
  }

  lemma CastOn(t: Trail, w: View, m: Depths, d: int, k: Kind)
    requires On(t, w, m, d)
    ensures On(t, CastInt(w, k), m, d) && On(t, CastFloat(w, k), m, d)
  {
    hide On, EmitPlain;
    EmitPlainOn(t, w, m, d, "cvttsd2si %xmm0, %eax", 0);
    EmitPlainOn(t, w, m, d, "cvtsi2sd %eax, %xmm0", 0);
  }

  lemma ConvertOn(t: Trail, w: View, m: Depths, d: int, to: Kind, from: Kind)
    requires On(t, w, m, d)
    ensures On(t, Convert(w, to, from), m, d) && On(t, ConvertStored(w, to, from), m, d)
  {
    hide On, EmitPlain, CastInt, CastFloat;
    CastOn(t, w, m, d, from);
    EmitPlainOn(t, w, m, d, "cvtsi2ss %eax, %xmm0", 0);
    EmitPlainOn(t, w, m, d, "cvtpd2ps %xmm0, %xmm0", 0);
    EmitPlainOn(t, w, m, d, "cvtsi2sd %eax, %xmm0", 0);
  }

  lemma LoadLocalOn(t: Trail, w: View, m: Depths, d: int, k: Kind, base: string, offset: int)
    requires On(t, w, m, d)
    ensures On(t, LoadLocal(w, k, base, offset), m, d)
  {
    hide On, EmitPlain;
    EmitPlainOn(t, w, m, d, "lea (" + base + "), %rax", offset);
    EmitPlainOn(t, w, m, d, "cvtps2pd (" + base + "), %xmm0", offset);
    EmitPlainOn(t, w, m, d, "movsd (" + base + "), %xmm0", offset);
    EmitPlainOn(t, w, m, d, "mov $0, %ecx", 0);
    var x := if IsNarrow(k) then EmitPlain(w, "mov $0, %ecx", 0) else w;
    EmitPlainOn(t, x, m, d, "mov (" + base + "), %rcx", offset);
    EmitPlainOn(t, EmitPlain(x, "mov (" + base + "), %rcx", offset), m, d, "mov %rcx, %rax", 0);
  }

  lemma LoadGlobalOn(t: Trail, w: View, m: Depths, d: int, k: Kind, tag: nat, offset: int)
    requires On(t, w, m, d)
    ensures On(t, LoadGlobal(w, k, tag, offset), m, d)
  {
    hide On, EmitPlain;
    EmitPlainOn(t, w, m, d, "lea label(%rip), %rax", offset);
    EmitPlainOn(t, w, m, d, "mov $0, %eax", 0);
    var x := if IsNarrow(k) then EmitPlain(w, "mov $0, %eax", 0) else w;
    EmitPlainOn(t, x, m, d, "mov label(%rip), %rax", offset);
  }

  lemma SaveLocalOn(t: Trail, w: View, m: Depths, d: int, k: Kind, offset: int)
    requires On(t, w, m, d)
    ensures On(t, SaveLocal(w, k, offset), m, d)
  {
    hide On, EmitPlain, PushXmm, PopXmm;
    if k.Float? {
      var x := PushXmm(w, 0);
      var y := EmitPlain(x, "unpcklpd %xmm0, %xmm0", 0);
      var z := EmitPlain(y, "cvtpd2ps %xmm0, %xmm0", 0);
      PushedXmm(t, w, m, d, 0);
      EmitPlainOn(t, x, m, d + 1, "unpcklpd %xmm0, %xmm0", 0);
      EmitPlainOn(t, y, m, d + 1, "cvtpd2ps %xmm0, %xmm0", 0);
      EmitPlainOn(t, z, m, d + 1, "movss %xmm0, (%rbp)", offset);
      Floor(t, w, m, d);
      PoppedXmm(t, EmitPlain(z, "movss %xmm0, (%rbp)", offset), m, d + 1, 0);
    } else {
      EmitPlainOn(t, w, m, d, "movsd %xmm0, (%rbp)", offset);
      EmitPlainOn(t, w, m, d, "mov %rax, (%rbp)", offset);
    }
  }

  lemma SaveThroughOn(t: Trail, w: View, m: Depths, d: int, k: Kind, offset: int)
    requires On(t, w, m, d) && t.floor < d
    ensures On(t, SaveThrough(w, k, offset), m, d - 1)
  {
    hide On, Emit, PopReg;
    var x := EmitPlain(w, "mov (%rsp), %rcx", 0);
    Plainly(t, w, m, d, Plain("mov (%rsp), %rcx", 0));
    Plainly(t, x, m, d, Plain("mov %rcx, (%rax)", offset));
    Popped(t, EmitPlain(x, "mov %rcx, (%rax)", offset), m, d, M.RAX);
  }

  lemma SaveLiteralOn(t: Trail, w: View, m: Depths, d: int, k: Kind, value: int, offset: int)
    requires On(t, w, m, d) && SaveLiteral(w, k, value, offset).Done?
    ensures On(t, SaveLiteral(w, k, value, offset).view, m, d)
  {
    hide On, Emit, PushReg, PopReg;
    Plainly(t, w, m, d, Plain("mov $, (%rbp)", offset));
    Floor(t, w, m, d);
    Pushed(t, w, m, d, M.RAX);
    var x := Emit(PushReg(w, M.RAX), SetRax(value));
    Plainly(t, PushReg(w, M.RAX), m, d + 1, SetRax(value));
    Plainly(t, x, m, d + 1, Plain("mov %rax, (%rbp)", offset));
    Popped(t, EmitPlain(x, "mov %rax, (%rbp)", offset), m, d + 1, M.RAX);
  }

  lemma JumpIfZeroOn(t: Trail, w: View, m: Depths, d: int, l: nat)
    requires On(t, w, m, d) && t.lo <= l && l in m && m[l] == d
    ensures On(t, JumpIfZero(w, l), m, d)
  {
    hide On, Emit;
    Plainly(t, w, m, d, Plain("test %rax, %rax", 0));
    Labelled(t, EmitPlain(w, "test %rax, %rax", 0), m, d, Branch(l));
  }

  lemma TestToOn(t: Trail, w: View, m: Depths, d: int, value: int, l: nat)
    requires On(t, w, m, d) && t.lo <= l && l in m && m[l] == d
    ensures On(t, TestTo(w, value, l), m, d)
  {
    hide On, Emit;
    var x := EmitPlain(w, "test %rax, %rax", 0);
    Plainly(t, w, m, d, Plain("test %rax, %rax", 0));
    Plainly(t, x, m, d, SetRax(value));
    Labelled(t, Emit(x, SetRax(value)), m, d, Branch(l));
  }

  // ------------------------------------------------------------- calls

  /** How many words the saved registers take. */
  function Saved(ks: seq<Kind>): nat {
    if Floats(ks) > 0 then |ks| - 1 else |ks|
  }

  lemma SavedStep(ks: seq<Kind>)
    requires |ks| > 0
    ensures var before := ks[..|ks| - 1];
      Wholes(ks) == Wholes(before) + (if IsFloating(ks[|ks| - 1]) then 0 else 1) &&
      Saved(ks) == Saved(before) + if IsFloating(ks[|ks| - 1]) && Floats(before) == 0 then 0 else 1
  {
  }

  lemma {:induction false} SaveRegistersOn(t: Trail, w: View, m: Depths, d: int, ks: seq<Kind>)
    requires On(t, w, m, d) && Wholes(ks) <= 6
    ensures On(t, SaveRegisters(w, ks), m, d + Saved(ks))
    decreases |ks|
  {
    hide On, PushReg, PushXmm, Floats, Wholes, Saved;
    if |ks| > 0 {
      var before := ks[..|ks| - 1];
      SavedStep(ks);
      SaveRegistersOn(t, w, m, d, before);
      var x := SaveRegisters(w, before);
      if !IsFloating(ks[|ks| - 1]) {
        Pushed(t, x, m, d + Saved(before), M.ArgReg(Wholes(before)));
      } else if Floats(before) > 0 {
        PushedXmm(t, x, m, d + Saved(before), Floats(before));
      }
    } else {
      NoFloats(ks);
    }
  }

  lemma NoFloats(ks: seq<Kind>)
    ensures |ks| == 0 ==> Floats(ks) == 0 && Saved(ks) == 0
  {
  }

  lemma {:induction false} LoadArgumentsOn(t: Trail, w: View, m: Depths, d: int, ks: seq<Kind>)
    requires On(t, w, m, d) && Wholes(ks) <= 6 && t.floor <= d - |ks|
    ensures On(t, LoadArguments(w, ks), m, d - |ks|)
    decreases |ks|
  {
    hide On, PopReg, PopXmm, Floats, Wholes;
    if |ks| > 0 {
      var before := ks[..|ks| - 1];
      SavedStep(ks);
      PoppedXmm(t, w, m, d, Floats(before));
      if !IsFloating(ks[|ks| - 1]) {
        Popped(t, w, m, d, M.ArgReg(Wholes(before)));
      }
      LoadArgumentsOn(t, if IsFloating(ks[|ks| - 1]) then PopXmm(w, Floats(before)) else PopReg(w, M.ArgReg(Wholes(before))), m, d - 1, before);
    }
  }

  lemma {:induction false} RestoreRegistersOn(t: Trail, w: View, m: Depths, d: int, ks: seq<Kind>)
    requires On(t, w, m, d) && Wholes(ks) <= 6 && t.floor <= d - Saved(ks)
    ensures On(t, RestoreRegisters(w, ks), m, d - Saved(ks))
    decreases |ks|
  {
    hide On, PopReg, PopXmm, Floats, Wholes, Saved;
    if |ks| > 0 {
      var before := ks[..|ks| - 1];
      SavedStep(ks);
      if !IsFloating(ks[|ks| - 1]) {
        Popped(t, w, m, d, M.ArgReg(Wholes(before)));
        RestoreRegistersOn(t, PopReg(w, M.ArgReg(Wholes(before))), m, d - 1, before);
      } else if Floats(before) > 0 {
        PoppedXmm(t, w, m, d, Floats(before));
        RestoreRegistersOn(t, PopXmm(w, Floats(before)), m, d - 1, before);
      } else {
        RestoreRegistersOn(t, w, m, d, before);
      }
    } else {
      NoFloats(ks);
    }
  }

  /** The padding moves the stack but not the count, and is undone after the call. */
  lemma TransferOn(t: Trail, w: View, m: Depths, d: int, name: string, floats: nat)
    requires On(t, w, m, d)
    ensures On(t, Transfer(w, name, floats), m, d)
  {
    var v := Emit(w, SetRax(floats));
    Plainly(t, w, m, d, SetRax(floats));
    if v.stack % 16 != 0 {
      var deep := v.(output := v.output + [Reserve], stack := v.stack + 8);
      var called := deep.(output := deep.output + [CallTo(name)]);
      Extend(t, v, m, d, Reserve, deep);
      Extend(t, deep, m, d + 1, CallTo(name), called);
      Extend(t, called, m, d + 1, Release, called.(output := called.output + [Release], stack := v.stack));
    } else {
      Plainly(t, v, m, d, CallTo(name));
    }
  }

  // ------------------------------------------------------- expressions

  lemma {:induction false} InitsOn(inits: Inits, base: int, t: Trail, w: View, m: Depths, d: int) returns (m': Depths)
    requires On(t, w, m, d) && GenInits(inits, base, w).Done?
    ensures On(t, GenInits(inits, base, w).view, m', d) && Extends(m, m')
    decreases inits, 0
  {
    hide On, GenExpr, SaveLiteral, SaveLocal;
    match inits {
      case NoInits => m' := m;
      case Init(value, k, offset, rest) =>
        if value.Literal? {
          SaveLiteralOn(t, w, m, d, k, value.value, base + offset);
          m' := InitsOn(rest, base, t, SaveLiteral(w, k, value.value, base + offset).view, m, d);
        } else {
          var m1 := ExprOn(value, t, w, m, d);
          var x := GenExpr(value, w).view;
          SaveLocalOn(t, x, m1, d, k, base + offset);
          m' := InitsOn(rest, base, t, SaveLocal(x, k, base + offset), m1, d);
        }
    }
  }

  lemma {:induction false} EnsureOn(inits: Inits, offset: int, t: Trail, w: View, m: Depths, d: int) returns (m': Depths)
    requires On(t, w, m, d) && EnsureInits(inits, offset, w).Done?
    ensures On(t, EnsureInits(inits, offset, w).view, m', d) && Extends(m, m')
    decreases inits, 1
  {
    hide On, GenInits;
    if inits.NoInits? || offset in w.emitted {
      m' := m;
    } else {
      m' := InitsOn(inits, offset, t, w, m, d);
      var x := GenInits(inits, offset, w).view;
      SameOn(t, x, x.(emitted := x.emitted + {offset}), m', d);
    }
  }

  /** What is on the trail is what was put out. */
  lemma SameOn(t: Trail, w: View, x: View, m: Depths, d: int)
    requires On(t, w, m, d) && x == w.(emitted := x.emitted) && w.emitted <= x.emitted
    ensures On(t, x, m, d)
  {
  }

  lemma {:induction false} ArgsOn(args: Args, t: Trail, w: View, m: Depths, d: int) returns (m': Depths)
    requires On(t, w, m, d) && GenArgs(args, w).Done?
    ensures On(t, GenArgs(args, w).view, m', d + |Kinds(args)|) && Extends(m, m')
    decreases args, 0
  {
    hide On, GenExpr, ConvertStored, PushReg, PushXmm;
    match args {
      case NoArgs => m' := m;
      case Arg(value, k, rest) =>
        var m1 := ExprOn(value, t, w, m, d);
        var x := GenExpr(value, w).view;
        ConvertOn(t, x, m1, d, k, value.kind);
        var y := ConvertStored(x, k, value.kind);
        PushedXmm(t, y, m1, d, 0);
        Pushed(t, y, m1, d, M.RAX);
        m' := ArgsOn(rest, t, if IsFloating(k) then PushXmm(y, 0) else PushReg(y, M.RAX), m1, d + 1);
    }
  }

  lemma {:induction false} AssignOn(place: Expr, t: Trail, w: View, m: Depths, d: int) returns (m': Depths)
    requires On(t, w, m, d) && GenAssign(place, w).Done?
    ensures On(t, GenAssign(place, w).view, m', d) && Extends(m, m')
    decreases place, 0
  {
    hide On, GenExpr, EnsureInits, GenAssignMember, SaveLocal, SaveGlobal;
    match place {
      case Deref(k, operand) => m' := ThroughOn(operand, k, 0, t, w, m, d);
      case Member(k, structure, offset) => m' := AssignMemberOn(structure, k, offset, t, w, m, d);
      case Local(k, offset, inits) =>
        m' := EnsureOn(inits, offset, t, w, m, d);
        SaveLocalOn(t, EnsureInits(inits, offset, w).view, m', d, k, offset);
      case Global(k, _) =>
        m' := m;
        SaveGlobalOn(t, w, m, d, k, 0);
      case _ => assert false;
    }
  }

  lemma SaveGlobalOn(t: Trail, w: View, m: Depths, d: int, k: Kind, offset: int)
    requires On(t, w, m, d)
    ensures On(t, SaveGlobal(w, k, offset), m, d)
  {
    hide On, EmitPlain;
    EmitPlainOn(t, w, m, d, "mov %rax, label(%rip)", offset);
  }

  /** A store through a computed address: the value waits on the stack meanwhile. */
  lemma {:induction false} ThroughOn(operand: Expr, k: Kind, shift: int, t: Trail, w: View, m: Depths, d: int) returns (m': Depths)
    requires On(t, w, m, d) && GenExpr(operand, PushReg(w, M.RAX)).Done?
    ensures On(t, SaveThrough(GenExpr(operand, PushReg(w, M.RAX)).view, k, shift), m', d) && Extends(m, m')
    decreases operand, 4
  {
    hide On, GenExpr, PushReg, SaveThrough;
    Floor(t, w, m, d);
    Pushed(t, w, m, d, M.RAX);
    m' := ExprOn(operand, t, PushReg(w, M.RAX), m, d + 1);
    SaveThroughOn(t, GenExpr(operand, PushReg(w, M.RAX)).view, m', d + 1, k, shift);
  }

  lemma {:induction false} AssignMemberOn(structure: Expr, field: Kind, shift: int, t: Trail, w: View, m: Depths, d: int)
    returns (m': Depths)
    requires On(t, w, m, d) && GenAssignMember(structure, field, shift, w).Done?
    ensures On(t, GenAssignMember(structure, field, shift, w).view, m', d) && Extends(m, m')
    decreases structure, 0
  {
    hide On, GenExpr, EnsureInits, SaveLocal, SaveGlobal;
    match structure {
      case Deref(_, operand) => m' := ThroughOn(operand, field, shift, t, w, m, d);
      case Member(_, outer, offset) => m' := AssignMemberOn(outer, field, shift + offset, t, w, m, d);
      case Local(_, offset, inits) =>
        m' := EnsureOn(inits, offset, t, w, m, d);
        SaveLocalOn(t, EnsureInits(inits, offset, w).view, m', d, field, offset + shift);
      case Global(_, _) =>
        m' := m;
        SaveGlobalOn(t, w, m, d, field, shift);
      case _ => assert false;
    }
  }

  lemma {:induction false} LoadMemberOn(structure: Expr, field: Kind, shift: int, t: Trail, w: View, m: Depths, d: int)
    returns (m': Depths)
    requires On(t, w, m, d) && GenLoadMember(structure, field, shift, w).Done?
    ensures On(t, GenLoadMember(structure, field, shift, w).view, m', d) && Extends(m, m')
    decreases structure, 4
  {
    hide On, GenExpr, EnsureInits, LoadLocal, LoadGlobal;
    match structure {
      case Deref(_, operand) =>
        m' := ExprOn(operand, t, w, m, d);
        LoadLocalOn(t, GenExpr(operand, w).view, m', d, field, "%rax", shift);
      case Member(_, outer, offset) => m' := LoadMemberOn(outer, field, shift + offset, t, w, m, d);
      case Local(_, offset, inits) =>
        m' := EnsureOn(inits, offset, t, w, m, d);
        LoadLocalOn(t, EnsureInits(inits, offset, w).view, m', d, field, "%rbp", offset + shift);
      case Global(_, tag) =>
        m' := m;
        LoadGlobalOn(t, w, m, d, field, tag, shift);
      case _ => assert false;
    }
  }

  lemma {:induction false} AddressOn(place: Expr, t: Trail, w: View, m: Depths, d: int) returns (m': Depths)
    requires On(t, w, m, d) && GenAddress(place, w).Done?
    ensures On(t, GenAddress(place, w).view, m', d) && Extends(m, m')
    decreases place, 4
  {
    hide On, GenExpr, EnsureInits, EmitPlain;
    match place {
      case Deref(_, _) => m' := ExprOn(place, t, w, m, d);
      case Local(_, offset, inits) =>
        m' := EnsureOn(inits, offset, t, w, m, d);
        EmitPlainOn(t, EnsureInits(inits, offset, w).view, m', d, "lea (%rbp), %rax", offset);
      case Global(_, _) =>
        m' := m;
        EmitPlainOn(t, w, m, d, "lea label(%rip), %rax", 0);
      case _ => assert false;
    }
  }

  /** Expressions leave the stack as they found it. */
  lemma {:induction false} ExprOn(e: Expr, t: Trail, w: View, m: Depths, d: int) returns (m': Depths)
    requires On(t, w, m, d) && GenExpr(e, w).Done?
    ensures On(t, GenExpr(e, w).view, m', d) && Extends(m, m')
    decreases e, 3
  {
    hide *;
    match e {
      case Literal(_, _) => m' := LeafOn(e, t, w, m, d);
      case Text(_, _) => m' := LeafOn(e, t, w, m, d);
      case Local(_, _, _) => m' := LeafOn(e, t, w, m, d);
      case Global(_, _) => m' := LeafOn(e, t, w, m, d);
      case Call(_, _, _) => m' := CallOn(e, t, w, m, d);
      case AddressOf(_, _) => m' := UnaryOn(e, t, w, m, d);
      case Deref(_, _) => m' := UnaryOn(e, t, w, m, d);
      case Member(_, _, _) => m' := UnaryOn(e, t, w, m, d);
      case Not(_, _) => m' := UnaryOn(e, t, w, m, d);
      case Complement(_, _) => m' := UnaryOn(e, t, w, m, d);
      case Cast(_, _) => m' := UnaryOn(e, t, w, m, d);
      case Conditional(_, _, _, _) => m' := ConditionalOn(e, t, w, m, d);
      case And(_, _, _) => m' := LogicalOn(e, 0, 1, t, w, m, d);
      case Or(_, _, _) => m' := LogicalOn(e, 1, 0, t, w, m, d);
      case Bits(_, _, _, _) => m' := BitsOn(e, t, w, m, d);
      case Step(_, _, _, _) => m' := StepOn(e, t, w, m, d);
      case Assign(_, _, _) => m' := AssignmentOn(e, t, w, m, d);
      case Binary(_, _, _, _) => m' := BinaryOn(e, t, w, m, d);
    }
  }

  lemma {:induction false} LeafOn(e: Expr, t: Trail, w: View, m: Depths, d: int) returns (m': Depths)
    requires e.Literal? || e.Text? || e.Local? || e.Global?
    requires On(t, w, m, d) && GenExpr(e, w).Done?
    ensures On(t, GenExpr(e, w).view, m', d) && Extends(m, m')
    decreases e, 2
  {
    hide On, EnsureInits, EmitPlain, LoadLocal, LoadGlobal;
    m' := m;
    match e {
      case Literal(_, value) =>
        Plainly(t, w, m, d, SetRax(value));
        EmitPlainOn(t, w, m, d, "movsd label(%rip), %xmm0", value);
      case Text(_, tag) => EmitPlainOn(t, w, m, d, "lea label(%rip), %rax", tag);
      case Local(k, offset, inits) =>
        m' := EnsureOn(inits, offset, t, w, m, d);
        LoadLocalOn(t, EnsureInits(inits, offset, w).view, m', d, k, "%rbp", offset);
      case Global(k, tag) => LoadGlobalOn(t, w, m, d, k, tag, 0);
    }
  }

  lemma {:induction false} UnaryOn(e: Expr, t: Trail, w: View, m: Depths, d: int) returns (m': Depths)
    requires e.AddressOf? || e.Deref? || e.Member? || e.Not? || e.Complement? || e.Cast?
    requires On(t, w, m, d) && GenExpr(e, w).Done?
    ensures On(t, GenExpr(e, w).view, m', d) && Extends(m, m')
    decreases e, 2
  {
    hide On, GenAddress, GenLoadMember, EmitPlain, LoadLocal, Convert;
    if e.AddressOf? {
      m' := AddressOn(e.operand, t, w, m, d);
    } else if e.Member? {
      m' := LoadMemberOn(e.structure, e.kind, e.offset, t, w, m, d);
    } else {
      m' := ExprOn(e.operand, t, w, m, d);
      var x := GenExpr(e.operand, w).view;
      match e {
        case Deref(k, _) =>
          LoadLocalOn(t, x, m', d, k, "%rax", 0);
          ConvertOn(t, LoadLocal(x, k, "%rax", 0), m', d, k, k);
        case Not(_, _) =>
          var y := EmitPlain(x, "cmp $, %rax", 0);
          EmitPlainOn(t, x, m', d, "cmp $, %rax", 0);
          EmitPlainOn(t, y, m', d, SetByte(Equal), 0);
          EmitPlainOn(t, EmitPlain(y, SetByte(Equal), 0), m', d, "movzb %al, %eax", 0);
        case Complement(_, _) => EmitPlainOn(t, x, m', d, "not %rax", 0);
        case Cast(k, operand) => ConvertOn(t, x, m', d, k, operand.kind);
      }
    }
  }

  lemma {:induction false} BitsOn(e: Expr, t: Trail, w: View, m: Depths, d: int) returns (m': Depths)
    requires e.Bits? && On(t, w, m, d) && GenExpr(e, w).Done?
    ensures On(t, GenExpr(e, w).view, m', d) && Extends(m, m')
    decreases e, 2
  {
    hide On, EmitPlain, PushReg, PopReg;
    Floor(t, w, m, d);
    var m1 := ExprOn(e.left, t, w, m, d);
    var x := GenExpr(e.left, w).view;
    Pushed(t, x, m1, d, M.RAX);
    m' := ExprOn(e.right, t, PushReg(x, M.RAX), m1, d + 1);
    var y := GenExpr(e.right, PushReg(x, M.RAX)).view;
    Popped(t, y, m', d + 1, M.RCX);
    EmitPlainOn(t, PopReg(y, M.RCX), m', d, if e.either then "or %rcx, %rax" else "and %rcx, %rax", 0);
  }

  lemma {:induction false} StepOn(e: Expr, t: Trail, w: View, m: Depths, d: int) returns (m': Depths)
    requires e.Step? && On(t, w, m, d) && GenExpr(e, w).Done?
    ensures On(t, GenExpr(e, w).view, m', d) && Extends(m, m')
    decreases e, 2
  {
    hide On, EmitPlain, PushReg, PopReg, GenAssign;
    Floor(t, w, m, d);
    var m1 := ExprOn(e.operand, t, w, m, d);
    var x := GenExpr(e.operand, w).view;
    Pushed(t, x, m1, d, M.RAX);
    var y, j := if e.prefix then x else PushReg(x, M.RAX), if e.prefix then d else d + 1;
    var add := if e.minus then "sub $, %rax" else "add $, %rax";
    EmitPlainOn(t, y, m1, j, add, 1);
    m' := AssignOn(e.operand, t, EmitPlain(y, add, 1), m1, j);
    if !e.prefix {
      Popped(t, GenAssign(e.operand, EmitPlain(y, add, 1)).view, m', d + 1, M.RAX);
    }
  }

  lemma {:induction false} AssignmentOn(e: Expr, t: Trail, w: View, m: Depths, d: int) returns (m': Depths)
    requires e.Assign? && On(t, w, m, d) && GenExpr(e, w).Done?
    ensures On(t, GenExpr(e, w).view, m', d) && Extends(m, m')
    decreases e, 2
  {
    hide On, Convert, GenAssign;
    var m1 := ExprOn(e.right, t, w, m, d);
    var x := GenExpr(e.right, w).view;
    ConvertOn(t, x, m1, d, e.kind, e.right.kind);
    m' := AssignOn(e.left, t, Convert(x, e.kind, e.right.kind), m1, d);
  }

  lemma PushLeftOn(e: Expr, t: Trail, w: View, m: Depths, d: int)
    requires e.Binary? && On(t, w, m, d)
    ensures On(t, PushLeft(e, w), m, d + 1)
  {
    hide On, PushReg, PushXmm, CastInt, CastFloat;
    CastOn(t, w, m, d, e.left.kind);
    Pushed(t, w, m, d, M.RAX);
    Pushed(t, CastInt(w, e.left.kind), m, d, M.RAX);
    PushedXmm(t, CastFloat(w, e.left.kind), m, d, 0);
  }

  /** However the operands are combined, the left one is popped the way it was pushed. */
  lemma CombineOn(t: Trail, w: View, m: Depths, d: int, kind: Kind, op: Op, right: Kind, floating: bool)
    requires On(t, w, m, d) && t.floor < d && Combine(w, kind, op, right, floating).Done?
    ensures On(t, Combine(w, kind, op, right, floating).view, m, d - 1)
  {
    hide On, EmitPlain, PopReg, PopXmm, CastInt, CastFloat, FinishInteger;
    CastOn(t, w, m, d, right);
    var x, y := CastInt(w, right), CastFloat(w, right);
    if kind.Pointer? {
      EmitPlainOn(t, w, m, d, "mov %rax, %rcx", 0);
      Popped(t, EmitPlain(w, "mov %rax, %rcx", 0), m, d, M.RAX);
      EmitPlainOn(t, PopReg(EmitPlain(w, "mov %rax, %rcx", 0), M.RAX), m, d - 1, "add %rcx, %rax", 0);
    } else if IsComparison(op) {
      PoppedXmm(t, y, m, d, 1);
      Popped(t, x, m, d, M.RCX);
      EmitPlainOn(t, PopXmm(y, 1), m, d - 1, "ucomisd %xmm0, %xmm1", 0);
      EmitPlainOn(t, PopReg(x, M.RCX), m, d - 1, "cmp %rax, %rcx", 0);
      var z := if floating then EmitPlain(PopXmm(y, 1), "ucomisd %xmm0, %xmm1", 0) else EmitPlain(PopReg(x, M.RCX), "cmp %rax, %rcx", 0);
      EmitPlainOn(t, z, m, d - 1, SetByte(op), 0);
      EmitPlainOn(t, EmitPlain(z, SetByte(op), 0), m, d - 1, "movzb %al, %eax", 0);
    } else if IsInteger(kind) {
      EmitPlainOn(t, x, m, d, "mov %rax, %rcx", 0);
      var z := EmitPlain(x, "mov %rax, %rcx", 0);
      Popped(t, z, m, d, M.RAX);
      FinishIntegerOn(t, PopReg(z, M.RAX), m, d - 1, op);
    } else {
      EmitPlainOn(t, y, m, d, "movsd %xmm0, %xmm1", 0);
      var z := EmitPlain(y, "movsd %xmm0, %xmm1", 0);
      PoppedXmm(t, z, m, d, 0);
      EmitPlainOn(t, PopXmm(z, 0), m, d - 1, FloatingText(op), 0);
    }
  }

  lemma FinishIntegerOn(t: Trail, w: View, m: Depths, d: int, op: Op)
    requires On(t, w, m, d)
    ensures On(t, FinishInteger(w, op), m, d)
  {
    hide On, EmitPlain;
    var x := EmitPlain(w, "cqto", 0);
    EmitPlainOn(t, w, m, d, "cqto", 0);
    EmitPlainOn(t, x, m, d, "idiv %rcx", 0);
    EmitPlainOn(t, EmitPlain(x, "idiv %rcx", 0), m, d, "mov %edx, %eax", 0);
    EmitPlainOn(t, w, m, d, if op.LeftShift? then "sal %cl, %rax" else "sar %cl, %rax", 0);
    EmitPlainOn(t, w, m, d, IntegerText(op), 0);
  }

  lemma {:induction false} BinaryOn(e: Expr, t: Trail, w: View, m: Depths, d: int) returns (m': Depths)
    requires e.Binary? && On(t, w, m, d) && GenExpr(e, w).Done?
    ensures On(t, GenExpr(e, w).view, m', d) && Extends(m, m')
    decreases e, 2
  {
    hide On, PushLeft, Combine, EmitPlain, CombinesFloats;
    Floor(t, w, m, d);
    var m1 := ExprOn(e.left, t, w, m, d);
    var x := GenExpr(e.left, w).view;
    PushLeftOn(e, t, x, m1, d);
    m' := ExprOn(e.right, t, PushLeft(e, x), m1, d + 1);
    var y := GenExpr(e.right, PushLeft(e, x)).view;
    if e.kind.Pointer? {
      EmitPlainOn(t, y, m', d + 1, "imul $, %rax", e.kind.scale);
    }
    CombineOn(t, Scale(e, y), m', d + 1, e.kind, e.op, e.right.kind, CombinesFloats(e));
  }

  lemma {:induction false} LogicalOn(e: Expr, short: int, other: int, t: Trail, w: View, m: Depths, d: int) returns (m': Depths)
    requires (e.And? && short == 0 && other == 1) || (e.Or? && short == 1 && other == 0)
    requires On(t, w, m, d) && GenExpr(e, w).Done?
    ensures On(t, GenExpr(e, w).view, m', d) && Extends(m, m')
    decreases e, 2
  {
    hide On, EmitPlain, TestTo, Emit;
    Floor(t, w, m, d);
    var l := w.nextLabel;
    var m0 := Labelling(t, w, m, d);
    var m1 := ExprOn(e.left, t, Fresh(w), m0, d);
    var x := GenExpr(e.left, Fresh(w)).view;
    TestToOn(t, x, m1, d, short, l);
    m' := ExprOn(e.right, t, TestTo(x, short, l), m1, d);
    var y := GenExpr(e.right, TestTo(x, short, l)).view;
    TestToOn(t, y, m', d, short, l);
    Plainly(t, TestTo(y, short, l), m', d, SetRax(other));
    Labelled(t, Emit(TestTo(y, short, l), SetRax(other)), m', d, Mark(l));
  }

  lemma {:induction false} ConditionalOn(e: Expr, t: Trail, w: View, m: Depths, d: int) returns (m': Depths)
    requires e.Conditional? && On(t, w, m, d) && GenExpr(e, w).Done?
    ensures On(t, GenExpr(e, w).view, m', d) && Extends(m, m')
    decreases e, 2
  {
    hide On, JumpIfZero, Emit;
    var m1 := ExprOn(e.cond, t, w, m, d);
    var x := GenExpr(e.cond, w).view;
    Floor(t, x, m1, d);
    var m2 := Labelling(t, x, m1, d);
    JumpIfZeroOn(t, Fresh(x), m2, d, x.nextLabel);
    var m3 := ExprOn(e.yes, t, JumpIfZero(Fresh(x), x.nextLabel), m2, d);
    var y := GenExpr(e.yes, JumpIfZero(Fresh(x), x.nextLabel)).view;
    Floor(t, y, m3, d);
    var m4 := Labelling(t, y, m3, d);
    Labelled(t, Fresh(y), m4, d, Jump(y.nextLabel));
    Labelled(t, Emit(Fresh(y), Jump(y.nextLabel)), m4, d, Mark(x.nextLabel));
    var z := Emit(Emit(Fresh(y), Jump(y.nextLabel)), Mark(x.nextLabel));
    m' := ExprOn(e.no, t, z, m4, d);
    Labelled(t, GenExpr(e.no, z).view, m', d, Mark(y.nextLabel));
  }

  /** A call takes back everything it pushed, whatever mix of arguments it has. */
  lemma {:induction false} CallOn(e: Expr, t: Trail, w: View, m: Depths, d: int) returns (m': Depths)
    requires e.Call? && On(t, w, m, d) && GenExpr(e, w).Done?
    ensures On(t, GenExpr(e, w).view, m', d) && Extends(m, m')
    decreases e, 2
  {
    hide On, SaveRegisters, LoadArguments, RestoreRegisters, Transfer, Emit, Floats, Wholes, Saved;
    Floor(t, w, m, d);
    var ks := Kinds(e.args);
    SaveRegistersOn(t, w, m, d, ks);
    m' := ArgsOn(e.args, t, SaveRegisters(w, ks), m, d + Saved(ks));
    var x := GenArgs(e.args, SaveRegisters(w, ks)).view;
    LoadArgumentsOn(t, x, m', d + Saved(ks) + |ks|, ks);
    TransferOn(t, LoadArguments(x, ks), m', d + Saved(ks), e.name, Floats(ks));
    var y := Transfer(LoadArguments(x, ks), e.name, Floats(ks));
    RestoreRegistersOn(t, y, m', d + Saved(ks), ks);
    Plainly(t, RestoreRegisters(y, ks), m', d, WidenResult);
  }

  // -------------------------------------------------------- statements

  /** The label, if there is one, belongs to depth d. */
  ghost predicate GroundLabel(l: Option<nat>, t: Trail, m: Depths, d: int) {
    l.Some? ==> t.lo <= l.value && l.value in m && m[l.value] == d
  }

  ghost predicate GroundSlots(x: S.Slots, t: Trail, m: Depths, d: int) {
    GroundLabel(x.brk, t, m, d) && GroundLabel(x.cont, t, m, d) && GroundLabel(x.sw, t, m, d) &&
    GroundLabel(x.brkStore, t, m, d) && GroundLabel(x.contStore, t, m, d) && GroundLabel(x.swStore, t, m, d)
  }

  /** The labels of goto statements were handed out while the function was parsed. */
  ghost predicate GroundGotos(s: Stmt, t: Trail, m: Depths, d: int) {
    match s
    case Sequence(first, rest) => GroundGotos(first, t, m, d) && GroundGotos(rest, t, m, d)
    case If(_, yes) => GroundGotos(yes, t, m, d)
    case IfElse(_, yes, no) => GroundGotos(yes, t, m, d) && GroundGotos(no, t, m, d)
    case While(_, body) => GroundGotos(body, t, m, d)
    case DoWhile(body, _) => GroundGotos(body, t, m, d)
    case For(init, _, _, body) => GroundGotos(init, t, m, d) && GroundGotos(body, t, m, d)
    case Switch(_, body) => GroundGotos(body, t, m, d)
    case Goto(where) => GroundLabel(Some(where), t, m, d)
    case LabelAt(place) => GroundLabel(place, t, m, d)
    case _ => true
  }

  /** The code so far is disciplined, and so is what jumps out of the rest will aim at. */
  ghost predicate Sound(s: Stmt, t: Trail, w: View, m: Depths, d: int) {
    On(t, w, m, d) && GroundSlots(w.slots, t, m, d) && GroundGotos(s, t, m, d)
  }

  /** What a statement leaves behind. */
  ghost predicate Kept(t: Trail, r: Result, m: Depths, m': Depths, d: int) {
    r.Done? && On(t, r.view, m', d) && GroundSlots(r.view.slots, t, m', d) && Extends(m, m')
  }

  lemma {:induction false} GroundMore(s: Stmt, t: Trail, m: Depths, m': Depths, d: int)
    requires GroundGotos(s, t, m, d) && Extends(m, m')
    ensures GroundGotos(s, t, m', d)
    decreases s
  {
    match s {
      case Sequence(first, rest) => GroundMore(first, t, m, m', d); GroundMore(rest, t, m, m', d);
      case If(_, yes) => GroundMore(yes, t, m, m', d);
      case IfElse(_, yes, no) => GroundMore(yes, t, m, m', d); GroundMore(no, t, m, m', d);
      case While(_, body) => GroundMore(body, t, m, m', d);
      case DoWhile(body, _) => GroundMore(body, t, m, m', d);
      case For(init, _, _, body) => GroundMore(init, t, m, m', d); GroundMore(body, t, m, m', d);
      case Switch(_, body) => GroundMore(body, t, m, m', d);
      case _ =>
    }
  }

  lemma SlotsMore(x: S.Slots, t: Trail, m: Depths, m': Depths, d: int)
    requires GroundSlots(x, t, m, d) && Extends(m, m')
    ensures GroundSlots(x, t, m', d)
  {
  }

  lemma ExtendsTwice(m: Depths, m1: Depths, m2: Depths)
    requires Extends(m, m1) && Extends(m1, m2)
    ensures Extends(m, m2)
  {
  }

  /** Statements leave the stack as they found it, and labels for those that follow. */
  lemma {:induction false} StmtOn(s: Stmt, t: Trail, w: View, m: Depths, d: int) returns (m': Depths)
    requires Sound(s, t, w, m, d) && GenStmt(s, w).Done?
    ensures Kept(t, GenStmt(s, w), m, m', d)
    decreases s, 1
  {
    hide *;
    match s {
      case Sequence(_, _) => m' := SequenceOn(s, t, w, m, d);
      case If(_, _) => m' := IfOn(s, t, w, m, d);
      case IfElse(_, _, _) => m' := IfElseOn(s, t, w, m, d);
      case While(_, _) => m' := WhileOn(s, t, w, m, d);
      case DoWhile(_, _) => m' := DoOn(s, t, w, m, d);
      case For(_, _, _, _) => m' := ForOn(s, t, w, m, d);
      case Switch(_, _) => m' := SwitchOn(s, t, w, m, d);
      case Case(_) => m' := MarkerOn(s, t, w, m, d);
      case Default => m' := MarkerOn(s, t, w, m, d);
      case _ => m' := SimpleOn(s, t, w, m, d);
    }
  }

  lemma OptionOn(e: Option<Expr>, t: Trail, w: View, m: Depths, d: int) returns (m': Depths)
    requires On(t, w, m, d) && GenOption(e, w).Done?
    ensures On(t, GenOption(e, w).view, m', d) && Extends(m, m')
  {
    hide On, GenExpr;
    m' := m;
    if e.Some? {
      m' := ExprOn(e.value, t, w, m, d);
    }
  }

  lemma SimpleOn(s: Stmt, t: Trail, w: View, m: Depths, d: int) returns (m': Depths)
    requires s.Skip? || s.Expression? || s.Declare? || s.Break? || s.Continue? || s.Goto? || s.LabelAt? || s.Return?
    requires Sound(s, t, w, m, d) && GenStmt(s, w).Done?
    ensures Kept(t, GenStmt(s, w), m, m', d)
  {
    hide On, GenExpr, GenInits, GenOption, Emit, ConvertStored;
    m' := m;
    match s {
      case Skip =>
      case Expression(e) => m' := ExprOn(e, t, w, m, d);
      case Declare(base, inits) => m' := InitsOn(inits, base, t, w, m, d);
      case Break => Labelled(t, w, m, d, Jump(w.slots.brk.value));
      case Continue => Labelled(t, w, m, d, Jump(w.slots.cont.value));
      case Goto(where) => Labelled(t, w, m, d, Jump(where));
      case LabelAt(place) =>
        if place.Some? {
          Labelled(t, w, m, d, Mark(place.value));
        }
      case Return(_, _) => m' := ReturnOn(s, t, w, m, d);
    }
    EmitKeepsSlots(w);
  }

  lemma ReturnOn(s: Stmt, t: Trail, w: View, m: Depths, d: int) returns (m': Depths)
    requires s.Return? && Sound(s, t, w, m, d) && GenStmt(s, w).Done?
    ensures Kept(t, GenStmt(s, w), m, m', d)
  {
    hide On, GenExpr, GenOption, Emit, ConvertStored, GroundSlots;
    m' := OptionOn(s.result, t, w, m, d);
    var x := GenOption(s.result, w).view;
    var y := x;
    if s.result.Some? {
      ConvertOn(t, x, m', d, s.kind, s.result.value.kind);
      y := ConvertStored(x, s.kind, s.result.value.kind);
      ConvertKeeps(x, s.kind, s.result.value.kind);
    }
    Plainly(t, y, m', d, Leave);
    Plainly(t, Emit(y, Leave), m', d, Ret);
    EmitTwice(y, Leave, Ret);
    SlotsMore(w.slots, t, m, m', d);
  }

  lemma ConvertKeeps(v: View, to: Kind, from: Kind)
    ensures ConvertStored(v, to, from).slots == v.slots
  {
  }

  lemma EmitKeepsSlots(v: View)
    ensures forall i :: Emit(v, i).slots == v.slots
  {
  }

  lemma OnSlots(t: Trail, w: View, m: Depths, d: int, x: S.Slots)
    requires On(t, w, m, d)
    ensures On(t, w.(slots := x), m, d)
  {
  }

  /** Two fresh labels. */
  lemma LabellingTwo(t: Trail, w: View, m: Depths, d: int) returns (m': Depths)
    requires On(t, w, m, d)
    ensures On(t, Fresh(Fresh(w)), m', d) && Extends(m, m')
    ensures GroundLabel(Some(w.nextLabel), t, m', d) && GroundLabel(Some(w.nextLabel + 1), t, m', d)
  {
    hide On;
    Floor(t, w, m, d);
    var m1 := Labelling(t, w, m, d);
    Floor(t, Fresh(w), m1, d);
    m' := Labelling(t, Fresh(w), m1, d);
  }

  /** A loop's labels, whichever of them were handed out before. */
  lemma OpenLoopOn(t: Trail, w: View, m: Depths, d: int, end: nat, next: nat, begin: nat) returns (m': Depths)
    requires On(t, w, m, d) && GroundSlots(w.slots, t, m, d)
    requires forall l :: l == end || l == next || l == begin ==> GroundLabel(Some(l), t, m, d) || l == w.nextLabel || l == w.nextLabel + 1
    ensures var x := OpenLoop(w, end, next, begin);
      On(t, x, m', d) && Extends(m, m') && GroundSlots(x.slots, t, m', d) && x.slots == S.Save(w.slots, end, next)
    ensures GroundLabel(Some(end), t, m', d) && GroundLabel(Some(next), t, m', d) && GroundLabel(Some(begin), t, m', d)
  {
    hide On;
    m' := LabellingTwo(t, w, m, d);
    SlotsMore(w.slots, t, m, m', d);
    var x := Fresh(Fresh(w)).(slots := S.Save(w.slots, end, next));
    OnSlots(t, Fresh(Fresh(w)), m', d, S.Save(w.slots, end, next));
    Labelled(t, x, m', d, Mark(begin));
  }

  lemma CloseLoopOn(t: Trail, w: View, m: Depths, d: int, begin: nat, end: nat)
    requires On(t, w, m, d) && GroundSlots(w.slots, t, m, d)
    requires GroundLabel(Some(begin), t, m, d) && GroundLabel(Some(end), t, m, d)
    ensures var x := CloseLoop(LoopEnd(w, begin, end)); On(t, x, m, d) && GroundSlots(x.slots, t, m, d)
  {
    hide On;
    Labelled(t, w, m, d, Jump(begin));
    Labelled(t, Emit(w, Jump(begin)), m, d, Mark(end));
    OnSlots(t, LoopEnd(w, begin, end), m, d, S.Restore(w.slots));
  }

  lemma {:induction false} SequenceOn(s: Stmt, t: Trail, w: View, m: Depths, d: int) returns (m': Depths)
    requires s.Sequence? && Sound(s, t, w, m, d) && GenStmt(s, w).Done?
    ensures Kept(t, GenStmt(s, w), m, m', d)
    decreases s, 0
  {
    hide On;
    var m1 := StmtOn(s.first, t, w, m, d);
    GroundMore(s.rest, t, m, m1, d);
    m' := StmtOn(s.rest, t, GenStmt(s.first, w).view, m1, d);
    ExtendsTwice(m, m1, m');
  }

  lemma {:induction false} IfOn(s: Stmt, t: Trail, w: View, m: Depths, d: int) returns (m': Depths)
    requires s.If? && Sound(s, t, w, m, d) && GenStmt(s, w).Done?
    ensures Kept(t, GenStmt(s, w), m, m', d)
    decreases s, 0
  {
    hide On, GenExpr, JumpIfZero, Emit;
    var m1 := ExprOn(s.cond, t, w, m, d);
    var x := GenExpr(s.cond, w).view;
    Floor(t, x, m1, d);
    var m2 := Labelling(t, x, m1, d);
    JumpIfZeroOn(t, Fresh(x), m2, d, x.nextLabel);
    ExtendsTwice(m, m1, m2);
    var y := JumpIfZero(Fresh(x), x.nextLabel);
    JumpKeepsSlots(Fresh(x), x.nextLabel);
    m' := BranchOn(s.yes, t, w, m, y, m2, d);
    Labelled(t, GenStmt(s.yes, y).view, m', d, Mark(x.nextLabel));
    EmitKeepsSlots(GenStmt(s.yes, y).view);
  }

  lemma JumpKeepsSlots(v: View, l: nat)
    ensures JumpIfZero(v, l).slots == v.slots
  {
  }

  /** A statement inside another, reached with more labels known. */
  lemma {:induction false} BranchOn(s: Stmt, t: Trail, v: View, m: Depths, w: View, m1: Depths, d: int) returns (m': Depths)
    requires GroundSlots(v.slots, t, m, d) && GroundGotos(s, t, m, d) && Extends(m, m1)
    requires w.slots == v.slots && On(t, w, m1, d) && GenStmt(s, w).Done?
    ensures Kept(t, GenStmt(s, w), m1, m', d) && Extends(m, m')
    decreases s, 2
  {
    hide On, GenStmt;
    SlotsMore(v.slots, t, m, m1, d);
    GroundMore(s, t, m, m1, d);
    m' := StmtOn(s, t, w, m1, d);
    ExtendsTwice(m, m1, m');
  }

  lemma {:induction false} IfElseOn(s: Stmt, t: Trail, w: View, m: Depths, d: int) returns (m': Depths)
    requires s.IfElse? && Sound(s, t, w, m, d) && GenStmt(s, w).Done?
    ensures Kept(t, GenStmt(s, w), m, m', d)
    decreases s, 0
  {
    hide On, GenExpr, JumpIfZero, Emit;
    var m1 := ExprOn(s.cond, t, w, m, d);
    var x := GenExpr(s.cond, w).view;
    Floor(t, x, m1, d);
    var m2 := Labelling(t, x, m1, d);
    JumpIfZeroOn(t, Fresh(x), m2, d, x.nextLabel);
    ExtendsTwice(m, m1, m2);
    var y := JumpIfZero(Fresh(x), x.nextLabel);
    JumpKeepsSlots(Fresh(x), x.nextLabel);
    var m3 := BranchOn(s.yes, t, w, m, y, m2, d);
    var z := GenStmt(s.yes, y).view;
    Floor(t, z, m3, d);
    var m4 := Labelling(t, z, m3, d);
    Labelled(t, Fresh(z), m4, d, Jump(z.nextLabel));
    Labelled(t, Emit(Fresh(z), Jump(z.nextLabel)), m4, d, Mark(x.nextLabel));
    var u := Emit(Emit(Fresh(z), Jump(z.nextLabel)), Mark(x.nextLabel));
    EmitTwice(Fresh(z), Jump(z.nextLabel), Mark(x.nextLabel));
    ExtendsTwice(m, m3, m4);
    GroundMore(s.no, t, m, m3, d);
    m' := BranchOn(s.no, t, z, m3, u, m4, d);
    ExtendsTwice(m, m3, m');
    Labelled(t, GenStmt(s.no, u).view, m', d, Mark(z.nextLabel));
    EmitKeepsSlots(GenStmt(s.no, u).view);
  }

  lemma EmitTwice(v: View, i: Instr, j: Instr)
    ensures Emit(Emit(v, i), j).slots == v.slots
  {
  }

  lemma {:induction false} WhileOn(s: Stmt, t: Trail, w: View, m: Depths, d: int) returns (m': Depths)
    requires s.While? && Sound(s, t, w, m, d) && GenStmt(s, w).Done?
    ensures Kept(t, GenStmt(s, w), m, m', d)
    decreases s, 0
  {
    hide On, GenExpr, JumpIfZero, OpenLoop, CloseLoop, LoopEnd, GroundSlots;
    var begin, end := w.nextLabel, w.nextLabel + 1;
    var m1 := OpenLoopOn(t, w, m, d, end, begin, begin);
    var v := OpenLoop(w, end, begin, begin);
    var m2 := ExprOn(s.cond, t, v, m1, d);
    var x := GenExpr(s.cond, v).view;
    JumpIfZeroOn(t, x, m2, d, end);
    JumpKeepsSlots(x, end);
    GroundMore(s.body, t, m, m1, d);
    m' := BranchOn(s.body, t, v, m1, JumpIfZero(x, end), m2, d);
    CloseLoopOn(t, GenStmt(s.body, JumpIfZero(x, end)).view, m', d, begin, end);
    ExtendsTwice(m, m1, m');
  }

  lemma {:induction false} DoOn(s: Stmt, t: Trail, w: View, m: Depths, d: int) returns (m': Depths)
    requires s.DoWhile? && Sound(s, t, w, m, d) && GenStmt(s, w).Done?
    ensures Kept(t, GenStmt(s, w), m, m', d)
    decreases s, 0
  {
    hide On, GenExpr, JumpIfZero, OpenLoop, CloseLoop, LoopEnd, GroundSlots;
    var begin, end := w.nextLabel, w.nextLabel + 1;
    var m1 := OpenLoopOn(t, w, m, d, end, begin, begin);
    var v := OpenLoop(w, end, begin, begin);
    GroundMore(s.body, t, m, m1, d);
    var m2 := StmtOn(s.body, t, v, m1, d);
    var x := GenStmt(s.body, v).view;
    m' := ExprOn(s.cond, t, x, m2, d);
    var y := GenExpr(s.cond, x).view;
    JumpIfZeroOn(t, y, m', d, end);
    JumpKeepsSlots(y, end);
    SlotsMore(x.slots, t, m2, m', d);
    CloseLoopOn(t, JumpIfZero(y, end), m', d, begin, end);
    ExtendsTwice(m1, m2, m');
    ExtendsTwice(m, m1, m');
  }

  lemma {:induction false} ForOn(s: Stmt, t: Trail, w: View, m: Depths, d: int) returns (m': Depths)
    requires s.For? && Sound(s, t, w, m, d) && GenStmt(s, w).Done?
    ensures Kept(t, GenStmt(s, w), m, m', d)
    decreases s, 0
  {
    hide On, GenExpr, JumpIfZero, OpenLoop, CloseLoop, LoopEnd, GroundSlots;
    var m1 := StmtOn(s.init, t, w, m, d);
    var v := GenStmt(s.init, w).view;
    GroundMore(s.body, t, m, m1, d);
    m' := ForLoopOn(s, t, v, m1, d);
    ExtendsTwice(m, m1, m');
  }

  /** A for statement after its first clause. */
  lemma {:induction false} ForLoopOn(s: Stmt, t: Trail, v: View, m: Depths, d: int) returns (m': Depths)
    requires s.For? && On(t, v, m, d) && GroundSlots(v.slots, t, m, d) && GroundGotos(s.body, t, m, d)
    requires ForLoop(s, v).Done?
    ensures Kept(t, ForLoop(s, v), m, m', d)
    decreases s, 0, 0
  {
    hide On, GenExpr, GenOption, GenStmt, JumpIfZero, OpenLoop, CloseLoop, LoopEnd, GroundSlots, Emit;
    var begin, next, end := v.nextLabel, v.nextLabel + 1, v.nextLabel + 2;
    Floor(t, v, m, d);
    var m0 := Labelling(t, v, m, d);
    SlotsMore(v.slots, t, m, m0, d);
    var m1 := OpenLoopOn(t, Fresh(v), m0, d, end, next, begin);
    var u := OpenLoop(Fresh(v), end, next, begin);
    ExtendsTwice(m, m0, m1);
    var m2 := OptionOn(s.test, t, u, m1, d);
    var x := GenOption(s.test, u).view;
    JumpIfZeroOn(t, x, m2, d, end);
    JumpKeepsSlots(x, end);
    var y := if s.test.Some? then JumpIfZero(x, end) else x;
    GroundMore(s.body, t, m, m1, d);
    var m3 := BranchOn(s.body, t, u, m1, y, m2, d);
    var z := GenStmt(s.body, y).view;
    Labelled(t, z, m3, d, Mark(next));
    EmitKeepsSlots(z);
    m' := OptionOn(s.step, t, Emit(z, Mark(next)), m3, d);
    var r := GenOption(s.step, Emit(z, Mark(next))).view;
    SlotsMore(z.slots, t, m3, m', d);
    ExtendsTwice(m1, m3, m');
    CloseLoopOn(t, r, m', d, begin, end);
    ExtendsTwice(m, m1, m');
  }

  lemma {:induction false} SwitchOn(s: Stmt, t: Trail, w: View, m: Depths, d: int) returns (m': Depths)
    requires s.Switch? && Sound(s, t, w, m, d) && GenStmt(s, w).Done?
    ensures Kept(t, GenStmt(s, w), m, m', d)
    decreases s, 0
  {
    hide On, GenExpr, Emit, OpenSwitch, KeepSwitch;
    KeepSwitchOn(t, w, m, d);
    var m1 := ExprOn(s.e, t, KeepSwitch(w), m, d);
    var x := GenExpr(s.e, KeepSwitch(w)).view;
    SlotsMore(x.slots, t, m, m1, d);
    var m2 := OpenSwitchOn(t, x, m1, d);
    ExtendsTwice(m, m1, m2);
    GroundMore(s.body, t, m, m2, d);
    m' := StmtOn(s.body, t, OpenSwitch(x), m2, d);
    ExtendsTwice(m, m2, m');
    var y := GenStmt(s.body, OpenSwitch(x)).view;
    Labelled(t, y, m', d, Mark(y.slots.sw.value));
    Labelled(t, Emit(y, Mark(y.slots.sw.value)), m', d, Mark(y.slots.brk.value));
    OnSlots(t, Emit(Emit(y, Mark(y.slots.sw.value)), Mark(y.slots.brk.value)), m', d, S.SwitchRestore(y.slots));
  }

  lemma KeepSwitchOn(t: Trail, w: View, m: Depths, d: int)
    requires On(t, w, m, d) && GroundSlots(w.slots, t, m, d)
    ensures On(t, KeepSwitch(w), m, d) && GroundSlots(KeepSwitch(w).slots, t, m, d)
  {
    hide On;
    OnSlots(t, w, m, d, KeepSwitch(w).slots);
  }

  lemma OpenSwitchOn(t: Trail, w: View, m: Depths, d: int) returns (m': Depths)
    requires On(t, w, m, d) && GroundSlots(w.slots, t, m, d)
    ensures On(t, OpenSwitch(w), m', d) && Extends(m, m') && GroundSlots(OpenSwitch(w).slots, t, m', d)
  {
    hide On;
    m' := LabellingTwo(t, w, m, d);
    SlotsMore(w.slots, t, m, m', d);
    var x := w.slots.(sw := Some(w.nextLabel), brk := Some(w.nextLabel + 1));
    OnSlots(t, Fresh(Fresh(w)), m', d, x);
    Labelled(t, Fresh(Fresh(w)).(slots := x), m', d, Jump(w.nextLabel));
  }

  /** The comparison of a case: all its labels are on the ground. */
  lemma MarkerOn(s: Stmt, t: Trail, w: View, m: Depths, d: int) returns (m': Depths)
    requires (s.Case? || s.Default?) && Sound(s, t, w, m, d) && GenStmt(s, w).Done?
    ensures Kept(t, GenStmt(s, w), m, m', d)
  {
    hide On, EmitPlain;
    Floor(t, w, m, d);
    var n := w.nextLabel;
    m' := Labelling(t, w, m, d);
    var l := w.slots.sw.value;
    if s.Case? {
      var x := Emit(Emit(Fresh(w), Jump(n)), Mark(l));
      Labelled(t, Fresh(w), m', d, Jump(n));
      Labelled(t, Emit(Fresh(w), Jump(n)), m', d, Mark(l));
      var y := EmitPlain(x, "cmp $, %eax", s.value);
      EmitPlainOn(t, x, m', d, "cmp $, %eax", s.value);
      PlainKeeps(x, "cmp $, %eax", s.value);
      m' := CaseEndOn(t, w, m, y, m', d);
    } else {
      Labelled(t, w, m, d, Mark(l));
      m' := Labelling(t, Emit(w, Mark(l)), m, d);
      OnSlots(t, Fresh(Emit(w, Mark(l))), m', d, w.slots.(sw := Some(n)));
    }
  }

  lemma PlainKeeps(v: View, text: string, operand: int)
    ensures EmitPlain(v, text, operand).slots == v.slots && EmitPlain(v, text, operand).nextLabel == v.nextLabel
  {
  }

  /** After the comparison: the label for the next case, and the one that skips it. */
  lemma CaseEndOn(t: Trail, w: View, m: Depths, y: View, m1: Depths, d: int) returns (m': Depths)
    requires GroundSlots(w.slots, t, m, d) && Extends(m, m1) && y.slots == w.slots && y.nextLabel == w.nextLabel + 1
    requires On(t, y, m1, d) && t.lo <= w.nextLabel && w.nextLabel in m1 && m1[w.nextLabel] == d
    ensures var n := w.nextLabel;
      var x := Emit(Emit(Fresh(y).(slots := w.slots.(sw := Some(n + 1))), Branch(n + 1)), Mark(n));
      On(t, x, m', d) && GroundSlots(x.slots, t, m', d) && Extends(m, m')
  {
    hide On;
    var n := w.nextLabel;
    Floor(t, y, m1, d);
    m' := Labelling(t, y, m1, d);
    var z := Fresh(y).(slots := w.slots.(sw := Some(n + 1)));
    OnSlots(t, Fresh(y), m', d, w.slots.(sw := Some(n + 1)));
    Labelled(t, z, m', d, Branch(n + 1));
    Labelled(t, Emit(z, Branch(n + 1)), m', d, Mark(n));
    SlotsMore(w.slots, t, m, m', d);
  }
}
