/** The generator on the whole of its tree, as it is written: a class that appends to its
    output, counts the bytes it pushes and overwrites its label slots. */
module StackGenerator {
  import opened Runs
  import opened StackCode
  import C = StackCode
  import L = Lists
  import M = Machine
  import S = SaveSlots

  class Generator {
    var output: seq<Instr>
    var stack: int
    var nextLabel: nat
    var brk: Option<nat>
    var cont: Option<nat>
    var brkStore: Option<nat>
    var contStore: Option<nat>
    var sw: Option<nat>
    var swStore: Option<nat>
    /** The offsets of the compound literals whose nodes have lost their initializers. */
    var emitted: set<int>

    constructor ()
      ensures Now() == View([], 0, 0, S.Slots(None, None, None, None, None, None), {})
    {
      output, stack, nextLabel, emitted := [], 0, 0, {};
      brk, cont, brkStore, contStore, sw, swStore := None, None, None, None, None, None;
    }

    function Now(): View
      reads this
    {
      View(output, stack, nextLabel, S.Slots(brk, cont, brkStore, contStore, sw, swStore), emitted)
    }

    /** The generator has done what the function says, or stops with an error. */
    predicate Did(ok: bool, r: Result)
      reads this
    {
      ok == r.Done? && (ok ==> Now() == r.view)
    }

    // --------------------------------------------------- instructions

    method Emit(i: Instr)
      modifies this
      ensures Now() == C.Emit(old(Now()), i)
    {
      output := output + [i];
    }

    method EmitPlain(text: string, operand: int)
      modifies this
      ensures Now() == C.EmitPlain(old(Now()), text, operand)
    {
      Emit(Plain(text, operand));
    }

    method PushReg(r: M.Reg)
      modifies this
      ensures Now() == C.PushReg(old(Now()), r)
    {
      Emit(Push(r));
      stack := stack + 8;
    }

    method PopReg(r: M.Reg)
      modifies this
      ensures Now() == C.PopReg(old(Now()), r)
    {
      Emit(Pop(r));
      stack := stack - 8;
    }

    method PushXmm(r: nat)
      modifies this
      ensures Now() == C.PushXmm(old(Now()), r)
    {
      Emit(Reserve);
      Emit(SpillXmm(r));
      stack := stack + 8;
    }

    method PopXmm(r: nat)
      modifies this
      ensures Now() == C.PopXmm(old(Now()), r)
    {
      Emit(FillXmm(r));
      Emit(Release);
      stack := stack - 8;
    }

    method FreshLabel() returns (l: nat)
      modifies this
      ensures l == old(nextLabel) && Now() == C.Fresh(old(Now()))
    {
      l := nextLabel;
      nextLabel := nextLabel + 1;
    }

    method CastInt(k: Kind)
      modifies this
      ensures Now() == C.CastInt(old(Now()), k)
    {
      if IsFloating(k) {
        EmitPlain("cvttsd2si %xmm0, %eax", 0);
      }
    }

    method CastFloat(k: Kind)
      modifies this
      ensures Now() == C.CastFloat(old(Now()), k)
    {
      if !IsFloating(k) {
        EmitPlain("cvtsi2sd %eax, %xmm0", 0);
      }
    }

    method Convert(to: Kind, from: Kind)
      modifies this
      ensures Now() == C.Convert(old(Now()), to, from)
    {
      if IsFloating(to) {
        CastFloat(from);
      } else {
        CastInt(from);
      }
    }

    method ConvertStored(to: Kind, from: Kind)
      modifies this
      ensures Now() == C.ConvertStored(old(Now()), to, from)
    {
      if IsInteger(from) && to.Float? {
        EmitPlain("cvtsi2ss %eax, %xmm0", 0);
      } else if IsFloating(from) && to.Float? {
        EmitPlain("cvtpd2ps %xmm0, %xmm0", 0);
      } else if IsInteger(from) && (to.Double? || to.LongDouble?) {
        EmitPlain("cvtsi2sd %eax, %xmm0", 0);
      } else if !(IsFloating(from) && (to.Double? || to.LongDouble?)) {
        Convert(to, from);
      }
    }

    method LoadLocal(k: Kind, base: string, offset: int)
      modifies this
      ensures Now() == C.LoadLocal(old(Now()), k, base, offset)
    {
      if k.Array? {
        EmitPlain("lea (" + base + "), %rax", offset);
      } else if k.Float? {
        EmitPlain("cvtps2pd (" + base + "), %xmm0", offset);
      } else if IsFloating(k) {
        EmitPlain("movsd (" + base + "), %xmm0", offset);
      } else {
        if IsNarrow(k) {
          EmitPlain("mov $0, %ecx", 0);
        }
        EmitPlain("mov (" + base + "), %rcx", offset);
        EmitPlain("mov %rcx, %rax", 0);
      }
    }

    method LoadGlobal(k: Kind, tag: nat, offset: int)
      modifies this
      ensures Now() == C.LoadGlobal(old(Now()), k, tag, offset)
    {
      if k.Array? {
        EmitPlain("lea label(%rip), %rax", offset);
      } else {
        if IsNarrow(k) {
          EmitPlain("mov $0, %eax", 0);
        }
        EmitPlain("mov label(%rip), %rax", offset);
      }
    }

    method SaveLocal(k: Kind, offset: int)
      modifies this
      ensures Now() == C.SaveLocal(old(Now()), k, offset)
    {
      if k.Float? {
        PushXmm(0);
        EmitPlain("unpcklpd %xmm0, %xmm0", 0);
        EmitPlain("cvtpd2ps %xmm0, %xmm0", 0);
        EmitPlain("movss %xmm0, (%rbp)", offset);
        PopXmm(0);
      } else if IsFloating(k) {
        EmitPlain("movsd %xmm0, (%rbp)", offset);
      } else {
        EmitPlain("mov %rax, (%rbp)", offset);
      }
    }

    method SaveThrough(k: Kind, offset: int)
      modifies this
      ensures Now() == C.SaveThrough(old(Now()), k, offset)
    {
      EmitPlain("mov (%rsp), %rcx", 0);
      EmitPlain("mov %rcx, (%rax)", offset);
      PopReg(M.RAX);
    }

    method SaveLiteral(k: Kind, value: int, offset: int) returns (ok: bool)
      modifies this
      ensures Did(ok, C.SaveLiteral(old(Now()), k, value, offset))
    {
      ok := true;
      if k.Char? || k.Short? || k.Int? {
        EmitPlain("mov $, (%rbp)", offset);
      } else if k.Long? || k.Pointer? || k.Float? || k.Double? {
        PushReg(M.RAX);
        Emit(SetRax(value));
        EmitPlain("mov %rax, (%rbp)", offset);
        PopReg(M.RAX);
      } else {
        ok := false;
      }
    }

    // ---------------------------------------------------------- calls

    /** The first loop of a call: regi and regx count the arguments of either kind. */
    method SaveRegisters(ks: seq<Kind>)
      requires Wholes(ks) <= 6
      modifies this
      ensures Now() == C.SaveRegisters(old(Now()), ks)
    {
      ghost var v := Now();
      var regi, regx := 0, 0;
      for i := 0 to |ks|
        invariant regi == Wholes(ks[..i]) <= 6 && regx == Floats(ks[..i]) && Wholes(ks[..i]) <= Wholes(ks)
        invariant Now() == C.SaveRegisters(v, ks[..i])
      {
        KindStep(ks, i);
        if IsFloating(ks[i]) {
          if regx > 0 {
            PushXmm(regx);
          }
          regx := regx + 1;
        } else {
          PushReg(M.ArgReg(regi));
          regi := regi + 1;
        }
      }
      assert ks[..|ks|] == ks;
    }

    /** The third loop, over the reversed list of types. */
    method LoadArguments(ks: seq<Kind>)
      requires Wholes(ks) <= 6
      modifies this
      ensures Now() == C.LoadArguments(old(Now()), ks)
    {
      ghost var v := Now();
      var backi, backx := Wholes(ks), Floats(ks);
      var reversed := L.Reversed(ks);
      assert ks[..|ks|] == ks;
      for i := 0 to |ks|
        invariant var before := ks[..|ks| - i];
          backi == Wholes(before) <= 6 && backx == Floats(before) &&
          C.LoadArguments(Now(), before) == C.LoadArguments(v, ks)
      {
        L.ReversedAt(ks, i);
        var k := reversed[i];
        KindStep(ks, |ks| - i - 1);
        if IsFloating(k) {
          backx := backx - 1;
          PopXmm(backx);
        } else {
          backi := backi - 1;
          PopReg(M.ArgReg(backi));
        }
      }
    }

    /** The last loop: the counters run back, but regx stops at the first floating one. */
    method RestoreRegisters(ks: seq<Kind>)
      requires Wholes(ks) <= 6
      modifies this
      ensures Now() == C.RestoreRegisters(old(Now()), ks)
    {
      ghost var v := Now();
      var regi, regx := Wholes(ks), Floats(ks);
      var reversed := L.Reversed(ks);
      assert ks[..|ks|] == ks;
      for i := 0 to |ks|
        invariant var before := ks[..|ks| - i];
          regi == Wholes(before) <= 6 && (regx == Floats(before) || (Floats(before) == 0 && regx == 1)) &&
          C.RestoreRegisters(Now(), before) == C.RestoreRegisters(v, ks)
      {
        L.ReversedAt(ks, i);
        var k := reversed[i];
        KindStep(ks, |ks| - i - 1);
        if IsFloating(k) {
          if regx != 1 {
            regx := regx - 1;
            PopXmm(regx);
          }
        } else {
          regi := regi - 1;
          PopReg(M.ArgReg(regi));
        }
      }
    }

    method Transfer(name: string, floats: nat)
      modifies this
      ensures Now() == C.Transfer(old(Now()), name, floats)
    {
      Emit(SetRax(floats));
      if stack % 16 != 0 {
        Emit(Reserve);
      }
      Emit(CallTo(name));
      if stack % 16 != 0 {
        Emit(Release);
      }
    }

    method GenCall(e: Expr) returns (ok: bool)
      requires e.Call?
      modifies this
      ensures Did(ok, C.GenCall(e, old(Now())))
      decreases e, 0
    {
      hide C.SaveRegisters, C.LoadArguments, C.RestoreRegisters, C.Transfer, C.GenArgs, Floats;
      var ks := Kinds(e.args);
      ok := Wholes(ks) <= 6;
      if ok {
        SaveRegisters(ks);
        ok := GenArgs(e.args);
        if ok {
          LoadArguments(ks);
          Transfer(e.name, Floats(ks));
          RestoreRegisters(ks);
          if e.kind.Float? {
            Emit(WidenResult);
          }
        }
      }
    }

    method GenArgs(args: Args) returns (ok: bool)
      modifies this
      ensures Did(ok, C.GenArgs(args, old(Now())))
      decreases args
    {
      hide C.GenExpr, C.ConvertStored, C.PushXmm, C.PushReg;
      ok := true;
      if args.Arg? {
        ok := GenExpr(args.value);
        if ok {
          ConvertStored(args.kind, args.value.kind);
          if IsFloating(args.kind) {
            PushXmm(0);
          } else {
            PushReg(M.RAX);
          }
          ok := GenArgs(args.rest);
        }
      }
    }

    // ---------------------------------------------------- expressions

    method GenInits(inits: Inits, base: int) returns (ok: bool)
      modifies this
      ensures Did(ok, C.GenInits(inits, base, old(Now())))
      decreases inits, 0
    {
      hide C.GenExpr, C.SaveLiteral, C.SaveLocal;
      ok := true;
      if inits.Init? {
        if inits.value.Literal? {
          ok := SaveLiteral(inits.kind, inits.value.value, base + inits.offset);
        } else {
          ok := GenExpr(inits.value);
          if ok {
            SaveLocal(inits.kind, base + inits.offset);
          }
        }
        if ok {
          ok := GenInits(inits.rest, base);
        }
      }
    }

    /** gen_ensure_lva. */
    method EnsureInits(inits: Inits, offset: int) returns (ok: bool)
      modifies this
      ensures Did(ok, C.EnsureInits(inits, offset, old(Now())))
      decreases inits, 1
    {
      hide C.GenInits;
      ok := true;
      if inits.Init? && offset !in emitted {
        ok := GenInits(inits, offset);
        if ok {
          emitted := emitted + {offset};
        }
      }
    }

    method GenAssign(place: Expr) returns (ok: bool)
      modifies this
      ensures Did(ok, C.GenAssign(place, old(Now())))
      decreases place, 0
    {
      hide C.GenExpr, C.EnsureInits, C.GenAssignMember, C.SaveLocal, C.SaveGlobal, C.SaveThrough, C.PushReg;
      ok := false;
      match place {
        case Deref(k, operand) =>
          PushReg(M.RAX);
          ok := GenExpr(operand);
          if ok {
            SaveThrough(k, 0);
          }
        case Member(k, structure, offset) => ok := GenAssignMember(structure, k, offset);
        case Local(k, offset, inits) =>
          ok := EnsureInits(inits, offset);
          if ok {
            SaveLocal(k, offset);
          }
        case Global(k, _) =>
          SaveGlobal(k, 0);
          ok := true;
        case _ =>
      }
    }

    method SaveGlobal(k: Kind, offset: int)
      modifies this
      ensures Now() == C.SaveGlobal(old(Now()), k, offset)
    {
      EmitPlain("mov %rax, label(%rip)", offset);
    }

    method GenAssignMember(structure: Expr, field: Kind, shift: int) returns (ok: bool)
      modifies this
      ensures Did(ok, C.GenAssignMember(structure, field, shift, old(Now())))
      decreases structure, 0
    {
      hide C.GenExpr, C.EnsureInits, C.SaveLocal, C.SaveGlobal, C.SaveThrough, C.PushReg;
      ok := false;
      match structure {
        case Local(_, offset, inits) =>
          ok := EnsureInits(inits, offset);
          if ok {
            SaveLocal(field, offset + shift);
          }
        case Global(_, _) =>
          SaveGlobal(field, shift);
          ok := true;
        case Member(_, outer, offset) => ok := GenAssignMember(outer, field, shift + offset);
        case Deref(_, operand) =>
          PushReg(M.RAX);
          ok := GenExpr(operand);
          if ok {
            SaveThrough(field, shift);
          }
        case _ =>
      }
    }

    method GenLoadMember(structure: Expr, field: Kind, shift: int) returns (ok: bool)
      modifies this
      ensures Did(ok, C.GenLoadMember(structure, field, shift, old(Now())))
      decreases structure, 0
    {
      hide C.GenExpr, C.EnsureInits, C.LoadLocal, C.LoadGlobal;
      ok := false;
      match structure {
        case Local(_, offset, inits) =>
          ok := EnsureInits(inits, offset);
          if ok {
            LoadLocal(field, "%rbp", offset + shift);
          }
        case Global(_, tag) =>
          LoadGlobal(field, tag, shift);
          ok := true;
        case Member(_, outer, offset) => ok := GenLoadMember(outer, field, shift + offset);
        case Deref(_, operand) =>
          ok := GenExpr(operand);
          if ok {
            LoadLocal(field, "%rax", shift);
          }
        case _ =>
      }
    }

    method GenAddress(place: Expr) returns (ok: bool)
      modifies this
      ensures Did(ok, C.GenAddress(place, old(Now())))
      decreases place, 2
    {
      hide C.GenExpr, C.EnsureInits, C.EmitPlain;
      ok := false;
      match place {
        case Local(_, offset, inits) =>
          ok := EnsureInits(inits, offset);
          if ok {
            EmitPlain("lea (%rbp), %rax", offset);
          }
        case Global(_, _) =>
          EmitPlain("lea label(%rip), %rax", 0);
          ok := true;
        case Deref(_, _) => ok := GenExpr(place);
        case _ =>
      }
    }

    method GenExpr(e: Expr) returns (ok: bool)
      modifies this
      ensures Did(ok, C.GenExpr(e, old(Now())))
      decreases e, 1
    {
      hide C.GenCall, C.GenConditional, C.GenLogical, C.GenStep, C.GenAddress, C.GenLoadMember;
      match e {
        case Call(_, _, _) => ok := GenCall(e);
        case AddressOf(_, operand) => ok := GenAddress(operand);
        case Conditional(_, _, _, _) => ok := GenConditional(e);
        case Member(k, structure, offset) => ok := GenLoadMember(structure, k, offset);
        case And(_, _, _) => ok := GenLogical(e, 0, 1);
        case Or(_, _, _) => ok := GenLogical(e, 1, 0);
        case Step(_, _, _, _) => ok := GenStep(e);
        case Binary(_, _, _, _) => ok := GenBinary(e);
        case Bits(_, _, _, _) => ok := GenBits(e);
        case Assign(_, _, _) => ok := GenAssignment(e);
        case Deref(_, _) => ok := GenUnary(e);
        case Not(_, _) => ok := GenUnary(e);
        case Complement(_, _) => ok := GenUnary(e);
        case Cast(_, _) => ok := GenUnary(e);
        case _ => ok := GenLeaf(e);
      }
    }

    method GenLeaf(e: Expr) returns (ok: bool)
      requires e.Literal? || e.Text? || e.Local? || e.Global?
      modifies this
      ensures Did(ok, C.GenExpr(e, old(Now())))
      decreases e, 0
    {
      hide C.EnsureInits, C.LoadLocal, C.LoadGlobal, C.EmitPlain, C.Emit;
      ok := true;
      match e {
        case Literal(k, value) =>
          if k.Char? || k.Int? || k.Long? {
            Emit(SetRax(value));
          } else if IsFloating(k) {
            EmitPlain("movsd label(%rip), %xmm0", value);
          } else {
            ok := false;
          }
        case Text(_, tag) => EmitPlain("lea label(%rip), %rax", tag);
        case Local(k, offset, inits) =>
          ok := EnsureInits(inits, offset);
          if ok {
            LoadLocal(k, "%rbp", offset);
          }
        case Global(k, tag) => LoadGlobal(k, tag, 0);
      }
    }

    method GenUnary(e: Expr) returns (ok: bool)
      requires e.Deref? || e.Not? || e.Complement? || e.Cast?
      modifies this
      ensures Did(ok, C.GenExpr(e, old(Now())))
      decreases e, 0
    {
      hide C.LoadLocal, C.Convert, C.EmitPlain;
      ok := GenExpr(e.operand);
      if ok {
        match e {
          case Deref(k, _) =>
            LoadLocal(k, "%rax", 0);
            Convert(k, k);
          case Not(_, _) =>
            EmitPlain("cmp $, %rax", 0);
            EmitPlain(SetByte(Equal), 0);
            EmitPlain("movzb %al, %eax", 0);
          case Complement(_, _) => EmitPlain("not %rax", 0);
          case Cast(k, operand) => Convert(k, operand.kind);
        }
      }
    }

    method GenBits(e: Expr) returns (ok: bool)
      requires e.Bits?
      modifies this
      ensures Did(ok, C.GenExpr(e, old(Now())))
      decreases e, 0
    {
      hide C.EmitPlain, C.PushReg, C.PopReg;
      ok := GenExpr(e.left);
      if ok {
        PushReg(M.RAX);
        ok := GenExpr(e.right);
        if ok {
          PopReg(M.RCX);
          EmitPlain(if e.either then "or %rcx, %rax" else "and %rcx, %rax", 0);
        }
      }
    }

    method GenAssignment(e: Expr) returns (ok: bool)
      requires e.Assign?
      modifies this
      ensures Did(ok, C.GenExpr(e, old(Now())))
      decreases e, 0
    {
      hide C.Convert, C.GenAssign;
      ok := GenExpr(e.right);
      if ok {
        Convert(e.kind, e.right.kind);
        ok := GenAssign(e.left);
      }
    }

    method GenStep(e: Expr) returns (ok: bool)
      requires e.Step?
      modifies this
      ensures Did(ok, C.GenStep(e, old(Now())))
      decreases e, 0
    {
      hide C.GenExpr, C.GenAssign, C.EmitPlain, C.PushReg, C.PopReg;
      ok := GenExpr(e.operand);
      if ok {
        if !e.prefix {
          PushReg(M.RAX);
        }
        EmitPlain(if e.minus then "sub $, %rax" else "add $, %rax", 1);
        ok := GenAssign(e.operand);
        if ok && !e.prefix {
          PopReg(M.RAX);
        }
      }
    }

    /** gen_binary: the left operand, converted and pushed; the right one; what combines them. */
    method GenBinary(e: Expr) returns (ok: bool)
      requires e.Binary?
      modifies this
      ensures Did(ok, C.GenExpr(e, old(Now())))
      decreases e, 0
    {
      hide C.EmitPlain, C.PushReg, C.PushXmm, C.CastInt, C.CastFloat, C.Combine, CombinesFloats;
      ok := GenExpr(e.left);
      if ok {
        if e.kind.Pointer? {
          PushReg(M.RAX);
        } else if CombinesFloats(e) {
          CastFloat(e.left.kind);
          PushXmm(0);
        } else {
          CastInt(e.left.kind);
          PushReg(M.RAX);
        }
        ok := GenExpr(e.right);
        if ok {
          if e.kind.Pointer? && e.kind.scale > 1 {
            EmitPlain("imul $, %rax", e.kind.scale);
          }
          ok := Combine(e.kind, e.op, e.right.kind, CombinesFloats(e));
        }
      }
    }

    method Combine(kind: Kind, op: Op, right: Kind, floating: bool) returns (ok: bool)
      modifies this
      ensures Did(ok, C.Combine(old(Now()), kind, op, right, floating))
    {
      hide C.EmitPlain, C.PopReg, C.PopXmm, C.CastInt, C.CastFloat, C.FinishInteger;
      ok := true;
      if kind.Pointer? {
        EmitPlain("mov %rax, %rcx", 0);
        PopReg(M.RAX);
        EmitPlain("add %rcx, %rax", 0);
      } else if IsComparison(op) {
        if floating {
          CastFloat(right);
          PopXmm(1);
          EmitPlain("ucomisd %xmm0, %xmm1", 0);
        } else {
          CastInt(right);
          PopReg(M.RCX);
          EmitPlain("cmp %rax, %rcx", 0);
        }
        EmitPlain(SetByte(op), 0);
        EmitPlain("movzb %al, %eax", 0);
      } else if IsInteger(kind) {
        CastInt(right);
        EmitPlain("mov %rax, %rcx", 0);
        PopReg(M.RAX);
        FinishInteger(op);
      } else if IsFloating(kind) && (op.Plus? || op.Minus? || op.Times? || op.Slash?) {
        CastFloat(right);
        EmitPlain("movsd %xmm0, %xmm1", 0);
        PopXmm(0);
        EmitPlain(FloatingText(op), 0);
      } else {
        ok := false;
      }
    }

    method FinishInteger(op: Op)
      modifies this
      ensures Now() == C.FinishInteger(old(Now()), op)
    {
      if op.Slash? || op.Percent? {
        EmitPlain("cqto", 0);
        EmitPlain("idiv %rcx", 0);
        if op.Percent? {
          EmitPlain("mov %edx, %eax", 0);
        }
      } else if op.LeftShift? || op.RightShift? {
        EmitPlain(if op.LeftShift? then "sal %cl, %rax" else "sar %cl, %rax", 0);
      } else {
        EmitPlain(IntegerText(op), 0);
      }
    }

    method JumpIfZero(l: nat)
      modifies this
      ensures Now() == C.JumpIfZero(old(Now()), l)
    {
      EmitPlain("test %rax, %rax", 0);
      Emit(Branch(l));
    }

    method TestTo(value: int, l: nat)
      modifies this
      ensures Now() == C.TestTo(old(Now()), value, l)
    {
      EmitPlain("test %rax, %rax", 0);
      Emit(SetRax(value));
      Emit(Branch(l));
    }

    method GenConditional(e: Expr) returns (ok: bool)
      requires e.Conditional?
      modifies this
      ensures Did(ok, C.GenConditional(e, old(Now())))
      decreases e, 0
    {
      hide C.GenExpr, C.JumpIfZero, C.Emit;
      ok := GenExpr(e.cond);
      if ok {
        var ne := FreshLabel();
        JumpIfZero(ne);
        ok := GenExpr(e.yes);
        if ok {
          var end := FreshLabel();
          Emit(Jump(end));
          Emit(Mark(ne));
          ok := GenExpr(e.no);
          if ok {
            Emit(Mark(end));
          }
        }
      }
    }

    method GenLogical(e: Expr, short: int, other: int) returns (ok: bool)
      requires e.And? || e.Or?
      modifies this
      ensures Did(ok, C.GenLogical(e, short, other, old(Now())))
      decreases e, 0
    {
      hide C.GenExpr, C.TestTo, C.EmitPlain, C.Emit;
      var end := FreshLabel();
      ok := GenExpr(e.left);
      if ok {
        TestTo(short, end);
        ok := GenExpr(e.right);
        if ok {
          TestTo(short, end);
          Emit(SetRax(other));
          Emit(Mark(end));
        }
      }
    }

    // ------------------------------------------------------ statements

    method GenOption(e: Option<Expr>) returns (ok: bool)
      modifies this
      ensures Did(ok, C.GenOption(e, old(Now())))
    {
      ok := true;
      if e.Some? {
        ok := GenExpr(e.value);
      }
    }

    method JumpSave(end: nat, next: nat)
      modifies this
      ensures Now() == old(Now()).(slots := S.Save(old(Now()).slots, end, next))
    {
      brkStore := brk;
      contStore := cont;
      brk := Some(end);
      cont := Some(next);
    }

    method JumpRestore()
      modifies this
      ensures Now() == C.CloseLoop(old(Now()))
    {
      brk := brkStore;
      cont := contStore;
    }

    method LoopEnd(begin: nat, end: nat)
      modifies this
      ensures Now() == C.LoopEnd(old(Now()), begin, end)
    {
      Emit(Jump(begin));
      Emit(Mark(end));
    }

    /** gen_expression, on statements. */
    method GenStmt(s: Stmt) returns (ok: bool)
      modifies this
      ensures Did(ok, C.GenStmt(s, old(Now())))
      decreases s, 2
    {
      hide C.ForLoop;
      match s {
        case Sequence(first, rest) =>
          ok := GenStmt(first);
          if ok {
            ok := GenStmt(rest);
          }
        case If(_, _) => ok := GenIf(s);
        case IfElse(_, _, _) => ok := GenIfElse(s);
        case While(_, _) => ok := GenWhile(s);
        case DoWhile(_, _) => ok := GenDo(s);
        case For(init, _, _, _) =>
          ok := GenStmt(init);
          if ok {
            ok := GenForLoop(s);
          }
        case Switch(_, _) => ok := GenSwitch(s);
        case _ => ok := GenSimple(s);
      }
    }

    method GenSimple(s: Stmt) returns (ok: bool)
      requires !s.Sequence? && !s.If? && !s.IfElse? && !s.While? && !s.DoWhile? && !s.For? && !s.Switch?
      modifies this
      ensures Did(ok, C.GenStmt(s, old(Now())))
      decreases s, 0
    {
      hide C.GenExpr, C.GenInits, C.GenOption, C.ConvertStored;
      ok := true;
      match s {
        case Skip =>
        case Expression(e) => ok := GenExpr(e);
        case Declare(base, inits) => ok := GenInits(inits, base);
        case Case(value) => ok := GenCase(value);
        case Default => ok := GenDefault();
        case Break =>
          ok := brk.Some?;
          if ok {
            Emit(Jump(brk.value));
          }
        case Continue =>
          ok := cont.Some?;
          if ok {
            Emit(Jump(cont.value));
          }
        case Goto(where) => Emit(Jump(where));
        case LabelAt(place) =>
          if place.Some? {
            Emit(Mark(place.value));
          }
        case Return(k, result) =>
          ok := GenOption(result);
          if ok {
            if result.Some? {
              ConvertStored(k, result.value.kind);
            }
            Emit(Leave);
            Emit(Ret);
          }
      }
    }

    method GenCase(value: int) returns (ok: bool)
      modifies this
      ensures ok == old(sw).Some? && (ok ==> Now() == C.GenCase(old(Now()), value))
    {
      ok := sw.Some?;
      if ok {
        var skip := FreshLabel();
        Emit(Jump(skip));
        Emit(Mark(sw.value));
        EmitPlain("cmp $, %eax", value);
        var next := FreshLabel();
        sw := Some(next);
        Emit(Branch(next));
        Emit(Mark(skip));
      }
    }

    method GenDefault() returns (ok: bool)
      modifies this
      ensures ok == old(sw).Some? && (ok ==> Now() == C.GenDefault(old(Now())))
    {
      ok := sw.Some?;
      if ok {
        Emit(Mark(sw.value));
        var next := FreshLabel();
        sw := Some(next);
      }
    }

    method GenIf(s: Stmt) returns (ok: bool)
      requires s.If?
      modifies this
      ensures Did(ok, C.GenStmt(s, old(Now())))
      decreases s, 1
    {
      hide C.GenExpr, C.JumpIfZero, C.Emit;
      ok := GenExpr(s.cond);
      if ok {
        var ne := FreshLabel();
        JumpIfZero(ne);
        ok := GenStmt(s.yes);
        if ok {
          Emit(Mark(ne));
        }
      }
    }

    method GenIfElse(s: Stmt) returns (ok: bool)
      requires s.IfElse?
      modifies this
      ensures Did(ok, C.GenStmt(s, old(Now())))
      decreases s, 1
    {
      hide C.GenExpr, C.JumpIfZero, C.Emit;
      ok := GenExpr(s.cond);
      if ok {
        var ne := FreshLabel();
        JumpIfZero(ne);
        ok := GenStmt(s.yes);
        if ok {
          var end := FreshLabel();
          Emit(Jump(end));
          Emit(Mark(ne));
          ok := GenStmt(s.no);
          if ok {
            Emit(Mark(end));
          }
        }
      }
    }

    method GenWhile(s: Stmt) returns (ok: bool)
      requires s.While?
      modifies this
      ensures Did(ok, C.GenStmt(s, old(Now())))
      decreases s, 1
    {
      hide C.GenExpr, C.JumpIfZero, C.LoopEnd, C.CloseLoop;
      var begin := FreshLabel();
      var end := FreshLabel();
      JumpSave(end, begin);
      Emit(Mark(begin));
      ok := GenExpr(s.cond);
      if ok {
        JumpIfZero(end);
        ok := GenStmt(s.body);
        if ok {
          LoopEnd(begin, end);
          JumpRestore();
        }
      }
    }

    method GenDo(s: Stmt) returns (ok: bool)
      requires s.DoWhile?
      modifies this
      ensures Did(ok, C.GenStmt(s, old(Now())))
      decreases s, 1
    {
      hide C.GenExpr, C.JumpIfZero, C.LoopEnd, C.CloseLoop;
      var begin := FreshLabel();
      var end := FreshLabel();
      JumpSave(end, begin);
      Emit(Mark(begin));
      ok := GenStmt(s.body);
      if ok {
        ok := GenExpr(s.cond);
        if ok {
          JumpIfZero(end);
          LoopEnd(begin, end);
          JumpRestore();
        }
      }
    }

    method GenForLoop(s: Stmt) returns (ok: bool)
      requires s.For?
      modifies this
      ensures Did(ok, C.ForLoop(s, old(Now())))
      decreases s, 1
    {
      hide C.GenOption, C.JumpIfZero, C.LoopEnd, C.CloseLoop, C.GenStmt;
      var begin := FreshLabel();
      var step := FreshLabel();
      var end := FreshLabel();
      JumpSave(end, step);
      Emit(Mark(begin));
      ok := GenOption(s.test);
      if ok {
        if s.test.Some? {
          JumpIfZero(end);
        }
        ok := GenStmt(s.body);
        if ok {
          Emit(Mark(step));
          ok := GenOption(s.step);
          if ok {
            LoopEnd(begin, end);
            JumpRestore();
          }
        }
      }
    }

    method GenSwitch(s: Stmt) returns (ok: bool)
      requires s.Switch?
      modifies this
      ensures Did(ok, C.GenStmt(s, old(Now())))
      decreases s, 1
    {
      hide C.GenExpr, C.KeepSwitch, C.OpenSwitch;
      SaveSwitch();
      ok := GenExpr(s.e);
      if ok {
        StartSwitch();
        ok := GenStmt(s.body);
        if ok {
          ok := sw.Some? && brk.Some?;
          if ok {
            Emit(Mark(sw.value));
            Emit(Mark(brk.value));
            sw := swStore;
            brk := brkStore;
          }
        }
      }
    }

    /** The labels of an enclosing switch go to their save slots. */
    method SaveSwitch()
      modifies this
      ensures Now() == C.KeepSwitch(old(Now()))
    {
      swStore := sw;
      brkStore := brk;
    }

    /** The two labels of a switch, and the jump to the first comparison. */
    method StartSwitch()
      modifies this
      ensures Now() == C.OpenSwitch(old(Now()))
    {
      var first := FreshLabel();
      var end := FreshLabel();
      sw := Some(first);
      brk := Some(end);
      Emit(Jump(first));
    }
  }

  lemma KindStep(ks: seq<Kind>, i: nat)
    requires i < |ks|
    ensures var before := ks[..i];
      ks[..i + 1][..i] == before && ks[..i + 1] == before + [ks[i]] &&
      Floats(ks[..i + 1]) == Floats(before) + (if IsFloating(ks[i]) then 1 else 0) &&
      Wholes(ks[..i + 1]) == Wholes(before) + (if IsFloating(ks[i]) then 0 else 1)
    ensures Wholes(ks[..i + 1]) <= Wholes(ks)
  {
    KindPrefix(ks, i + 1);
    assert ks[..i + 1][..i] == ks[..i];
  }

  lemma {:induction false} KindPrefix(ks: seq<Kind>, i: nat)
    requires i <= |ks|
    ensures Wholes(ks[..i]) <= Wholes(ks)
    decreases |ks|
  {
    if i < |ks| {
      var before := ks[..|ks| - 1];
      KindPrefix(before, i);
      assert before[..i] == ks[..i];
    } else {
      assert ks[..i] == ks;
    }
  }
}
