/** The generator on the whole of its tree, floating operands and string literals
    included. Every function takes what the generator holds and returns what it holds
    afterwards, with the bytes it believes to be on the stack. */
module StackCode {
  import opened Runs
  import M = Machine
  import S = SaveSlots

  /** Reserve and Release move the stack pointer by eight bytes, SpillXmm and FillXmm
      store and load a floating register at it. SetRax and WidenResult are the only
      other instructions between an argument's register and its use; Plain stands for
      any instruction that touches neither the stack pointer nor the program counter. */
  datatype Instr =
    | Push(reg: M.Reg) | Pop(reg: M.Reg)
    | Reserve | Release | SpillXmm(xmm: nat) | FillXmm(xmm: nat)
    | SetRax(value: int) | WidenResult
    | Jump(target: nat) | Branch(target: nat) | Mark(target: nat)
    | CallTo(name: string) | Leave | Ret
    | Plain(text: string, operand: int)

  /** Long stands for long and long long, Other for what is not a scalar; the scale of a
      pointer is the size of what it points to. */
  datatype Kind = Char | Short | Int | Long | Pointer(scale: int) | Array | Float | Double | LongDouble | Other

  datatype Op =
    | Plus | Minus | Times | Slash | Percent | Caret | LeftShift | RightShift
    | Less | Greater | Equal | NotEqual | LessEqual | GreaterEqual

  /** Each node carries the kind of its type. The initializers in Local are those of a
      compound literal, emitted where it is first used. */
  datatype Expr =
    | Literal(kind: Kind, value: int)
    | Text(kind: Kind, tag: nat)
    | Local(kind: Kind, offset: int, inits: Inits)
    | Global(kind: Kind, tag: nat)
    | Call(kind: Kind, name: string, args: Args)
    | AddressOf(kind: Kind, operand: Expr)
    | Deref(kind: Kind, operand: Expr)
    | Conditional(kind: Kind, cond: Expr, yes: Expr, no: Expr)
    | Member(kind: Kind, structure: Expr, offset: int)
    | Not(kind: Kind, operand: Expr)
    | And(kind: Kind, left: Expr, right: Expr)
    | Or(kind: Kind, left: Expr, right: Expr)
    | Bits(kind: Kind, either: bool, left: Expr, right: Expr)
    | Complement(kind: Kind, operand: Expr)
    | Step(kind: Kind, prefix: bool, minus: bool, operand: Expr)
    | Cast(kind: Kind, operand: Expr)
    | Assign(kind: Kind, left: Expr, right: Expr)
    | Binary(kind: Kind, op: Op, left: Expr, right: Expr)

  datatype Inits = NoInits | Init(value: Expr, kind: Kind, offset: int, rest: Inits)
  datatype Args = NoArgs | Arg(value: Expr, kind: Kind, rest: Args)

  datatype Stmt =
    | Skip
    | Sequence(first: Stmt, rest: Stmt)
    | Expression(e: Expr)
    | Declare(base: int, inits: Inits)
    | If(cond: Expr, yes: Stmt)
    | IfElse(cond: Expr, yes: Stmt, no: Stmt)
    | While(cond: Expr, body: Stmt)
    | DoWhile(body: Stmt, cond: Expr)
    | For(init: Stmt, test: Option<Expr>, step: Option<Expr>, body: Stmt)
    | Switch(e: Expr, body: Stmt)
    | Case(value: int)
    | Default
    | Break
    | Continue
    | Goto(where: nat)
    | LabelAt(place: Option<nat>)
    | Return(kind: Kind, result: Option<Expr>)

  predicate IsFloating(k: Kind) { k.Float? || k.Double? || k.LongDouble? }

  predicate IsInteger(k: Kind) { k.Char? || k.Short? || k.Int? || k.Long? }

  predicate IsNarrow(k: Kind) { k.Char? || k.Short? }

  // ------------------------------------------------------ what it holds

  /** `emitted` are the offsets of the compound literals whose initializers are out. */
  datatype View = View(output: seq<Instr>, stack: int, nextLabel: nat, slots: S.Slots, emitted: set<int>)

  /** Refused is an internal error of the generator. */
  datatype Result = Refused | Done(view: View) {
    predicate IsFailure() { Refused? }

    function PropagateFailure(): Result
      requires Refused?
    {
      Refused
    }

    function Extract(): View
      requires Done?
    {
      view
    }
  }

  function Emit(v: View, i: Instr): View {
    v.(output := v.output + [i])
  }

  function EmitPlain(v: View, text: string, operand: int): View {
    Emit(v, Plain(text, operand))
  }

  function PushReg(v: View, r: M.Reg): View {
    Emit(v, Push(r)).(stack := v.stack + 8)
  }

  function PopReg(v: View, r: M.Reg): View {
    Emit(v, Pop(r)).(stack := v.stack - 8)
  }

  function PushXmm(v: View, r: nat): View {
    Emit(Emit(v, Reserve), SpillXmm(r)).(stack := v.stack + 8)
  }

  function PopXmm(v: View, r: nat): View {
    Emit(Emit(v, FillXmm(r)), Release).(stack := v.stack - 8)
  }

  /** ast_label: the label is the counter's value before. */
  function Fresh(v: View): View {
    v.(nextLabel := v.nextLabel + 1)
  }

  // -------------------------------------------- conversions, loads, stores

  function CastInt(v: View, k: Kind): View {
    if IsFloating(k) then EmitPlain(v, "cvttsd2si %xmm0, %eax", 0) else v
  }

  function CastFloat(v: View, k: Kind): View {
    if IsFloating(k) then v else EmitPlain(v, "cvtsi2sd %eax, %xmm0", 0)
  }

  /** gen_load. */
  function Convert(v: View, to: Kind, from: Kind): View {
    if IsFloating(to) then CastFloat(v, from) else CastInt(v, from)
  }

  /** gen_save. */
  function ConvertStored(v: View, to: Kind, from: Kind): View {
    if IsInteger(from) && to.Float? then EmitPlain(v, "cvtsi2ss %eax, %xmm0", 0)
    else if IsFloating(from) && to.Float? then EmitPlain(v, "cvtpd2ps %xmm0, %xmm0", 0)
    else if IsInteger(from) && (to.Double? || to.LongDouble?) then EmitPlain(v, "cvtsi2sd %eax, %xmm0", 0)
    else if IsFloating(from) && (to.Double? || to.LongDouble?) then v
    else Convert(v, to, from)
  }

  /** gen_load_local, with the base register in the text. */
  function LoadLocal(v: View, k: Kind, base: string, offset: int): View {
    if k.Array? then EmitPlain(v, "lea (" + base + "), %rax", offset)
    else if k.Float? then EmitPlain(v, "cvtps2pd (" + base + "), %xmm0", offset)
    else if IsFloating(k) then EmitPlain(v, "movsd (" + base + "), %xmm0", offset)
    else
      var w := if IsNarrow(k) then EmitPlain(v, "mov $0, %ecx", 0) else v;
      EmitPlain(EmitPlain(w, "mov (" + base + "), %rcx", offset), "mov %rcx, %rax", 0)
  }

  function LoadGlobal(v: View, k: Kind, tag: nat, offset: int): View {
    if k.Array? then EmitPlain(v, "lea label(%rip), %rax", offset)
    else
      var w := if IsNarrow(k) then EmitPlain(v, "mov $0, %eax", 0) else v;
      EmitPlain(w, "mov label(%rip), %rax", offset)
  }

  /** gen_save_local. */
  function SaveLocal(v: View, k: Kind, offset: int): View {
    if k.Float? then
      var w := EmitPlain(EmitPlain(PushXmm(v, 0), "unpcklpd %xmm0, %xmm0", 0), "cvtpd2ps %xmm0, %xmm0", 0);
      PopXmm(EmitPlain(w, "movss %xmm0, (%rbp)", offset), 0)
    else if IsFloating(k) then EmitPlain(v, "movsd %xmm0, (%rbp)", offset)
    else EmitPlain(v, "mov %rax, (%rbp)", offset)
  }

  function SaveGlobal(v: View, k: Kind, offset: int): View {
    EmitPlain(v, "mov %rax, label(%rip)", offset)
  }

  /** gen_assignment_dereference_intermediate: the value was pushed, the address is in rax. */
  function SaveThrough(v: View, k: Kind, offset: int): View {
    PopReg(EmitPlain(EmitPlain(v, "mov (%rsp), %rcx", 0), "mov %rcx, (%rax)", offset), M.RAX)
  }

  /** gen_literal_save. */
  function SaveLiteral(v: View, k: Kind, value: int, offset: int): Result {
    if k.Char? || k.Short? || k.Int? then Done(EmitPlain(v, "mov $, (%rbp)", offset))
    else if k.Long? || k.Pointer? || k.Float? || k.Double? then
      var w := Emit(PushReg(v, M.RAX), SetRax(value));
      Done(PopReg(EmitPlain(w, "mov %rax, (%rbp)", offset), M.RAX))
    else Refused
  }

  // ----------------------------------------------------------- calls

  function Kinds(args: Args): seq<Kind> {
    match args
    case NoArgs => []
    case Arg(_, k, rest) => [k] + Kinds(rest)
  }

  /** How many of the arguments travel in floating registers, and how many do not. */
  function Floats(ks: seq<Kind>): (n: nat)
    ensures n <= |ks|
  {
    if |ks| == 0 then 0 else Floats(ks[..|ks| - 1]) + if IsFloating(ks[|ks| - 1]) then 1 else 0
  }

  function Wholes(ks: seq<Kind>): nat {
    |ks| - Floats(ks)
  }

  /** The registers that carry arguments are saved, but for the first floating one. */
  function SaveRegisters(v: View, ks: seq<Kind>): (w: View)
    requires Wholes(ks) <= 6
    ensures w.slots == v.slots
    decreases |ks|
  {
    if |ks| == 0 then v else
      var before := ks[..|ks| - 1];
      var x := SaveRegisters(v, before);
      if !IsFloating(ks[|ks| - 1]) then PushReg(x, M.ArgReg(Wholes(before)))
      else if Floats(before) > 0 then PushXmm(x, Floats(before))
      else x
  }

  /** The arguments' values are taken off the stack, last first. */
  function LoadArguments(v: View, ks: seq<Kind>): (w: View)
    requires Wholes(ks) <= 6
    ensures w.slots == v.slots
    decreases |ks|
  {
    if |ks| == 0 then v else
      var before := ks[..|ks| - 1];
      var x := if IsFloating(ks[|ks| - 1]) then PopXmm(v, Floats(before)) else PopReg(v, M.ArgReg(Wholes(before)));
      LoadArguments(x, before)
  }

  function RestoreRegisters(v: View, ks: seq<Kind>): (w: View)
    requires Wholes(ks) <= 6
    ensures w.slots == v.slots
    decreases |ks|
  {
    if |ks| == 0 then v else
      var before := ks[..|ks| - 1];
      var x :=
        if !IsFloating(ks[|ks| - 1]) then PopReg(v, M.ArgReg(Wholes(before)))
        else if Floats(before) > 0 then PopXmm(v, Floats(before))
        else v;
      RestoreRegisters(x, before)
  }

  /** The call itself, with eight bytes of padding when the count is odd. */
  function Transfer(v: View, name: string, floats: nat): View {
    Unpad(Emit(Pad(Emit(v, SetRax(floats))), CallTo(name)))
  }

  function Pad(v: View): View {
    if v.stack % 16 != 0 then Emit(v, Reserve) else v
  }

  function Unpad(v: View): View {
    if v.stack % 16 != 0 then Emit(v, Release) else v
  }

  function GenArgs(args: Args, v: View): (r: Result)
    ensures r.Done? ==> r.view.slots == v.slots
    decreases args
  {
    match args
    case NoArgs => Done(v)
    case Arg(value, k, rest) =>
      var w :- GenExpr(value, v);
      var x := ConvertStored(w, k, value.kind);
      GenArgs(rest, if IsFloating(k) then PushXmm(x, 0) else PushReg(x, M.RAX))
  }

  // ----------------------------------------------------- expressions

  /** gen_declaration_initialization. */
  function GenInits(inits: Inits, base: int, v: View): (r: Result)
    ensures r.Done? ==> r.view.slots == v.slots
    decreases inits, 0
  {
    match inits
    case NoInits => Done(v)
    case Init(value, k, offset, rest) =>
      if value.Literal? then
        var w :- SaveLiteral(v, k, value.value, base + offset);
        GenInits(rest, base, w)
      else
        var w :- GenExpr(value, v);
        GenInits(rest, base, SaveLocal(w, k, base + offset))
  }

  /** gen_ensure_lva: the node forgets its initializers once they are out, so they are
      emitted at its first use only. */
  function EnsureInits(inits: Inits, offset: int, v: View): (r: Result)
    ensures r.Done? ==> r.view.slots == v.slots
    decreases inits, 1
  {
    if inits.NoInits? || offset in v.emitted then Done(v) else
    var w :- GenInits(inits, offset, v);
    Done(w.(emitted := w.emitted + {offset}))
  }

  /** gen_assignment. */
  function GenAssign(place: Expr, v: View): (r: Result)
    ensures r.Done? ==> r.view.slots == v.slots
    decreases place, 0
  {
    match place
    case Deref(k, operand) =>
      var w :- GenExpr(operand, PushReg(v, M.RAX));
      Done(SaveThrough(w, k, 0))
    case Member(k, structure, offset) => GenAssignMember(structure, k, offset, v)
    case Local(k, offset, inits) =>
      var w :- EnsureInits(inits, offset, v);
      Done(SaveLocal(w, k, offset))
    case Global(k, _) => Done(SaveGlobal(v, k, 0))
    case _ => Refused
  }

  /** gen_assignment_structure. */
  function GenAssignMember(structure: Expr, field: Kind, shift: int, v: View): (r: Result)
    ensures r.Done? ==> r.view.slots == v.slots
    decreases structure, 0
  {
    match structure
    case Local(_, offset, inits) =>
      var w :- EnsureInits(inits, offset, v);
      Done(SaveLocal(w, field, offset + shift))
    case Global(_, _) => Done(SaveGlobal(v, field, shift))
    case Member(_, outer, offset) => GenAssignMember(outer, field, shift + offset, v)
    case Deref(_, operand) =>
      var w :- GenExpr(operand, PushReg(v, M.RAX));
      Done(SaveThrough(w, field, shift))
    case _ => Refused
  }

  /** gen_load_structure. */
  function GenLoadMember(structure: Expr, field: Kind, shift: int, v: View): (r: Result)
    ensures r.Done? ==> r.view.slots == v.slots
    decreases structure, 0
  {
    match structure
    case Local(_, offset, inits) =>
      var w :- EnsureInits(inits, offset, v);
      Done(LoadLocal(w, field, "%rbp", offset + shift))
    case Global(_, tag) => Done(LoadGlobal(v, field, tag, shift))
    case Member(_, outer, offset) => GenLoadMember(outer, field, shift + offset, v)
    case Deref(_, operand) =>
      var w :- GenExpr(operand, v);
      Done(LoadLocal(w, field, "%rax", shift))
    case _ => Refused
  }

  /** The operand of an address operator. */
  function GenAddress(place: Expr, v: View): (r: Result)
    ensures r.Done? ==> r.view.slots == v.slots
    decreases place, 2
  {
    match place
    case Local(_, offset, inits) =>
      var w :- EnsureInits(inits, offset, v);
      Done(EmitPlain(w, "lea (%rbp), %rax", offset))
    case Global(_, _) => Done(EmitPlain(v, "lea label(%rip), %rax", 0))
    case Deref(_, _) => GenExpr(place, v)
    case _ => Refused
  }

  predicate IsComparison(op: Op) {
    op.Less? || op.Greater? || op.Equal? || op.NotEqual? || op.LessEqual? || op.GreaterEqual?
  }

  function SetByte(op: Op): string {
    match op
    case Less => "setl %al"
    case Greater => "setg %al"
    case Equal => "sete %al"
    case NotEqual => "setne %al"
    case LessEqual => "setle %al"
    case _ => "setge %al"
  }

  function IntegerText(op: Op): string {
    match op
    case Plus => "add %rcx, %rax"
    case Minus => "sub %rcx, %rax"
    case Times => "imul %rcx, %rax"
    case _ => "xor %rcx, %rax"
  }

  function FloatingText(op: Op): string {
    match op
    case Plus => "addsd %xmm1, %xmm0"
    case Minus => "subsd %xmm1, %xmm0"
    case Times => "mulsd %xmm1, %xmm0"
    case _ => "divsd %xmm1, %xmm0"
  }

  /** What combines a pushed left operand with the right one, or an internal error. */
  function Combine(v: View, kind: Kind, op: Op, right: Kind, floating: bool): Result {
    if kind.Pointer? then
      Done(EmitPlain(PopReg(EmitPlain(v, "mov %rax, %rcx", 0), M.RAX), "add %rcx, %rax", 0))
    else if IsComparison(op) then
      var w :=
        if floating then EmitPlain(PopXmm(CastFloat(v, right), 1), "ucomisd %xmm0, %xmm1", 0)
        else EmitPlain(PopReg(CastInt(v, right), M.RCX), "cmp %rax, %rcx", 0);
      Done(EmitPlain(EmitPlain(w, SetByte(op), 0), "movzb %al, %eax", 0))
    else if IsInteger(kind) then
      Done(FinishInteger(PopReg(EmitPlain(CastInt(v, right), "mov %rax, %rcx", 0), M.RAX), op))
    else if IsFloating(kind) && (op.Plus? || op.Minus? || op.Times? || op.Slash?) then
      Done(EmitPlain(PopXmm(EmitPlain(CastFloat(v, right), "movsd %xmm0, %xmm1", 0), 0), FloatingText(op), 0))
    else Refused
  }

  function FinishInteger(v: View, op: Op): View {
    if op.Slash? || op.Percent? then
      var w := EmitPlain(EmitPlain(v, "cqto", 0), "idiv %rcx", 0);
      if op.Percent? then EmitPlain(w, "mov %edx, %eax", 0) else w
    else if op.LeftShift? || op.RightShift? then EmitPlain(v, if op.LeftShift? then "sal %cl, %rax" else "sar %cl, %rax", 0)
    else EmitPlain(v, IntegerText(op), 0)
  }

  /** Whether the operands are compared or combined as floating values. */
  predicate CombinesFloats(e: Expr)
    requires e.Binary?
  {
    !e.kind.Pointer? &&
    if IsComparison(e.op) then IsFloating(e.left.kind) || IsFloating(e.right.kind) else !IsInteger(e.kind)
  }

  /** The left operand, converted and pushed. */
  function PushLeft(e: Expr, v: View): View
    requires e.Binary?
  {
    if e.kind.Pointer? then PushReg(v, M.RAX)
    else if CombinesFloats(e) then PushXmm(CastFloat(v, e.left.kind), 0)
    else PushReg(CastInt(v, e.left.kind), M.RAX)
  }

  /** The multiplication that scales an index, before the operands are combined. */
  function Scale(e: Expr, v: View): View
    requires e.Binary?
  {
    if e.kind.Pointer? && e.kind.scale > 1 then EmitPlain(v, "imul $, %rax", e.kind.scale) else v
  }

  /** gen_expression, on expressions. */
  function GenExpr(e: Expr, v: View): (r: Result)
    ensures r.Done? ==> r.view.slots == v.slots
    decreases e, 1
  {
    match e
    case Literal(k, value) =>
      if k.Char? || k.Int? || k.Long? then Done(Emit(v, SetRax(value)))
      else if IsFloating(k) then Done(EmitPlain(v, "movsd label(%rip), %xmm0", value))
      else Refused
    case Text(_, tag) => Done(EmitPlain(v, "lea label(%rip), %rax", tag))
    case Local(k, offset, inits) =>
      var w :- EnsureInits(inits, offset, v);
      Done(LoadLocal(w, k, "%rbp", offset))
    case Global(k, tag) => Done(LoadGlobal(v, k, tag, 0))
    case Call(_, _, _) => GenCall(e, v)
    case AddressOf(_, operand) => GenAddress(operand, v)
    case Deref(k, operand) =>
      var w :- GenExpr(operand, v);
      Done(Convert(LoadLocal(w, k, "%rax", 0), k, k))
    case Conditional(_, _, _, _) => GenConditional(e, v)
    case Member(k, structure, offset) => GenLoadMember(structure, k, offset, v)
    case Not(_, operand) =>
      var w :- GenExpr(operand, v);
      Done(EmitPlain(EmitPlain(EmitPlain(w, "cmp $, %rax", 0), SetByte(Equal), 0), "movzb %al, %eax", 0))
    case And(_, _, _) => GenLogical(e, 0, 1, v)
    case Or(_, _, _) => GenLogical(e, 1, 0, v)
    case Bits(_, either, left, right) =>
      var w :- GenExpr(left, v);
      var x :- GenExpr(right, PushReg(w, M.RAX));
      Done(EmitPlain(PopReg(x, M.RCX), if either then "or %rcx, %rax" else "and %rcx, %rax", 0))
    case Complement(_, operand) =>
      var w :- GenExpr(operand, v);
      Done(EmitPlain(w, "not %rax", 0))
    case Step(_, _, _, _) => GenStep(e, v)
    case Cast(k, operand) =>
      var w :- GenExpr(operand, v);
      Done(Convert(w, k, operand.kind))
    case Assign(k, left, right) =>
      var w :- GenExpr(right, v);
      GenAssign(left, Convert(w, k, right.kind))
    case Binary(k, op, left, right) =>
      var w :- GenExpr(left, v);
      var x :- GenExpr(right, PushLeft(e, w));
      Combine(Scale(e, x), k, op, right.kind, CombinesFloats(e))
  }

  function GenCall(e: Expr, v: View): (r: Result)
    requires e.Call?
    ensures r.Done? ==> r.view.slots == v.slots
    decreases e, 0
  {
    var ks := Kinds(e.args);
    if Wholes(ks) > 6 then Refused else
      var w :- GenArgs(e.args, SaveRegisters(v, ks));
      var x := RestoreRegisters(Transfer(LoadArguments(w, ks), e.name, Floats(ks)), ks);
      Done(if e.kind.Float? then Emit(x, WidenResult) else x)
  }

  /** gen_emit_prefix and gen_emit_postfix. */
  function GenStep(e: Expr, v: View): (r: Result)
    requires e.Step?
    ensures r.Done? ==> r.view.slots == v.slots
    decreases e, 0
  {
    var w :- GenExpr(e.operand, v);
    var x := if e.prefix then w else PushReg(w, M.RAX);
    var y :- GenAssign(e.operand, EmitPlain(x, if e.minus then "sub $, %rax" else "add $, %rax", 1));
    Done(if e.prefix then y else PopReg(y, M.RAX))
  }

  function JumpIfZero(v: View, l: nat): View {
    Emit(EmitPlain(v, "test %rax, %rax", 0), Branch(l))
  }

  function GenConditional(e: Expr, v: View): (r: Result)
    requires e.Conditional?
    ensures r.Done? ==> r.view.slots == v.slots
    decreases e, 0
  {
    var w :- GenExpr(e.cond, v);
    var x :- GenExpr(e.yes, JumpIfZero(Fresh(w), w.nextLabel));
    var y :- GenExpr(e.no, Emit(Emit(Fresh(x), Jump(x.nextLabel)), Mark(w.nextLabel)));
    Done(Emit(y, Mark(x.nextLabel)))
  }

  /** The tests of a logical operator: `short` is the result when an operand decides. */
  function GenLogical(e: Expr, short: int, other: int, v: View): (r: Result)
    requires e.And? || e.Or?
    ensures r.Done? ==> r.view.slots == v.slots
    decreases e, 0
  {
    var w :- GenExpr(e.left, Fresh(v));
    var x :- GenExpr(e.right, TestTo(w, short, v.nextLabel));
    Done(Emit(Emit(TestTo(x, short, v.nextLabel), SetRax(other)), Mark(v.nextLabel)))
  }

  function TestTo(v: View, value: int, l: nat): View {
    Emit(Emit(EmitPlain(v, "test %rax, %rax", 0), SetRax(value)), Branch(l))
  }

  // ------------------------------------------------------- statements

  function GenOption(e: Option<Expr>, v: View): (r: Result)
    ensures r.Done? ==> r.view.slots == v.slots
  {
    match e
    case None => Done(v)
    case Some(x) => GenExpr(x, v)
  }

  function LoopEnd(v: View, begin: nat, end: nat): View {
    Emit(Emit(v, Jump(begin)), Mark(end))
  }

  /** gen_expression, on statements. */
  function GenStmt(s: Stmt, v: View): Result
    decreases s, 1
  {
    match s
    case Skip => Done(v)
    case Sequence(first, rest) =>
      var w :- GenStmt(first, v);
      GenStmt(rest, w)
    case Expression(e) => GenExpr(e, v)
    case Declare(base, inits) => GenInits(inits, base, v)
    case If(cond, yes) =>
      var w :- GenExpr(cond, v);
      var x :- GenStmt(yes, JumpIfZero(Fresh(w), w.nextLabel));
      Done(Emit(x, Mark(w.nextLabel)))
    case IfElse(cond, yes, no) =>
      var w :- GenExpr(cond, v);
      var x :- GenStmt(yes, JumpIfZero(Fresh(w), w.nextLabel));
      var y :- GenStmt(no, Emit(Emit(Fresh(x), Jump(x.nextLabel)), Mark(w.nextLabel)));
      Done(Emit(y, Mark(x.nextLabel)))
    case While(cond, body) =>
      var begin, end := v.nextLabel, v.nextLabel + 1;
      var w :- GenExpr(cond, OpenLoop(v, end, begin, begin));
      var x :- GenStmt(body, JumpIfZero(w, end));
      Done(CloseLoop(LoopEnd(x, begin, end)))
    case DoWhile(body, cond) =>
      var begin, end := v.nextLabel, v.nextLabel + 1;
      var w :- GenStmt(body, OpenLoop(v, end, begin, begin));
      var x :- GenExpr(cond, w);
      Done(CloseLoop(LoopEnd(JumpIfZero(x, end), begin, end)))
    case For(init, _, _, _) =>
      var w :- GenStmt(init, v);
      ForLoop(s, w)
    case Switch(e, body) =>
      var w :- GenExpr(e, KeepSwitch(v));
      var x :- GenStmt(body, OpenSwitch(w));
      if x.slots.sw.None? || x.slots.brk.None? then Refused else
        Done(Emit(Emit(x, Mark(x.slots.sw.value)), Mark(x.slots.brk.value)).(slots := S.SwitchRestore(x.slots)))
    case Case(value) => if v.slots.sw.None? then Refused else Done(GenCase(v, value))
    case Default => if v.slots.sw.None? then Refused else Done(GenDefault(v))
    case Break => if v.slots.brk.None? then Refused else Done(Emit(v, Jump(v.slots.brk.value)))
    case Continue => if v.slots.cont.None? then Refused else Done(Emit(v, Jump(v.slots.cont.value)))
    case Goto(where) => Done(Emit(v, Jump(where)))
    case LabelAt(place) => Done(if place.None? then v else Emit(v, Mark(place.value)))
    case Return(k, result) =>
      var w :- GenOption(result, v);
      var x := if result.Some? then ConvertStored(w, k, result.value.kind) else w;
      Done(Emit(Emit(x, Leave), Ret))
  }

  /** A for statement after its first clause. */
  function ForLoop(s: Stmt, v: View): Result
    requires s.For?
    decreases s, 0
  {
    var begin, next, end := v.nextLabel, v.nextLabel + 1, v.nextLabel + 2;
    var x :- GenOption(s.test, OpenLoop(Fresh(v), end, next, begin));
    var y :- GenStmt(s.body, if s.test.Some? then JumpIfZero(x, end) else x);
    var z :- GenOption(s.step, Emit(y, Mark(next)));
    Done(CloseLoop(LoopEnd(z, begin, end)))
  }

  /** Two fresh labels, gen_jump_save, and the label at the start. */
  function OpenLoop(v: View, end: nat, next: nat, begin: nat): View {
    Emit(Fresh(Fresh(v)).(slots := S.Save(v.slots, end, next)), Mark(begin))
  }

  function CloseLoop(v: View): View {
    v.(slots := S.Restore(v.slots))
  }

  /** The labels of an enclosing switch go to their save slots. */
  function KeepSwitch(v: View): View {
    v.(slots := v.slots.(swStore := v.slots.sw, brkStore := v.slots.brk))
  }

  function OpenSwitch(v: View): View {
    Emit(Fresh(Fresh(v)).(slots := v.slots.(sw := Some(v.nextLabel), brk := Some(v.nextLabel + 1))), Jump(v.nextLabel))
  }

  function GenCase(v: View, value: int): View
    requires v.slots.sw.Some?
  {
    var skip, next := v.nextLabel, v.nextLabel + 1;
    var w := Emit(Emit(Fresh(v), Jump(skip)), Mark(v.slots.sw.value));
    var x := Fresh(EmitPlain(w, "cmp $, %eax", value)).(slots := v.slots.(sw := Some(next)));
    Emit(Emit(x, Branch(next)), Mark(skip))
  }

  function GenDefault(v: View): View
    requires v.slots.sw.Some?
  {
    Fresh(Emit(v, Mark(v.slots.sw.value))).(slots := v.slots.(sw := Some(v.nextLabel)))
  }
}
