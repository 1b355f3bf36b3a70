/** Deterministic transition systems. */
module Runs {

  datatype Option<+T> = None | Some(value: T)

  /** Exactly n steps. */
  function Run<S>(step: S -> Option<S>, s: S, n: nat): Option<S>
    decreases n
  {
    if n == 0 then Some(s) else
    match step(s)
    case None => None
    case Some(t) => Run(step, t, n - 1)
  }

  ghost predicate Connected<S>(step: S -> Option<S>, s: S, t: S) {
    exists n: nat :: Run(step, s, n) == Some(t)
  }

  lemma {:induction false} RunTrans<S>(step: S -> Option<S>, s: S, t: S, m: nat, n: nat)
    requires Run(step, s, m) == Some(t)
    ensures Run(step, s, m + n) == Run(step, t, n)
    decreases m
  {
    if m > 0 {
      RunTrans(step, step(s).value, t, m - 1, n);
    }
  }

  lemma ConnectedSelf<S>(step: S -> Option<S>, s: S)
    ensures Connected(step, s, s)
  {
    assert Run(step, s, 0) == Some(s);
  }

  lemma ConnectedTrans<S>(step: S -> Option<S>, s: S, t: S, u: S)
    requires Connected(step, s, t) && Connected(step, t, u)
    ensures Connected(step, s, u)
  {
    var m: nat :| Run(step, s, m) == Some(t);
    var n: nat :| Run(step, t, n) == Some(u);
    RunTrans(step, s, t, m, n);
  }

  lemma ConnectedStep<S>(step: S -> Option<S>, s: S, t: S, u: S)
    requires Connected(step, s, t) && step(t) == Some(u)
    ensures Connected(step, s, u)
  {
    assert Run(step, u, 0) == Some(u);
    assert Run(step, t, 1) == Some(u);
    ConnectedTrans(step, s, t, u);
  }

  /** Where a run stops it stops for good, so there is at most one such state. */
  lemma StopsOnce<S>(step: S -> Option<S>, s: S, t: S, u: S)
    requires Connected(step, s, t) && step(t) == None
    requires Connected(step, s, u) && step(u) == None
    ensures t == u
  {
    var m: nat :| Run(step, s, m) == Some(t);
    var n: nat :| Run(step, s, n) == Some(u);
    if m <= n {
      RunTrans(step, s, t, m, n - m);
    } else {
      RunTrans(step, s, u, n, m - n);
    }
  }
}

/** The part of the AMD64 machine that the generated code runs on: ten registers,
    a condition flag, memory in eight-byte cells, and a program whose jumps name
    labels. A step that the hardware would fault on, or whose effect is not
    modelled (an access that is not eight-byte aligned, a flag nobody set), has no
    successor, so every run of this machine is a run of the real one. */
module Machine {
  import opened Words
  import opened Runs

  type Memory = map<int, Word>

  datatype Reg = RAX | RCX | RDX | RDI | RSI | R8 | R9 | RBP | RSP

  datatype Flags = Unset | Compared(equal: bool, less: bool)

  datatype Alu = Add | Sub | Imul | BitAnd | BitOr | BitXor

  datatype Condition = IsEqual | IsNotEqual | IsLess | IsGreater | IsLessEqual | IsGreaterEqual

  /** Immediate operands are the `int` values the generator prints. */
  datatype Instr =
    | MovImm(value: int, dst: Reg)
    | MovReg(src: Reg, dst: Reg)
    | Load(offset: int, base: Reg, dst: Reg)
    | Store(src: Reg, offset: int, base: Reg)
    | Lea(offset: int, base: Reg, dst: Reg)
    | Push(reg: Reg)
    | Pop(reg: Reg)
    | AluReg(op: Alu, src: Reg, dst: Reg)
    | AluImm(op: Alu, value: int, dst: Reg)
    | Not
    | Cqto
    | Idiv(reg: Reg)
    | MovEdxEax
    | Sal
    | Sar
    | CmpReg(src: Reg, dst: Reg)
    | CmpImm(value: int)
    | CmpImm32(value: int)
    | Test
    | SetAl(cond: Condition)
    | MovzbAlEax
    | Jmp(target: nat)
    | Je(target: nat)
    | Jne(target: nat)
    | Label(id: nat)
    | CallName(name: string)
    | Leave
    | Ret

  type Program = seq<Instr>

  datatype State = State(
    pc: int,
    rax: Word, rcx: Word, rdx: Word, rdi: Word, rsi: Word, r8: Word, r9: Word, rbp: Word, rsp: Word,
    flags: Flags,
    mem: Memory)

  /** What a callee may leave behind in the registers it need not preserve and in
      the stack below the caller's stack pointer. */
  datatype Clobber = Clobber(rcx: Word, rdx: Word, rdi: Word, rsi: Word, r8: Word, r9: Word, stack: Memory)

  datatype CallResult = CallResult(value: Word, objects: Memory, clobber: Clobber)

  /** Other functions, seen from one caller: how many arguments each takes, what it
      returns and does to the objects it can reach, or None where it does not
      return; and the addresses of those objects. */
  datatype Callees = Callees(
    arity: string -> nat,
    run: (string, seq<Word>, Memory) -> Option<CallResult>,
    objects: set<int>)

  function Get(s: State, r: Reg): Word {
    match r
    case RAX => s.rax
    case RCX => s.rcx
    case RDX => s.rdx
    case RDI => s.rdi
    case RSI => s.rsi
    case R8 => s.r8
    case R9 => s.r9
    case RBP => s.rbp
    case RSP => s.rsp
  }

  function Set(s: State, r: Reg, v: Word): State {
    match r
    case RAX => s.(rax := v)
    case RCX => s.(rcx := v)
    case RDX => s.(rdx := v)
    case RDI => s.(rdi := v)
    case RSI => s.(rsi := v)
    case R8 => s.(r8 := v)
    case R9 => s.(r9 := v)
    case RBP => s.(rbp := v)
    case RSP => s.(rsp := v)
  }

  /** The registers that carry the first six integer arguments, in order. */
  function ArgReg(k: nat): Reg
    requires k < 6
  {
    [RDI, RSI, RDX, RCX, R8, R9][k]
  }

  function AluResult(op: Alu, dst: Word, src: Word): Word {
    match op
    case Add => Wrap(dst + src)
    case Sub => Wrap(dst - src)
    case Imul => Wrap(dst * src)
    case BitAnd => BitWord(And, dst, src)
    case BitOr => BitWord(Or, dst, src)
    case BitXor => BitWord(Xor, dst, src)
  }

  predicate Holds(c: Condition, f: Flags)
    requires f.Compared?
  {
    match c
    case IsEqual => f.equal
    case IsNotEqual => !f.equal
    case IsLess => f.less
    case IsGreater => !f.less && !f.equal
    case IsLessEqual => f.less || f.equal
    case IsGreaterEqual => !f.less
  }

  predicate Aligned(a: int) { a % 8 == 0 }

  function Next(s: State): State { s.(pc := s.pc + 1) }

  function ReadTo(s: State, a: Word, dst: Reg): Option<State> {
    if Aligned(a) && a in s.mem then Some(Next(Set(s, dst, s.mem[a]))) else None
  }

  function WriteFrom(s: State, a: Word, v: Word): Option<State> {
    if Aligned(a) then Some(Next(s.(mem := s.mem[a := v]))) else None
  }

  /** Where the label is defined; the first place when there are several. */
  function FindLabel(prog: Program, l: nat): (r: Option<nat>)
    ensures r.Some? ==> r.value < |prog| && prog[r.value] == Label(l)
    ensures r.None? ==> Label(l) !in prog
  {
    if |prog| == 0 then None
    else if prog[0] == Label(l) then Some(0)
    else match FindLabel(prog[1..], l)
      case None => None
      case Some(i) => Some(i + 1)
  }

  function Jump(prog: Program, s: State, l: nat): Option<State> {
    match FindLabel(prog, l)
    case None => None
    case Some(i) => Some(s.(pc := i))
  }

  function Branch(prog: Program, s: State, taken: bool, l: nat): Option<State> {
    if taken then Jump(prog, s, l) else Some(Next(s))
  }

  function Arguments(s: State, n: nat): (args: seq<Word>)
    requires n <= 6
    ensures |args| == n
    ensures forall k :: 0 <= k < n ==> args[k] == Get(s, ArgReg(k))
  {
    [s.rdi, s.rsi, s.rdx, s.rcx, s.r8, s.r9][..n]
  }

  /** The part of memory other functions can reach. */
  function Visible(objects: set<int>, mem: Memory): Memory
    requires objects <= mem.Keys
  {
    map a | a in objects :: mem[a]
  }

  function CallStep(env: Callees, s: State, name: string): Option<State> {
    if env.arity(name) > 6 || !(env.objects <= s.mem.Keys) then None else
    match env.run(name, Arguments(s, env.arity(name)), Visible(env.objects, s.mem))
    case None => None
    case Some(r) =>
      if r.objects.Keys != env.objects then None else
      var scratch := map a | a in r.clobber.stack && a < s.rsp && a !in env.objects :: r.clobber.stack[a];
      Some(Next(s.(rax := r.value, rcx := r.clobber.rcx, rdx := r.clobber.rdx, rdi := r.clobber.rdi,
                   rsi := r.clobber.rsi, r8 := r.clobber.r8, r9 := r.clobber.r9,
                   flags := Unset, mem := s.mem + scratch + r.objects)))
  }

  function DivideStep(s: State, divisor: Word): Option<State> {
    var dividend := s.rdx * MODULUS + Unsigned(s.rax);
    if divisor == 0 then None else
    var q, r := TruncDiv(dividend, divisor), TruncRem(dividend, divisor);
    if -HALF <= q < HALF && -HALF <= r < HALF then
      Some(Next(s.(rax := q, rdx := r, flags := Unset)))
    else None
  }

  function PopTo(s: State, dst: Reg): Option<State> {
    if Aligned(s.rsp) && s.rsp in s.mem then
      Some(Next(Set(s.(rsp := Wrap(s.rsp + 8)), dst, s.mem[s.rsp])))
    else None
  }

  /** The effect of one instruction. */
  function Execute(env: Callees, prog: Program, i: Instr, s: State): Option<State> {
    match i
    case MovImm(v, dst) => Some(Next(Set(s, dst, Wrap(v))))
    case MovReg(src, dst) => Some(Next(Set(s, dst, Get(s, src))))
    case Load(off, base, dst) => ReadTo(s, Wrap(Get(s, base) + off), dst)
    case Store(src, off, base) => WriteFrom(s, Wrap(Get(s, base) + off), Get(s, src))
    case Lea(off, base, dst) => Some(Next(Set(s, dst, Wrap(Get(s, base) + off))))
    case Push(r) => WriteFrom(s.(rsp := Wrap(s.rsp - 8)), Wrap(s.rsp - 8), Get(s, r))
    case Pop(r) => PopTo(s, r)
    case AluReg(op, src, dst) => Some(Next(Set(s, dst, AluResult(op, Get(s, dst), Get(s, src))).(flags := Unset)))
    case AluImm(op, v, dst) => Some(Next(Set(s, dst, AluResult(op, Get(s, dst), Wrap(v))).(flags := Unset)))
    case Not => Some(Next(s.(rax := Complement(s.rax))))
    case Cqto => Some(Next(s.(rdx := if s.rax < 0 then -1 else 0)))
    case Idiv(r) => DivideStep(s, Get(s, r))
    case MovEdxEax => Some(Next(s.(rax := s.rdx % LOW32)))
    case Sal => Some(Next(s.(rax := ShiftLeft(s.rax, s.rcx), flags := Unset)))
    case Sar => Some(Next(s.(rax := ShiftRight(s.rax, s.rcx), flags := Unset)))
    case CmpReg(src, dst) => Some(Next(s.(flags := Compared(Get(s, dst) == Get(s, src), Get(s, dst) < Get(s, src)))))
    case CmpImm(v) => Some(Next(s.(flags := Compared(s.rax == v, s.rax < v))))
    case CmpImm32(v) => Some(Next(s.(flags := Compared(Low32(s.rax) == v, Low32(s.rax) < v))))
    case Test => Some(Next(s.(flags := Compared(s.rax == 0, s.rax < 0))))
    case SetAl(c) => if s.flags.Unset? then None else
      Some(Next(s.(rax := s.rax - s.rax % 256 + Bool(Holds(c, s.flags)))))
    case MovzbAlEax => Some(Next(s.(rax := s.rax % 256)))
    case Jmp(l) => Jump(prog, s, l)
    case Je(l) => if s.flags.Unset? then None else Branch(prog, s, s.flags.equal, l)
    case Jne(l) => if s.flags.Unset? then None else Branch(prog, s, !s.flags.equal, l)
    case Label(_) => Some(Next(s))
    case CallName(name) => CallStep(env, s, name)
    case Leave => PopTo(s.(rsp := s.rbp), RBP)
    case Ret => match PopTo(s, RCX)
      case None => None
      case Some(t) => Some(s.(rsp := t.rsp, pc := t.rcx))
  }

  function Step(env: Callees, prog: Program, s: State): Option<State> {
    if 0 <= s.pc < |prog| then Execute(env, prog, prog[s.pc], s) else None
  }

  function Stepper(env: Callees, prog: Program): State -> Option<State> {
    s => Step(env, prog, s)
  }

  /** The machine gets from one state to the other in some number of steps; since
      Step is a function, it can get nowhere else on the way. */
  ghost predicate Reaches(env: Callees, prog: Program, s: State, t: State) {
    Connected(Stepper(env, prog), s, t)
  }

  lemma ReachesTrans(env: Callees, prog: Program, s: State, t: State, u: State)
    requires Reaches(env, prog, s, t) && Reaches(env, prog, t, u)
    ensures Reaches(env, prog, s, u)
  {
    ConnectedTrans(Stepper(env, prog), s, t, u);
  }

  /** One more instruction after a run. */
  lemma Then(env: Callees, prog: Program, s: State, t: State, u: State)
    requires Reaches(env, prog, s, t) && Step(env, prog, t) == Some(u)
    ensures Reaches(env, prog, s, u)
  {
    ConnectedStep(Stepper(env, prog), s, t, u);
  }

  // ------------------------------------------------ code inside a program

  /** No label is defined twice. */
  ghost predicate UniqueLabels(prog: Program) {
    forall i, j :: 0 <= i < |prog| && 0 <= j < |prog| && prog[i].Label? && prog[i] == prog[j] ==> i == j
  }

  /** The program, whose labels are unique, has this code at p. */
  ghost predicate CodeAt(prog: Program, p: int, code: seq<Instr>) {
    UniqueLabels(prog) && 0 <= p && p + |code| <= |prog| && forall k :: 0 <= k < |code| ==> prog[p + k] == code[k]
  }

  /** So its labels are where jumps to them go. */
  lemma LabelHere(prog: Program, p: int, code: seq<Instr>, k: int, l: nat)
    requires CodeAt(prog, p, code) && 0 <= k < |code| && code[k] == Label(l)
    ensures FindLabel(prog, l) == Some(p + k)
  {
    assert prog[p + k] == code[k];
  }

  lemma CodeSplit(prog: Program, p: int, a: seq<Instr>, b: seq<Instr>)
    requires CodeAt(prog, p, a + b)
    ensures CodeAt(prog, p, a) && CodeAt(prog, p + |a|, b)
  {
    forall k | 0 <= k < |a| ensures prog[p + k] == a[k] {
      assert (a + b)[k] == a[k];
    }
    forall k | 0 <= k < |b| ensures prog[p + |a| + k] == b[k] {
      assert (a + b)[|a| + k] == b[k];
    }
  }

  lemma CodeSplit3(prog: Program, p: int, a: seq<Instr>, b: seq<Instr>, c: seq<Instr>)
    requires CodeAt(prog, p, a + b + c)
    ensures CodeAt(prog, p, a) && CodeAt(prog, p + |a|, b) && CodeAt(prog, p + |a| + |b|, c)
  {
    CodeSplit(prog, p, a + b, c);
    CodeSplit(prog, p, a, b);
  }

  /** Instruction k of a piece of code, executed after a run that got there. */
  lemma Do(env: Callees, prog: Program, s: State, t: State, p: int, code: seq<Instr>, k: int) returns (u: State)
    requires CodeAt(prog, p, code) && 0 <= k < |code| && t.pc == p + k
    requires Reaches(env, prog, s, t)
    requires Execute(env, prog, code[k], t).Some?
    ensures Some(u) == Execute(env, prog, code[k], t)
    ensures Reaches(env, prog, s, u)
  {
    u := Execute(env, prog, code[k], t).value;
    Then(env, prog, s, t, u);
  }
}
