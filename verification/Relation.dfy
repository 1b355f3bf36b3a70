/** How a machine state represents a state of the source program while an expression is
    being evaluated, and which single instructions keep that up. */
module Relation {
  import opened Words
  import opened Runs
  import opened Machine
  import opened Syntax
  import opened Semantics
  import opened Code

  /** The machine's frame base and every object hold what the source state says. */
  ghost predicate Agree(c: Context, s: State, mem: Memory) {
    s.rbp == c.base && mem.Keys == c.callees.objects &&
    forall a :: a in mem ==> a in s.mem && s.mem[a] == mem[a]
  }

  /** The k cells below the stack pointer hold no object, so temporaries may be pushed
      there, and objects are aligned. */
  ghost predicate Room(c: Context, rsp: int, k: nat) {
    Aligned(rsp) && 8 * k <= rsp < HALF &&
    forall a :: a in c.callees.objects ==> Aligned(a) && (a < rsp - 8 * k || rsp <= a)
  }

  /** Everything at or above the stack pointer that is not an object is untouched. */
  ghost predicate Kept(c: Context, s: State, t: State) {
    forall a :: a in s.mem && s.rsp <= a && a !in c.callees.objects ==> a in t.mem && t.mem[a] == s.mem[a]
  }

  /** The machine got from s0 to s, which stands for the source memory `mem`, may push
      k more words, and has not touched what s0 had on its stack. */
  ghost predicate Live(c: Context, prog: Program, s0: State, s: State, mem: Memory, k: nat) {
    Reaches(c.callees, prog, s0, s) && s.rsp <= s0.rsp && Agree(c, s, mem) && Room(c, s.rsp, k) && Kept(c, s0, s)
  }

  /** The value is on top of the stack. */
  ghost predicate OnTop(c: Context, s: State, v: Word) {
    Aligned(s.rsp) && 0 <= s.rsp < HALF - 8 && s.rsp in s.mem && s.mem[s.rsp] == v && s.rsp !in c.callees.objects
  }

  /** `len` instructions after s, an expression's value is in rax, its effect on
      memory has happened, and the stack is as it was. */
  ghost predicate Evaluated(c: Context, prog: Program, s0: State, s: State, t: State, len: int, r: Valued, k: nat) {
    Live(c, prog, s0, t, r.mem, k) && t.pc == s.pc + len && t.rax == r.value && t.rsp == s.rsp && Kept(c, s, t)
  }

  // ------------------------------------------------ how deep code pushes

  function Max(a: nat, b: nat): nat { if a < b then b else a }

  function Depth(e: Expr): nat {
    match e
    case Literal(_) => 0
    case Read(lv) => PlaceDepth(lv)
    case AddressOf(lv) => PlaceDepth(lv)
    case Binary(_, l, r) => Max(Depth(l), 1 + Depth(r))
    case LogicalAnd(l, r) => Max(Depth(l), Depth(r))
    case LogicalOr(l, r) => Max(Depth(l), Depth(r))
    case LogicalNot(a) => Depth(a)
    case OnesComplement(a) => Depth(a)
    case Assign(lv, a) => Max(Depth(a), 1 + PlaceDepth(lv))
    case IncDec(lv, _, _, _) => 2 + PlaceDepth(lv)
    case Conditional(b, y, n) => Max(Depth(b), Max(Depth(y), Depth(n)))
    case Call(_, args) => Count(args) + ArgsDepth(args)
  }

  function PlaceDepth(lv: LValue): nat {
    match lv
    case Local(_) => 0
    case Deref(e) => Depth(e)
    case Member(s, _) => PlaceDepth(s)
  }

  function ArgsDepth(args: Args): nat {
    match args
    case NoArgs => 0
    case Arg(e, tail) => Max(Depth(e), 1 + ArgsDepth(tail))
  }

  // ------------------------------------------------------- basic facts

  lemma WrapId(x: int)
    requires -HALF <= x < HALF
    ensures Wrap(x) == x
  {
  }

  /** Wrapping a part of a sum first makes no difference. */
  lemma WrapSum(x: int, y: int)
    ensures Wrap(Wrap(x) + y) == Wrap(x + y)
  {
    var k := (x + HALF) / MODULUS;
    assert Wrap(x) == x - MODULUS * k;
    WrapShift(x + y, -k);
  }

  lemma WrapShift(x: int, k: int)
    ensures Wrap(x + MODULUS * k) == Wrap(x)
  {
    var q, r := (x + HALF) / MODULUS, (x + HALF) % MODULUS;
    assert x + MODULUS * k + HALF == MODULUS * (q + k) + r;
    DivUnique(x + MODULUS * k + HALF, MODULUS, q + k, r);
  }

  lemma SelfLive(c: Context, prog: Program, s: State, mem: Memory, k: nat)
    requires Agree(c, s, mem) && Room(c, s.rsp, k)
    ensures Live(c, prog, s, s, mem, k)
  {
    ConnectedSelf(Stepper(c.callees, prog), s);
  }

  lemma LiveReaches(c: Context, prog: Program, s0: State, s: State, mem: Memory, k: nat)
    requires Live(c, prog, s0, s, mem, k)
    ensures Reaches(c.callees, prog, s0, s) && s.rsp <= s0.rsp && s.rbp == c.base
  {
  }

  lemma KeptTrans(c: Context, s: State, t: State, u: State)
    requires Kept(c, s, t) && Kept(c, t, u) && t.rsp <= s.rsp
    ensures Kept(c, s, u)
  {
  }

  lemma KeptSame(c: Context, s: State, t: State, u: State)
    requires Kept(c, s, t) && u.mem == t.mem
    ensures Kept(c, s, u)
  {
  }

  lemma TopKept(c: Context, s: State, t: State, v: Word)
    requires OnTop(c, s, v) && Kept(c, s, t) && t.rsp == s.rsp
    ensures OnTop(c, t, v)
  {
  }

  /** A step that only changes registers other than the stack and frame pointers. */
  lemma Quiet(c: Context, prog: Program, s0: State, s: State, t: State, mem: Memory, k: nat)
    requires Live(c, prog, s0, s, mem, k) && Step(c.callees, prog, s) == Some(t)
    requires t.mem == s.mem && t.rbp == s.rbp && t.rsp == s.rsp
    ensures Live(c, prog, s0, t, mem, k) && Kept(c, s, t)
  {
    Then(c.callees, prog, s0, s, t);
  }

  /** Such an instruction, number j of a piece of code. */
  lemma DoQuiet(c: Context, prog: Program, s0: State, s: State, p: int, code: seq<Instr>, j: int, mem: Memory, k: nat)
    returns (t: State)
    requires CodeAt(prog, p, code) && 0 <= j < |code| && s.pc == p + j && Live(c, prog, s0, s, mem, k)
    requires var r := Execute(c.callees, prog, code[j], s);
      r.Some? && r.value.mem == s.mem && r.value.rbp == s.rbp && r.value.rsp == s.rsp
    ensures Some(t) == Execute(c.callees, prog, code[j], s)
    ensures Live(c, prog, s0, t, mem, k) && Kept(c, s, t)
  {
    t := Execute(c.callees, prog, code[j], s).value;
    assert prog[p + j] == code[j];
    Quiet(c, prog, s0, s, t, mem, k);
  }

  /** A push, number j of a piece of code. */
  lemma DoPush(c: Context, prog: Program, s0: State, s: State, p: int, code: seq<Instr>, j: int, mem: Memory, k: nat)
    returns (t: State)
    requires CodeAt(prog, p, code) && 0 <= j < |code| && s.pc == p + j && code[j].Push?
    requires Live(c, prog, s0, s, mem, k) && k >= 1
    ensures Live(c, prog, s0, t, mem, k - 1) && Kept(c, s, t) && OnTop(c, t, Get(s, code[j].reg))
    ensures t == s.(pc := s.pc + 1, rsp := s.rsp - 8, mem := t.mem)
  {
    WrapId(s.rsp - 8);
    t := Do(c.callees, prog, s0, s, p, code, j);
  }

  /** After a pop: `before` is the state before the matching push. */
  lemma Repop(c: Context, prog: Program, s0: State, before: State, memBefore: Memory, s: State, t: State, mem: Memory, k: nat, j: nat)
    requires Live(c, prog, s0, before, memBefore, k) && Live(c, prog, s0, s, mem, j)
    requires Reaches(c.callees, prog, s0, t) && t.mem == s.mem && t.rbp == s.rbp && t.rsp == before.rsp
    ensures Live(c, prog, s0, t, mem, k)
  {
  }
}
