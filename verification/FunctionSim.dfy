/** Whole functions, from call to return. */
module FunctionSim {
  import opened Words
  import opened Runs
  import opened Machine
  import opened Syntax
  import opened Semantics
  import opened Code
  import opened Relation
  import opened ExprSim
  import opened StmtSim
  import opened Frames
  import opened SaveSlots
  import opened Dialects

  /** Memory after the first k argument registers were pushed. */
  function Pushed(s: State, k: nat): Memory
    requires k <= 6
  {
    if k == 0 then s.mem else Pushed(s, k - 1)[s.rsp - 8 * k := Get(s, ArgReg(k - 1))]
  }

  lemma {:induction false} PushedAt(s: State, k: nat, a: int)
    requires k <= 6 && Aligned(s.rsp)
    ensures if Aligned(a) && s.rsp - 8 * k <= a < s.rsp then
        a in Pushed(s, k) && Pushed(s, k)[a] == Get(s, ArgReg((s.rsp - a) / 8 - 1))
      else
        a in s.mem ==> a in Pushed(s, k) && Pushed(s, k)[a] == s.mem[a]
  {
    if k > 0 {
      PushedAt(s, k - 1, a);
    }
  }

  lemma {:induction false} SimPushes(env: Callees, prog: Program, p: int, s0: State, s: State, k: nat) returns (t: State)
    requires k <= 6 && CodeAt(prog, p, SaveArgRegs(k)) && s.pc == p && Reaches(env, prog, s0, s)
    requires Aligned(s.rsp) && 8 * k <= s.rsp
    ensures Reaches(env, prog, s0, t) && |SaveArgRegs(k)| == k
    ensures t == s.(pc := p + k, rsp := s.rsp - 8 * k, mem := Pushed(s, k))
  {
    hide CodeAt, Reaches;
    if k == 0 {
      t := s;
    } else {
      CodeSplit(prog, p, SaveArgRegs(k - 1), [Push(ArgReg(k - 1))]);
      var u := SimPushes(env, prog, p, s0, s, k - 1);
      assert Get(u, ArgReg(k - 1)) == Get(s, ArgReg(k - 1));
      WrapId(u.rsp - 8);
      t := Do(env, prog, s0, u, p + k - 1, [Push(ArgReg(k - 1))], 0);
    }
  }

  /** The words of a frame that hold its variables. */
  function FrameCells(base: int, f: Function): set<int> {
    set a | base + Lowest(f.params + f.locals, 0) <= a < base && Aligned(a)
  }

  /** The machine has just called the function, whose code is at p: the return address is
      on the stack, and the frame and k further words fit below it, clear of the objects
      `outer` that exist already. */
  ghost predicate Called(env: Callees, outer: set<int>, prog: Program, p: int, f: Function, s: State, k: nat) {
    var base := s.rsp - 8;
    s.pc == p && Aligned(s.rsp) && s.rsp in s.mem && 8 <= s.rsp < HALF - 8 && 0 <= base + FrameTop(f) - 8 * k &&
    env.objects == outer + FrameCells(base, f) && env.objects <= s.mem.Keys &&
    forall a :: a in outer ==> Aligned(a) && (a < base + FrameTop(f) - 8 * k || base + 16 <= a)
  }

  /** The objects when the body starts: each parameter holds its argument. */
  function EntryMemory(env: Callees, f: Function, s: State): (mem: Memory)
    requires |f.params| <= 6 && env.objects <= s.mem.Keys
    ensures mem.Keys == env.objects
  {
    var base := s.rsp - 8;
    map a | a in env.objects ::
      if base - 8 * |f.params| <= a < base && Aligned(a) && Aligned(base) then Get(s, ArgReg((base - a) / 8 - 1)) else s.mem[a]
  }

  /** The function has returned: control is at the return address, the stack pointer just
      above it, rbp restored, and nothing above the frame changed but objects. */
  ghost predicate BackWith(env: Callees, prog: Program, s: State, t: State, v: Option<Word>, mem: Memory)
    requires s.rsp in s.mem
  {
    Reaches(env, prog, s, t) && t.pc == s.mem[s.rsp] && t.rsp == s.rsp + 8 && t.rbp == s.rbp &&
    (v.Some? ==> t.rax == v.value) &&
    (forall a :: a in mem ==> a in t.mem && t.mem[a] == mem[a]) &&
    (forall a :: a in s.mem && s.rsp <= a && a !in env.objects ==> a in t.mem && t.mem[a] == s.mem[a])
  }

  lemma PrologueSplit(prog: Program, p: int, f: Function, body: seq<Instr>) returns (p1: int, p2: int, pb: int)
    requires |f.params| <= 6 && CodeAt(prog, p, FunctionCode(f, body))
    ensures p1 == p + 2 && p2 == p1 + |SaveArgRegs(|f.params|)| && pb == p2 + |ReserveCode(LocalData(f))|
    ensures CodeAt(prog, p, [Push(RBP), MovReg(RSP, RBP)]) && CodeAt(prog, p1, SaveArgRegs(|f.params|))
    ensures CodeAt(prog, p2, ReserveCode(LocalData(f))) && CodeAt(prog, pb, body) && CodeAt(prog, pb + |body|, [Leave, Ret])
  {
    hide CodeAt, SaveArgRegs, LocalData, ReserveCode;
    var save, reserve := SaveArgRegs(|f.params|), ReserveCode(LocalData(f));
    CodeSplit3(prog, p, PrologueCode(f), body, [Leave, Ret]);
    CodeSplit3(prog, p, [Push(RBP), MovReg(RSP, RBP)], save, reserve);
    p1, p2, pb := p + 2, p + 2 + |save|, p + 2 + |save| + |reserve|;
  }

  /** The prologue, up to the body. */
  lemma SimPrologue(env: Callees, prog: Program, p: int, f: Function, body: seq<Instr>, s: State) returns (t: State, pb: int)
    requires |f.params| <= 6 && CodeAt(prog, p, FunctionCode(f, body)) && s.pc == p
    requires Aligned(s.rsp) && s.rsp < HALF && 0 <= s.rsp - 8 + FrameTop(f) && LocalData(f) <= 0
    ensures CodeAt(prog, pb, body) && CodeAt(prog, pb + |body|, [Leave, Ret]) && Reaches(env, prog, s, t)
    ensures t.pc == pb && t.rbp == s.rsp - 8 && t.rsp == s.rsp - 8 + FrameTop(f)
    ensures t.mem == Pushed(s.(rsp := s.rsp - 8, mem := s.mem[s.rsp - 8 := s.rbp]), |f.params|)
  {
    hide CodeAt, SaveArgRegs, LocalData, Reaches, FunctionCode;
    var p1, p2;
    p1, p2, pb := PrologueSplit(prog, p, f, body);
    var k := |f.params|;
    WrapId(s.rsp - 8);
    ConnectedSelfOf(env, prog, s);
    var t1 := Do(env, prog, s, s, p, [Push(RBP), MovReg(RSP, RBP)], 0);
    var t2 := Do(env, prog, s, t1, p, [Push(RBP), MovReg(RSP, RBP)], 1);
    var t3 := SimPushes(env, prog, p1, s, t2, k);
    PushedSame(t2, s.(rsp := s.rsp - 8, mem := s.mem[s.rsp - 8 := s.rbp]), k);
    if LocalData(f) != 0 {
      WrapId(0 - LocalData(f));
      WrapId(t3.rsp + LocalData(f));
      t := Do(env, prog, s, t3, p2, ReserveCode(LocalData(f)), 0);
    } else {
      t := t3;
    }
  }

  lemma ConnectedSelfOf(env: Callees, prog: Program, s: State)
    ensures Reaches(env, prog, s, s)
  {
    ConnectedSelf(Stepper(env, prog), s);
  }

  lemma {:induction false} PushedSame(s: State, t: State, k: nat)
    requires k <= 6 && s.mem == t.mem && s.rsp == t.rsp && forall i :: 0 <= i < 6 ==> Get(s, ArgReg(i)) == Get(t, ArgReg(i))
    ensures Pushed(s, k) == Pushed(t, k)
  {
    if k > 0 {
      PushedSame(s, t, k - 1);
    }
  }

  /** What the pushed parameters and the untouched rest hold. */
  lemma PushedMemory(env: Callees, outer: set<int>, prog: Program, p: int, f: Function, s: State, k: nat, t: State)
    requires Called(env, outer, prog, p, f, s, k) && Sized(f) && |f.params| <= 6
    requires t.mem == Pushed(s.(rsp := s.rsp - 8, mem := s.mem[s.rsp - 8 := s.rbp]), |f.params|)
    ensures s.rsp - 8 in t.mem && t.mem[s.rsp - 8] == s.rbp
    ensures forall a :: a in env.objects ==> a in t.mem && t.mem[a] == EntryMemory(env, f, s)[a]
    ensures forall a :: a in s.mem && s.rsp <= a ==> a in t.mem && t.mem[a] == s.mem[a]
  {
    hide Pushed, Called, FrameTop, EntryMemory;
    CalledAligned(env, outer, prog, p, f, s, k);
    PushedAbove(s, |f.params|, s.rsp - 8);
    forall a | a in s.mem && s.rsp <= a ensures a in t.mem && t.mem[a] == s.mem[a] {
      PushedAbove(s, |f.params|, a);
    }
    forall a | a in env.objects ensures a in t.mem && t.mem[a] == EntryMemory(env, f, s)[a] {
      ObjectAt(env, outer, prog, p, f, s, k, a);
      PushedObject(env, f, s, a);
    }
  }

  lemma CalledAligned(env: Callees, outer: set<int>, prog: Program, p: int, f: Function, s: State, k: nat)
    requires Called(env, outer, prog, p, f, s, k)
    ensures Aligned(s.rsp - 8) && 8 <= s.rsp && env.objects <= s.mem.Keys
  {
  }

  lemma PushedAbove(s: State, k: nat, a: int)
    requires k <= 6 && Aligned(s.rsp - 8) && 8 <= s.rsp && s.rsp - 8 <= a && (a in s.mem || a == s.rsp - 8)
    ensures var u := s.(rsp := s.rsp - 8, mem := s.mem[s.rsp - 8 := s.rbp]);
      a in Pushed(u, k) && Pushed(u, k)[a] == if a == s.rsp - 8 then s.rbp else s.mem[a]
  {
    hide Pushed;
    PushedAt(s.(rsp := s.rsp - 8, mem := s.mem[s.rsp - 8 := s.rbp]), k, a);
  }

  lemma PushedObject(env: Callees, f: Function, s: State, a: int)
    requires |f.params| <= 6 && env.objects <= s.mem.Keys && a in env.objects
    requires 8 <= s.rsp && a != s.rsp - 8 && Aligned(a) && Aligned(s.rsp - 8)
    ensures var u := s.(rsp := s.rsp - 8, mem := s.mem[s.rsp - 8 := s.rbp]);
      a in Pushed(u, |f.params|) && Pushed(u, |f.params|)[a] == EntryMemory(env, f, s)[a]
  {
    hide Pushed;
    var u := s.(rsp := s.rsp - 8, mem := s.mem[s.rsp - 8 := s.rbp]);
    PushedAt(u, |f.params|, a);
    if s.rsp - 8 - 8 * |f.params| <= a < s.rsp - 8 {
      assert Get(u, ArgReg((u.rsp - a) / 8 - 1)) == Get(s, ArgReg((s.rsp - 8 - a) / 8 - 1));
    }
  }

  /** No object is where the prologue saves rbp, and all are aligned. */
  lemma ObjectAt(env: Callees, outer: set<int>, prog: Program, p: int, f: Function, s: State, k: nat, a: int)
    requires Called(env, outer, prog, p, f, s, k) && Sized(f) && a in env.objects
    ensures a != s.rsp - 8 && Aligned(a)
  {
    FrameSafety(f);
  }

  /** The body starts in a state that stands for EntryMemory, with its frame in place. */
  lemma Started(env: Callees, outer: set<int>, prog: Program, p: int, f: Function, s: State, k: nat, t: State)
    requires Called(env, outer, prog, p, f, s, k) && Sized(f) && |f.params| <= 6
    requires t.rbp == s.rsp - 8 && t.rsp == s.rsp - 8 + FrameTop(f)
    requires t.mem == Pushed(s.(rsp := s.rsp - 8, mem := s.mem[s.rsp - 8 := s.rbp]), |f.params|)
    ensures At(Context(env, s.rsp - 8), prog, t, t, EntryMemory(env, f, s), k)
  {
    hide Reaches, Pushed, FrameTop, Lowest;
    var c := Context(env, s.rsp - 8);
    PushedMemory(env, outer, prog, p, f, s, k, t);
    StartedRoom(env, outer, prog, p, f, s, k);
    assert Agree(c, t, EntryMemory(env, f, s));
    ConnectedSelfOf(env, prog, t);
  }

  lemma StartedRoom(env: Callees, outer: set<int>, prog: Program, p: int, f: Function, s: State, k: nat)
    requires Called(env, outer, prog, p, f, s, k) && Sized(f)
    ensures Room(Context(env, s.rsp - 8), s.rsp - 8 + FrameTop(f), k) && FrameTop(f) <= 0
    ensures s.rsp - 8 !in env.objects && s.rsp !in env.objects && Aligned(s.rsp - 8)
  {
    FrameSafety(f);
  }

  /** The main theorem for the code of the lexical nesting: when the body's source run
      ends, the machine runs from the call to the return with the same objects and the
      returned value in rax. */
  lemma FunctionCorrect(env: Callees, outer: set<int>, prog: Program, p: int, f: Function, n: nat, d: int, s: State, fuel: nat, r: Done)
    returns (t: State)
    requires |f.params| <= 6 && Sized(f) && WellNested(f.body, false, false, false)
    requires CodeAt(prog, p, FunctionCode(f, StmtCode(f.body, n, d, Closed)))
    requires Called(env, outer, prog, p, f, s, StmtDepth(f.body))
    requires Exec(Lice, Context(env, s.rsp - 8), f.body, None, EntryMemory(env, f, s), fuel) == Some(r)
    ensures r.outcome.Normal? || r.outcome.Returned?
    ensures BackWith(env, prog, s, t, if r.outcome.Returned? then r.outcome.value else None, r.mem)
  {
    hide CodeAt, StmtCode, Exec, At, WellNested, StmtDepth, FunctionCode, Reaches, Landed, Pushed;
    var k := StmtDepth(f.body);
    var c := Context(env, s.rsp - 8);
    var mem := EntryMemory(env, f, s);
    StartedRoom(env, outer, prog, p, f, s, k);
    LocalDataSign(f);
    var t0, pb := SimPrologue(env, prog, p, f, StmtCode(f.body, n, d, Closed), s);
    Started(env, outer, prog, p, f, s, k, t0);
    BodyScope(prog, f.body, n, d, pb, t0);
    var t1 := SimStmt(c, prog, f.body, None, n, d, Closed, pb, t0, t0, mem, k, fuel, r);
    t := Ended(c, prog, t0, t1, pb, StmtCode(f.body, n, d, Closed), r, k);
    PushedMemory(env, outer, prog, p, f, s, k, t0);
    ReachesTrans(env, prog, s, t0, t);
  }

  lemma LocalDataSign(f: Function)
    requires Sized(f)
    ensures LocalData(f) <= 0
  {
    RegisterOffsets(f.params, 0);
    SumReaches(f.locals, Lowest(f.params, 0));
  }

  lemma BodyScope(prog: Program, s: Stmt, n: nat, d: int, p: int, t: State)
    requires WellNested(s, false, false, false) && t.pc == p
    ensures Scope(prog, s, Closed) && Entering(s, None, n, d, Closed, p, t)
  {
    hide WellNested;
    WiderFlags(s, false, false, false, false, false, true);
  }

  /** After the body, falling off its end or returning from inside it. */
  lemma Ended(c: Context, prog: Program, s0: State, s: State, p: int, code: seq<Instr>, r: Done, k: nat) returns (t: State)
    requires Landed(c, prog, s0, s, p + |code|, Closed, r, k) && CodeAt(prog, p + |code|, [Leave, Ret])
    ensures r.outcome.Normal? || r.outcome.Returned?
    ensures Frame(c, s0) && ReturnedTo(c, prog, s0, t, if r.outcome.Returned? then r.outcome.value else None, r.mem)
  {
    hide CodeAt, Live, Reaches, Kept, FindLabel;
    if r.outcome.Normal? {
      LiveAt(c, prog, s0, s, r.mem, k);
      t := SimLeave(c, prog, p + |code|, s0, s, r.mem, k);
    } else {
      t := s;
    }
  }

  /** The same for what the generator really emits, in its real label slots: exactly for
      the bodies whose jumps those slots resolve. */
  lemma GeneratedCorrect(env: Callees, outer: set<int>, prog: Program, p: int, f: Function, n: nat, d: int, x: Slots, s: State, fuel: nat, r: Done)
    returns (t: State)
    requires |f.params| <= 6 && Sized(f) && CompilableStmt(f.body) && WellNested(f.body, false, false, false) && SlotSafe(f.body)
    requires RawStmt(f.body, n, d, x).Some? && CodeAt(prog, p, FunctionCode(f, RawStmt(f.body, n, d, x).value.code))
    requires Called(env, outer, prog, p, f, s, StmtDepth(f.body))
    requires Exec(Lice, Context(env, s.rsp - 8), f.body, None, EntryMemory(env, f, s), fuel) == Some(r)
    ensures BackWith(env, prog, s, t, if r.outcome.Returned? then r.outcome.value else None, r.mem)
  {
    hide *;
    RawIsLexical(f.body, n, d, x);
    t := FunctionCorrect(env, outer, prog, p, f, n, d, s, fuel, r);
  }
}
