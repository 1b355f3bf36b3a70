/** Call marshalling for any mix of whole and floating arguments, nested or not. */
module Marshalling {
  // At the call every argument is in its register, and afterwards the saved registers are
  // back.
  import opened Words
  import opened Runs
  import opened StackCode
  import opened StackDiscipline
  import opened StackRuns
  import M = Machine
  import S = SaveSlots

  /** A run of all of the code, from its start to its end. */
  ghost predicate Through(c: seq<Instr>, s: State, t: State) {
    exists n: nat :: Reach(c, s.(pc := 0), t.(pc := |c|), n)
  }

  /** No jump out of one piece of code goes to a label of the other. */
  predicate Apart(a: seq<Instr>, b: seq<Instr>) {
    forall i, j :: 0 <= i < |a| && 0 <= j < |b| ==> !SameLabel(a[i], b[j])
  }

  lemma GoesFirst(a: seq<Instr>, b: seq<Instr>, i: nat, l: nat, pc: nat)
    requires Apart(a, b) && i < |a| && LabelOf(a[i]) == Some(l) && GoesTo(a + b, l, pc)
    ensures GoesTo(a, l, pc)
  {
    if pc >= |a| {
      assert SameLabel(a[i], b[pc - |a|]);
    }
  }

  lemma GoesSecond(a: seq<Instr>, b: seq<Instr>, i: nat, l: nat, pc: nat)
    requires Apart(a, b) && i < |b| && LabelOf(b[i]) == Some(l) && GoesTo(a + b, l, pc)
    ensures pc >= |a| && GoesTo(b, l, pc - |a|)
  {
    if pc < |a| {
      assert SameLabel(a[pc], b[i]);
    }
  }

  lemma StepFirst(a: seq<Instr>, b: seq<Instr>, s: State, t: State)
    requires Apart(a, b) && s.pc < |a| && Steps(a + b, s, t)
    ensures Steps(a, s, t) && t.pc <= |a|
  {
    hide Apart, GoesTo;
    if (a[s.pc].Jump? || a[s.pc].Branch?) && t.pc != s.pc + 1 {
      GoesFirst(a, b, s.pc, a[s.pc].target, t.pc);
      InRange(a, a[s.pc].target, t.pc);
    } else if a[s.pc].Jump? {
      GoesFirst(a, b, s.pc, a[s.pc].target, t.pc);
      InRange(a, a[s.pc].target, t.pc);
    }
  }

  lemma InRange(c: seq<Instr>, l: nat, pc: nat)
    requires GoesTo(c, l, pc)
    ensures pc < |c|
  {
  }

  function Shift(s: State, k: nat): State
    requires k <= s.pc
  {
    s.(pc := s.pc - k)
  }

  lemma SameRegisters(s: State, t: State)
    requires s.ints == t.ints && s.xmms == t.xmms
    ensures forall r :: IntReg(t, r) == IntReg(s, r)
    ensures forall r: nat :: XmmReg(t, r) == XmmReg(s, r)
  {
  }

  lemma StepSecond(a: seq<Instr>, b: seq<Instr>, s: State, t: State)
    requires Apart(a, b) && |a| <= s.pc && Steps(a + b, s, t)
    ensures |a| <= t.pc && Steps(b, Shift(s, |a|), Shift(t, |a|))
  {
    var i := s.pc - |a|;
    assert (a + b)[s.pc] == b[i];
    if b[i].Jump? || b[i].Branch? {
      JumpSecond(a, b, s, t);
    } else {
      StraightSecond(a + b, b, s, t, |a|);
    }
  }

  lemma JumpSecond(a: seq<Instr>, b: seq<Instr>, s: State, t: State)
    requires Apart(a, b) && |a| <= s.pc && Steps(a + b, s, t)
    requires b[s.pc - |a|].Jump? || b[s.pc - |a|].Branch?
    ensures |a| <= t.pc && Steps(b, Shift(s, |a|), Shift(t, |a|))
  {
    hide Apart, GoesTo;
    var i := s.pc - |a|;
    assert (a + b)[s.pc] == b[i];
    if b[i].Jump? || t.pc != s.pc + 1 {
      GoesSecond(a, b, i, b[i].target, t.pc);
    }
  }

  /** Other instructions do not look at the code around them. */
  lemma StraightSecond(c: seq<Instr>, b: seq<Instr>, s: State, t: State, k: nat)
    requires k <= s.pc < k + |b| && s.pc < |c| && c[s.pc] == b[s.pc - k] && Steps(c, s, t)
    requires !b[s.pc - k].Jump? && !b[s.pc - k].Branch?
    ensures t.pc == s.pc + 1 && Steps(b, Shift(s, k), Shift(t, k))
  {
    hide IntReg, XmmReg;
    SameRegisters(s, Shift(s, k));
    SameRegisters(t, Shift(t, k));
  }

  /** A run through the code of two pieces is in the first, or has passed its end once. */
  lemma {:induction false} RunSplit(a: seq<Instr>, b: seq<Instr>, s: State, u: State, n: nat) returns (k: nat, t: State)
    requires Apart(a, b) && s.pc == 0 && Reach(a + b, s, u, n)
    ensures if k > n then u.pc <= |a| && Reach(a, s, u, n)
      else t.pc == |a| && Reach(a, s, t, k) && |a| <= u.pc && Reach(b, Shift(t, |a|), Shift(u, |a|), n - k)
    decreases n
  {
    hide Moves, Apart, Steps;
    if n == 0 {
      k, t := 1, s;
    } else {
      var x: State :| Reach(a + b, s, x, n - 1) && Steps(a + b, x, u);
      k, t := RunSplit(a, b, s, x, n - 1);
      if k > n - 1 {
        if x.pc < |a| {
          StepFirst(a, b, x, u);
          k := n + 1;
        } else {
          k, t := n - 1, x;
          StepSecond(a, b, x, u);
          assert Reach(b, Shift(t, |a|), Shift(t, |a|), 0);
        }
      } else {
        StepSecond(a, b, x, u);
      }
    }
  }

  /** So a run through both is a run through one and then through the other. */
  lemma Split(a: seq<Instr>, b: seq<Instr>, s: State, u: State) returns (t: State)
    requires Apart(a, b) && Through(a + b, s, u)
    ensures Through(a, s, t) && Through(b, t, u)
  {
    hide Moves, Apart, Reach;
    var n: nat :| Reach(a + b, s.(pc := 0), u.(pc := |a + b|), n);
    var k: nat;
    k, t := RunSplit(a, b, s.(pc := 0), u.(pc := |a + b|), n);
    if k > n {
      EmptySecond(a, b, s, u, n);
      t := u;
    } else {
      assert t.(pc := |a|) == t;
      assert Reach(a, s.(pc := 0), t.(pc := |a|), k);
      assert Shift(u.(pc := |a + b|), |a|) == u.(pc := |b|) && Shift(t, |a|) == t.(pc := 0);
      assert Reach(b, t.(pc := 0), u.(pc := |b|), n - k);
    }
  }

  lemma EmptySecond(a: seq<Instr>, b: seq<Instr>, s: State, u: State, n: nat)
    requires |a + b| <= |a| && Reach(a, s.(pc := 0), u.(pc := |a + b|), n)
    ensures Through(a, s, u) && Through(b, u, u)
  {
    hide Moves;
    assert |b| == 0 && |a + b| == |a|;
    assert Reach(b, u.(pc := 0), u.(pc := |b|), 0);
  }

  /** An instruction that is neither a jump nor a label. */
  predicate Straight(i: Instr) {
    LabelOf(i).None?
  }

  lemma StraightApart(c: seq<Instr>, d: seq<Instr>)
    requires forall i :: 0 <= i < |d| ==> Straight(d[i])
    ensures Apart(c, d) && Apart(d, c)
  {
  }

  /** A run through one such instruction is its step. */
  lemma One(i: Instr, s: State, t: State)
    requires Straight(i) && Through([i], s, t)
    ensures Moves([i], s.(pc := 0), t.(pc := 1))
  {
    hide Moves;
    var n: nat :| Reach([i], s.(pc := 0), t.(pc := 1), n);
    var x: State :| Reach([i], s.(pc := 0), x, n - 1) && Steps([i], x, t.(pc := 1));
    FirstState([i], s.(pc := 0), x, n - 1);
  }

  lemma Leaves(c: seq<Instr>, y: State, x: State)
    requires y.pc < |c| && Straight(c[y.pc]) && Steps(c, y, x)
    ensures x.pc == y.pc + 1
  {
  }

  /** A straight instruction is executed once: before its end a run is at its start. */
  lemma {:induction false} FirstState(c: seq<Instr>, s: State, x: State, n: nat)
    requires |c| == 1 && Straight(c[0]) && s.pc == 0 && Reach(c, s, x, n) && x.pc < 1
    ensures x == s
    decreases n
  {
    hide Moves, Straight;
    if n > 0 {
      var y: State :| Reach(c, s, y, n - 1) && Steps(c, y, x);
      Leaves(c, y, x);
    }
  }

  lemma LastOne(c: seq<Instr>, i: Instr, s: State, u: State) returns (t: State)
    requires Straight(i) && Through(c + [i], s, u)
    ensures Through(c, s, t) && Moves([i], t.(pc := 0), u.(pc := 1))
  {
    hide Moves, Through;
    StraightApart(c, [i]);
    t := Split(c, [i], s, u);
    One(i, t, u);
  }

  lemma FirstOne(i: Instr, c: seq<Instr>, s: State, u: State) returns (t: State)
    requires Straight(i) && Through([i] + c, s, u)
    ensures Moves([i], s.(pc := 0), t.(pc := 1)) && Through(c, t, u)
  {
    hide Moves, Through;
    StraightApart(c, [i]);
    t := Split([i], c, s, u);
    One(i, s, t);
  }

  lemma NothingRuns(s: State, t: State)
    requires Through([], s, t)
    ensures t.(pc := 0) == s.(pc := 0)
  {
    var n: nat :| Reach([], s.(pc := 0), t.(pc := 0), n);
  }

  // --------------------------------------------- saving and restoring

  predicate AllStraight(c: seq<Instr>) {
    forall i :: 0 <= i < |c| ==> Straight(c[i])
  }

  /** A run through two pieces of which one is straight. */
  lemma SplitStraight(a: seq<Instr>, b: seq<Instr>, s: State, u: State) returns (t: State)
    requires (AllStraight(a) || AllStraight(b)) && Through(a + b, s, u)
    ensures Through(a, s, t) && Through(b, t, u)
  {
    hide Through, Straight;
    if AllStraight(a) {
      StraightApart(b, a);
    } else {
      StraightApart(a, b);
    }
    t := Split(a, b, s, u);
  }

  function PushXmmCode(r: nat): seq<Instr> { [Reserve] + [SpillXmm(r)] }

  function PopXmmCode(r: nat): seq<Instr> { [FillXmm(r)] + [Release] }

  /** The same registers, and this stack. */
  ghost predicate Became(s: State, t: State, stack: seq<Word>) {
    t.stack == stack && t.ints == s.ints && t.xmms == s.xmms
  }

  lemma PushXmmRuns(r: nat, s: State, u: State)
    requires Through(PushXmmCode(r), s, u)
    ensures Became(s, u, s.stack + [XmmReg(s, r)])
  {
    hide Through, Straight;
    StraightHere();
    var t := LastOne([Reserve], SpillXmm(r), s, u);
    One(Reserve, s, t);
    assert t.stack == s.stack + [t.stack[|s.stack|]];
  }

  lemma StraightHere()
    ensures Straight(Reserve) && Straight(Release) && forall r :: Straight(SpillXmm(r)) && Straight(FillXmm(r))
    ensures forall r: M.Reg :: Straight(Push(r)) && Straight(Pop(r))
    ensures Straight(WidenResult) && (forall n :: Straight(SetRax(n))) && forall name :: Straight(CallTo(name))
  {
  }

  lemma PopXmmRuns(r: nat, s: State, u: State)
    requires Through(PopXmmCode(r), s, u)
    ensures |s.stack| > 0 && u.stack == s.stack[..|s.stack| - 1] && u.ints == s.ints
    ensures u.xmms == s.xmms[r := s.stack[|s.stack| - 1]]
  {
    hide Through, Straight;
    StraightHere();
    var t := LastOne([FillXmm(r)], Release, s, u);
    One(FillXmm(r), s, t);
  }

  lemma PushRuns(r: M.Reg, s: State, u: State)
    requires Through([Push(r)], s, u)
    ensures Became(s, u, s.stack + [IntReg(s, r)])
  {
    hide Through;
    One(Push(r), s, u);
  }

  lemma PopRuns(r: M.Reg, s: State, u: State)
    requires Through([Pop(r)], s, u)
    ensures |s.stack| > 0 && u.stack == s.stack[..|s.stack| - 1] && u.xmms == s.xmms
    ensures u.ints == s.ints[r := s.stack[|s.stack| - 1]]
  {
    hide Through;
    One(Pop(r), s, u);
  }

  /** Saving the register of one more argument. */
  function SaveOne(before: seq<Kind>, k: Kind): seq<Instr>
    requires Wholes(before + [k]) <= 6
  {
    WholesStep(before, k);
    if !IsFloating(k) then [Push(M.ArgReg(Wholes(before)))]
    else if Floats(before) > 0 then PushXmmCode(Floats(before))
    else []
  }

  lemma WholesStep(before: seq<Kind>, k: Kind)
    ensures Floats(before + [k]) == Floats(before) + (if IsFloating(k) then 1 else 0)
    ensures Wholes(before + [k]) == Wholes(before) + (if IsFloating(k) then 0 else 1)
  {
    assert (before + [k])[..|before|] == before;
  }

  lemma LastKind(ks: seq<Kind>)
    requires |ks| > 0
    ensures ks == ks[..|ks| - 1] + [ks[|ks| - 1]]
  {
  }

  function SaveCode(ks: seq<Kind>): seq<Instr>
    requires Wholes(ks) <= 6
    decreases |ks|
  {
    if |ks| == 0 then [] else
      var before, k := ks[..|ks| - 1], ks[|ks| - 1];
      LastKind(ks);
      WholesStep(before, k);
      SaveCode(before) + SaveOne(before, k)
  }

  /** What is saved, in the order of the arguments. */
  function SavedWords(ks: seq<Kind>, s: State): seq<Word>
    requires Wholes(ks) <= 6
    decreases |ks|
  {
    if |ks| == 0 then [] else
      var before, k := ks[..|ks| - 1], ks[|ks| - 1];
      LastKind(ks);
      WholesStep(before, k);
      SavedWords(before, s) +
      if !IsFloating(k) then [IntReg(s, M.ArgReg(Wholes(before)))]
      else if Floats(before) > 0 then [XmmReg(s, Floats(before))]
      else []
  }

  lemma {:induction false} SaveStraight(ks: seq<Kind>)
    requires Wholes(ks) <= 6
    ensures AllStraight(SaveCode(ks))
    decreases |ks|
  {
    hide Wholes, Floats;
    if |ks| > 0 {
      var before, k := ks[..|ks| - 1], ks[|ks| - 1];
      LastKind(ks);
      WholesStep(before, k);
      SaveStraight(before);
    }
  }

  lemma {:induction false} SaveIs(v: View, ks: seq<Kind>)
    requires Wholes(ks) <= 6
    ensures SaveRegisters(v, ks).output == v.output + SaveCode(ks)
    decreases |ks|
  {
    hide Wholes, Floats;
    if |ks| > 0 {
      var before, k := ks[..|ks| - 1], ks[|ks| - 1];
      LastKind(ks);
      WholesStep(before, k);
      SaveIs(v, before);
    }
  }

  /** The save code pushes exactly those words and changes no register. */
  lemma {:induction false} SaveRuns(ks: seq<Kind>, s: State, u: State)
    requires Wholes(ks) <= 6 && Through(SaveCode(ks), s, u)
    ensures Became(s, u, s.stack + SavedWords(ks, s))
    decreases |ks|
  {
    hide Wholes, Floats, Through, IntReg, XmmReg;
    if |ks| == 0 {
      NothingRuns(s, u);
    } else {
      var before, k := ks[..|ks| - 1], ks[|ks| - 1];
      LastKind(ks);
      WholesStep(before, k);
      SaveStraight(before);
      var t := SplitStraight(SaveCode(before), SaveOne(before, k), s, u);
      SaveRuns(before, s, t);
      SameRegisters(s, t);
      if !IsFloating(k) {
        PushRuns(M.ArgReg(Wholes(before)), t, u);
      } else if Floats(before) > 0 {
        PushXmmRuns(Floats(before), t, u);
      } else {
        NothingRuns(t, u);
      }
    }
  }

  /** Moving the value on top of the stack to the register of one more argument. */
  function LoadOne(before: seq<Kind>, k: Kind): seq<Instr>
    requires Wholes(before + [k]) <= 6
  {
    WholesStep(before, k);
    if IsFloating(k) then PopXmmCode(Floats(before)) else [Pop(M.ArgReg(Wholes(before)))]
  }

  function LoadCode(ks: seq<Kind>): seq<Instr>
    requires Wholes(ks) <= 6
    decreases |ks|
  {
    if |ks| == 0 then [] else
      var before, k := ks[..|ks| - 1], ks[|ks| - 1];
      LastKind(ks);
      WholesStep(before, k);
      LoadOne(before, k) + LoadCode(before)
  }

  lemma {:induction false} LoadIs(v: View, ks: seq<Kind>)
    requires Wholes(ks) <= 6
    ensures LoadArguments(v, ks).output == v.output + LoadCode(ks) && LoadArguments(v, ks).stack == v.stack - 8 * |ks|
    ensures AllStraight(LoadCode(ks))
    decreases |ks|
  {
    hide Wholes, Floats, LoadOne, PopXmm, PopReg, AllStraight;
    StraightNothing();
    if |ks| > 0 {
      var before, k := ks[..|ks| - 1], ks[|ks| - 1];
      LastKind(ks);
      WholesStep(before, k);
      var x := LoadOneIs(v, before, k);
      LoadIs(x, before);
      StraightBoth(LoadOne(before, k), LoadCode(before));
      Associate(v.output, LoadOne(before, k), LoadCode(before));
    }
  }

  lemma StraightNothing()
    ensures AllStraight([])
  {
  }

  lemma Associate(a: seq<Instr>, b: seq<Instr>, c: seq<Instr>)
    ensures a + b + c == a + (b + c)
  {
  }

  lemma LoadOneIs(v: View, before: seq<Kind>, k: Kind) returns (x: View)
    requires Wholes(before + [k]) <= 6
    ensures IsFloating(k) || Wholes(before) < 6
    ensures x == if IsFloating(k) then PopXmm(v, Floats(before)) else PopReg(v, M.ArgReg(Wholes(before)))
    ensures x.output == v.output + LoadOne(before, k) && x.stack == v.stack - 8 && AllStraight(LoadOne(before, k))
  {
    hide Wholes, Floats;
    WholesStep(before, k);
    x := if IsFloating(k) then PopXmm(v, Floats(before)) else PopReg(v, M.ArgReg(Wholes(before)));
  }

  /** The k-th integer argument is in the k-th integer register, and likewise for the
      floating ones (section 3.2.3 of the System V AMD64 ABI). */
  ghost predicate Delivered(ks: seq<Kind>, vs: seq<Word>, s: State)
    requires Wholes(ks) <= 6 && |vs| == |ks|
  {
    forall k :: 0 <= k < |ks| ==> DeliveredAt(ks, vs, s, k)
  }

  ghost predicate DeliveredAt(ks: seq<Kind>, vs: seq<Word>, s: State, k: nat)
    requires Wholes(ks) <= 6 && |vs| == |ks| && k < |ks|
  {
    WholesPrefix(ks, k);
    if IsFloating(ks[k]) then XmmReg(s, Floats(ks[..k])) == vs[k] else IntReg(s, M.ArgReg(Wholes(ks[..k]))) == vs[k]
  }

  lemma {:induction false} WholesPrefix(ks: seq<Kind>, k: nat)
    requires k < |ks|
    ensures Floats(ks[..k]) + (if IsFloating(ks[k]) then 1 else 0) <= Floats(ks)
    ensures Wholes(ks[..k]) + (if IsFloating(ks[k]) then 0 else 1) <= Wholes(ks)
    decreases |ks|
  {
    hide Floats, Wholes;
    var before, last := ks[..|ks| - 1], ks[|ks| - 1];
    LastKind(ks);
    WholesStep(before, last);
    if k < |ks| - 1 {
      WholesPrefix(before, k);
      assert before[..k] == ks[..k] && before[k] == ks[k];
    } else {
      assert ks[..k] == before;
    }
  }

  /** Registers beyond those of these arguments are as before. */
  ghost predicate Beyond(ks: seq<Kind>, s: State, u: State)
    requires Wholes(ks) <= 6
  {
    (forall r: M.Reg :: (forall i :: 0 <= i < Wholes(ks) ==> M.ArgReg(i) != r) ==> IntReg(u, r) == IntReg(s, r)) &&
    (forall j: nat :: Floats(ks) <= j ==> XmmReg(u, j) == XmmReg(s, j))
  }

  lemma BeyondAt(ks: seq<Kind>, s: State, u: State, i: nat, j: nat)
    requires Wholes(ks) <= 6 && Beyond(ks, s, u)
    ensures Wholes(ks) <= i < 6 ==> IntReg(u, M.ArgReg(i)) == IntReg(s, M.ArgReg(i))
    ensures Floats(ks) <= j ==> XmmReg(u, j) == XmmReg(s, j)
    ensures IntReg(u, M.RAX) == IntReg(s, M.RAX)
  {
    hide Wholes, Floats;
    forall k | 0 <= k < Wholes(ks) ensures M.ArgReg(k) != M.RAX && (k < i < 6 ==> M.ArgReg(k) != M.ArgReg(i)) {
      ArgRegs(k, i);
    }
  }

  lemma ArgRegs(i: nat, j: nat)
    requires i < 6
    ensures M.ArgReg(i) != M.RAX && (i < j < 6 ==> M.ArgReg(i) != M.ArgReg(j))
  {
  }

  /** One register changed, the one the last argument has. */
  lemma BeyondStep(before: seq<Kind>, k: Kind, s: State, t: State, u: State, v: Word)
    requires Wholes(before + [k]) <= 6
    requires if IsFloating(k) then t.ints == s.ints && t.xmms == s.xmms[Floats(before) := v]
      else Wholes(before) < 6 && t.xmms == s.xmms && t.ints == s.ints[M.ArgReg(Wholes(before)) := v]
    requires Wholes(before) <= 6 && Beyond(before, t, u)
    ensures Beyond(before + [k], s, u)
  {
    hide Wholes, Floats;
    WholesStep(before, k);
    forall r: M.Reg | (forall i :: 0 <= i < Wholes(before + [k]) ==> M.ArgReg(i) != r) ensures IntReg(u, r) == IntReg(s, r) {
      assert forall i :: 0 <= i < Wholes(before) ==> M.ArgReg(i) != r;
      assert IntReg(u, r) == IntReg(t, r);
      if !IsFloating(k) {
        assert M.ArgReg(Wholes(before)) != r;
      }
    }
    forall j: nat | Floats(before + [k]) <= j ensures XmmReg(u, j) == XmmReg(s, j) {
      assert XmmReg(u, j) == XmmReg(t, j);
    }
  }

  /** From the values on the stack to the registers. */
  lemma {:induction false} LoadRuns(ks: seq<Kind>, vs: seq<Word>, under: seq<Word>, s: State, u: State)
    requires Wholes(ks) <= 6 && |vs| == |ks| && s.stack == under + vs && Through(LoadCode(ks), s, u)
    ensures u.stack == under && Delivered(ks, vs, u) && Beyond(ks, s, u)
    decreases |ks|
  {
    hide Wholes, Floats, Through, IntReg, XmmReg, Beyond, DeliveredAt, Loaded;
    if |ks| == 0 {
      NothingRuns(s, u);
      BeyondNothing(ks, s, u);
    } else {
      var n := |ks| - 1;
      var before, k := ks[..n], ks[n];
      LastKind(ks);
      WholesStep(before, k);
      LoadIs(View([], 0, 0, NoSlots(), {}), before);
      var t := SplitStraight(LoadOne(before, k), LoadCode(before), s, u);
      LoadOneRuns(before, k, s, t);
      assert s.stack[..|s.stack| - 1] == under + vs[..n];
      LoadRuns(before, vs[..n], under, t, u);
      BeyondStep(before, k, s, t, u, vs[n]);
      forall i | 0 <= i < |ks| ensures DeliveredAt(ks, vs, u, i) {
        if i < n {
          assert DeliveredAt(before, vs[..n], u, i);
          EarlierDelivered(ks, vs, u, i);
        } else {
          LastDelivered(ks, vs, t, u);
        }
      }
    }
  }

  function NoSlots(): S.Slots { S.Slots(None, None, None, None, None, None) }

  lemma BeyondNothing(ks: seq<Kind>, s: State, u: State)
    requires Wholes(ks) <= 6 && u.(pc := 0) == s.(pc := 0)
    ensures Beyond(ks, s, u)
  {
    SameRegisters(s, u);
  }

  lemma LoadOneRuns(before: seq<Kind>, k: Kind, s: State, t: State)
    requires Wholes(before + [k]) <= 6 && Through(LoadOne(before, k), s, t)
    ensures |s.stack| > 0 && t.stack == s.stack[..|s.stack| - 1]
    ensures if IsFloating(k) then t.ints == s.ints && t.xmms == s.xmms[Floats(before) := s.stack[|s.stack| - 1]]
      else Wholes(before) < 6 && t.xmms == s.xmms && t.ints == s.ints[M.ArgReg(Wholes(before)) := s.stack[|s.stack| - 1]]
    ensures Loaded(before, k, s.stack[|s.stack| - 1], t)
  {
    hide Wholes, Floats, Through;
    WholesStep(before, k);
    if IsFloating(k) {
      PopXmmRuns(Floats(before), s, t);
    } else {
      PopRuns(M.ArgReg(Wholes(before)), s, t);
    }
  }

  /** The register of the argument after those has this value. */
  ghost predicate Loaded(before: seq<Kind>, k: Kind, v: Word, s: State) {
    if IsFloating(k) then XmmReg(s, Floats(before)) == v
    else Wholes(before) < 6 && IntReg(s, M.ArgReg(Wholes(before))) == v
  }

  lemma EarlierDelivered(ks: seq<Kind>, vs: seq<Word>, u: State, i: nat)
    requires Wholes(ks) <= 6 && |vs| == |ks| && i < |ks| - 1 && Wholes(ks[..|ks| - 1]) <= 6
    requires DeliveredAt(ks[..|ks| - 1], vs[..|ks| - 1], u, i)
    ensures DeliveredAt(ks, vs, u, i)
  {
    hide Wholes, Floats;
    assert ks[..|ks| - 1][..i] == ks[..i];
  }

  /** The register loaded first is not touched by the others. */
  lemma LastDelivered(ks: seq<Kind>, vs: seq<Word>, t: State, u: State)
    requires Wholes(ks) <= 6 && |vs| == |ks| > 0
    requires Wholes(ks[..|ks| - 1]) <= 6 && Beyond(ks[..|ks| - 1], t, u) && Loaded(ks[..|ks| - 1], ks[|ks| - 1], vs[|ks| - 1], t)
    ensures DeliveredAt(ks, vs, u, |ks| - 1)
  {
    hide Wholes, Floats, Beyond;
    var before := ks[..|ks| - 1];
    BeyondAt(before, t, u, Wholes(before), Floats(before));
  }

  // -------------------------------------------------------- afterwards

  function RestoreOne(before: seq<Kind>, k: Kind): seq<Instr>
    requires Wholes(before + [k]) <= 6
  {
    WholesStep(before, k);
    if !IsFloating(k) then [Pop(M.ArgReg(Wholes(before)))]
    else if Floats(before) > 0 then PopXmmCode(Floats(before))
    else []
  }

  function RestoreCode(ks: seq<Kind>): seq<Instr>
    requires Wholes(ks) <= 6
    decreases |ks|
  {
    if |ks| == 0 then [] else
      var before, k := ks[..|ks| - 1], ks[|ks| - 1];
      LastKind(ks);
      WholesStep(before, k);
      RestoreOne(before, k) + RestoreCode(before)
  }

  lemma {:induction false} RestoreIs(v: View, ks: seq<Kind>)
    requires Wholes(ks) <= 6
    ensures RestoreRegisters(v, ks).output == v.output + RestoreCode(ks)
    ensures AllStraight(RestoreCode(ks))
    decreases |ks|
  {
    hide Wholes, Floats, RestoreOne, PopXmm, PopReg, AllStraight;
    StraightNothing();
    if |ks| > 0 {
      var before, k := ks[..|ks| - 1], ks[|ks| - 1];
      LastKind(ks);
      WholesStep(before, k);
      var x := RestoreOneIs(v, before, k);
      RestoreIs(x, before);
      StraightBoth(RestoreOne(before, k), RestoreCode(before));
      Associate(v.output, RestoreOne(before, k), RestoreCode(before));
    }
  }

  lemma RestoreOneIs(v: View, before: seq<Kind>, k: Kind) returns (x: View)
    requires Wholes(before + [k]) <= 6
    ensures IsFloating(k) || Wholes(before) < 6
    ensures x == if !IsFloating(k) then PopReg(v, M.ArgReg(Wholes(before))) else if Floats(before) > 0 then PopXmm(v, Floats(before)) else v
    ensures x.output == v.output + RestoreOne(before, k) && AllStraight(RestoreOne(before, k))
  {
    hide Wholes, Floats;
    WholesStep(before, k);
    x := if !IsFloating(k) then PopReg(v, M.ArgReg(Wholes(before))) else if Floats(before) > 0 then PopXmm(v, Floats(before)) else v;
  }

  /** Every integer argument register, and every floating one but the first, is as it was. */
  ghost predicate Restored(ks: seq<Kind>, s: State, u: State)
    requires Wholes(ks) <= 6
  {
    (forall i :: 0 <= i < Wholes(ks) ==> IntReg(u, M.ArgReg(i)) == IntReg(s, M.ArgReg(i))) &&
    (forall j: nat :: 0 < j < Floats(ks) ==> XmmReg(u, j) == XmmReg(s, j))
  }

  /** One register was put back before the others. */
  lemma RestoredStep(before: seq<Kind>, k: Kind, s: State, t: State, u: State)
    requires Wholes(before + [k]) <= 6 && Wholes(before) <= 6
    requires Restored(before, s, u) && Beyond(before, t, u)
    requires !IsFloating(k) ==> Wholes(before) < 6 && IntReg(t, M.ArgReg(Wholes(before))) == IntReg(s, M.ArgReg(Wholes(before)))
    requires IsFloating(k) && Floats(before) > 0 ==> XmmReg(t, Floats(before)) == XmmReg(s, Floats(before))
    ensures Restored(before + [k], s, u)
  {
    hide Wholes, Floats, Beyond;
    WholesStep(before, k);
    BeyondAt(before, t, u, Wholes(before), Floats(before));
  }

  lemma {:induction false} RestoreRuns(ks: seq<Kind>, under: seq<Word>, s: State, t: State, u: State)
    requires Wholes(ks) <= 6 && t.stack == under + SavedWords(ks, s) && Through(RestoreCode(ks), t, u)
    ensures u.stack == under && Restored(ks, s, u) && Beyond(ks, t, u)
    ensures XmmReg(u, 0) == XmmReg(t, 0)
    decreases |ks|
  {
    hide Wholes, Floats, Through, IntReg, XmmReg, Beyond, Restored;
    if |ks| == 0 {
      NothingRuns(t, u);
      SameRegisters(t, u);
      BeyondNothing(ks, t, u);
      RestoredNothing(ks, s, u);
    } else {
      var before, k := ks[..|ks| - 1], ks[|ks| - 1];
      LastKind(ks);
      WholesStep(before, k);
      RestoreIs(View([], 0, 0, NoSlots(), {}), before);
      var x := SplitStraight(RestoreOne(before, k), RestoreCode(before), t, u);
      RestoreOneRuns(before, k, under, s, t, x);
      RestoreRuns(before, under, s, x, u);
      RestoredStep(before, k, s, x, u);
      if IsFloating(k) && Floats(before) == 0 {
        BeyondSame(before, k, t, x, u);
      } else {
        BeyondStep(before, k, t, x, u, t.stack[|t.stack| - 1]);
      }
    }
  }

  lemma RestoredNothing(ks: seq<Kind>, s: State, u: State)
    requires |ks| == 0
    ensures Restored(ks, s, u)
  {
  }

  lemma BeyondSame(before: seq<Kind>, k: Kind, s: State, t: State, u: State)
    requires Wholes(before) <= 6 && Wholes(before + [k]) <= 6 && IsFloating(k)
    requires t.ints == s.ints && t.xmms == s.xmms && Beyond(before, t, u)
    ensures Beyond(before + [k], s, u)
  {
    hide Wholes, Floats;
    WholesStep(before, k);
    SameRegisters(s, t);
  }

  lemma RestoreOneRuns(before: seq<Kind>, k: Kind, under: seq<Word>, s: State, t: State, x: State)
    requires Wholes(before + [k]) <= 6 && Wholes(before) <= 6 && Through(RestoreOne(before, k), t, x)
    requires t.stack == under + SavedWords(before + [k], s)
    ensures x.stack == under + SavedWords(before, s) && XmmReg(x, 0) == XmmReg(t, 0)
    ensures if IsFloating(k) && Floats(before) == 0 then x.ints == t.ints && x.xmms == t.xmms
      else |t.stack| > 0 && if IsFloating(k) then x.ints == t.ints && x.xmms == t.xmms[Floats(before) := t.stack[|t.stack| - 1]]
        else Wholes(before) < 6 && x.xmms == t.xmms && x.ints == t.ints[M.ArgReg(Wholes(before)) := t.stack[|t.stack| - 1]]
    ensures !IsFloating(k) ==> Wholes(before) < 6 && IntReg(x, M.ArgReg(Wholes(before))) == IntReg(s, M.ArgReg(Wholes(before)))
    ensures IsFloating(k) && Floats(before) > 0 ==> XmmReg(x, Floats(before)) == XmmReg(s, Floats(before))
  {
    hide Wholes, Floats, Through;
    WholesStep(before, k);
    SavedStepWords(before, k, s);
    if !IsFloating(k) {
      PopRuns(M.ArgReg(Wholes(before)), t, x);
    } else if Floats(before) > 0 {
      PopXmmRuns(Floats(before), t, x);
    } else {
      NothingRuns(t, x);
    }
  }

  lemma SavedStepWords(before: seq<Kind>, k: Kind, s: State)
    requires Wholes(before + [k]) <= 6 && Wholes(before) <= 6
    ensures !IsFloating(k) ==> Wholes(before) < 6 && SavedWords(before + [k], s) == SavedWords(before, s) + [IntReg(s, M.ArgReg(Wholes(before)))]
    ensures IsFloating(k) && Floats(before) > 0 ==> SavedWords(before + [k], s) == SavedWords(before, s) + [XmmReg(s, Floats(before))]
    ensures IsFloating(k) && Floats(before) == 0 ==> SavedWords(before + [k], s) == SavedWords(before, s)
  {
    hide Wholes, Floats, IntReg, XmmReg;
    WholesStep(before, k);
    assert (before + [k])[..|before|] == before;
  }

  // ------------------------------------------------------ the arguments

  /** The generator after an argument's value is computed and converted. */
  function Computed(value: Expr, k: Kind, v: View): Result {
    var w :- GenExpr(value, v);
    Done(ConvertStored(w, k, value.kind))
  }

  function PushCode(k: Kind): seq<Instr> {
    if IsFloating(k) then PushXmmCode(0) else [Push(M.RAX)]
  }

  function PushValue(k: Kind, v: View): View {
    if IsFloating(k) then PushXmm(v, 0) else PushReg(v, M.RAX)
  }

  /** The register an argument's value is computed in. */
  function ResultOf(k: Kind, s: State): Word {
    if IsFloating(k) then XmmReg(s, 0) else IntReg(s, M.RAX)
  }

  /** vs are the values that evaluating the arguments one after the other leaves in the
      result registers, starting in s with the generator holding v. */
  ghost predicate Evaluated(args: Args, v: View, s: State, vs: seq<Word>)
    decreases args
  {
    match args
    case NoArgs => vs == []
    case Arg(value, k, rest) =>
      |vs| > 0 && Computed(value, k, v).Done? &&
      exists t: State :: EvaluatedFirst(value, k, v, s, vs[0], t) &&
        Evaluated(rest, PushValue(k, Computed(value, k, v).view), t.(stack := t.stack + [vs[0]]), vs[1..])
  }

  ghost predicate EvaluatedFirst(value: Expr, k: Kind, v: View, s: State, x: Word, t: State)
    requires Computed(value, k, v).Done?
  {
    Through(Since(v, Computed(value, k, v).view), s, t) && t.stack == s.stack && x == ResultOf(k, t)
  }

  /** What is known of disciplined code between two views. */
  ghost predicate Between(v: View, w: View) {
    v.output <= w.output && v.nextLabel <= w.nextLabel && LabelsWithin(Since(v, w), v.nextLabel, w.nextLabel)
  }

  lemma ComputedRuns(value: Expr, k: Kind, v: View)
    requires Computed(value, k, v).Done?
    ensures Between(v, Computed(value, k, v).view)
    ensures forall s: State, t: State :: Through(Since(v, Computed(value, k, v).view), s, t) ==> t.stack == s.stack
  {
    hide On, GenExpr, ConvertStored, Through, LabelsWithin;
    var m := Ground(v.nextLabel);
    var trail := Trail(v, 0, 0, v.nextLabel);
    Start(v, m, 0, v.nextLabel);
    var m' := ExprOn(value, trail, v, m, 0);
    var w := GenExpr(value, v).view;
    ConvertOn(trail, w, m', 0, k, value.kind);
    var x := ConvertStored(w, k, value.kind);
    OwnLabels(v, x, m', v.nextLabel, 0);
    OnMeans(trail, x, m', 0);
    forall s: State, t: State | Through(Since(v, x), s, t) ensures t.stack == s.stack {
      Balanced(Since(v, x), m', v.nextLabel, s, t);
    }
  }

  lemma OnMeans(t: Trail, w: View, m: Depths, d: int)
    requires On(t, w, m, d) && t.base == t.floor
    ensures t.v.output <= w.output && t.lo <= w.nextLabel
    ensures t.base <= d ==> Disciplined(Since(t.v, w), m, t.base, t.lo)
    ensures Depth(Since(t.v, w)) == d - t.base
  {
    hide Depth, Levels;
  }

  lemma Balanced(c: seq<Instr>, m: Depths, lo: nat, s: State, t: State)
    requires Disciplined(c, m, 0, lo) && Depth(c) == 0 && Through(c, s, t)
    ensures t.stack == s.stack
  {
    hide Disciplined, Deep, Depth;
    var n: nat :| Reach(c, s.(pc := 0), t.(pc := |c|), n);
    EveryState(c, m, 0, lo, s.(pc := 0), t.(pc := |c|), n);
    Whole(c, s.(pc := 0), t.(pc := |c|));
  }

  lemma ArgsBetween(args: Args, v: View)
    requires GenArgs(args, v).Done?
    ensures Between(v, GenArgs(args, v).view)
  {
    hide On, GenArgs, LabelsWithin;
    var m := Ground(v.nextLabel);
    var trail := Trail(v, 0, 0, v.nextLabel);
    Start(v, m, 0, v.nextLabel);
    var m' := ArgsOn(args, trail, v, m, 0);
    OnMeans(trail, GenArgs(args, v).view, m', |Kinds(args)|);
    OwnLabels(v, GenArgs(args, v).view, m', v.nextLabel, |Kinds(args)|);
  }

  lemma RangesApart(a: seq<Instr>, b: seq<Instr>, lo: nat, mid: nat, hi: nat)
    requires LabelsWithin(a, lo, mid) && LabelsWithin(b, mid, hi)
    ensures Apart(a, b)
  {
  }

  lemma Joined(a: seq<Instr>, b: seq<Instr>, c: seq<Instr>)
    requires a <= b <= c
    ensures c[|a|..] == b[|a|..] + c[|b|..]
  {
  }

  /** The code of a first argument, its push, and that of the others. */
  lemma ArgsParts(args: Args, v: View) returns (x: View, y: View)
    requires args.Arg? && GenArgs(args, v).Done?
    ensures Computed(args.value, args.kind, v) == Done(x) && y == PushValue(args.kind, x) && GenArgs(args.rest, y) == GenArgs(args, v)
    ensures y.nextLabel == x.nextLabel && Between(v, x) && Between(y, GenArgs(args, v).view)
    ensures Since(v, GenArgs(args, v).view) == Since(v, x) + (PushCode(args.kind) + Since(y, GenArgs(args, v).view))
  {
    hide GenExpr, ConvertStored, LabelsWithin;
    x := Computed(args.value, args.kind, v).view;
    y := PushValue(args.kind, x);
    ComputedRuns(args.value, args.kind, v);
    ArgsBetween(args.rest, y);
    var z := GenArgs(args, v).view;
    assert y.output == x.output + PushCode(args.kind);
    Joined(v.output, x.output, z.output);
    Joined(x.output, y.output, z.output);
  }

  /** The first argument evaluated and pushed, and the run through the others. */
  lemma FirstArg(args: Args, v: View, s: State, u: State) returns (x: View, y: View, t: State, t': State)
    requires args.Arg? && GenArgs(args, v).Done? && Through(Since(v, GenArgs(args, v).view), s, u)
    ensures Computed(args.value, args.kind, v) == Done(x) && y == PushValue(args.kind, x) && GenArgs(args.rest, y) == GenArgs(args, v)
    ensures EvaluatedFirst(args.value, args.kind, v, s, ResultOf(args.kind, t), t)
    ensures Became(t, t', s.stack + [ResultOf(args.kind, t)]) && Through(Since(y, GenArgs(args, v).view), t', u)
  {
    hide Through, GenArgs, Computed, PushValue, LabelsWithin, Apart, IntReg, XmmReg, PushCode, AllStraight, Since;
    x, y := ArgsParts(args, v);
    var z := GenArgs(args, v).view;
    var a, b, c := Since(v, x), PushCode(args.kind), Since(y, z);
    StraightPush(args.kind);
    ArgApart(a, b, c, v.nextLabel, x.nextLabel, z.nextLabel);
    t := Split(a, b + c, s, u);
    t' := SplitStraight(b, c, t, u);
    ComputedRuns(args.value, args.kind, v);
    PushValueRuns(args.kind, t, t');
  }

  /** Evaluating the arguments leaves their values on the stack, the last one on top. */
  lemma {:induction false} ArgsRuns(args: Args, v: View, s: State, u: State) returns (vs: seq<Word>)
    requires GenArgs(args, v).Done? && Through(Since(v, GenArgs(args, v).view), s, u)
    ensures |vs| == |Kinds(args)| && u.stack == s.stack + vs && Evaluated(args, v, s, vs)
    decreases args
  {
    hide Through, GenArgs, Computed, PushValue, Since, EvaluatedFirst, ResultOf;
    if args.NoArgs? {
      vs := [];
      NoArgsRun(v, s, u);
    } else {
      var x, y, t, t' := FirstArg(args, v, s, u);
      var more := ArgsRuns(args.rest, y, t', u);
      vs := [ResultOf(args.kind, t)] + more;
      assert vs[1..] == more && u.stack == s.stack + vs;
      FirstStack(args.value, args.kind, v, s, vs[0], t);
      EvaluatedFrom(args.rest, y, t', t.(stack := t.stack + [vs[0]]), more);
    }
  }

  lemma FirstStack(value: Expr, k: Kind, v: View, s: State, x: Word, t: State)
    requires Computed(value, k, v).Done? && EvaluatedFirst(value, k, v, s, x, t)
    ensures t.stack == s.stack
  {
    hide Computed;
  }

  lemma NoArgsRun(v: View, s: State, u: State)
    requires GenArgs(NoArgs, v).Done? && Through(Since(v, GenArgs(NoArgs, v).view), s, u)
    ensures u.stack == s.stack
  {
    NothingRuns(s, u);
  }

  lemma StraightPush(k: Kind)
    ensures AllStraight(PushCode(k))
  {
  }

  lemma PushValueRuns(k: Kind, t: State, u: State)
    requires Through(PushCode(k), t, u)
    ensures Became(t, u, t.stack + [ResultOf(k, t)])
  {
    hide Through, IntReg, XmmReg;
    if IsFloating(k) {
      PushXmmRuns(0, t, u);
    } else {
      PushRuns(M.RAX, t, u);
    }
  }

  lemma ArgApart(a: seq<Instr>, b: seq<Instr>, c: seq<Instr>, lo: nat, mid: nat, hi: nat)
    requires LabelsWithin(a, lo, mid) && AllStraight(b) && LabelsWithin(c, mid, hi)
    ensures Apart(a, b + c)
  {
    RangesApart(a, c, lo, mid, hi);
  }

  /** Where a state stands in the code does not matter to what follows. */
  lemma EvaluatedFrom(args: Args, v: View, s: State, t: State, vs: seq<Word>)
    requires Evaluated(args, v, s, vs) && s.(pc := 0) == t.(pc := 0)
    ensures Evaluated(args, v, t, vs)
  {
    hide GenExpr, ConvertStored;
    if args.Arg? {
      var x: State :| EvaluatedFirst(args.value, args.kind, v, s, vs[0], x) &&
        Evaluated(args.rest, PushValue(args.kind, Computed(args.value, args.kind, v).view), x.(stack := x.stack + [vs[0]]), vs[1..]);
      assert EvaluatedFirst(args.value, args.kind, v, t, vs[0], x);
    }
  }

  // ------------------------------------------------------------ the call

  function PadCode(stack: int): seq<Instr> {
    if stack % 16 != 0 then [Reserve] else []
  }

  function UnpadCode(stack: int): seq<Instr> {
    if stack % 16 != 0 then [Release] else []
  }

  function TailCode(k: Kind): seq<Instr> {
    if k.Float? then [WidenResult] else []
  }

  /** The code up to the call instruction, and the code after it. */
  function BeforeCall(args: seq<Instr>, ks: seq<Kind>, stack: int): seq<Instr>
    requires Wholes(ks) <= 6
  {
    SaveCode(ks) + (args + (LoadCode(ks) + ([SetRax(Floats(ks))] + PadCode(stack))))
  }

  function AfterCall(ks: seq<Kind>, stack: int, k: Kind): seq<Instr>
    requires Wholes(ks) <= 6
  {
    UnpadCode(stack) + (RestoreCode(ks) + TailCode(k))
  }

  lemma CallParts(e: Expr, v: View) returns (args: seq<Instr>, stack: int)
    requires e.Call? && GenCall(e, v).Done?
    ensures var ks := Kinds(e.args); var w := SaveRegisters(v, ks);
      Wholes(ks) <= 6 && GenArgs(e.args, w).Done? && args == Since(w, GenArgs(e.args, w).view) &&
      Since(v, GenCall(e, v).view) == BeforeCall(args, ks, stack) + ([CallTo(e.name)] + AfterCall(ks, stack, e.kind))
  {
    hide SaveRegisters, GenArgs, LoadArguments, RestoreRegisters, Wholes, Floats, SaveCode, LoadCode, RestoreCode, LabelsWithin;
    var ks := Kinds(e.args);
    var w := SaveRegisters(v, ks);
    var x := GenArgs(e.args, w).view;
    args := Since(w, x);
    SaveIs(v, ks);
    ArgsBetween(e.args, w);
    LoadIs(x, ks);
    var y := LoadArguments(x, ks);
    stack := y.stack;
    var z := Transfer(y, e.name, Floats(ks));
    TransferIs(y, e.name, Floats(ks));
    RestoreIs(z, ks);
    assert x.output == w.output + args;
    Assembled(v.output, SaveCode(ks), args, LoadCode(ks), [SetRax(Floats(ks))], PadCode(stack), [CallTo(e.name)], UnpadCode(stack),
      RestoreCode(ks), TailCode(e.kind));
    assert GenCall(e, v).view.output == RestoreRegisters(z, ks).output + TailCode(e.kind);
  }

  lemma TransferIs(v: View, name: string, floats: nat)
    ensures Transfer(v, name, floats).output ==
      v.output + [SetRax(floats)] + PadCode(v.stack) + [CallTo(name)] + UnpadCode(v.stack)
  {
  }

  lemma Assembled(o: seq<Instr>, a: seq<Instr>, b: seq<Instr>, c: seq<Instr>, d: seq<Instr>, e: seq<Instr>, f: seq<Instr>,
    g: seq<Instr>, h: seq<Instr>, i: seq<Instr>)
    ensures var all := o + a + b + c + d + e + f + g + h + i;
      all[|o|..] == a + (b + (c + (d + e))) + (f + (g + (h + i))) && |o| <= |all|
  {
  }

  lemma PadRuns(stack: int, s: State, t: State)
    requires Through(PadCode(stack), s, t)
    ensures s.stack <= t.stack && |t.stack| == |s.stack| + |PadCode(stack)| && t.ints == s.ints && t.xmms == s.xmms
  {
    hide Through;
    if stack % 16 != 0 {
      One(Reserve, s, t);
    } else {
      NothingRuns(s, t);
    }
  }

  lemma UnpadRuns(stack: int, under: seq<Word>, s: State, t: State)
    requires Through(UnpadCode(stack), s, t) && under <= s.stack && |s.stack| == |under| + |PadCode(stack)|
    ensures Became(s, t, under)
  {
    hide Through;
    if stack % 16 != 0 {
      One(Release, s, t);
    } else {
      NothingRuns(s, t);
    }
  }

  lemma StraightPads(ks: seq<Kind>, stack: int)
    ensures AllStraight(PadCode(stack)) && AllStraight(UnpadCode(stack)) && AllStraight([SetRax(Floats(ks))] + PadCode(stack))
  {
  }

  lemma StraightBoth(a: seq<Instr>, b: seq<Instr>)
    requires AllStraight(a) && AllStraight(b)
    ensures AllStraight(a + b)
  {
  }

  lemma SetRaxRuns(n: int, s: State, t: State)
    requires Through([SetRax(n)], s, t)
    ensures t.stack == s.stack && t.xmms == s.xmms && t.ints == s.ints[M.RAX := Wrap(n)]
  {
    hide Through;
    One(SetRax(n), s, t);
  }

  /** Setting rax and padding the stack disturbs no argument. */
  lemma StillDelivered(ks: seq<Kind>, vs: seq<Word>, s: State, t: State, n: Word)
    requires Wholes(ks) <= 6 && |vs| == |ks| && Delivered(ks, vs, s) && t.xmms == s.xmms && t.ints == s.ints[M.RAX := n]
    ensures Delivered(ks, vs, t) && IntReg(t, M.RAX) == n
  {
    hide Wholes, Floats;
    forall k | 0 <= k < |ks| ensures DeliveredAt(ks, vs, t, k) {
      WholesPrefix(ks, k);
      assert DeliveredAt(ks, vs, s, k);
      if !IsFloating(ks[k]) {
        ArgRegs(Wholes(ks[..k]), 0);
      }
    }
  }

  /** From the saved registers and the values on the stack to the call instruction. */
  lemma LoadAndPad(ks: seq<Kind>, vs: seq<Word>, under: seq<Word>, stack: int, s: State, t: State)
    requires Wholes(ks) <= 6 && |vs| == |ks| && s.stack == under + vs
    requires Through(LoadCode(ks) + ([SetRax(Floats(ks))] + PadCode(stack)), s, t)
    ensures Delivered(ks, vs, t) && IntReg(t, M.RAX) == Wrap(Floats(ks))
    ensures under <= t.stack && |t.stack| == |under| + |PadCode(stack)|
  {
    hide Through, Wholes, Floats, Delivered, LoadCode, PadCode, IntReg, AllStraight;
    StraightPads(ks, stack);
    var x := SplitStraight(LoadCode(ks), [SetRax(Floats(ks))] + PadCode(stack), s, t);
    LoadRuns(ks, vs, under, s, x);
    var y := SplitStraight([SetRax(Floats(ks))], PadCode(stack), x, t);
    SetRaxRuns(Floats(ks), x, y);
    StillDelivered(ks, vs, x, y, Wrap(Floats(ks)));
    PadRuns(stack, y, t);
    DeliveredSame(ks, vs, y, t);
  }

  lemma DeliveredSame(ks: seq<Kind>, vs: seq<Word>, s: State, t: State)
    requires Wholes(ks) <= 6 && |vs| == |ks| && Delivered(ks, vs, s) && t.xmms == s.xmms && t.ints == s.ints
    ensures Delivered(ks, vs, t) && IntReg(t, M.RAX) == IntReg(s, M.RAX)
  {
    hide Wholes, Floats;
    SameRegisters(s, t);
    forall k | 0 <= k < |ks| ensures DeliveredAt(ks, vs, t, k) {
      assert DeliveredAt(ks, vs, s, k);
    }
  }

  /** Up to the call instruction. */
  lemma BeforeRuns(args: Args, v: View, code: seq<Instr>, stack: int, s: State, t: State) returns (vs: seq<Word>)
    requires var ks := Kinds(args); Wholes(ks) <= 6 && GenArgs(args, v).Done? && code == Since(v, GenArgs(args, v).view)
    requires Through(BeforeCall(code, Kinds(args), stack), s, t)
    ensures var ks := Kinds(args);
      |vs| == |ks| && Delivered(ks, vs, t) && IntReg(t, M.RAX) == Wrap(Floats(ks)) &&
      s.stack + SavedWords(ks, s) <= t.stack && |t.stack| == |s.stack + SavedWords(ks, s)| + |PadCode(stack)| &&
      Evaluated(args, v, s.(stack := s.stack + SavedWords(ks, s)), vs)
  {
    hide Through, Wholes, Floats, Delivered, SaveCode, LoadCode, PadCode, SavedWords, GenArgs, Evaluated, IntReg, AllStraight;
    var ks := Kinds(args);
    var rest := LoadCode(ks) + ([SetRax(Floats(ks))] + PadCode(stack));
    SaveStraight(ks);
    var x := SplitStraight(SaveCode(ks), code + rest, s, t);
    SaveRuns(ks, s, x);
    LoadIs(v, ks);
    StraightPads(ks, stack);
    StraightBoth(LoadCode(ks), [SetRax(Floats(ks))] + PadCode(stack));
    var y := SplitStraight(code, rest, x, t);
    vs := ArgsRuns(args, v, x, y);
    EvaluatedFrom(args, v, x, s.(stack := s.stack + SavedWords(ks, s)), vs);
    LoadAndPad(ks, vs, s.stack + SavedWords(ks, s), stack, y, t);
  }

  /** From the return of the callee on. */
  lemma AfterRuns(ks: seq<Kind>, stack: int, k: Kind, s: State, t: State, u: State)
    requires Wholes(ks) <= 6 && Through(AfterCall(ks, stack, k), t, u)
    requires s.stack + SavedWords(ks, s) <= t.stack && |t.stack| == |s.stack + SavedWords(ks, s)| + |PadCode(stack)|
    ensures u.stack == s.stack && Restored(ks, s, u) && IntReg(u, M.RAX) == IntReg(t, M.RAX)
    ensures !k.Float? ==> XmmReg(u, 0) == XmmReg(t, 0)
  {
    hide Through, Wholes, Floats, RestoreCode, PadCode, UnpadCode, SavedWords, Restored, Beyond, IntReg, XmmReg, AllStraight, TailCode;
    StraightPads(ks, stack);
    var x := SplitStraight(UnpadCode(stack), RestoreCode(ks) + TailCode(k), t, u);
    UnpadRuns(stack, s.stack + SavedWords(ks, s), t, x);
    SameRegisters(t, x);
    RestoreIs(View([], 0, 0, NoSlots(), {}), ks);
    var y := SplitStraight(RestoreCode(ks), TailCode(k), x, u);
    RestoreRuns(ks, s.stack, s, x, y);
    BeyondAt(ks, x, y, 6, Floats(ks));
    TailRuns(ks, k, s, y, u);
  }

  lemma TailRuns(ks: seq<Kind>, k: Kind, s: State, y: State, u: State)
    requires Wholes(ks) <= 6 && Through(TailCode(k), y, u) && Restored(ks, s, y)
    ensures u.stack == y.stack && Restored(ks, s, u) && IntReg(u, M.RAX) == IntReg(y, M.RAX)
    ensures !k.Float? ==> XmmReg(u, 0) == XmmReg(y, 0)
  {
    hide Through, Wholes, Floats;
    if k.Float? {
      One(WidenResult, y, u);
      SameRegisters(u, u.(pc := 1));
      SameRegisters(y, y.(pc := 0));
      assert u.ints == y.ints;
    } else {
      NothingRuns(y, u);
      SameRegisters(y, u);
    }
  }

  /** A run through the code of a call is a run up to the call instruction, where every
      argument is in its register with the value its evaluation left, and the number of
      floating ones in eax; the callee; and a run that gives back the stack, every saved
      register and the callee's result. */
  lemma CallMarshals(e: Expr, v: View, s: State, u: State)
    returns (a: seq<Instr>, b: seq<Instr>, vs: seq<Word>, t: State, t': State)
    requires e.Call? && GenExpr(e, v).Done? && Through(Since(v, GenExpr(e, v).view), s, u)
    ensures Since(v, GenExpr(e, v).view) == a + ([CallTo(e.name)] + b)
    ensures Through(a, s, t) && Moves([CallTo(e.name)], t.(pc := 0), t'.(pc := 1)) && Through(b, t', u)
    ensures var ks := Kinds(e.args);
      Wholes(ks) <= 6 && |vs| == |ks| && Delivered(ks, vs, t) && IntReg(t, M.RAX) == Wrap(Floats(ks)) &&
      Evaluated(e.args, SaveRegisters(v, ks), s.(stack := s.stack + SavedWords(ks, s)), vs) &&
      u.stack == s.stack && Restored(ks, s, u)
    ensures IntReg(u, M.RAX) == IntReg(t', M.RAX) && (!e.kind.Float? ==> XmmReg(u, 0) == XmmReg(t', 0))
  {
    hide Through, Wholes, Floats, Delivered, Restored, SavedWords, GenArgs, GenCall, Evaluated, SaveRegisters, IntReg, XmmReg,
      BeforeCall, AfterCall, PadCode, Straight;
    GenExprCall(e, v);
    var code, stack := CallParts(e, v);
    var ks := Kinds(e.args);
    a, b := BeforeCall(code, ks, stack), AfterCall(ks, stack, e.kind);
    StraightHere();
    StraightAround(e, v, a, b, code, ks, stack);
    t := Split(a, [CallTo(e.name)] + b, s, u);
    vs := BeforeRuns(e.args, SaveRegisters(v, ks), code, stack, s, t);
    t' := FirstOne(CallTo(e.name), b, t, u);
    AfterRuns(ks, stack, e.kind, s, t', u);
  }

  lemma GenExprCall(e: Expr, v: View)
    requires e.Call?
    ensures GenExpr(e, v) == GenCall(e, v)
  {
  }

  /** What follows the arguments has no labels. */
  lemma StraightAround(e: Expr, v: View, a: seq<Instr>, b: seq<Instr>, code: seq<Instr>, ks: seq<Kind>, stack: int)
    requires e.Call? && Wholes(ks) <= 6 && b == AfterCall(ks, stack, e.kind)
    ensures Apart(a, [CallTo(e.name)] + b)
  {
    hide Wholes, Floats, RestoreCode, Apart;
    RestoreIs(v, ks);
    StraightApart(a, [CallTo(e.name)] + b);
  }
}
