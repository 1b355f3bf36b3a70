/** Member chains in layout and generator. */
module Chains {
  import opened Words
  import opened Runs
  import opened Machine
  import opened Syntax
  import opened Semantics
  import opened Code
  import opened Relation
  import opened ExprSim
  import opened Dialects
  import Layout

  /** The address a chain of members ends at is that of its root plus the sum of the offsets. */
  lemma {:induction false} PlaceSum(d: Dialect, c: Context, lv: LValue, mem: Memory)
    ensures Place(d, c, Root(lv), mem).None? ==> Place(d, c, lv, mem) == None
    ensures Place(d, c, Root(lv), mem).Some? ==>
      var p := Place(d, c, Root(lv), mem).value;
      Place(d, c, lv, mem) == Some(Valued(Wrap(p.value + Displacement(lv)), p.mem))
    decreases lv
  {
    if lv.Member? {
      PlaceSum(d, c, lv.structure, mem);
      if Place(d, c, Root(lv), mem).Some? {
        var a: int := Place(d, c, Root(lv), mem).value.value;
        WrapTwice(a, Displacement(lv.structure), lv.offset);
      }
    } else if Place(d, c, lv, mem).Some? {
      WrapId(Place(d, c, lv, mem).value.value);
    }
  }

  /** The lvalue the parser builds for a path of members of an object of type t. */
  function Chain(root: LValue, t: Layout.Type, path: seq<nat>): LValue
    requires Layout.Walk(t, path).Some?
    decreases |path|
  {
    if |path| == 0 then root
    else Chain(Member(root, t.fields[path[0]].offset), t.fields[path[0]].kind, path[1..])
  }

  /** Its displacement is the offset the layout computes. */
  lemma {:induction false} ChainOffset(root: LValue, t: Layout.Type, path: seq<nat>)
    requires Layout.Walk(t, path).Some?
    ensures Root(Chain(root, t, path)) == Root(root)
    ensures Displacement(Chain(root, t, path)) == Displacement(root) + Layout.Walk(t, path).value.offset
    decreases |path|
  {
    if |path| > 0 {
      ChainOffset(Member(root, t.fields[path[0]].offset), t.fields[path[0]].kind, path[1..]);
    }
  }

  /** Where a member of the object at `at` is. */
  function MemberAt(at: Word, t: Layout.Type, path: seq<nat>): Word
    requires Layout.Walk(t, path).Some?
  {
    Wrap(at + Layout.Walk(t, path).value.offset)
  }

  lemma ChainPlace(d: Dialect, c: Context, root: LValue, t: Layout.Type, path: seq<nat>, mem: Memory, p: Valued)
    requires Layout.Walk(t, path).Some? && !root.Member? && Place(d, c, root, mem) == Some(p)
    ensures Place(d, c, Chain(root, t, path), mem) == Some(Valued(MemberAt(p.value, t, path), p.mem))
  {
    hide Place, Chain, Wrap;
    ChainOffset(root, t, path);
    PlaceSum(d, c, Chain(root, t, path), mem);
  }

  /** Offsets that differ by less than the address space designate different words. */
  lemma WrapApart(a: int, x: int, y: int)
    requires 0 <= x < MODULUS && 0 <= y < MODULUS && x != y
    ensures Wrap(a + x) != Wrap(a + y)
  {
    if x > y { DivUnique(x - y, MODULUS, 0, x - y); } else { DivUnique(x - y, MODULUS, -1, x - y + MODULUS); }
    WrapEqual(a + x, a + y);
  }

  /** Chains that part in a structure lead to different words. */
  lemma MembersApart(at: Word, t: Layout.Type, p: seq<nat>, q: seq<nat>)
    requires Layout.Laid(t) && Layout.Size(t) <= MODULUS && Layout.Walk(t, p).Some? && Layout.Walk(t, q).Some?
    requires Layout.PartInStruct(t, p, q)
    requires Layout.Size(Layout.Walk(t, p).value.kind) > 0 && Layout.Size(Layout.Walk(t, q).value.kind) > 0
    ensures MemberAt(at, t, p) != MemberAt(at, t, q)
  {
    hide Layout.Size, Layout.Laid, Layout.Walk, Layout.PartInStruct, Wrap;
    Layout.LaidHoused(t);
    Layout.WalkInside(t, p);
    Layout.WalkInside(t, q);
    Layout.WalksDisjoint(t, p, q);
    WrapApart(at, Layout.Walk(t, p).value.offset, Layout.Walk(t, q).value.offset);
  }

  // -------------------------------------------------------- read after write

  /** A store through a chain: the member gets the value, and everything else stays. */
  lemma StoreMember(d: Dialect, c: Context, root: LValue, t: Layout.Type, path: seq<nat>, e: Expr, mem: Memory, v: Valued, at: Word)
    requires Layout.Walk(t, path).Some? && !root.Member? && Eval(d, c, e, mem) == Some(v)
    requires Place(d, c, root, v.mem) == Some(Valued(at, v.mem)) && MemberAt(at, t, path) in v.mem
    ensures Eval(d, c, Assign(Chain(root, t, path), e), mem) == Some(Valued(v.value, v.mem[MemberAt(at, t, path) := v.value]))
  {
    hide Place, MemberAt, Chain;
    ChainPlace(d, c, root, t, path, v.mem, Valued(at, v.mem));
  }

  lemma LoadMember(d: Dialect, c: Context, root: LValue, t: Layout.Type, path: seq<nat>, mem: Memory, at: Word)
    requires Layout.Walk(t, path).Some? && !root.Member?
    requires Place(d, c, root, mem) == Some(Valued(at, mem)) && MemberAt(at, t, path) in mem
    ensures Eval(d, c, Read(Chain(root, t, path)), mem) == Some(Valued(mem[MemberAt(at, t, path)], mem))
  {
    hide Place, MemberAt, Chain;
    ChainPlace(d, c, root, t, path, mem, Valued(at, mem));
  }

  /** A member read after a write through a chain from the same root has the value written
      if it is that member, and its old value if the chains part in a structure. The write
      must not move the root, as a write to the pointer of a dereference may. */
  lemma ReadAfterWrite(d: Dialect, c: Context, root: LValue, t: Layout.Type, p: seq<nat>, q: seq<nat>, e: Expr, mem: Memory, v: Valued, at: Word)
    requires Layout.Laid(t) && Layout.Size(t) <= MODULUS && Layout.Walk(t, p).Some? && Layout.Walk(t, q).Some? && !root.Member?
    requires Layout.Size(Layout.Walk(t, p).value.kind) > 0 && Layout.Size(Layout.Walk(t, q).value.kind) > 0
    requires Eval(d, c, e, mem) == Some(v) && Place(d, c, root, v.mem) == Some(Valued(at, v.mem))
    requires MemberAt(at, t, p) in v.mem && MemberAt(at, t, q) in v.mem
    requires var after := v.mem[MemberAt(at, t, p) := v.value]; Place(d, c, root, after) == Some(Valued(at, after))
    ensures var after := v.mem[MemberAt(at, t, p) := v.value];
      Eval(d, c, Assign(Chain(root, t, p), e), mem) == Some(Valued(v.value, after)) &&
      (p == q ==> Eval(d, c, Read(Chain(root, t, q)), after) == Some(Valued(v.value, after))) &&
      (Layout.PartInStruct(t, p, q) ==>
        Eval(d, c, Read(Chain(root, t, q)), after) == Some(Valued(v.mem[MemberAt(at, t, q)], after)))
  {
    hide Eval, Place, MemberAt, Chain, Layout.Laid, Layout.Walk, Layout.Size, Layout.PartInStruct;
    StoreMember(d, c, root, t, p, e, mem, v, at);
    LoadMember(d, c, root, t, q, v.mem[MemberAt(at, t, p) := v.value], at);
    if Layout.PartInStruct(t, p, q) {
      MembersApart(at, t, p, q);
    }
  }

  /** What q holds after v was written to p in the structure at `at`. */
  function AfterWrite(t: Layout.Type, p: seq<nat>, q: seq<nat>, v: Valued, at: Word): Word
    requires Layout.Walk(t, p).Some? && Layout.Walk(t, q).Some? && MemberAt(at, t, q) in v.mem
  {
    if p == q then v.value else v.mem[MemberAt(at, t, q)]
  }

  /** The same on the machine: the code of s.p = e followed by that of s.q, for a local
      structure s, leaves in rax what was written or what was there. */
  lemma MachineReadAfterWrite(c: Context, prog: Program, off: int, t: Layout.Type, p: seq<nat>, q: seq<nat>, e: Expr, n: nat, m: nat, d: int,
    s0: State, s: State, mem: Memory, k: nat, v: Valued) returns (u: State)
    requires Layout.Laid(t) && Layout.Size(t) <= MODULUS && Layout.Walk(t, p).Some? && Layout.Walk(t, q).Some?
    requires Layout.Size(Layout.Walk(t, p).value.kind) > 0 && Layout.Size(Layout.Walk(t, q).value.kind) > 0
    requires p == q || Layout.PartInStruct(t, p, q)
    requires Eval(Lice, c, e, mem) == Some(v)
    requires var at := Wrap(c.base + off); MemberAt(at, t, p) in v.mem && MemberAt(at, t, q) in v.mem
    requires var write, read := Assign(Chain(Local(off), t, p), e), Read(Chain(Local(off), t, q));
      CodeAt(prog, s.pc, ExprCode(write, n, d) + ExprCode(read, m, d)) && Depth(write) <= k && Depth(read) <= k
    requires Live(c, prog, s0, s, mem, k)
    ensures var at := Wrap(c.base + off);
      var write, read := Assign(Chain(Local(off), t, p), e), Read(Chain(Local(off), t, q));
      Evaluated(c, prog, s0, s, u, |ExprCode(write, n, d)| + |ExprCode(read, m, d)|,
        Valued(AfterWrite(t, p, q, v, at), v.mem[MemberAt(at, t, p) := v.value]), k)
  {
    var at := Wrap(c.base + off);
    var write, read := Assign(Chain(Local(off), t, p), e), Read(Chain(Local(off), t, q));
    var after := v.mem[MemberAt(at, t, p) := v.value];
    LocalPlace(c, off, v.mem);
    LocalPlace(c, off, after);
    assert MemberAt(at, t, p) in v.mem && MemberAt(at, t, q) in v.mem;
    var got := AfterWrite(t, p, q, v, at);
    hide *;
    ReadAfterWrite(Lice, c, Local(off), t, p, q, e, mem, v, at);
    u := RunBoth(c, prog, write, read, n, m, d, s0, s, mem, k, Valued(v.value, after), Valued(got, after));
  }

  /** Two expressions one after the other. */
  lemma RunBoth(c: Context, prog: Program, e: Expr, f: Expr, n: nat, m: nat, d: int, s0: State, s: State, mem: Memory, k: nat, a: Valued, b: Valued)
    returns (u: State)
    requires CodeAt(prog, s.pc, ExprCode(e, n, d) + ExprCode(f, m, d)) && Depth(e) <= k && Depth(f) <= k
    requires Live(c, prog, s0, s, mem, k) && Eval(Lice, c, e, mem) == Some(a) && Eval(Lice, c, f, a.mem) == Some(b)
    ensures Evaluated(c, prog, s0, s, u, |ExprCode(e, n, d)| + |ExprCode(f, m, d)|, b, k)
  {
    hide *;
    CodeSplit(prog, s.pc, ExprCode(e, n, d), ExprCode(f, m, d));
    var w := SimExpr(c, prog, e, n, d, s0, s, mem, k);
    EvaluatedParts(c, prog, s0, s, w, |ExprCode(e, n, d)|, a, k);
    u := SimExpr(c, prog, f, m, d, s0, w, a.mem, k);
    EvaluatedParts(c, prog, s0, w, u, |ExprCode(f, m, d)|, b, k);
    SealAfter(c, prog, s0, s, w, u, |ExprCode(e, n, d)| + |ExprCode(f, m, d)|, b, k);
  }

  lemma LocalPlace(c: Context, off: int, mem: Memory)
    ensures Place(Lice, c, Local(off), mem) == Some(Valued(Wrap(c.base + off), mem))
  {
  }
}
