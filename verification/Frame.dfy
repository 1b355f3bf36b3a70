/** A function's stack frame. */
module Frames {
  import opened Words
  import opened Runs
  import opened Machine
  import opened Syntax
  import opened Code

  /** The sizes of the parameters and of the local variables. The offsets in the body's
      trees are the ones the prologue gives to the variables. */
  datatype Function = Function(params: seq<int>, locals: seq<int>, body: Stmt)

  function Alignment(n: int, align: int): int
    requires align > 0
  {
    var remainder := TruncRem(n, align);
    if remainder == 0 then n else n - remainder + align
  }

  lemma AlignmentRounds(n: int, align: int)
    requires n >= 0 && align > 0
    ensures Alignment(n, align) % align == 0 && n <= Alignment(n, align) < n + align
  {
    var q, r := n / align, n % align;
    assert n == align * q + r;
    if r != 0 {
      assert Alignment(n, align) == align * q + align == align * (q + 1);
      MultipleOf(q + 1, align);
    }
  }

  lemma MultipleOf(q: int, m: int)
    requires m > 0
    ensures (m * q) % m == 0
  {
    DivUnique(m * q, m, q, 0);
  }

  /** Each variable lies below the one before it. */
  function Offsets(sizes: seq<int>, start: int): (offsets: seq<int>)
    ensures |offsets| == |sizes|
    decreases |sizes|
  {
    if |sizes| == 0 then [] else
    var offset := start - Alignment(sizes[0], 8);
    [offset] + Offsets(sizes[1..], offset)
  }

  /** The offset of the last variable. */
  function Lowest(sizes: seq<int>, start: int): int
    decreases |sizes|
  {
    if |sizes| == 0 then start else Lowest(sizes[1..], start - Alignment(sizes[0], 8))
  }

  function Sum(xs: seq<int>): int {
    if |xs| == 0 then 0 else xs[0] + Sum(xs[1..])
  }

  lemma {:induction false} OffsetsAppend(a: seq<int>, b: seq<int>, start: int)
    ensures Offsets(a + b, start) == Offsets(a, start) + Offsets(b, Lowest(a, start))
    ensures Lowest(a + b, start) == Lowest(b, Lowest(a, start))
    decreases |a|
  {
    if |a| == 0 {
      assert a + b == b;
    } else {
      assert (a + b)[1..] == a[1..] + b;
      OffsetsAppend(a[1..], b, start - Alignment(a[0], 8));
    }
  }

  /** Parameters first, then locals, below the frame base. */
  function FrameOffsets(f: Function): seq<int> {
    Offsets(f.params + f.locals, 0)
  }

  /** What the prologue subtracts from the stack pointer, negated: the sum of the locals'
      offsets. */
  function LocalData(f: Function): int {
    Sum(Offsets(f.locals, Lowest(f.params, 0)))
  }

  /** Where the prologue leaves the stack pointer, from the frame base. */
  function FrameTop(f: Function): int {
    LocalData(f) - 8 * |f.params|
  }

  function BodyStack(f: Function): int {
    16 + 8 * |f.params| - Lowest(f.params + f.locals, 0)
  }

  function ReserveCode(localdata: int): seq<Instr> {
    if localdata != 0 then [AluImm(Sub, 0 - localdata, RSP)] else []
  }

  function PrologueCode(f: Function): seq<Instr>
    requires |f.params| <= 6
  {
    [Push(RBP), MovReg(RSP, RBP)] + SaveArgRegs(|f.params|) + ReserveCode(LocalData(f))
  }

  function FunctionCode(f: Function, body: seq<Instr>): seq<Instr>
    requires |f.params| <= 6
  {
    PrologueCode(f) + body + [Leave, Ret]
  }

  // --------------------------------------------------------- frame safety

  /** Parameters fit a register and locals have a size. */
  predicate Sized(f: Function) {
    (forall i :: 0 <= i < |f.params| ==> 1 <= f.params[i] <= 8) && (forall i :: 0 <= i < |f.locals| ==> 1 <= f.locals[i])
  }

  /** Aligned, below `start`, and each below the one before it. */
  ghost predicate Descending(sizes: seq<int>, offsets: seq<int>, start: int) {
    |offsets| == |sizes| &&
    (forall i :: 0 <= i < |sizes| ==> offsets[i] % 8 == 0 && offsets[i] + sizes[i] <= start) &&
    (forall i, j :: 0 <= i < j < |sizes| ==> offsets[j] + sizes[j] <= offsets[i])
  }

  lemma {:induction false} OffsetsDescend(sizes: seq<int>, start: int)
    requires start % 8 == 0 && forall i :: 0 <= i < |sizes| ==> 1 <= sizes[i]
    ensures Descending(sizes, Offsets(sizes, start), start)
    ensures Lowest(sizes, start) % 8 == 0 && Lowest(sizes, start) <= start
    ensures forall i :: 0 <= i < |sizes| ==> Lowest(sizes, start) <= Offsets(sizes, start)[i]
    decreases |sizes|
  {
    if |sizes| > 0 {
      AlignmentRounds(sizes[0], 8);
      var offset := start - Alignment(sizes[0], 8);
      assert Offsets(sizes, start) == [offset] + Offsets(sizes[1..], offset) && Lowest(sizes, start) == Lowest(sizes[1..], offset);
      hide Alignment, Offsets, Lowest, Descending;
      OffsetsDescend(sizes[1..], offset);
      DescendingCons(sizes, Offsets(sizes[1..], offset), start, offset);
      forall i | 0 <= i < |sizes| ensures Lowest(sizes, start) <= Offsets(sizes, start)[i] {
        if i > 0 {
          assert Offsets(sizes, start)[i] == Offsets(sizes[1..], offset)[i - 1];
        }
      }
    }
  }

  lemma DescendingCons(sizes: seq<int>, rest: seq<int>, start: int, offset: int)
    requires |sizes| > 0 && Descending(sizes[1..], rest, offset) && offset % 8 == 0 && offset + sizes[0] <= start && offset <= start
    ensures Descending(sizes, [offset] + rest, start)
  {
    var all := [offset] + rest;
    forall i | 0 <= i < |sizes| ensures all[i] % 8 == 0 && all[i] + sizes[i] <= start {
      if i > 0 {
        assert sizes[1..][i - 1] == sizes[i] && rest[i - 1] == all[i];
      }
    }
    forall i, j | 0 <= i < j < |sizes| ensures all[j] + sizes[j] <= all[i] {
      assert sizes[1..][j - 1] == sizes[j] && rest[j - 1] == all[j];
      if i > 0 {
        assert rest[i - 1] == all[i];
      }
    }
  }

  lemma {:induction false} RegisterOffsets(sizes: seq<int>, start: int)
    requires forall i :: 0 <= i < |sizes| ==> 1 <= sizes[i] <= 8
    ensures Lowest(sizes, start) == start - 8 * |sizes|
    ensures forall i :: 0 <= i < |sizes| ==> Offsets(sizes, start)[i] == start - 8 * (i + 1)
    decreases |sizes|
  {
    if |sizes| > 0 {
      AlignmentRounds(sizes[0], 8);
      assert Alignment(sizes[0], 8) == 8;
      RegisterOffsets(sizes[1..], start - 8);
      forall i | 0 < i < |sizes| ensures Offsets(sizes, start)[i] == start - 8 * (i + 1) {
        assert Offsets(sizes, start)[i] == Offsets(sizes[1..], start - 8)[i - 1];
      }
    }
  }

  /** The sum of the offsets reaches at least as far down as the last of them. */
  lemma {:induction false} SumReaches(sizes: seq<int>, start: int)
    requires start <= 0 && start % 8 == 0 && forall i :: 0 <= i < |sizes| ==> 1 <= sizes[i]
    ensures Sum(Offsets(sizes, start)) <= 0 && Sum(Offsets(sizes, start)) % 8 == 0
    ensures |sizes| > 0 ==> Sum(Offsets(sizes, start)) <= Lowest(sizes, start)
    decreases |sizes|
  {
    if |sizes| > 0 {
      AlignmentRounds(sizes[0], 8);
      var offset := start - Alignment(sizes[0], 8);
      SumReaches(sizes[1..], offset);
      assert Offsets(sizes, start)[1..] == Offsets(sizes[1..], offset);
    }
  }

  /** For any parameters of size 1 to 8 and any locals: aligned and disjoint slots between
      the frame base and the stack pointer, each parameter's where its push put it. */
  lemma FrameSafety(f: Function)
    requires Sized(f)
    ensures Descending(f.params + f.locals, FrameOffsets(f), 0)
    ensures forall i :: 0 <= i < |f.params| + |f.locals| ==> FrameTop(f) <= Lowest(f.params + f.locals, 0) <= FrameOffsets(f)[i]
    ensures forall i :: 0 <= i < |f.params| ==> FrameOffsets(f)[i] == -8 * (i + 1)
    ensures FrameTop(f) % 8 == 0 && FrameTop(f) <= Lowest(f.params + f.locals, 0) <= -8 * |f.params|
  {
    hide Offsets, Lowest;
    var all := f.params + f.locals;
    forall i | 0 <= i < |all| ensures 1 <= all[i] {
      assert all[i] == if i < |f.params| then f.params[i] else f.locals[i - |f.params|];
    }
    OffsetsAppend(f.params, f.locals, 0);
    RegisterOffsets(f.params, 0);
    OffsetsDescend(all, 0);
    OffsetsDescend(f.locals, -8 * |f.params|);
    SumReaches(f.locals, -8 * |f.params|);
    LowestEmpty(f.locals, -8 * |f.params|);
    assert FrameTop(f) <= Lowest(all, 0);
    forall i | 0 <= i < |f.params| + |f.locals| ensures Lowest(all, 0) <= FrameOffsets(f)[i] {
      assert i < |all|;
    }
    forall i | 0 <= i < |f.params| ensures FrameOffsets(f)[i] == -8 * (i + 1) {
      assert FrameOffsets(f)[i] == Offsets(f.params, 0)[i];
    }
  }

  lemma LowestEmpty(sizes: seq<int>, start: int)
    ensures |sizes| == 0 ==> Lowest(sizes, start) == start && Offsets(sizes, start) == []
  {
  }
}
