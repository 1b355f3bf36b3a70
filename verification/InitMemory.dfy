/** What an initializer list's stores leave. */
module InitMemory {
  import opened Runs
  import opened Grammar
  import opened Layout
  import opened Initializers

  type Bytes = map<int, int>

  /** How many bytes are stored: a float goes through an eight-byte store, too. */
  function Stored(s: Scalar): nat {
    if s.Float? then 8 else Width(s)
  }

  /** Where the leaf after number i starts, or the object ends. */
  function NextStart(leaves: seq<Leaf>, i: nat, hi: int): int
    requires i < |leaves|
  {
    if i + 1 < |leaves| then leaves[i + 1].offset else hi
  }

  /** What is stored in each leaf ends before the next one and inside the object. */
  predicate Roomy(leaves: seq<Leaf>, hi: int) {
    forall i :: 0 <= i < |leaves| ==> leaves[i].offset + Stored(leaves[i].scalar) <= NextStart(leaves, i, hi)
  }

  /** Byte k of a number in two's complement, least significant first. */
  function Byte(v: int, k: nat): int
    decreases k
  {
    if k == 0 then v % 256 else Byte(v / 256, k - 1)
  }

  function Put(mem: Bytes, at: int, v: int, width: nat): (r: Bytes)
    ensures forall a :: a in r <==> a in mem || at <= a < at + width
    ensures forall a :: a in mem && !(at <= a < at + width) ==> r[a] == mem[a]
    ensures forall a :: at <= a < at + width ==> r[a] == Byte(v, a - at)
  {
    if width == 0 then mem else Put(mem, at, v, width - 1)[at + width - 1 := Byte(v, width - 1)]
  }

  function Number(v: Value, meaning: Tree -> int): int {
    match v
    case Given(tree) => meaning(tree)
    case Character(c) => c as int
    case Zero => 0
  }

  /** gen_declaration_initialization, with gen_literal_save for each element. */
  function Run(entries: seq<Entry>, meaning: Tree -> int, mem: Bytes): Bytes
    decreases |entries|
  {
    if |entries| == 0 then mem else
    Run(entries[1..], meaning, Put(mem, entries[0].offset, Number(entries[0].value, meaning), Stored(entries[0].scalar)))
  }

  predicate Holds(mem: Bytes, e: Entry, meaning: Tree -> int) {
    forall a :: e.offset <= a < e.offset + Stored(e.scalar) ==> a in mem && mem[a] == Byte(Number(e.value, meaning), a - e.offset)
  }

  predicate Outside(e: Entry, a: int) {
    a < e.offset || e.offset + Stored(e.scalar) <= a
  }

  predicate Apart(a: Entry, b: Entry) {
    a.offset + Stored(a.scalar) <= b.offset || b.offset + Stored(b.scalar) <= a.offset
  }

  predicate AllApart(entries: seq<Entry>) {
    forall i, j :: 0 <= i < j < |entries| ==> Apart(entries[i], entries[j])
  }

  lemma {:induction false} RunKeeps(entries: seq<Entry>, meaning: Tree -> int, mem: Bytes, a: int)
    requires forall i :: 0 <= i < |entries| ==> Outside(entries[i], a)
    ensures a in Run(entries, meaning, mem) <==> a in mem
    ensures a in mem ==> Run(entries, meaning, mem)[a] == mem[a]
    decreases |entries|
  {
    if |entries| > 0 {
      assert Outside(entries[0], a);
      RunKeeps(entries[1..], meaning, Put(mem, entries[0].offset, Number(entries[0].value, meaning), Stored(entries[0].scalar)), a);
    }
  }

  /** Stores to disjoint places do not disturb each other. */
  lemma {:induction false} RunSets(entries: seq<Entry>, meaning: Tree -> int, mem: Bytes, i: nat)
    requires AllApart(entries) && i < |entries|
    ensures Holds(Run(entries, meaning, mem), entries[i], meaning)
    decreases |entries|
  {
    hide Run, Stored, Byte, Number;
    var e := entries[0];
    var next := Put(mem, e.offset, Number(e.value, meaning), Stored(e.scalar));
    RunFirst(entries, meaning, mem);
    assert forall j :: 0 <= j < |entries| - 1 ==> entries[1..][j] == entries[j + 1];
    if i > 0 {
      RunSets(entries[1..], meaning, next, i - 1);
    } else {
      forall a | e.offset <= a < e.offset + Stored(e.scalar) ensures a in Run(entries, meaning, mem) && Run(entries, meaning, mem)[a] == next[a] {
        forall j | 0 <= j < |entries[1..]| ensures Outside(entries[1..][j], a) {
          assert Apart(entries[0], entries[j + 1]);
        }
        RunKeeps(entries[1..], meaning, next, a);
      }
    }
  }

  lemma RunFirst(entries: seq<Entry>, meaning: Tree -> int, mem: Bytes)
    requires |entries| > 0
    ensures var e := entries[0];
      Run(entries, meaning, mem) == Run(entries[1..], meaning, Put(mem, e.offset, Number(e.value, meaning), Stored(e.scalar)))
  {
  }

  // ------------------------------------------- any order of a cover works

  lemma {:induction false} PlaceAt(entries: seq<Entry>, i: nat)
    requires i < |entries|
    ensures Places(entries)[i] == Leaf(entries[i].offset, entries[i].scalar)
    decreases |entries|
  {
    if i > 0 {
      PlaceAt(entries[1..], i - 1);
    }
  }

  lemma {:induction false} PlacesCount(entries: seq<Entry>, others: seq<Entry>)
    requires multiset(entries) == multiset(others)
    ensures multiset(Places(entries)) == multiset(Places(others))
    decreases |entries|
  {
    if |entries| == 0 {
      assert |others| == |multiset(others)|;
    } else {
      var e := entries[0];
      var k, rest := TakeOut(entries, others);
      PlacesCount(entries[1..], rest);
      assert others == others[..k] + ([e] + others[k + 1..]);
      PlacesAppend(others[..k], [e] + others[k + 1..]);
      PlacesAppend([e], others[k + 1..]);
      PlacesAppend(others[..k], others[k + 1..]);
    }
  }

  /** Where the first entry is in the other order, and the other order without it. */
  lemma TakeOut(entries: seq<Entry>, others: seq<Entry>) returns (k: nat, rest: seq<Entry>)
    requires |entries| > 0 && multiset(entries) == multiset(others)
    ensures k < |others| && others[k] == entries[0] && rest == others[..k] + others[k + 1..]
    ensures multiset(entries[1..]) == multiset(rest)
  {
    var e := entries[0];
    Removed(entries, 0);
    assert entries[..0] + entries[1..] == entries[1..];
    assert e in multiset(others);
    k :| 0 <= k < |others| && others[k] == e;
    rest := others[..k] + others[k + 1..];
    Removed(others, k);
  }

  lemma Removed(s: seq<Entry>, k: nat)
    requires k < |s|
    ensures multiset(s[..k] + s[k + 1..]) == multiset(s) - multiset{s[k]}
  {
    assert s == s[..k] + ([s[k]] + s[k + 1..]);
  }

  lemma WidthPositive(s: Scalar)
    ensures Width(s) > 0
  {
  }

  /** Two different positions of a string of leaves never hold the same leaf. */
  lemma {:induction false} StrungOnce(leaves: seq<Leaf>, lo: int, hi: int, l: Leaf)
    requires Strung(leaves, lo, hi)
    ensures multiset(leaves)[l] <= 1
    decreases |leaves|
  {
    if |leaves| > 0 {
      var n := |leaves| - 1;
      var before := leaves[..n];
      assert leaves == before + [leaves[n]];
      StrungOnce(before, lo, hi, l);
      forall i | 0 <= i < n ensures before[i] != leaves[n] {
        WidthPositive(leaves[i].scalar);
        assert leaves[i].offset + Width(leaves[i].scalar) <= leaves[n].offset;
      }
    }
  }

  lemma {:induction false} TwiceIn(s: seq<Leaf>, i: nat, j: nat)
    requires i < j < |s| && s[i] == s[j]
    ensures multiset(s)[s[i]] >= 2
  {
    assert s == s[..j] + s[j..];
    assert s[i] in s[..j] && s[j] in s[j..];
  }

  /** With room for every store no store reaches another leaf. */
  lemma RoomyApart(leaves: seq<Leaf>, lo: int, hi: int, i: nat, j: nat)
    requires Strung(leaves, lo, hi) && Roomy(leaves, hi) && i < j < |leaves|
    ensures leaves[i].offset + Stored(leaves[i].scalar) <= leaves[j].offset
  {
    assert NextStart(leaves, i, hi) == leaves[i + 1].offset;
    if i + 1 < j {
      assert leaves[i + 1].offset + Width(leaves[i + 1].scalar) <= leaves[j].offset;
    }
  }

  lemma RoomyInside(leaves: seq<Leaf>, lo: int, hi: int, i: nat)
    requires Strung(leaves, lo, hi) && Roomy(leaves, hi) && i < |leaves|
    ensures lo <= leaves[i].offset && leaves[i].offset + Stored(leaves[i].scalar) <= hi
  {
    if i + 1 < |leaves| {
      RoomyApart(leaves, lo, hi, i, i + 1);
    }
  }

  /** Entries in the places of such leaves, in any order, are apart. */
  lemma PermutedApart(entries: seq<Entry>, leaves: seq<Leaf>, lo: int, hi: int)
    requires multiset(Places(entries)) == multiset(leaves) && Strung(leaves, lo, hi) && Roomy(leaves, hi)
    ensures AllApart(entries)
    ensures forall i :: 0 <= i < |entries| ==> lo <= entries[i].offset && entries[i].offset + Stored(entries[i].scalar) <= hi
  {
    hide Strung, Roomy, Stored;
    var places := Places(entries);
    forall i | 0 <= i < |entries|
      ensures lo <= entries[i].offset && entries[i].offset + Stored(entries[i].scalar) <= hi
    {
      PlaceAt(entries, i);
      assert places[i] in multiset(leaves);
      var k :| 0 <= k < |leaves| && leaves[k] == places[i];
      RoomyInside(leaves, lo, hi, k);
    }
    forall i, j | 0 <= i < j < |entries| ensures Apart(entries[i], entries[j]) {
      PlaceAt(entries, i);
      PlaceAt(entries, j);
      PairApart(places, leaves, lo, hi, i, j);
    }
  }

  lemma PairApart(places: seq<Leaf>, leaves: seq<Leaf>, lo: int, hi: int, i: nat, j: nat)
    requires multiset(places) == multiset(leaves) && Strung(leaves, lo, hi) && Roomy(leaves, hi) && i < j < |places|
    ensures places[i].offset + Stored(places[i].scalar) <= places[j].offset || places[j].offset + Stored(places[j].scalar) <= places[i].offset
  {
    hide Strung, Roomy, Stored;
    assert places[i] in multiset(leaves) && places[j] in multiset(leaves);
    var m :| 0 <= m < |leaves| && leaves[m] == places[i];
    var n :| 0 <= n < |leaves| && leaves[n] == places[j];
    if m == n {
      TwiceIn(places, i, j);
      StrungOnce(leaves, lo, hi, places[i]);
    } else if m < n {
      RoomyApart(leaves, lo, hi, m, n);
    } else {
      RoomyApart(leaves, lo, hi, n, m);
    }
  }

  /** Memory at a is as it was, present or absent. */
  predicate SameAt(before: Bytes, after: Bytes, a: int) {
    (a in after <==> a in before) && (a in before ==> after[a] == before[a])
  }

  /** Stores in any order to leaves with room for them: every one holds what it was given,
      and nothing outside changes. */
  lemma RoomyLands(order: seq<Entry>, leaves: seq<Leaf>, lo: int, hi: int, meaning: Tree -> int, mem: Bytes)
    requires multiset(Places(order)) == multiset(leaves) && Strung(leaves, lo, hi) && Roomy(leaves, hi)
    ensures forall i :: 0 <= i < |order| ==> Holds(Run(order, meaning, mem), order[i], meaning)
    ensures forall a :: a < lo || hi <= a ==> SameAt(mem, Run(order, meaning, mem), a)
  {
    hide Run, Places, Holds, Strung, Roomy, Stored;
    PermutedApart(order, leaves, lo, hi);
    forall i | 0 <= i < |order| ensures Holds(Run(order, meaning, mem), order[i], meaning) {
      RunSets(order, meaning, mem, i);
    }
    forall a | a < lo || hi <= a ensures SameAt(mem, Run(order, meaning, mem), a) {
      RunKeeps(order, meaning, mem, a);
    }
  }

  /** Initialization: carrying out a successful initializer's stores, in any order, gives
      every scalar of the object its value or zero and changes no byte outside it, if
      every store has room. */
  lemma InitializedExactly(ts: seq<Token>, t: Type, base: int, order: seq<Entry>, meaning: Tree -> int, mem: Bytes)
    requires Sane(t) && Element(ts, t, base).Some? && multiset(order) == multiset(Element(ts, t, base).value.entries)
    requires Roomy(Leaves(t, base), base + Size(t))
    ensures var after := Run(order, meaning, mem);
      (forall i :: 0 <= i < |order| ==> Holds(after, order[i], meaning)) &&
      (forall a :: a < base || base + Size(t) <= a ==> SameAt(mem, after, a))
    ensures multiset(Places(order)) == multiset(Leaves(t, base))
  {
    hide Element, Leaves, Run, Places, Sane, Size, Holds, Roomy, SameAt;
    var entries := Element(ts, t, base).value.entries;
    Cover(ts, t, base);
    PlacesCount(order, entries);
    LeavesStrung(t, base);
    RoomyLands(order, Leaves(t, base), base, base + Size(t), meaning, mem);
  }

  // ------------------------------------------------------ and only with room

  /** The bytes of the scalar itself. */
  predicate HoldsValue(mem: Bytes, e: Entry, meaning: Tree -> int) {
    forall a :: e.offset <= a < e.offset + Width(e.scalar) ==> a in mem && mem[a] == Byte(Number(e.value, meaning), a - e.offset)
  }

  /** Whatever is stored in the leaves, in whatever order: each holds its value, and
      nothing outside changes. */
  ghost predicate Safe(leaves: seq<Leaf>, lo: int, hi: int) {
    forall order: seq<Entry>, meaning: Tree -> int, mem: Bytes :: multiset(Places(order)) == multiset(leaves) ==>
      (forall i :: 0 <= i < |order| ==> HoldsValue(Run(order, meaning, mem), order[i], meaning)) &&
      (forall a :: a < lo || hi <= a ==> SameAt(mem, Run(order, meaning, mem), a))
  }

  lemma {:induction false} OnesBytes(k: nat)
    ensures Byte(-1, k) == 255
    decreases k
  {
    if k > 0 {
      OnesBytes(k - 1);
    }
  }

  /** Once a byte has been stored it is there. */
  lemma {:induction false} RunReaches(entries: seq<Entry>, meaning: Tree -> int, mem: Bytes, a: int)
    requires a in mem || exists i :: 0 <= i < |entries| && !Outside(entries[i], a)
    ensures a in Run(entries, meaning, mem)
    decreases |entries|
  {
    if |entries| > 0 {
      var e := entries[0];
      var next := Put(mem, e.offset, Number(e.value, meaning), Stored(e.scalar));
      if a !in mem && Outside(e, a) {
        var i :| 0 <= i < |entries| && !Outside(entries[i], a);
        assert entries[1..][i - 1] == entries[i];
      }
      RunReaches(entries[1..], meaning, next, a);
    }
  }

  predicate AllOnes(entries: seq<Entry>, meaning: Tree -> int) {
    forall i :: 0 <= i < |entries| ==> Number(entries[i].value, meaning) == -1
  }

  /** Stores of -1 leave 255 wherever one of them reaches. */
  lemma {:induction false} OnesLast(entries: seq<Entry>, meaning: Tree -> int, mem: Bytes, a: int)
    requires AllOnes(entries, meaning)
    requires (a in mem && mem[a] == 255) || exists i :: 0 <= i < |entries| && !Outside(entries[i], a)
    ensures a in Run(entries, meaning, mem) && Run(entries, meaning, mem)[a] == 255
    decreases |entries|
  {
    if |entries| > 0 {
      var e := entries[0];
      var next := Put(mem, e.offset, -1, Stored(e.scalar));
      assert Number(e.value, meaning) == -1;
      if Outside(e, a) {
        if !(a in mem && mem[a] == 255) {
          var i :| 0 <= i < |entries| && !Outside(entries[i], a);
          assert entries[1..][i - 1] == entries[i];
        }
      } else {
        OnesBytes(a - e.offset);
      }
      OnesLast(entries[1..], meaning, next, a);
    }
  }

  /** -1 in every leaf. */
  function Ones(leaves: seq<Leaf>): (entries: seq<Entry>)
    ensures |entries| == |leaves|
    ensures forall i :: 0 <= i < |leaves| ==> entries[i] == Entry(leaves[i].offset, leaves[i].scalar, Given(Nothing))
  {
    seq(|leaves|, i requires 0 <= i < |leaves| => Entry(leaves[i].offset, leaves[i].scalar, Given(Nothing)))
  }

  lemma OnesPlaces(leaves: seq<Leaf>)
    ensures Places(Ones(leaves)) == leaves
  {
    forall i | 0 <= i < |leaves| ensures Places(Ones(leaves))[i] == leaves[i] {
      PlaceAt(Ones(leaves), i);
    }
  }

  /** A store past the end of the object makes a byte appear there. */
  lemma SpillsOut(leaves: seq<Leaf>, lo: int, hi: int)
    requires Strung(leaves, lo, hi) && |leaves| > 0
    requires var last := leaves[|leaves| - 1]; last.offset + Stored(last.scalar) > hi
    ensures !Safe(leaves, lo, hi)
  {
    hide Run, Places, HoldsValue;
    var order := Ones(leaves);
    var meaning: Tree -> int := t => -1;
    OnesPlaces(leaves);
    assert !Outside(order[|leaves| - 1], hi);
    RunReaches(order, meaning, map[], hi);
    assert !SameAt(map[], Run(order, meaning, map[]), hi);
  }

  /** A store that reaches the next leaf and comes after the next leaf's own spoils it. */
  lemma SpillsOver(leaves: seq<Leaf>, lo: int, hi: int, i: nat)
    requires Strung(leaves, lo, hi) && i + 1 < |leaves| && leaves[i].offset + Stored(leaves[i].scalar) > leaves[i + 1].offset
    ensures !Safe(leaves, lo, hi)
  {
    hide Run, Safe, Strung;
    var l := leaves[i + 1];
    var first := Entry(l.offset, l.scalar, Zero);
    var before, after := leaves[..i + 1], leaves[i + 2..];
    var rest := Ones(before + after);
    var order := [first] + rest;
    var meaning: Tree -> int := t => -1;
    assert leaves == before + ([l] + after);
    OnesPlaces(before + after);
    PlacesAppend([first], rest);
    assert Places([first]) == [l];
    assert Places(order) == [l] + (before + after);
    var mem := Put(map[], l.offset, 0, Stored(l.scalar));
    RunFirst(order, meaning, map[]);
    assert order[1..] == rest && (before + after)[i] == leaves[i];
    Overlaps(leaves, lo, hi, i);
    assert !Outside(rest[i], l.offset);
    OnesLast(rest, meaning, mem, l.offset);
    assert Run(order, meaning, map[])[l.offset] == 255;
    NotHeld(Run(order, meaning, map[]), first, meaning);
    assert order[0] == first && !HoldsValue(Run(order, meaning, map[]), order[0], meaning);
    Unsafe(order, leaves, lo, hi, meaning, map[], 0);
  }

  lemma Overlaps(leaves: seq<Leaf>, lo: int, hi: int, i: nat)
    requires Strung(leaves, lo, hi) && i + 1 < |leaves|
    ensures leaves[i].offset <= leaves[i + 1].offset
  {
  }

  lemma NotHeld(mem: Bytes, e: Entry, meaning: Tree -> int)
    requires e.offset in mem && mem[e.offset] == 255 && e.value == Zero
    ensures !HoldsValue(mem, e, meaning)
  {
    WidthPositive(e.scalar);
    assert Byte(0, 0) == 0;
  }

  lemma Unsafe(order: seq<Entry>, leaves: seq<Leaf>, lo: int, hi: int, meaning: Tree -> int, mem: Bytes, i: nat)
    requires multiset(Places(order)) == multiset(leaves) && i < |order| && !HoldsValue(Run(order, meaning, mem), order[i], meaning)
    ensures !Safe(leaves, lo, hi)
  {
    hide Run, Places, HoldsValue;
  }

  lemma RoomySafe(leaves: seq<Leaf>, lo: int, hi: int)
    requires Strung(leaves, lo, hi) && Roomy(leaves, hi)
    ensures Safe(leaves, lo, hi)
  {
    hide Strung, Roomy, Run, Places, HoldsValue, Holds, SameAt;
    forall order: seq<Entry>, meaning: Tree -> int, mem: Bytes | multiset(Places(order)) == multiset(leaves)
      ensures forall i :: 0 <= i < |order| ==> HoldsValue(Run(order, meaning, mem), order[i], meaning)
      ensures forall a :: a < lo || hi <= a ==> SameAt(mem, Run(order, meaning, mem), a)
    {
      RoomyLands(order, leaves, lo, hi, meaning, mem);
      forall i | 0 <= i < |order| ensures HoldsValue(Run(order, meaning, mem), order[i], meaning) {
        HoldsMore(Run(order, meaning, mem), order[i], meaning);
      }
    }
  }

  lemma HoldsMore(mem: Bytes, e: Entry, meaning: Tree -> int)
    requires Holds(mem, e, meaning)
    ensures HoldsValue(mem, e, meaning)
  {
  }

  /** Initializing a string of leaves is safe, whatever the values and their order, exactly
      when every store has room. */
  lemma SafeExactly(leaves: seq<Leaf>, lo: int, hi: int)
    requires Strung(leaves, lo, hi)
    ensures Safe(leaves, lo, hi) <==> Roomy(leaves, hi)
  {
    hide Safe, Strung;
    if Roomy(leaves, hi) {
      RoomySafe(leaves, lo, hi);
    } else {
      var i :| 0 <= i < |leaves| && leaves[i].offset + Stored(leaves[i].scalar) > NextStart(leaves, i, hi);
      if i + 1 < |leaves| {
        SpillsOver(leaves, lo, hi, i);
      } else {
        SpillsOut(leaves, lo, hi);
      }
    }
  }

  /** Without floats there is always room. */
  lemma NoFloatRoomy(leaves: seq<Leaf>, lo: int, hi: int)
    requires Strung(leaves, lo, hi) && forall i :: 0 <= i < |leaves| ==> !leaves[i].scalar.Float?
    ensures Roomy(leaves, hi)
  {
  }

  /** A float before a long has room for its eight bytes; a float alone and a float before
      an int have not. */
  lemma FloatSpills(base: int)
    ensures Safe([Leaf(base, Float), Leaf(base + 8, Long)], base, base + 16)
    ensures !Safe([Leaf(base, Float)], base, base + 4)
    ensures !Safe([Leaf(base, Float), Leaf(base + 4, Int)], base, base + 8)
  {
    hide Safe;
    var long, alone, int4 := [Leaf(base, Float), Leaf(base + 8, Long)], [Leaf(base, Float)], [Leaf(base, Float), Leaf(base + 4, Int)];
    SafeExactly(long, base, base + 16);
    SafeExactly(alone, base, base + 4);
    SafeExactly(int4, base, base + 8);
    assert NextStart(alone, 0, base + 4) == base + 4 && NextStart(int4, 0, base + 8) == base + 4;
  }
}
