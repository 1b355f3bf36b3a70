/** Where fields and the scalars in an object lie. */
module Layout {
  import opened Words
  import opened Runs

  datatype Scalar = Char | Short | Int | Long | Float | Double | Pointer

  datatype Type =
    | Basic(scalar: Scalar)
    | ArrayOf(element: Type, length: nat)
    | Structure(fields: seq<Field>, size: nat, isStruct: bool)

  datatype Field = Field(name: string, kind: Type, offset: nat)

  /** A member declarator, or a structure or union without one, whose members become
      members of the enclosing one. */
  datatype Declared = Declared(name: string, kind: Type) | Anonymous(kind: Type)

  function Width(s: Scalar): nat {
    match s
    case Char => 1
    case Short => 2
    case Int => 4
    case Long => 8
    case Float => 4
    case Double => 8
    case Pointer => 8
  }

  function Size(t: Type): nat {
    match t
    case Basic(s) => Width(s)
    case ArrayOf(e, n) => n * Size(e)
    case Structure(_, size, _) => size
  }

  const ALIGNMENT: nat := 16

  function Min(a: nat, b: nat): nat { if a < b then a else b }

  function Max(a: nat, b: nat): nat { if a < b then b else a }

  /** The bytes skipped so that a field of this size starts at a multiple of its size, or
      of 16 if it is larger. */
  function Padding(offset: nat, size: nat): nat
    requires size > 0
  {
    var align := Min(size, ALIGNMENT);
    if offset % align == 0 then 0 else align - offset % align
  }

  predicate IsDeclarable(d: Declared) {
    match d
    case Declared(_, kind) => Size(kind) > 0
    case Anonymous(kind) => kind.Structure?
  }

  predicate Declarable(decls: seq<Declared>) {
    forall i :: 0 <= i < |decls| ==> IsDeclarable(decls[i])
  }

  /** Where a member goes when those before it end here; an anonymous structure goes here
      unpadded. */
  function StartOf(end: nat, d: Declared): nat
    requires IsDeclarable(d)
  {
    if d.Declared? then end + Padding(end, Size(d.kind)) else end
  }

  function Shifted(fields: seq<Field>, shift: nat): (r: seq<Field>)
    ensures |r| == |fields|
    ensures forall i :: 0 <= i < |fields| ==> r[i] == Field(fields[i].name, fields[i].kind, fields[i].offset + shift)
  {
    seq(|fields|, i requires 0 <= i < |fields| => Field(fields[i].name, fields[i].kind, fields[i].offset + shift))
  }

  /** What a member that starts here adds. */
  function FieldsOf(d: Declared, start: nat): seq<Field>
    requires IsDeclarable(d)
  {
    if d.Declared? then [Field(d.name, d.kind, start)] else Shifted(d.kind.fields, start)
  }

  /** The fields one after another. */
  function Placed(decls: seq<Declared>): (fields: seq<Field>)
    requires Declarable(decls)
    decreases |decls|, 1
  {
    if |decls| == 0 then [] else
    var last := decls[|decls| - 1];
    var before := decls[..|decls| - 1];
    Placed(before) + FieldsOf(last, StartOf(EndOf(before), last))
  }

  function EndOf(decls: seq<Declared>): nat
    requires Declarable(decls)
    decreases |decls|, 0
  {
    if |decls| == 0 then 0 else
    var last := decls[|decls| - 1];
    StartOf(EndOf(decls[..|decls| - 1]), last) + Size(last.kind)
  }

  function Overlaid(decls: seq<Declared>): seq<Field>
    requires Declarable(decls)
  {
    if |decls| == 0 then [] else Overlaid(decls[..|decls| - 1]) + FieldsOf(decls[|decls| - 1], 0)
  }

  function Largest(decls: seq<Declared>): nat {
    if |decls| == 0 then 0 else Max(Largest(decls[..|decls| - 1]), Size(decls[|decls| - 1].kind))
  }

  /** One more member. */
  lemma {:induction false} PrefixSteps(before: seq<Declared>, d: Declared)
    requires Declarable(before) && IsDeclarable(d)
    ensures Declarable(before + [d])
    ensures Placed(before + [d]) == Placed(before) + FieldsOf(d, StartOf(EndOf(before), d))
    ensures EndOf(before + [d]) == StartOf(EndOf(before), d) + Size(d.kind)
    ensures Overlaid(before + [d]) == Overlaid(before) + FieldsOf(d, 0)
    ensures Largest(before + [d]) == Max(Largest(before), Size(d.kind))
  {
    hide Size, Padding, FieldsOf;
    var all := before + [d];
    assert all[..|all| - 1] == before;
    assert forall i :: 0 <= i < |before| ==> all[i] == before[i];
  }

  /** What one member adds at `end`. */
  lemma OneStep(d: Declared, end: nat)
    requires IsDeclarable(d)
    ensures d.Anonymous? ==> StartOf(end, d) == end && FieldsOf(d, end) == Shifted(d.kind.fields, end)
    ensures d.Declared? ==> Size(d.kind) > 0 && StartOf(end, d) == end + Padding(end, Size(d.kind))
    ensures d.Declared? ==> FieldsOf(d, end) == [Field(d.name, d.kind, end)]
    ensures d.Declared? ==> FieldsOf(d, StartOf(end, d)) == [Field(d.name, d.kind, end + Padding(end, Size(d.kind)))]
  {
  }

  /** parse_memory_fields_squash: inserts copies of the fields, each moved. */
  method Squash(table: seq<Field>, fields: seq<Field>, offset: nat) returns (r: seq<Field>)
    ensures r == table + Shifted(fields, offset)
  {
    r := table;
    for i := 0 to |fields|
      invariant r == table + Shifted(fields, offset)[..i]
    {
      r := r + [fields[i].(offset := fields[i].offset + offset)];
      assert Shifted(fields, offset)[..i + 1] == Shifted(fields, offset)[..i] + [Shifted(fields, offset)[i]];
    }
    assert Shifted(fields, offset)[..|fields|] == Shifted(fields, offset);
  }

  /** parse_memory_fields. */
  method LayOut(decls: seq<Declared>, isStruct: bool) returns (fields: seq<Field>, size: nat)
    requires Declarable(decls)
    ensures fields == if isStruct then Placed(decls) else Overlaid(decls)
    ensures size == if isStruct then EndOf(decls) else Largest(decls)
  {
    var offset, maxsize := 0, 0;
    fields := [];
    assert Placed([]) == [] && EndOf([]) == 0 && Overlaid([]) == [] && Largest([]) == 0;
    hide Size, Padding, Placed, EndOf, Overlaid, Largest, StartOf, FieldsOf, Shifted, Max;
    for i := 0 to |decls|
      invariant Declarable(decls[..i])
      invariant isStruct ==> fields == Placed(decls[..i]) && offset == EndOf(decls[..i])
      invariant !isStruct ==> fields == Overlaid(decls[..i]) && maxsize == Largest(decls[..i]) && offset == 0
    {
      var d := decls[i];
      var size := Size(d.kind);
      PrefixSteps(decls[..i], d);
      OneStep(d, offset);
      OneStep(d, 0);
      assert decls[..i + 1] == decls[..i] + [d];
      if d.Anonymous? {
        fields := Squash(fields, d.kind.fields, offset);
        if isStruct {
          offset := offset + size;
        } else {
          maxsize := Max(maxsize, size);
        }
      } else if isStruct {
        offset := offset + Padding(offset, size);
        fields := fields + [Field(d.name, d.kind, offset)];
        offset := offset + size;
      } else {
        maxsize := Max(maxsize, size);
        fields := fields + [Field(d.name, d.kind, 0)];
      }
    }
    assert decls[..|decls|] == decls;
    size := if isStruct then offset else maxsize;
  }

  /** Offsets ascend, fields do not overlap and end inside the structure. */
  predicate Ascending(fields: seq<Field>, size: nat) {
    (forall i :: 0 <= i < |fields| ==> fields[i].offset + Size(fields[i].kind) <= size) &&
    forall i, j :: 0 <= i < j < |fields| ==> fields[i].offset + Size(fields[i].kind) <= fields[j].offset
  }

  lemma PaddingAligns(offset: nat, size: nat)
    requires size > 0
    ensures (offset + Padding(offset, size)) % Min(size, ALIGNMENT) == 0 && Padding(offset, size) < Min(size, ALIGNMENT)
  {
    var a := Min(size, ALIGNMENT);
    var q, r := offset / a, offset % a;
    assert offset == a * q + r;
    if r != 0 {
      assert offset + Padding(offset, size) == a * (q + 1);
      DivUnique(a * (q + 1), a, q + 1, 0);
    }
  }

  predicate Inside(fields: seq<Field>, size: nat) {
    forall i :: 0 <= i < |fields| ==> fields[i].offset + Size(fields[i].kind) <= size
  }

  /** The members of each anonymous structure or union are inside it. */
  predicate InnerInside(decls: seq<Declared>) {
    forall i :: 0 <= i < |decls| && decls[i].Anonymous? && decls[i].kind.Structure? ==> Inside(decls[i].kind.fields, decls[i].kind.size)
  }

  predicate InnerAscending(decls: seq<Declared>) {
    forall i :: 0 <= i < |decls| && decls[i].Anonymous? && decls[i].kind.Structure? ==> Ascending(decls[i].kind.fields, decls[i].kind.size)
  }

  lemma {:induction false} PrefixDeclarable(decls: seq<Declared>, k: nat)
    requires Declarable(decls) && k <= |decls|
    ensures Declarable(decls[..k])
    ensures InnerInside(decls) ==> InnerInside(decls[..k])
    ensures InnerAscending(decls) ==> InnerAscending(decls[..k])
  {
    assert forall i :: 0 <= i < k ==> decls[..k][i] == decls[i];
  }

  /** The last member. */
  lemma {:induction false} LastStep(decls: seq<Declared>)
    requires Declarable(decls) && |decls| > 0
    ensures var n := |decls| - 1;
      Declarable(decls[..n]) && IsDeclarable(decls[n]) &&
      Placed(decls) == Placed(decls[..n]) + FieldsOf(decls[n], StartOf(EndOf(decls[..n]), decls[n])) &&
      Overlaid(decls) == Overlaid(decls[..n]) + FieldsOf(decls[n], 0) &&
      EndOf(decls) == StartOf(EndOf(decls[..n]), decls[n]) + Size(decls[n].kind) && EndOf(decls[..n]) <= StartOf(EndOf(decls[..n]), decls[n])
  {
    hide Size, FieldsOf, Padding;
    StartNotBefore(EndOf(decls[..|decls| - 1]), decls[|decls| - 1]);
  }

  lemma {:induction false} FieldsNotBefore(d: Declared, start: nat)
    requires IsDeclarable(d)
    ensures forall i :: 0 <= i < |FieldsOf(d, start)| ==> start <= FieldsOf(d, start)[i].offset
  {
  }

  lemma {:induction false} FieldsInside(d: Declared, start: nat)
    requires IsDeclarable(d) && (d.Anonymous? ==> Inside(d.kind.fields, d.kind.size))
    ensures Inside(FieldsOf(d, start), start + Size(d.kind))
  {
  }

  lemma StartNotBefore(end: nat, d: Declared)
    requires IsDeclarable(d)
    ensures end <= StartOf(end, d)
  {
    hide Size;
    if d.Declared? {
      PaddingAligns(end, Size(d.kind));
    }
  }

  /** Structure layout: whatever is anonymous, all members end inside the structure. */
  lemma {:induction false} PlacedInside(decls: seq<Declared>)
    requires Declarable(decls) && InnerInside(decls)
    ensures Inside(Placed(decls), EndOf(decls))
    decreases |decls|
  {
    if |decls| > 0 {
      var k := |decls| - 1;
      PrefixDeclarable(decls, k);
      PlacedInside(decls[..k]);
      LastStep(decls);
      FieldsInside(decls[k], StartOf(EndOf(decls[..k]), decls[k]));
      hide Placed, EndOf, Size, StartOf, FieldsOf;
    }
  }

  /** Members declared later lie after those declared before: the fields of the first k
      declarations come first and end before any other starts. */
  lemma {:induction false} GroupsApart(decls: seq<Declared>, k: nat)
    requires Declarable(decls) && k <= |decls|
    ensures Declarable(decls[..k]) && Placed(decls[..k]) <= Placed(decls) && EndOf(decls[..k]) <= EndOf(decls)
    ensures forall i :: |Placed(decls[..k])| <= i < |Placed(decls)| ==> EndOf(decls[..k]) <= Placed(decls)[i].offset
    decreases |decls|
  {
    hide Placed, EndOf, Size, StartOf, FieldsOf, Overlaid;
    PrefixDeclarable(decls, k);
    if k == |decls| {
      assert decls[..k] == decls;
    } else {
      var n := |decls| - 1;
      LastStep(decls);
      GroupsApart(decls[..n], k);
      assert decls[..n][..k] == decls[..k];
      FieldsNotBefore(decls[n], StartOf(EndOf(decls[..n]), decls[n]));
    }
  }

  /** Where anonymous members are structures, offsets ascend without overlap. */
  lemma {:induction false} PlacedAscends(decls: seq<Declared>)
    requires Declarable(decls) && InnerAscending(decls)
    ensures Ascending(Placed(decls), EndOf(decls))
    decreases |decls|
  {
    if |decls| > 0 {
      var k := |decls| - 1;
      PrefixDeclarable(decls, k);
      PlacedAscends(decls[..k]);
      LastStep(decls);
      hide Placed, EndOf, Size, StartOf, FieldsOf, Overlaid, Ascending;
      AscendingAppend(Placed(decls[..k]), EndOf(decls[..k]), decls[k], StartOf(EndOf(decls[..k]), decls[k]));
    }
  }

  lemma {:induction false} AscendingAppend(fields: seq<Field>, end: nat, d: Declared, start: nat)
    requires Ascending(fields, end) && end <= start && IsDeclarable(d) && (d.Anonymous? ==> Ascending(d.kind.fields, d.kind.size))
    ensures Ascending(fields + FieldsOf(d, start), start + Size(d.kind))
  {
    var more := FieldsOf(d, start);
    if d.Anonymous? {
      assert forall i :: 0 <= i < |more| ==> more[i].offset == d.kind.fields[i].offset + start && more[i].kind == d.kind.fields[i].kind;
    }
  }

  /** The members as declared, those of anonymous structures in their place. */
  function AllMembers(decls: seq<Declared>): seq<Declared> {
    if |decls| == 0 then [] else AllMembers(decls[..|decls| - 1]) + MembersOf(decls[|decls| - 1])
  }

  function MembersOf(d: Declared): seq<Declared> {
    if d.Declared? then [d]
    else if !d.kind.Structure? then []
    else seq(|d.kind.fields|, i requires 0 <= i < |d.kind.fields| => Declared(d.kind.fields[i].name, d.kind.fields[i].kind))
  }

  /** The fields of these names and types. */
  predicate Keeps(fields: seq<Field>, members: seq<Declared>) {
    |fields| == |members| && forall i :: 0 <= i < |members| ==> members[i] == Declared(fields[i].name, fields[i].kind)
  }

  lemma {:induction false} FieldsMembers(d: Declared, start: nat)
    requires IsDeclarable(d)
    ensures Keeps(FieldsOf(d, start), MembersOf(d))
  {
  }

  lemma {:induction false} JoinedMembers(a: seq<Field>, b: seq<Field>, ms: seq<Declared>, ns: seq<Declared>)
    requires Keeps(a, ms) && Keeps(b, ns)
    ensures Keeps(a + b, ms + ns)
  {
  }

  /** Each keeps its name and type, in structures and unions alike. */
  lemma {:induction false} PlacedMembers(decls: seq<Declared>)
    requires Declarable(decls)
    ensures Keeps(Placed(decls), AllMembers(decls)) && Keeps(Overlaid(decls), AllMembers(decls))
    decreases |decls|
  {
    if |decls| > 0 {
      var n := |decls| - 1;
      PlacedMembers(decls[..n]) by { LastStep(decls); }
      LastStep(decls);
      var start := StartOf(EndOf(decls[..n]), decls[n]);
      FieldsMembers(decls[n], start);
      FieldsMembers(decls[n], 0);
      var ms := MembersOf(decls[n]);
      assert AllMembers(decls) == AllMembers(decls[..n]) + ms;
      hide Placed, EndOf, Size, StartOf, FieldsOf, Overlaid, AllMembers, MembersOf, Declarable;
      JoinedMembers(Placed(decls[..n]), FieldsOf(decls[n], start), AllMembers(decls[..n]), ms);
      JoinedMembers(Overlaid(decls[..n]), FieldsOf(decls[n], 0), AllMembers(decls[..n]), ms);
    }
  }

  // ------------------------------------------------------------ alignment

  predicate SizedFields(fields: seq<Field>) {
    forall i :: 0 <= i < |fields| ==> Size(fields[i].kind) > 0
  }

  predicate Aligns(offset: nat, t: Type)
    requires Size(t) > 0
  {
    offset % Min(Size(t), ALIGNMENT) == 0
  }

  /** Every field is at a multiple of its size, or of 16 if it is larger. */
  predicate AllAligned(fields: seq<Field>)
    requires SizedFields(fields)
  {
    forall i :: 0 <= i < |fields| ==> Aligns(fields[i].offset, fields[i].kind)
  }

  /** Inside itself each anonymous structure is aligned. */
  predicate InnerAligned(decls: seq<Declared>) {
    forall i :: 0 <= i < |decls| && decls[i].Anonymous? && decls[i].kind.Structure? ==>
      SizedFields(decls[i].kind.fields) && AllAligned(decls[i].kind.fields)
  }

  predicate InnerSized(decls: seq<Declared>) {
    forall i :: 0 <= i < |decls| && decls[i].Anonymous? && decls[i].kind.Structure? ==> SizedFields(decls[i].kind.fields)
  }

  /** Where an anonymous structure is met, each of its members comes to an aligned place. */
  predicate MetAligned(decls: seq<Declared>, i: nat)
    requires Declarable(decls) && InnerSized(decls) && i < |decls|
  {
    PrefixDeclarable(decls, i);
    decls[i].Anonymous? ==>
      forall k :: 0 <= k < |decls[i].kind.fields| ==>
        Aligns(EndOf(decls[..i]) + decls[i].kind.fields[k].offset, decls[i].kind.fields[k].kind)
  }

  /** If it is aligned inside itself, that means that each of them could start there. */
  lemma {:induction false} MetExactly(decls: seq<Declared>, i: nat)
    requires Declarable(decls) && InnerAligned(decls) && i < |decls| && decls[i].Anonymous?
    ensures Declarable(decls[..i])
    ensures MetAligned(decls, i) <==>
      forall k :: 0 <= k < |decls[i].kind.fields| ==> Aligns(EndOf(decls[..i]), decls[i].kind.fields[k].kind)
  {
    hide Size, Aligns;
    PrefixDeclarable(decls, i);
    var fields := decls[i].kind.fields;
    forall k | 0 <= k < |fields|
      ensures Aligns(EndOf(decls[..i]) + fields[k].offset, fields[k].kind) <==> Aligns(EndOf(decls[..i]), fields[k].kind)
    {
      AlignsShift(fields[k].offset, EndOf(decls[..i]), fields[k].kind);
    }
  }

  lemma AlignsShift(offset: nat, shift: nat, t: Type)
    requires Size(t) > 0 && Aligns(offset, t)
    ensures Aligns(offset + shift, t) <==> Aligns(shift, t)
  {
    hide Size;
    MultipleShift(offset, shift, Min(Size(t), ALIGNMENT));
  }

  lemma MultipleShift(x: nat, y: nat, a: nat)
    requires a > 0 && x % a == 0
    ensures (x + y) % a == y % a
  {
    var p, q, r := x / a, y / a, y % a;
    assert x == a * p && y == a * q + r;
    assert a * (p + q) == a * p + a * q;
    DivUnique(x + y, a, p + q, r);
  }

  lemma {:induction false} GroupAligned(d: Declared, end: nat)
    requires IsDeclarable(d) && (d.Anonymous? ==> SizedFields(d.kind.fields))
    ensures var more := FieldsOf(d, StartOf(end, d));
      SizedFields(more) &&
      (AllAligned(more) <==>
        (d.Anonymous? ==> forall k :: 0 <= k < |d.kind.fields| ==> Aligns(end + d.kind.fields[k].offset, d.kind.fields[k].kind)))
  {
    hide Size;
    var more := FieldsOf(d, StartOf(end, d));
    if d.Declared? {
      PaddingAligns(end, Size(d.kind));
    } else {
      assert forall k :: 0 <= k < |more| ==> more[k].kind == d.kind.fields[k].kind && more[k].offset == end + d.kind.fields[k].offset;
    }
  }

  /** A structure's members are all aligned exactly when every anonymous structure in it is
      met at an offset that brings each of its members to an aligned place. */
  lemma {:induction false} PlacedAligned(decls: seq<Declared>)
    requires Declarable(decls) && InnerSized(decls)
    ensures SizedFields(Placed(decls))
    ensures AllAligned(Placed(decls)) <==> forall i :: 0 <= i < |decls| ==> MetAligned(decls, i)
    decreases |decls|
  {
    hide Size, Aligns, FieldsOf, StartOf;
    if |decls| > 0 {
      var n := |decls| - 1;
      var before := decls[..n];
      PrefixDeclarable(decls, n);
      PlacedAligned(before);
      LastStep(decls);
      GroupAligned(decls[n], EndOf(before));
      hide Placed, EndOf, Overlaid;
      forall i | 0 <= i < n ensures MetAligned(before, i) <==> MetAligned(decls, i) {
        assert before[..i] == decls[..i] && before[i] == decls[i];
      }
      AlignedAppend(Placed(before), FieldsOf(decls[n], StartOf(EndOf(before), decls[n])));
      assert MetAligned(decls, n) <==> AllAligned(FieldsOf(decls[n], StartOf(EndOf(before), decls[n])));
    }
  }

  lemma {:induction false} AlignedAppend(a: seq<Field>, b: seq<Field>)
    requires SizedFields(a) && SizedFields(b)
    ensures SizedFields(a + b) && (AllAligned(a + b) <==> AllAligned(a) && AllAligned(b))
  {
    hide Size, Aligns;
    if AllAligned(a + b) {
      forall i | 0 <= i < |a| ensures Aligns(a[i].offset, a[i].kind) {
        assert (a + b)[i] == a[i];
      }
      forall i | 0 <= i < |b| ensures Aligns(b[i].offset, b[i].kind) {
        assert (a + b)[|a| + i] == b[i];
      }
    }
  }

  /** One declared member at the start of a structure. */
  lemma {:induction false} OneMember(d: Declared)
    requires d.Declared? && Size(d.kind) > 0
    ensures Declarable([d]) && Placed([d]) == [Field(d.name, d.kind, 0)] && EndOf([d]) == Size(d.kind)
  {
    hide Size;
    assert Placed([]) == [] && EndOf([]) == 0 && Padding(0, Size(d.kind)) == 0;
    PrefixSteps([], d);
    assert [] + [d] == [d];
  }

  /** An anonymous structure after one member starts right where that ends. */
  lemma {:induction false} AfterOne(c: Declared, outer: Declared)
    requires c.Declared? && Size(c.kind) > 0 && outer.Anonymous? && outer.kind.Structure?
    ensures Declarable([c, outer]) && EndOf([c, outer]) == Size(c.kind) + outer.kind.size
    ensures Placed([c, outer]) == [Field(c.name, c.kind, 0)] + Shifted(outer.kind.fields, Size(c.kind))
  {
    OneMember(c);
    assert [c] + [outer] == [c, outer];
    OneStep(outer, Size(c.kind));
    SizeOfStructure(outer.kind);
    hide *;
    PrefixSteps([c], outer);
  }

  /** In struct { char c; struct { long x; }; } the long is at offset 1. */
  lemma {:induction false} AnonymousUnaligned(c: Declared, x: Declared, outer: Declared)
    requires c == Declared("c", Basic(Char)) && x == Declared("x", Basic(Long)) && Declarable([x])
    requires outer == Anonymous(Structure(Placed([x]), EndOf([x]), true))
    ensures Declarable([c, outer]) && Placed([c, outer]) == [Field("c", Basic(Char), 0), Field("x", Basic(Long), 1)]
    ensures EndOf([c, outer]) == 9 && SizedFields(Placed([c, outer])) && !AllAligned(Placed([c, outer]))
  {
    hide *;
    CharAndLong(c.kind, x.kind);
    OneMember(x);
    AfterOne(c, outer);
    OneShifted(x, Placed([x]));
    assert Placed([c, outer]) == [Field("c", Basic(Char), 0), Field("x", Basic(Long), 1)];
    LongUnaligned(Placed([c, outer]), Field("c", Basic(Char), 0), Field("x", Basic(Long), 1));
  }

  lemma CharAndLong(c: Type, x: Type)
    requires c == Basic(Char) && x == Basic(Long)
    ensures Size(c) == 1 && Size(x) == 8
  {
  }

  lemma OneShifted(x: Declared, fields: seq<Field>)
    requires x.Declared? && fields == [Field(x.name, x.kind, 0)]
    ensures Shifted(fields, 1) == [Field(x.name, x.kind, 1)]
  {
  }

  lemma SizeOfStructure(t: Type)
    requires t.Structure?
    ensures Size(t) == t.size
  {
  }

  lemma {:induction false} LongUnaligned(fields: seq<Field>, a: Field, b: Field)
    requires fields == [a, b] && a.kind == Basic(Char) && b.kind == Basic(Long) && b.offset == 1
    ensures SizedFields(fields) && !AllAligned(fields)
  {
    assert !Aligns(fields[1].offset, fields[1].kind);
  }

  /** A union's members all start at its start, those of an anonymous structure where they
      are in it, and end inside it. */
  lemma {:induction false} OverlaidInside(decls: seq<Declared>)
    requires Declarable(decls) && InnerInside(decls)
    ensures Inside(Overlaid(decls), Largest(decls))
    ensures (forall i :: 0 <= i < |decls| ==> decls[i].Declared?) ==> forall i :: 0 <= i < |Overlaid(decls)| ==> Overlaid(decls)[i].offset == 0
    ensures forall i :: 0 <= i < |decls| ==> Size(decls[i].kind) <= Largest(decls)
    decreases |decls|
  {
    if |decls| > 0 {
      var before := decls[..|decls| - 1];
      PrefixDeclarable(decls, |decls| - 1);
      OverlaidInside(before);
      FieldsInside(decls[|decls| - 1], 0);
      assert forall i :: 0 <= i < |before| ==> before[i] == decls[i];
      hide Size;
    }
  }

  // -------------------------------------------------------------- scalars

  datatype Leaf = Leaf(offset: int, scalar: Scalar)

  /** The scalars of an object at `base`, in order. */
  function Leaves(t: Type, base: int): seq<Leaf>
    decreases t, 0
  {
    match t
    case Basic(s) => [Leaf(base, s)]
    case ArrayOf(_, n) => ArrayLeaves(t, n, base)
    case Structure(fields, _, _) => FieldLeaves(t, |fields|, base)
  }

  /** Those of an array's first n elements, and of a structure's first n fields. */
  function ArrayLeaves(t: Type, n: nat, base: int): seq<Leaf>
    requires t.ArrayOf?
    decreases t, 0, n
  {
    if n == 0 then [] else ArrayLeaves(t, n - 1, base) + Leaves(t.element, base + Size(t.element) * (n - 1))
  }

  function FieldLeaves(t: Type, n: nat, base: int): seq<Leaf>
    requires t.Structure? && n <= |t.fields|
    decreases t, 0, n
  {
    if n == 0 then [] else FieldLeaves(t, n - 1, base) + Leaves(t.fields[n - 1].kind, base + t.fields[n - 1].offset)
  }

  /** Built by this layout from structures, arrays and scalars, without unions, and with
      distinct field names. */
  predicate Sane(t: Type) {
    match t
    case Basic(_) => true
    case ArrayOf(e, _) => Sane(e)
    case Structure(fields, size, isStruct) =>
      isStruct && Ascending(fields, size) && Distinct(fields) && forall i :: 0 <= i < |fields| ==> Sane(fields[i].kind)
  }

  predicate Distinct(fields: seq<Field>) {
    forall i, j :: 0 <= i < j < |fields| ==> fields[i].name != fields[j].name
  }

  /** In order and disjoint, from lo up to hi. */
  predicate Strung(leaves: seq<Leaf>, lo: int, hi: int) {
    (forall i :: 0 <= i < |leaves| ==> lo <= leaves[i].offset && leaves[i].offset + Width(leaves[i].scalar) <= hi) &&
    forall i, j :: 0 <= i < j < |leaves| ==> leaves[i].offset + Width(leaves[i].scalar) <= leaves[j].offset
  }

  lemma StrungAppend(a: seq<Leaf>, b: seq<Leaf>, lo: int, mid: int, mid': int, hi: int)
    requires Strung(a, lo, mid) && Strung(b, mid', hi) && lo <= mid <= mid' <= hi
    ensures Strung(a + b, lo, hi)
  {
  }

  /** The scalars of an object are disjoint, ascend, and fill no byte outside it. */
  lemma {:induction false} LeavesStrung(t: Type, base: int)
    requires Sane(t)
    ensures Strung(Leaves(t, base), base, base + Size(t))
    decreases t, 0
  {
    match t {
      case Basic(_) =>
      case ArrayOf(_, n) => ArrayStrung(t, n, base);
      case Structure(fields, size, _) => FieldsStrung(t, |fields|, base, size);
    }
  }

  lemma {:induction false} ArrayStrung(t: Type, n: nat, base: int)
    requires t.ArrayOf? && Sane(t)
    ensures Strung(ArrayLeaves(t, n, base), base, base + n * Size(t.element))
    decreases t, 0, n
  {
    if n == 0 {
      assert ArrayLeaves(t, n, base) == [];
    } else {
      ArrayLevel(t, n, base);
      hide *;
      var s := Size(t.element);
      var at := base + s * (n - 1);
      Times(n, s);
      ArrayStrung(t, n - 1, base);
      LeavesStrung(t.element, at);
      StrungAppend(ArrayLeaves(t, n - 1, base), Leaves(t.element, at), base, base + (n - 1) * s, at, at + s);
    }
  }

  lemma {:induction false} ArrayLevel(t: Type, n: nat, base: int)
    requires t.ArrayOf? && Sane(t) && n > 0
    ensures ArrayLeaves(t, n, base) == ArrayLeaves(t, n - 1, base) + Leaves(t.element, base + Size(t.element) * (n - 1)) && Sane(t.element)
  {
  }

  lemma Times(n: nat, s: nat)
    requires n > 0
    ensures (n - 1) * s == s * (n - 1) && n * s == s * (n - 1) + s && s * (n - 1) >= 0
  {
  }

  lemma {:induction false} FieldsStrung(t: Type, n: nat, base: int, end: nat)
    requires t.Structure? && Sane(t) && n <= |t.fields| && (forall i :: 0 <= i < n ==> t.fields[i].offset + Size(t.fields[i].kind) <= end)
    ensures Strung(FieldLeaves(t, n, base), base, base + end)
    decreases t, 0, n
  {
    if n == 0 {
      assert FieldLeaves(t, n, base) == [];
    } else {
      FieldsLevelHere(t, n, base);
      hide *;
      var f := t.fields[n - 1];
      FieldsStrung(t, n - 1, base, f.offset);
      LeavesStrung(f.kind, base + f.offset);
      StrungAppend(FieldLeaves(t, n - 1, base), Leaves(f.kind, base + f.offset), base, base + f.offset, base + f.offset, base + f.offset + Size(f.kind));
      StrungWider(FieldLeaves(t, n, base), base, base + f.offset + Size(f.kind), base + end);
    }
  }

  lemma {:induction false} FieldsLevelHere(t: Type, n: nat, base: int)
    requires t.Structure? && Sane(t) && 0 < n <= |t.fields|
    ensures var f := t.fields[n - 1];
      FieldLeaves(t, n, base) == FieldLeaves(t, n - 1, base) + Leaves(f.kind, base + f.offset) && Sane(f.kind) &&
      forall i :: 0 <= i < n - 1 ==> t.fields[i].offset + Size(t.fields[i].kind) <= f.offset
  {
    hide Size, Leaves;
  }

  lemma {:induction false} StrungWider(leaves: seq<Leaf>, lo: int, mid: int, hi: int)
    requires Strung(leaves, lo, mid) && mid <= hi
    ensures Strung(leaves, lo, hi)
  {
  }

  // --------------------------------------------------------- member chains

  /** The type and the offset that a chain of member accesses ends at. */
  function Walk(t: Type, path: seq<nat>): Option<Field>
    decreases |path|
  {
    if |path| == 0 then Some(Field("", t, 0))
    else if !t.Structure? || path[0] >= |t.fields| then None
    else
      match Walk(t.fields[path[0]].kind, path[1..]) {
        case None => None
        case Some(f) => Some(Field(f.name, f.kind, t.fields[path[0]].offset + f.offset))
      }
  }

  /** Every member of every structure and union in it lies inside. */
  predicate Housed(t: Type) {
    match t
    case Basic(_) => true
    case ArrayOf(e, _) => Housed(e)
    case Structure(fields, size, _) => Inside(fields, size) && forall i :: 0 <= i < |fields| ==> Housed(fields[i].kind)
  }

  /** And the members of structures, but not those of unions, lie apart. */
  predicate Laid(t: Type) {
    match t
    case Basic(_) => true
    case ArrayOf(e, _) => Laid(e)
    case Structure(fields, size, isStruct) =>
      Inside(fields, size) && (isStruct ==> Ascending(fields, size)) && forall i :: 0 <= i < |fields| ==> Laid(fields[i].kind)
  }

  lemma {:induction false} SaneLaid(t: Type)
    requires Sane(t)
    ensures Laid(t)
    decreases t
  {
    match t {
      case Basic(_) =>
      case ArrayOf(e, _) => SaneLaid(e);
      case Structure(fields, _, _) =>
        forall i | 0 <= i < |fields| ensures Laid(fields[i].kind) {
          SaneLaid(fields[i].kind);
        }
    }
  }

  lemma {:induction false} LaidHoused(t: Type)
    requires Laid(t)
    ensures Housed(t)
    decreases t
  {
    match t {
      case Basic(_) =>
      case ArrayOf(e, _) => LaidHoused(e);
      case Structure(fields, _, _) =>
        forall i | 0 <= i < |fields| ensures Housed(fields[i].kind) {
          LaidHoused(fields[i].kind);
        }
    }
  }

  /** What LayOut makes of such members is such a structure or union. */
  lemma {:induction false} LaysHoused(decls: seq<Declared>)
    requires Declarable(decls) && forall i :: 0 <= i < |decls| ==> Housed(decls[i].kind)
    ensures Housed(Structure(Placed(decls), EndOf(decls), true)) && Housed(Structure(Overlaid(decls), Largest(decls), false))
  {
    hide Placed, Overlaid, EndOf, Largest, Inside, Size;
    assert InnerInside(decls) by {
      forall i | 0 <= i < |decls| && decls[i].Anonymous? && decls[i].kind.Structure?
        ensures Inside(decls[i].kind.fields, decls[i].kind.size)
      {
        assert Housed(decls[i].kind);
      }
    }
    PlacedInside(decls);
    OverlaidInside(decls);
    PlacedMembers(decls);
    MembersHoused(decls);
    forall i | 0 <= i < |AllMembers(decls)| ensures Housed(Placed(decls)[i].kind) && Housed(Overlaid(decls)[i].kind) {
      assert Housed(AllMembers(decls)[i].kind);
    }
  }

  /** Where anonymous members are structures, LayOut's structures are laid out apart, and its
      unions always. */
  lemma {:induction false} LaysLaid(decls: seq<Declared>)
    requires Declarable(decls) && forall i :: 0 <= i < |decls| ==> Laid(decls[i].kind)
    ensures Laid(Structure(Overlaid(decls), Largest(decls), false))
    ensures (forall i :: 0 <= i < |decls| && decls[i].Anonymous? ==> decls[i].kind.isStruct) ==>
      Laid(Structure(Placed(decls), EndOf(decls), true))
  {
    hide Placed, Overlaid, EndOf, Largest, Inside, Ascending, Size;
    forall i | 0 <= i < |decls| ensures Housed(decls[i].kind) {
      LaidHoused(decls[i].kind);
    }
    LaysHoused(decls);
    PlacedMembers(decls);
    MembersLaid(decls);
    forall i | 0 <= i < |AllMembers(decls)| ensures Laid(Placed(decls)[i].kind) && Laid(Overlaid(decls)[i].kind) {
      assert Laid(AllMembers(decls)[i].kind);
    }
    if forall i :: 0 <= i < |decls| && decls[i].Anonymous? ==> decls[i].kind.isStruct {
      assert InnerAscending(decls) by {
        forall i | 0 <= i < |decls| && decls[i].Anonymous? && decls[i].kind.Structure?
          ensures Ascending(decls[i].kind.fields, decls[i].kind.size)
        {
          assert Laid(decls[i].kind);
        }
      }
      PlacedAscends(decls);
    }
  }

  lemma {:induction false} MembersLaid(decls: seq<Declared>)
    requires forall i :: 0 <= i < |decls| ==> Laid(decls[i].kind)
    ensures forall i :: 0 <= i < |AllMembers(decls)| ==> Laid(AllMembers(decls)[i].kind)
    decreases |decls|
  {
    if |decls| > 0 {
      var n := |decls| - 1;
      MembersLaid(decls[..n]);
      var ms := MembersOf(decls[n]);
      assert Laid(decls[n].kind);
      forall i | 0 <= i < |ms| ensures Laid(ms[i].kind) {
      }
    }
  }

  lemma {:induction false} MembersHoused(decls: seq<Declared>)
    requires forall i :: 0 <= i < |decls| ==> Housed(decls[i].kind)
    ensures forall i :: 0 <= i < |AllMembers(decls)| ==> Housed(AllMembers(decls)[i].kind)
    decreases |decls|
  {
    if |decls| > 0 {
      var n := |decls| - 1;
      MembersHoused(decls[..n]);
      var ms := MembersOf(decls[n]);
      assert Housed(decls[n].kind);
      forall i | 0 <= i < |ms| ensures Housed(ms[i].kind) {
      }
    }
  }

  /** A chain of members designates a place inside the object, unions or not. */
  lemma {:induction false} WalkInside(t: Type, path: seq<nat>)
    requires Housed(t) && Walk(t, path).Some?
    ensures Walk(t, path).value.offset + Size(Walk(t, path).value.kind) <= Size(t)
    decreases |path|
  {
    if |path| > 0 {
      WalkInside(t.fields[path[0]].kind, path[1..]);
    }
  }

  /** Where two chains part ways, there is a structure and not a union. */
  predicate PartInStruct(t: Type, p: seq<nat>, q: seq<nat>)
    requires Walk(t, p).Some? && Walk(t, q).Some?
    decreases |p|
  {
    |p| > 0 && |q| > 0 && if p[0] == q[0] then PartInStruct(t.fields[p[0]].kind, p[1..], q[1..]) else t.isStruct
  }

  /** Then they designate disjoint places. */
  lemma {:induction false} WalksDisjoint(t: Type, p: seq<nat>, q: seq<nat>)
    requires Laid(t) && Walk(t, p).Some? && Walk(t, q).Some? && PartInStruct(t, p, q)
    ensures var a, b := Walk(t, p).value, Walk(t, q).value;
      a.offset + Size(a.kind) <= b.offset || b.offset + Size(b.kind) <= a.offset
    decreases |p|
  {
    hide Size;
    var f, g := t.fields[p[0]], t.fields[q[0]];
    if p[0] == q[0] {
      WalksDisjoint(f.kind, p[1..], q[1..]);
    } else {
      LaidHoused(f.kind);
      LaidHoused(g.kind);
      WalkInside(f.kind, p[1..]);
      WalkInside(g.kind, q[1..]);
    }
  }

  /** Without unions, two chains of which neither continues the other part so. */
  lemma {:induction false} SaneParts(t: Type, p: seq<nat>, q: seq<nat>)
    requires Sane(t) && Walk(t, p).Some? && Walk(t, q).Some? && !(p <= q) && !(q <= p)
    ensures PartInStruct(t, p, q)
    decreases |p|
  {
    if p[0] == q[0] {
      assert p == [p[0]] + p[1..] && q == [q[0]] + q[1..];
      SaneParts(t.fields[p[0]].kind, p[1..], q[1..]);
    }
  }

  /** So they designate disjoint places. */
  lemma {:induction false} SaneDisjoint(t: Type, p: seq<nat>, q: seq<nat>)
    requires Sane(t) && Walk(t, p).Some? && Walk(t, q).Some? && !(p <= q) && !(q <= p)
    ensures var a, b := Walk(t, p).value, Walk(t, q).value;
      a.offset + Size(a.kind) <= b.offset || b.offset + Size(b.kind) <= a.offset
  {
    hide *;
    SaneLaid(t);
    SaneParts(t, p, q);
    WalksDisjoint(t, p, q);
  }

  /** Two members of a union begin at the same place. */
  lemma {:induction false} UnionShares(decls: seq<Declared>, i: nat, j: nat)
    requires Declarable(decls) && InnerInside(decls) && (forall k :: 0 <= k < |decls| ==> decls[k].Declared?)
    requires i < |Overlaid(decls)| && j < |Overlaid(decls)|
    ensures var t := Structure(Overlaid(decls), Largest(decls), false);
      Walk(t, [i]).Some? && Walk(t, [j]).Some? && Walk(t, [i]).value.offset == 0 == Walk(t, [j]).value.offset
  {
    hide Overlaid, Largest;
    OverlaidInside(decls);
    forall k | 0 <= k < |Overlaid(decls)| ensures Walk(Structure(Overlaid(decls), Largest(decls), false), [k]).Some? &&
      Walk(Structure(Overlaid(decls), Largest(decls), false), [k]).value.offset == 0
    {
      assert ([k])[1..] == [];
    }
  }
}
