/** Initializers flattened into a list of scalar stores, with braces elided, designators and zeros. */
module Initializers {
  import opened Runs
  import opened Grammar
  import opened Precedence
  import opened Layout

  /** What a scalar is set to: an expression, a character of a string, its padding included,
      or zero for want of an initializer. */
  datatype Value = Given(tree: Tree) | Character(c: char) | Zero

  datatype Entry = Entry(offset: int, scalar: Scalar, value: Value)

  datatype Filled = Filled(entries: seq<Entry>, rest: seq<Token>)

  function SkipComma(ts: seq<Token>): (r: seq<Token>)
    ensures |r| <= |ts|
  {
    if Begins(ts, Comma) then ts[1..] else ts
  }

  /** The tokens after `.name =`, if that is what comes first. */
  function PastDesignator(ts: seq<Token>): (r: Option<seq<Token>>)
    ensures r.Some? ==> |r.value| <= |ts|
  {
    if !Begins(ts, Dot) then Some(ts)
    else if |ts| > 2 && ts[2] == Punctuation(Punct.Assign) then Some(ts[3..])
    else None
  }

  /** parse_brace_skipto: drops what is too much, up to the closing brace; it gives up
      where it finds no expression. */
  function SkipExcess(ts: seq<Token>): (r: Option<seq<Token>>)
    ensures r.Some? ==> |r.value| <= |ts|
    decreases |ts|
  {
    if Begins(ts, CloseBrace) then Some(ts[1..]) else
    match PastDesignator(ts)
    case None => None
    case Some(us) =>
      match Climb(us, 3)
      case None => None
      case Some(x) => if Null(x.tree) then Some(x.rest) else SkipExcess(SkipComma(x.rest))
  }

  /** The characters of a string up to a NUL. */
  function Length(s: string): (n: nat)
    ensures n <= |s|
  {
    if |s| == 0 || s[0] == '\0' then 0 else 1 + Length(s[1..])
  }

  /** parse_assign_string from index i on. */
  function Characters(s: string, base: int, i: nat, n: nat): seq<Entry>
    decreases n - i
  {
    if i >= n then [] else
    var c := if i < Length(s) then Character(s[i]) else Character('\0');
    [Entry(base + i, Char, c)] + Characters(s, base, i + 1, n)
  }

  /** parse_initializer_zero. */
  function Zeros(t: Type, base: int): seq<Entry>
    decreases t, 0
  {
    match t
    case Basic(s) => [Entry(base, s, Zero)]
    case ArrayOf(_, _) => ZeroElements(t, 0, base)
    case Structure(_, _, _) => ZeroFields(t, 0, base, {}, true)
  }

  /** The elements from i on. */
  function ZeroElements(t: Type, i: nat, base: int): seq<Entry>
    requires t.ArrayOf?
    decreases t, 0, t.length - i
  {
    if i >= t.length then [] else Zeros(t.element, base + Size(t.element) * i) + ZeroElements(t, i + 1, base)
  }

  /** The fields from i on, but those in `wrote`; when zeroing a whole union, its first
      member only. */
  function ZeroFields(t: Type, i: nat, base: int, wrote: set<string>, whole: bool): seq<Entry>
    requires t.Structure? && i <= |t.fields|
    decreases t, 0, |t.fields| - i
  {
    if i == |t.fields| then []
    else if t.fields[i].name in wrote then ZeroFields(t, i + 1, base, wrote, whole)
    else if whole && !t.isStruct then Zeros(t.fields[i].kind, base + t.fields[i].offset)
    else Zeros(t.fields[i].kind, base + t.fields[i].offset) + ZeroFields(t, i + 1, base, wrote, whole)
  }

  /** parse_initializer_element. */
  function Element(ts: seq<Token>, t: Type, base: int): (r: Option<Filled>)
    ensures r.Some? ==> |r.value.rest| <= |ts|
    decreases t, 2
  {
    match t
    case Basic(s) =>
      (match Climb(ts, 3)
       case None => None
       case Some(x) => if Null(x.tree) then None else Some(Filled([Entry(base, s, Given(x.tree))], x.rest)))
    case ArrayOf(_, _) => List(ts, t, base)
    case Structure(_, _, _) => List(ts, t, base)
  }

  predicate IsCharArray(t: Type) {
    t.ArrayOf? && t.element == Basic(Char)
  }

  /** parse_initializer_list. A string in braces reads a string out of the brace, so it
      counts as a failure. */
  function List(ts: seq<Token>, t: Type, base: int): (r: Option<Filled>)
    requires !t.Basic?
    ensures r.Some? ==> |r.value.rest| <= |ts|
    decreases t, 1
  {
    if IsCharArray(t) && (|ts| == 0 || (Begins(ts, OpenBrace) && (|ts| == 1 || ts[1].StringLiteral?))) then None
    else if IsCharArray(t) && ts[0].StringLiteral? then Some(Filled(Characters(ts[0].text, base, 0, t.length), ts[1..]))
    else
      var brace := Begins(ts, OpenBrace);
      var inside := if brace then ts[1..] else ts;
      if t.ArrayOf? then Elements(inside, t, 0, base, brace) else Members(inside, t, 0, {}, base, brace)
  }

  /** The loop of parse_initializer_array. */
  function Elements(ts: seq<Token>, t: Type, i: nat, base: int, brace: bool): (r: Option<Filled>)
    requires t.ArrayOf?
    ensures r.Some? ==> |r.value.rest| <= |ts|
    decreases t, 0, t.length - i
  {
    if i >= t.length then Finish(ts, [], brace)
    else if Begins(ts, CloseBrace) then Some(Filled(ZeroElements(t, i, base), if brace then ts[1..] else ts))
    else
      match Element(ts, t.element, base + Size(t.element) * i)
      case None => None
      case Some(x) => Then(x.entries, Elements(SkipComma(x.rest), t, i + 1, base, brace))
  }

  /** Nothing more to fill. */
  function Finish(ts: seq<Token>, entries: seq<Entry>, brace: bool): (r: Option<Filled>)
    ensures r.Some? ==> |r.value.rest| <= |ts|
  {
    if !brace then Some(Filled(entries, ts)) else
    match SkipExcess(ts)
    case None => None
    case Some(rest) => Some(Filled(entries, rest))
  }

  function Then(entries: seq<Entry>, r: Option<Filled>): Option<Filled> {
    match r
    case None => None
    case Some(x) => Some(Filled(entries + x.entries, x.rest))
  }

  /** The index of the first field with this name, or the number of fields. */
  function IndexOf(fields: seq<Field>, name: string): (i: nat)
    ensures i <= |fields| && (i < |fields| ==> fields[i].name == name) && forall j :: 0 <= j < i ==> fields[j].name != name
  {
    if |fields| == 0 || fields[0].name == name then 0 else 1 + IndexOf(fields[1..], name)
  }

  /** Which field comes next, and the tokens of its initializer. */
  datatype Turn = Turn(index: nat, rest: seq<Token>)

  function NextField(ts: seq<Token>, t: Type, i: nat): (r: Option<Turn>)
    requires t.Structure? && (i < |t.fields| || Begins(ts, Dot))
    ensures r.Some? ==> r.value.index < |t.fields| && |r.value.rest| <= |ts|
    ensures r.Some? ==> |r.value.rest| < |ts| || r.value.index == i
  {
    if !Begins(ts, Dot) then Some(Turn(i, ts))
    else if |ts| > 2 && IsName(ts[1]) && ts[2] == Punctuation(Punct.Assign) && IndexOf(t.fields, ts[1].name) < |t.fields| then
      Some(Turn(IndexOf(t.fields, ts[1].name), ts[3..]))
    else None
  }

  /** The loop of parse_initializer_structure: i is the next field without a designator. */
  function Members(ts: seq<Token>, t: Type, i: nat, wrote: set<string>, base: int, brace: bool): (r: Option<Filled>)
    requires t.Structure? && i <= |t.fields|
    ensures r.Some? ==> |r.value.rest| <= |ts|
    decreases t, 0, |ts|, |t.fields| - i
  {
    if Begins(ts, CloseBrace) then Some(Filled(ZeroFields(t, 0, base, wrote, false), if brace then ts[1..] else ts))
    else if i == |t.fields| && !Begins(ts, Dot) then Finish(ts, ZeroFields(t, 0, base, wrote, false), brace)
    else
      match NextField(ts, t, i)
      case None => None
      case Some(turn) =>
        var f := t.fields[turn.index];
        if f.name in wrote then None else
        match Element(turn.rest, f.kind, base + f.offset)
        case None => None
        case Some(x) =>
          if t.isStruct then Then(x.entries, Members(SkipComma(x.rest), t, turn.index + 1, wrote + {f.name}, base, brace))
          else Then(x.entries, Finish(SkipComma(x.rest), ZeroFields(t, 0, base, wrote + {f.name}, false), brace))
  }

  // ---------------------------------------------------------- exact cover

  function Places(entries: seq<Entry>): (leaves: seq<Leaf>)
    ensures |leaves| == |entries|
  {
    if |entries| == 0 then [] else [Leaf(entries[0].offset, entries[0].scalar)] + Places(entries[1..])
  }

  lemma {:induction false} PlacesAppend(a: seq<Entry>, b: seq<Entry>)
    ensures Places(a + b) == Places(a) + Places(b)
    decreases |a|
  {
    if |a| == 0 {
      assert a + b == b;
    } else {
      assert (a + b)[1..] == a[1..] + b;
      PlacesAppend(a[1..], b);
    }
  }

  /** The scalars of the array's elements from i on. */
  function ElementsFrom(t: Type, i: nat, base: int): seq<Leaf>
    requires t.ArrayOf?
    decreases t.length - i
  {
    if i >= t.length then [] else Leaves(t.element, base + Size(t.element) * i) + ElementsFrom(t, i + 1, base)
  }

  lemma {:induction false} ElementsSplit(t: Type, i: nat, base: int)
    requires t.ArrayOf? && i <= t.length
    ensures ArrayLeaves(t, i, base) + ElementsFrom(t, i, base) == Leaves(t, base)
    decreases t.length - i
  {
    if i < t.length {
      ElementsSplit(t, i + 1, base);
      var here := Leaves(t.element, base + Size(t.element) * i);
      assert ArrayLeaves(t, i + 1, base) == ArrayLeaves(t, i, base) + here;
      assert ArrayLeaves(t, i, base) + here + ElementsFrom(t, i + 1, base) == ArrayLeaves(t, i, base) + (here + ElementsFrom(t, i + 1, base));
    }
  }

  lemma AllElements(t: Type, base: int)
    requires t.ArrayOf?
    ensures ElementsFrom(t, 0, base) == Leaves(t, base)
  {
    ElementsSplit(t, 0, base);
    assert ArrayLeaves(t, 0, base) == [];
  }

  /** The scalars of the fields from i on whose names are not in `wrote`. */
  function FieldsFrom(t: Type, i: nat, base: int, wrote: set<string>): seq<Leaf>
    requires t.Structure? && i <= |t.fields|
    decreases |t.fields| - i
  {
    if i == |t.fields| then []
    else if t.fields[i].name in wrote then FieldsFrom(t, i + 1, base, wrote)
    else Leaves(t.fields[i].kind, base + t.fields[i].offset) + FieldsFrom(t, i + 1, base, wrote)
  }

  lemma {:induction false} FieldsSplit(t: Type, i: nat, base: int)
    requires t.Structure? && i <= |t.fields|
    ensures FieldLeaves(t, i, base) + FieldsFrom(t, i, base, {}) == Leaves(t, base)
    decreases |t.fields| - i
  {
    if i < |t.fields| {
      FieldsSplit(t, i + 1, base);
      var here := Leaves(t.fields[i].kind, base + t.fields[i].offset);
      assert FieldLeaves(t, i + 1, base) == FieldLeaves(t, i, base) + here;
      assert FieldLeaves(t, i, base) + here + FieldsFrom(t, i + 1, base, {}) == FieldLeaves(t, i, base) + (here + FieldsFrom(t, i + 1, base, {}));
    }
  }

  lemma AllFields(t: Type, base: int)
    requires t.Structure?
    ensures FieldsFrom(t, 0, base, {}) == Leaves(t, base)
  {
    FieldsSplit(t, 0, base);
    assert FieldLeaves(t, 0, base) == [];
  }

  /** One more written field is one field fewer to fill. */
  lemma {:induction false} WriteField(t: Type, i: nat, base: int, wrote: set<string>, k: nat)
    requires t.Structure? && Distinct(t.fields) && i <= k < |t.fields| && t.fields[k].name !in wrote
    ensures multiset(FieldsFrom(t, i, base, wrote)) ==
      multiset(Leaves(t.fields[k].kind, base + t.fields[k].offset)) + multiset(FieldsFrom(t, i, base, wrote + {t.fields[k].name}))
    decreases |t.fields| - i
  {
    hide Leaves, FieldsFrom, Distinct;
    var name := t.fields[k].name;
    FieldsLevel(t, i, base, wrote);
    FieldsLevel(t, i, base, wrote + {name});
    DifferentNames(t, i, k);
    if i == k {
      SameRest(t, i + 1, base, wrote, name);
    } else {
      WriteField(t, i + 1, base, wrote, k);
    }
  }

  lemma DifferentNames(t: Type, i: nat, k: nat)
    requires t.Structure? && Distinct(t.fields) && i <= k < |t.fields|
    ensures i < k ==> t.fields[i].name != t.fields[k].name
    ensures i == k ==> forall j :: i < j < |t.fields| ==> t.fields[j].name != t.fields[k].name
  {
  }

  lemma FieldsLevel(t: Type, i: nat, base: int, wrote: set<string>)
    requires t.Structure? && i < |t.fields|
    ensures var f := t.fields[i];
      FieldsFrom(t, i, base, wrote) == (if f.name in wrote then [] else Leaves(f.kind, base + f.offset)) + FieldsFrom(t, i + 1, base, wrote)
  {
    hide Leaves;
    assert [] + FieldsFrom(t, i + 1, base, wrote) == FieldsFrom(t, i + 1, base, wrote);
  }

  lemma {:induction false} SameRest(t: Type, i: nat, base: int, wrote: set<string>, name: string)
    requires t.Structure? && i <= |t.fields| && forall j :: i <= j < |t.fields| ==> t.fields[j].name != name
    ensures FieldsFrom(t, i, base, wrote) == FieldsFrom(t, i, base, wrote + {name})
    decreases |t.fields| - i
  {
    if i < |t.fields| {
      SameRest(t, i + 1, base, wrote, name);
    }
  }

  // ----- zeros

  lemma {:induction false} ZerosCover(t: Type, base: int)
    requires Sane(t)
    ensures Places(Zeros(t, base)) == Leaves(t, base)
    decreases t, 1
  {
    match t {
      case Basic(_) =>
      case ArrayOf(_, _) =>
        ZeroElementsCover(t, 0, base);
        AllElements(t, base);
      case Structure(_, _, _) =>
        ZeroFieldsCover(t, 0, base, {}, true);
        AllFields(t, base);
    }
  }

  lemma {:induction false} ZeroElementsCover(t: Type, i: nat, base: int)
    requires t.ArrayOf? && Sane(t)
    ensures Places(ZeroElements(t, i, base)) == ElementsFrom(t, i, base)
    decreases t, 0, t.length - i
  {
    if i < t.length {
      var at := base + Size(t.element) * i;
      ZerosCover(t.element, at);
      ZeroElementsCover(t, i + 1, base);
      PlacesAppend(Zeros(t.element, at), ZeroElements(t, i + 1, base));
    }
  }

  lemma {:induction false} ZeroFieldsCover(t: Type, i: nat, base: int, wrote: set<string>, whole: bool)
    requires t.Structure? && Sane(t) && i <= |t.fields|
    ensures Places(ZeroFields(t, i, base, wrote, whole)) == FieldsFrom(t, i, base, wrote)
    decreases t, 0, |t.fields| - i
  {
    if i < |t.fields| {
      ZeroFieldsCover(t, i + 1, base, wrote, whole);
      if t.fields[i].name !in wrote {
        var at := base + t.fields[i].offset;
        ZerosCover(t.fields[i].kind, at);
        PlacesAppend(Zeros(t.fields[i].kind, at), ZeroFields(t, i + 1, base, wrote, whole));
      }
    }
  }

  lemma {:induction false} CharactersCover(s: string, t: Type, base: int, i: nat)
    requires IsCharArray(t)
    ensures Places(Characters(s, base, i, t.length)) == ElementsFrom(t, i, base)
    decreases t.length - i
  {
    if i < t.length {
      CharactersCover(s, t, base, i + 1);
      var c := if i < Length(s) then Character(s[i]) else Character('\0');
      PlacesAppend([Entry(base + i, Char, c)], Characters(s, base, i + 1, t.length));
      assert Leaves(t.element, base + Size(t.element) * i) == [Leaf(base + i, Char)];
    }
  }

  // ----- everything

  /** Exact cover: whatever the tokens, with elided braces, designators, strings and
      missing values, a successful initializer sets each scalar of the object once, and
      nothing else. */
  lemma {:induction false} Cover(ts: seq<Token>, t: Type, base: int)
    requires Sane(t) && Element(ts, t, base).Some?
    ensures multiset(Places(Element(ts, t, base).value.entries)) == multiset(Leaves(t, base))
    decreases t, 2
  {
    hide Climb, Leaves;
    if t.Basic? {
      BasicCover(ts, t, base);
    } else {
      ListCover(ts, t, base);
    }
  }

  lemma BasicCover(ts: seq<Token>, t: Type, base: int)
    requires t.Basic? && Element(ts, t, base).Some?
    ensures multiset(Places(Element(ts, t, base).value.entries)) == multiset(Leaves(t, base))
  {
    hide Climb;
  }

  lemma {:induction false} ListCover(ts: seq<Token>, t: Type, base: int)
    requires Sane(t) && !t.Basic? && List(ts, t, base).Some?
    ensures multiset(Places(List(ts, t, base).value.entries)) == multiset(Leaves(t, base))
    decreases t, 1
  {
    hide Leaves, Elements, Members, Sane;
    var brace := Begins(ts, OpenBrace);
    var inside := if brace then ts[1..] else ts;
    if IsCharArray(t) && ts[0].StringLiteral? {
      CharactersCover(ts[0].text, t, base, 0);
      AllElements(t, base);
    } else if t.ArrayOf? {
      ElementsCover(inside, t, 0, base, brace);
      AllElements(t, base);
    } else {
      MembersCover(inside, t, 0, {}, base, brace);
      AllFields(t, base);
    }
  }

  lemma {:induction false} ElementsCover(ts: seq<Token>, t: Type, i: nat, base: int, brace: bool)
    requires t.ArrayOf? && Sane(t) && Elements(ts, t, i, base, brace).Some?
    ensures multiset(Places(Elements(ts, t, i, base, brace).value.entries)) == multiset(ElementsFrom(t, i, base))
    decreases t, 0, t.length - i
  {
    hide Element, SkipExcess, Leaves, Elements, ElementsFrom, ZeroElements, Size, Places;
    if i < t.length && !Begins(ts, CloseBrace) {
      var x, y := ElementsParts(ts, t, i, base, brace);
      Cover(ts, t.element, base + Size(t.element) * i);
      ElementsCover(SkipComma(x.rest), t, i + 1, base, brace);
      ElementsLevel(t, i, base);
      JoinCover(x.entries, y.entries, Leaves(t.element, base + Size(t.element) * i), ElementsFrom(t, i + 1, base), ElementsFrom(t, i, base));
    } else {
      ZeroElementsCover(t, i, base);
      ElementsEnd(ts, t, i, base, brace);
    }
  }

  lemma ElementsLevel(t: Type, i: nat, base: int)
    requires t.ArrayOf? && i < t.length
    ensures ElementsFrom(t, i, base) == Leaves(t.element, base + Size(t.element) * i) + ElementsFrom(t, i + 1, base)
  {
    hide Leaves, Size;
  }

  /** An element and those after it. */
  lemma ElementsParts(ts: seq<Token>, t: Type, i: nat, base: int, brace: bool) returns (x: Filled, y: Filled)
    requires t.ArrayOf? && i < t.length && !Begins(ts, CloseBrace) && Elements(ts, t, i, base, brace).Some?
    ensures Element(ts, t.element, base + Size(t.element) * i) == Some(x) && Elements(SkipComma(x.rest), t, i + 1, base, brace) == Some(y)
    ensures Elements(ts, t, i, base, brace) == Some(Filled(x.entries + y.entries, y.rest))
  {
    hide Element, SkipExcess, Size, SkipComma;
    x := Element(ts, t.element, base + Size(t.element) * i).value;
    y := Elements(SkipComma(x.rest), t, i + 1, base, brace).value;
  }

  lemma ElementsEnd(ts: seq<Token>, t: Type, i: nat, base: int, brace: bool)
    requires t.ArrayOf? && (i >= t.length || Begins(ts, CloseBrace)) && Elements(ts, t, i, base, brace).Some?
    ensures Elements(ts, t, i, base, brace).value.entries == ZeroElements(t, i, base)
  {
    hide Element, SkipExcess, Size, SkipComma;
  }

  lemma {:induction false} MembersCover(ts: seq<Token>, t: Type, i: nat, wrote: set<string>, base: int, brace: bool)
    requires t.Structure? && Sane(t) && i <= |t.fields| && Members(ts, t, i, wrote, base, brace).Some?
    ensures multiset(Places(Members(ts, t, i, wrote, base, brace).value.entries)) == multiset(FieldsFrom(t, 0, base, wrote))
    decreases t, 0, |ts|, |t.fields| - i
  {
    hide Element, SkipExcess, Leaves, FieldsFrom, ZeroFields;
    if Begins(ts, CloseBrace) || (i == |t.fields| && !Begins(ts, Dot)) {
      ZeroFieldsCover(t, 0, base, wrote, false);
    } else {
      MemberCover(ts, t, i, wrote, base, brace);
    }
  }

  lemma {:induction false} MemberCover(ts: seq<Token>, t: Type, i: nat, wrote: set<string>, base: int, brace: bool)
    requires t.Structure? && Sane(t) && i <= |t.fields| && Members(ts, t, i, wrote, base, brace).Some?
    requires !Begins(ts, CloseBrace) && (i < |t.fields| || Begins(ts, Dot))
    ensures multiset(Places(Members(ts, t, i, wrote, base, brace).value.entries)) == multiset(FieldsFrom(t, 0, base, wrote))
    decreases t, 0, |ts|, |t.fields| - i, 0
  {
    hide Element, SkipExcess, Leaves, FieldsFrom, ZeroFields, NextField, Members, Size, SkipComma, Begins, Places, Sane, Distinct;
    SaneStructure(t);
    var turn, x, y := MembersParts(ts, t, i, wrote, base, brace);
    var f := t.fields[turn.index];
    Cover(turn.rest, f.kind, base + f.offset);
    MembersCover(SkipComma(x.rest), t, turn.index + 1, wrote + {f.name}, base, brace);
    WriteField(t, 0, base, wrote, turn.index);
    JoinCover(x.entries, y.entries, Leaves(f.kind, base + f.offset), FieldsFrom(t, 0, base, wrote + {f.name}), FieldsFrom(t, 0, base, wrote));
  }

  lemma JoinCover(xs: seq<Entry>, ys: seq<Entry>, first: seq<Leaf>, others: seq<Leaf>, whole: seq<Leaf>)
    requires multiset(Places(xs)) == multiset(first) && multiset(Places(ys)) == multiset(others)
    requires multiset(whole) == multiset(first) + multiset(others)
    ensures multiset(Places(xs + ys)) == multiset(whole)
  {
    PlacesAppend(xs, ys);
  }

  lemma SaneStructure(t: Type)
    requires t.Structure? && Sane(t)
    ensures t.isStruct && Distinct(t.fields) && forall i :: 0 <= i < |t.fields| ==> Sane(t.fields[i].kind)
  {
  }

  /** A field and those after it. */
  lemma MembersParts(ts: seq<Token>, t: Type, i: nat, wrote: set<string>, base: int, brace: bool) returns (turn: Turn, x: Filled, y: Filled)
    requires t.Structure? && t.isStruct && i <= |t.fields| && Members(ts, t, i, wrote, base, brace).Some?
    requires !Begins(ts, CloseBrace) && (i < |t.fields| || Begins(ts, Dot))
    ensures NextField(ts, t, i) == Some(turn) && t.fields[turn.index].name !in wrote
    ensures Element(turn.rest, t.fields[turn.index].kind, base + t.fields[turn.index].offset) == Some(x)
    ensures Members(SkipComma(x.rest), t, turn.index + 1, wrote + {t.fields[turn.index].name}, base, brace) == Some(y)
    ensures Members(ts, t, i, wrote, base, brace) == Some(Filled(x.entries + y.entries, y.rest))
    ensures |SkipComma(x.rest)| < |ts| || (|SkipComma(x.rest)| <= |ts| && turn.index == i)
  {
    hide Element, SkipExcess, NextField, ZeroFields;
    turn := NextField(ts, t, i).value;
    var f := t.fields[turn.index];
    x := Element(turn.rest, f.kind, base + f.offset).value;
    y := Members(SkipComma(x.rest), t, turn.index + 1, wrote + {f.name}, base, brace).value;
  }

  // ------------------------------------- what a list of expressions means

  /** A prefix or postfix expression, which is all that an element of a list may be, and
      not a string. */
  predicate Plain(e: Tree) {
    WellFormed(e, 3) && !Null(e) && !(|Yield(e)| > 0 && Yield(e)[0].StringLiteral?)
  }

  predicate AllPlain(es: seq<Tree>) {
    forall i :: 0 <= i < |es| ==> Plain(es[i])
  }

  /** The expressions with commas between them. */
  function Commas(es: seq<Tree>): seq<Token>
    decreases |es|
  {
    if |es| == 0 then []
    else if |es| == 1 then Yield(es[0])
    else Yield(es[0]) + ([Punctuation(Comma)] + Commas(es[1..]))
  }

  function Drop(es: seq<Tree>, n: nat): (r: seq<Tree>)
    ensures |r| <= |es|
  {
    if n >= |es| then [] else es[n..]
  }

  /** The scalars take the expressions in order, and zeros when these run out. */
  function Zip(leaves: seq<Leaf>, es: seq<Tree>): seq<Entry>
    decreases |leaves|
  {
    if |leaves| == 0 then [] else
    [Entry(leaves[0].offset, leaves[0].scalar, if |es| > 0 then Given(es[0]) else Zero)] + Zip(leaves[1..], Drop(es, 1))
  }

  lemma {:induction false} ZipAppend(a: seq<Leaf>, b: seq<Leaf>, es: seq<Tree>)
    ensures Zip(a + b, es) == Zip(a, es) + Zip(b, Drop(es, |a|))
    decreases |a|
  {
    if |a| == 0 {
      assert a + b == b && Drop(es, 0) == es;
    } else {
      assert (a + b)[1..] == a[1..] + b;
      ZipAppend(a[1..], b, Drop(es, 1));
      assert Drop(Drop(es, 1), |a| - 1) == Drop(es, |a|);
    }
  }

  lemma DropTwice(es: seq<Tree>, m: nat, n: nat)
    ensures Drop(Drop(es, m), n) == Drop(es, m + n)
  {
  }

  lemma {:induction false} ZerosZip(t: Type, base: int)
    ensures Zeros(t, base) == Zip(Leaves(t, base), [])
    requires Sane(t)
    decreases t, 1
  {
    match t {
      case Basic(_) =>
      case ArrayOf(_, _) => ZeroElementsZip(t, 0, base); AllElements(t, base);
      case Structure(_, _, _) => ZeroFieldsZip(t, 0, base, {}, true); AllFields(t, base);
    }
  }

  lemma {:induction false} ZeroElementsZip(t: Type, i: nat, base: int)
    requires t.ArrayOf? && Sane(t)
    ensures ZeroElements(t, i, base) == Zip(ElementsFrom(t, i, base), [])
    decreases t, 0, t.length - i
  {
    if i < t.length {
      var at := base + Size(t.element) * i;
      ZerosZip(t.element, at);
      ZeroElementsZip(t, i + 1, base);
      ZipAppend(Leaves(t.element, at), ElementsFrom(t, i + 1, base), []);
    }
  }

  lemma {:induction false} ZeroFieldsZip(t: Type, i: nat, base: int, wrote: set<string>, whole: bool)
    requires t.Structure? && Sane(t) && i <= |t.fields|
    ensures ZeroFields(t, i, base, wrote, whole) == Zip(FieldsFrom(t, i, base, wrote), [])
    decreases t, 0, |t.fields| - i
  {
    if i < |t.fields| {
      ZeroFieldsZip(t, i + 1, base, wrote, whole);
      if t.fields[i].name !in wrote {
        var at := base + t.fields[i].offset;
        ZerosZip(t.fields[i].kind, at);
        ZipAppend(Leaves(t.fields[i].kind, at), FieldsFrom(t, i + 1, base, wrote), []);
      }
    }
  }

  /** What stands before the closing brace is read expression by expression. */
  ghost predicate Listed(ts: seq<Token>, es: seq<Tree>, end: seq<Token>) {
    AllPlain(es) && Begins(end, CloseBrace) && ts == Commas(es) + end
  }

  lemma ListedFirst(ts: seq<Token>, es: seq<Tree>, end: seq<Token>)
    requires Listed(ts, es, end)
    ensures SkipComma(ts) == ts && !Begins(ts, Dot) && !Begins(ts, OpenBrace) && |ts| > 0 && !ts[0].StringLiteral?
    ensures (Begins(ts, CloseBrace) <==> |es| == 0) && Begins(end, CloseBrace)
  {
    if |es| > 0 {
      FirstOf(es[0], 3);
      assert ts[0] == Yield(es[0])[0];
      assert Plain(es[0]);
    } else {
      assert ts == end;
    }
  }

  lemma ListedClimb(ts: seq<Token>, es: seq<Tree>, end: seq<Token>) returns (rest: seq<Token>)
    requires Listed(ts, es, end) && |es| > 0
    ensures Climb(ts, 3) == Some(Parsed(es[0], rest)) && !Null(es[0]) && Listed(SkipComma(rest), Drop(es, 1), end)
    ensures |SkipComma(rest)| < |ts|
  {
    hide Climb, WellFormed, Yield, Commas;
    assert Plain(es[0]);
    rest := CommasSplit(ts, es, end);
    SeparatorCloses(es[0], rest[0], 3);
    ClimbComplete(es[0], 3, rest);
    FirstOf(es[0], 3);
  }

  lemma CommasSplit(ts: seq<Token>, es: seq<Tree>, end: seq<Token>) returns (rest: seq<Token>)
    requires Listed(ts, es, end) && |es| > 0
    ensures ts == Yield(es[0]) + rest && |rest| > 0 && Separates(rest[0]) && SkipComma(rest) == Commas(Drop(es, 1)) + end
    ensures AllPlain(Drop(es, 1))
  {
    hide Yield, Plain;
    if |es| == 1 {
      rest := end;
      assert Commas([]) + end == end;
    } else {
      rest := [Punctuation(Comma)] + (Commas(es[1..]) + end);
      assert rest[1..] == Commas(es[1..]) + end;
      assert ts == Yield(es[0]) + ([Punctuation(Comma)] + Commas(es[1..])) + end;
    }
  }

  lemma {:induction false} ListedExcess(ts: seq<Token>, es: seq<Tree>, end: seq<Token>)
    requires Listed(ts, es, end)
    ensures SkipExcess(ts) == Some(end[1..])
    decreases |es|
  {
    hide Climb, WellFormed;
    ListedFirst(ts, es, end);
    if |es| == 0 {
      assert ts == end;
    } else {
      var rest := ListedClimb(ts, es, end);
      ListedExcess(SkipComma(rest), Drop(es, 1), end);
    }
  }

  /** The outcome for an object with these scalars left to fill. */
  ghost predicate Fills(r: Option<Filled>, leaves: seq<Leaf>, es: seq<Tree>, end: seq<Token>, brace: bool) {
    Begins(end, CloseBrace) && r.Some? && r.value.entries == Zip(leaves, es) &&
    if brace then r.value.rest == end[1..] else Listed(SkipComma(r.value.rest), Drop(es, |leaves|), end)
  }

  lemma {:induction false} ElementFlat(ts: seq<Token>, t: Type, base: int, es: seq<Tree>, end: seq<Token>)
    requires Sane(t) && Listed(ts, es, end) && |es| > 0
    ensures Fills(Element(ts, t, base), Leaves(t, base), es, end, false)
    decreases t, 1
  {
    hide Climb, Leaves, Zip, Elements, Members, Listed, Commas;
    ListedFirst(ts, es, end);
    match t {
      case Basic(_) => BasicFlat(ts, t, base, es, end);
      case ArrayOf(_, _) => ElementsFlat(ts, t, 0, base, false, es, end); AllElements(t, base);
      case Structure(_, _, _) => MembersFlat(ts, t, 0, base, false, es, end); AllFields(t, base); AllNames(t, base);
    }
  }

  lemma BasicFlat(ts: seq<Token>, t: Type, base: int, es: seq<Tree>, end: seq<Token>)
    requires t.Basic? && Listed(ts, es, end) && |es| > 0
    ensures Fills(Element(ts, t, base), Leaves(t, base), es, end, false)
  {
    hide Climb, Listed;
    ListedFirst(ts, es, end);
    var rest := ListedClimb(ts, es, end);
    assert Zip(Leaves(t, base), es) == [Entry(base, t.scalar, Given(es[0]))] + Zip([], Drop(es, 1));
  }

  lemma {:induction false} ElementsFlat(ts: seq<Token>, t: Type, i: nat, base: int, brace: bool, es: seq<Tree>, end: seq<Token>)
    requires t.ArrayOf? && Sane(t) && Listed(ts, es, end)
    ensures Fills(Elements(ts, t, i, base, brace), ElementsFrom(t, i, base), es, end, brace)
    decreases t, 0, t.length - i
  {
    hide Element, SkipExcess, Leaves, ElementsFrom, ZeroElements, Zip, Size, Listed;
    ListedFirst(ts, es, end);
    if i >= t.length {
      ElementsDone(ts, t, i, base, brace, es, end);
    } else if |es| == 0 {
      ElementsZeroed(ts, t, i, base, brace, es, end);
    } else {
      var at := base + Size(t.element) * i;
      ElementFlat(ts, t.element, at, es, end);
      var x := Element(ts, t.element, at).value;
      var n := |Leaves(t.element, at)|;
      ElementsFlat(SkipComma(x.rest), t, i + 1, base, brace, Drop(es, n), end);
      ElementsLevel(t, i, base);
      JoinFills(Leaves(t.element, at), ElementsFrom(t, i + 1, base), x, Elements(SkipComma(x.rest), t, i + 1, base, brace), es, end, brace);
    }
  }

  lemma ElementsDone(ts: seq<Token>, t: Type, i: nat, base: int, brace: bool, es: seq<Tree>, end: seq<Token>)
    requires t.ArrayOf? && i >= t.length && Listed(ts, es, end) && SkipComma(ts) == ts
    ensures Fills(Elements(ts, t, i, base, brace), ElementsFrom(t, i, base), es, end, brace)
  {
    hide SkipExcess, Listed;
    ListedFirst(ts, es, end);
    ListedExcess(ts, es, end);
    assert Drop(es, 0) == es;
  }

  lemma ElementsZeroed(ts: seq<Token>, t: Type, i: nat, base: int, brace: bool, es: seq<Tree>, end: seq<Token>)
    requires t.ArrayOf? && Sane(t) && i < t.length && Listed(ts, es, end) && |es| == 0 && Begins(ts, CloseBrace) && SkipComma(ts) == ts
    ensures Fills(Elements(ts, t, i, base, brace), ElementsFrom(t, i, base), es, end, brace)
  {
    hide SkipExcess, ElementsFrom, ZeroElements, Zip;
    ZeroElementsZip(t, i, base);
    assert ts == end && es == [];
  }

  /** Filling one part and then the rest. */
  lemma JoinFills(first: seq<Leaf>, others: seq<Leaf>, x: Filled, y: Option<Filled>, es: seq<Tree>, end: seq<Token>, brace: bool)
    requires x.entries == Zip(first, es) && Fills(y, others, Drop(es, |first|), end, brace)
    ensures Fills(Then(x.entries, y), first + others, es, end, brace)
  {
    hide Zip, Listed;
    ZipAppend(first, others, es);
    DropTwice(es, |first|, |others|);
  }

  function Names(t: Type, i: nat): set<string>
    requires t.Structure? && i <= |t.fields|
  {
    set j | 0 <= j < i :: t.fields[j].name
  }

  lemma AllNames(t: Type, base: int)
    requires t.Structure?
    ensures Names(t, 0) == {}
  {
  }

  /** The fields that are not among the first i are those from i on. */
  lemma {:induction false} LaterFields(t: Type, k: nat, i: nat, base: int)
    requires t.Structure? && Distinct(t.fields) && k <= |t.fields| && i <= |t.fields|
    ensures FieldsFrom(t, k, base, Names(t, i)) == FieldsFrom(t, Max(k, i), base, {})
    decreases |t.fields| - k
  {
    if k < |t.fields| {
      LaterFields(t, k + 1, i, base);
      if k >= i {
        assert t.fields[k].name !in Names(t, i);
      }
    }
  }

  lemma {:induction false} MembersFlat(ts: seq<Token>, t: Type, i: nat, base: int, brace: bool, es: seq<Tree>, end: seq<Token>)
    requires t.Structure? && Sane(t) && i <= |t.fields| && Listed(ts, es, end)
    ensures Fills(Members(ts, t, i, Names(t, i), base, brace), FieldsFrom(t, i, base, {}), es, end, brace)
    decreases t, 0, |t.fields| - i
  {
    hide Element, SkipExcess, Leaves, FieldsFrom, ZeroFields, Zip, Listed, Members, Sane, Distinct;
    SaneStructure(t);
    ListedFirst(ts, es, end);
    if |es| == 0 || i == |t.fields| {
      MembersDone(ts, t, i, base, brace, es, end);
    } else {
      var f := t.fields[i];
      ElementFlat(ts, f.kind, base + f.offset, es, end);
      var x := Element(ts, f.kind, base + f.offset).value;
      var n := |Leaves(f.kind, base + f.offset)|;
      MembersFlat(SkipComma(x.rest), t, i + 1, base, brace, Drop(es, n), end);
      MembersStep(ts, t, i, base, brace, x);
      FieldsLevel(t, i, base, {});
      JoinFills(Leaves(f.kind, base + f.offset), FieldsFrom(t, i + 1, base, {}), x,
        Members(SkipComma(x.rest), t, i + 1, Names(t, i + 1), base, brace), es, end, brace);
    }
  }

  lemma MembersStep(ts: seq<Token>, t: Type, i: nat, base: int, brace: bool, x: Filled)
    requires t.Structure? && t.isStruct && Distinct(t.fields) && i < |t.fields| && !Begins(ts, CloseBrace) && !Begins(ts, Dot)
    requires Element(ts, t.fields[i].kind, base + t.fields[i].offset) == Some(x)
    ensures Members(ts, t, i, Names(t, i), base, brace) ==
      Then(x.entries, Members(SkipComma(x.rest), t, i + 1, Names(t, i + 1), base, brace))
  {
    hide Element, SkipExcess, ZeroFields, SkipComma;
    assert t.fields[i].name !in Names(t, i);
    assert Names(t, i + 1) == Names(t, i) + {t.fields[i].name};
  }

  lemma MembersDone(ts: seq<Token>, t: Type, i: nat, base: int, brace: bool, es: seq<Tree>, end: seq<Token>)
    requires t.Structure? && Sane(t) && i <= |t.fields| && Listed(ts, es, end) && SkipComma(ts) == ts && !Begins(ts, Dot)
    requires (|es| == 0 || i == |t.fields|) && (Begins(ts, CloseBrace) <==> |es| == 0)
    ensures Fills(Members(ts, t, i, Names(t, i), base, brace), FieldsFrom(t, i, base, {}), es, end, brace)
  {
    hide SkipExcess, ZeroFields, Zip, FieldsFrom;
    ZeroFieldsZip(t, 0, base, Names(t, i), false);
    LaterFields(t, 0, i, base);
    ListedExcess(ts, es, end);
    if i == |t.fields| {
      NoFields(t, base);
      assert Drop(es, 0) == es;
      EmptyZip(es);
    }
    if |es| == 0 {
      assert ts == end && es == [];
    }
  }

  lemma NoFields(t: Type, base: int)
    requires t.Structure?
    ensures FieldsFrom(t, |t.fields|, base, {}) == []
  {
  }

  lemma EmptyZip(es: seq<Tree>)
    ensures Zip([], es) == Zip([], [])
  {
  }

  /** The main result on values: `{ e1, ..., en }` of prefix and postfix expressions gives
      the scalars of the object, however deeply nested, the expressions in order, then
      zeros; expressions too many are dropped, and the brace ends it, as section 6.7.8 of
      ISO/IEC 9899:1999 says. BracedExactly is about other expressions. */
  lemma FlatList(t: Type, base: int, es: seq<Tree>, rest: seq<Token>)
    requires Sane(t) && !t.Basic? && AllPlain(es)
    ensures var ts := [Punctuation(OpenBrace)] + (Commas(es) + ([Punctuation(CloseBrace)] + rest));
      List(ts, t, base) == Some(Filled(Zip(Leaves(t, base), es), rest))
  {
    hide Leaves, Zip, Elements, Members, Commas, Sane;
    var end := [Punctuation(CloseBrace)] + rest;
    var inside := Commas(es) + end;
    var ts := [Punctuation(OpenBrace)] + inside;
    assert ts[1..] == inside && end[1..] == rest;
    ListedFirst(inside, es, end);
    if t.ArrayOf? {
      ElementsFlat(inside, t, 0, base, true, es, end);
      AllElements(t, base);
    } else {
      MembersFlat(inside, t, 0, base, true, es, end);
      AllFields(t, base);
      AllNames(t, base);
    }
  }

  // ------------------------------------------ operators in a list's elements

  /** Elements are read with bound 3 (section 6.7.8 allows any assignment expression): of
      all full expressions e, `{ e }` gives the first scalar of an array the value e, and
      the others zero, exactly for those below stratum 3, strings in char arrays apart. */
  lemma {:induction false} BracedExactly(s: Scalar, n: nat, base: int, e: Tree, rest: seq<Token>)
    requires n >= 1 && Stratified(e, 16)
    ensures var t := ArrayOf(Basic(s), n);
      List([Punctuation(OpenBrace)] + (Yield(e) + ([Punctuation(CloseBrace)] + rest)), t, base) ==
        Some(Filled([Entry(base, s, Given(e))] + ZeroElements(t, 1, base), rest)) <==>
      Level(e) < 3 && !(s.Char? && Yield(e)[0].StringLiteral?)
  {
    hide *;
    var t := ArrayOf(Basic(s), n);
    var tail := [Punctuation(CloseBrace)] + rest;
    var inside := Yield(e) + tail;
    var ts := [Punctuation(OpenBrace)] + inside;
    FullFirst(e);
    StratumThree(e);
    SeparatorCloses(e, tail[0], 3) by { assert Separates(tail[0]) by { CloseSeparates(); } }
    ClimbExact(inside, 3, e, tail);
    assert ts[1..] == inside && tail[1..] == rest && tail[0] == Punctuation(CloseBrace);
    assert inside[0] == Yield(e)[0];
    BracedList(ts, s, n, base);
    if Climb(inside, 3) == Some(Parsed(e, tail)) {
      BracedElement(inside, s, n, base, e, tail);
    } else {
      BracedOther(inside, s, n, base, e, tail);
    }
  }

  lemma {:induction false} CloseSeparates()
    ensures Separates(Punctuation(CloseBrace))
  {
  }

  lemma {:induction false} FullFirst(e: Tree)
    requires Stratified(e, 16)
    ensures |Yield(e)| > 0 && !Null(e) && Yield(e)[0] != Punctuation(CloseBrace)
  {
    hide Stratified, Null, Yield, Whole, WellFormed;
    StratifiedExact(e, 16);
    WholeThere(e);
    FirstOf(e, 16);
  }

  lemma {:induction false} StratumThree(e: Tree)
    requires Stratified(e, 16)
    ensures WellFormed(e, 3) <==> Level(e) < 3
  {
    hide WellFormed;
    StratifiedWhole(e, 16);
    StratifiedExact(e, 3);
  }

  lemma {:induction false} BracedList(ts: seq<Token>, s: Scalar, n: nat, base: int)
    requires |ts| > 1 && ts[0] == Punctuation(OpenBrace)
    ensures List(ts, ArrayOf(Basic(s), n), base) ==
      if s.Char? && ts[1].StringLiteral? then None else Elements(ts[1..], ArrayOf(Basic(s), n), 0, base, true)
  {
    hide Elements;
  }

  lemma {:induction false} BracedElement(ts: seq<Token>, s: Scalar, n: nat, base: int, e: Tree, tail: seq<Token>)
    requires n >= 1 && |ts| > 0 && ts[0] != Punctuation(CloseBrace) && Climb(ts, 3) == Some(Parsed(e, tail)) && !Null(e) && |tail| > 0 && tail[0] == Punctuation(CloseBrace)
    ensures Elements(ts, ArrayOf(Basic(s), n), 0, base, true) ==
      Some(Filled([Entry(base, s, Given(e))] + ZeroElements(ArrayOf(Basic(s), n), 1, base), tail[1..]))
  {
    hide Climb, Null;
    var t := ArrayOf(Basic(s), n);
    assert Element(ts, Basic(s), base + Size(Basic(s)) * 0) == Some(Filled([Entry(base, s, Given(e))], tail));
    assert Elements(tail, t, 1, base, true) == Some(Filled(ZeroElements(t, 1, base), tail[1..]));
  }

  lemma {:induction false} BracedOther(ts: seq<Token>, s: Scalar, n: nat, base: int, e: Tree, tail: seq<Token>)
    requires n >= 1 && |ts| > 0 && ts[0] != Punctuation(CloseBrace) && ts == Yield(e) + tail && Climb(ts, 3) != Some(Parsed(e, tail))
    requires |tail| > 0 && Halts(e, tail[0], 3) && !Null(e)
    ensures var r := Elements(ts, ArrayOf(Basic(s), n), 0, base, true);
      r.Some? ==> |r.value.entries| == 0 || r.value.entries[0] != Entry(base, s, Given(e))
  {
    hide Climb, Null, Yield, WellFormed, Halts;
    var t := ArrayOf(Basic(s), n);
    if Climb(ts, 3).Some? && Climb(ts, 3).value.tree == e {
      ClimbSound(ts, 3);
      ClimbExact(ts, 3, e, tail);
    }
    assert Elements(ts, t, 0, base, true).Some? ==> Element(ts, Basic(s), base + Size(Basic(s)) * 0).Some?;
  }

  /** `{ 1 + 2 }` fails where there is a second element, because `+` begins none. */
  lemma {:induction false} SumRefused(base: int, one: string, two: string)
    ensures List([Punctuation(OpenBrace), Constant(one), Punctuation(Plus), Constant(two), Punctuation(CloseBrace), Punctuation(Semicolon)],
      ArrayOf(Basic(Int), 2), base) == None
  {
    hide Climb;
    var t := ArrayOf(Basic(Int), 2);
    var rest := [Punctuation(Plus), Constant(two), Punctuation(CloseBrace), Punctuation(Semicolon)];
    var ts := [Constant(one)] + rest;
    ConstantStops(one, rest);
    NoneBegins(rest);
    assert Element(ts, Basic(Int), base + Size(Basic(Int)) * 0) == Some(Filled([Entry(base, Int, Given(Atom(Constant(one))))], rest));
    assert Elements(rest, t, 1, base, true) == None;
    assert ([Punctuation(OpenBrace)] + ts)[1..] == ts;
    assert [Punctuation(OpenBrace)] + ts ==
      [Punctuation(OpenBrace), Constant(one), Punctuation(Plus), Constant(two), Punctuation(CloseBrace), Punctuation(Semicolon)];
  }

  lemma {:induction false} ConstantStops(text: string, rest: seq<Token>)
    requires |rest| > 0 && Stops(rest[0], 3)
    ensures Climb([Constant(text)] + rest, 3) == Some(Parsed(Atom(Constant(text)), rest))
  {
    ClimbComplete(Atom(Constant(text)), 3, rest);
  }

  lemma {:induction false} NoneBegins(ts: seq<Token>)
    requires |ts| > 0 && NoOperand(ts[0])
    ensures Climb(ts, 3) == Some(Parsed(Nothing, ts))
  {
  }

  lemma {:induction false} ElementsNext(ts: seq<Token>, t: Type, i: nat, base: int, x: Filled, y: Filled)
    requires t.ArrayOf? && i < t.length && |ts| > 0 && ts[0] != Punctuation(CloseBrace)
    requires Element(ts, t.element, base + Size(t.element) * i) == Some(x) && |x.rest| > 0 && x.rest[0] != Punctuation(Comma)
    requires Elements(x.rest, t, i + 1, base, true) == Some(y)
    ensures Elements(ts, t, i, base, true) == Some(Filled(x.entries + y.entries, y.rest))
  {
    hide Element, Size;
  }

  lemma {:induction false} IntElement(ts: seq<Token>, at: int, x: Parsed)
    requires Climb(ts, 3) == Some(x) && !Null(x.tree)
    ensures Element(ts, Basic(Int), at) == Some(Filled([Entry(at, Int, Given(x.tree))], x.rest))
  {
    hide Climb, Null;
  }

  lemma {:induction false} NoMoreElements(ts: seq<Token>, t: Type, i: nat, base: int)
    requires t.ArrayOf? && i >= t.length && |ts| > 0 && ts[0] == Punctuation(CloseBrace)
    ensures Elements(ts, t, i, base, true) == Some(Filled([], ts[1..]))
  {
  }

  /** `{ 1 - 2 }` is read as `{ 1, -2 }`. */
  lemma {:induction false} DifferenceSplit(base: int, one: string, two: string)
    ensures List([Punctuation(OpenBrace), Constant(one), Punctuation(Minus), Constant(two), Punctuation(CloseBrace), Punctuation(Semicolon)],
      ArrayOf(Basic(Int), 2), base) ==
      Some(Filled([Entry(base, Int, Given(Atom(Constant(one)))), Entry(base + 4, Int, Given(Prefix(Minus, Atom(Constant(two)))))], [Punctuation(Semicolon)]))
  {
    hide Climb, Elements, List, Element, Zeros;
    assert Size(Basic(Int)) * 1 == 4 && Size(Basic(Int)) * 0 == 0;
    hide Size;
    var t := ArrayOf(Basic(Int), 2);
    var end := [Punctuation(CloseBrace), Punctuation(Semicolon)];
    var rest := [Punctuation(Minus), Constant(two)] + end;
    var ts := [Constant(one)] + rest;
    var negative := Prefix(Minus, Atom(Constant(two)));
    ConstantStops(one, rest);
    assert WellFormed(Atom(Constant(two)), 3) && WellFormed(negative, 3);
    SeparatorCloses(negative, end[0], 3);
    ClimbComplete(negative, 3, end);
    assert Yield(negative) == [Punctuation(Minus)] + [Constant(two)];
    assert Yield(negative) + end == rest;
    var first, second := Entry(base, Int, Given(Atom(Constant(one)))), Entry(base + 4, Int, Given(negative));
    IntElement(ts, base, Parsed(Atom(Constant(one)), rest));
    IntElement(rest, base + 4, Parsed(negative, end));
    NoMoreElements(end, t, 2, base);
    assert end[1..] == [Punctuation(Semicolon)];
    ElementsNext(rest, t, 1, base, Filled([second], end), Filled([], [Punctuation(Semicolon)]));
    assert [second] + [] == [second];
    ElementsNext(ts, t, 0, base, Filled([first], rest), Filled([second], [Punctuation(Semicolon)]));
    assert [first] + [second] == [first, second];
    BracedList([Punctuation(OpenBrace)] + ts, Int, 2, base);
    assert ([Punctuation(OpenBrace)] + ts)[1..] == ts;
    assert [Punctuation(OpenBrace)] + ts ==
      [Punctuation(OpenBrace), Constant(one), Punctuation(Minus), Constant(two), Punctuation(CloseBrace), Punctuation(Semicolon)];
  }

  // ----- single steps of the loops

  lemma BasicElement(ts: seq<Token>, t: Type, base: int, x: Parsed)
    requires t.Basic? && Climb(ts, 3) == Some(x) && !Null(x.tree)
    ensures Element(ts, t, base) == Some(Filled([Entry(base, t.scalar, Given(x.tree))], x.rest))
  {
    hide Climb;
  }
}
