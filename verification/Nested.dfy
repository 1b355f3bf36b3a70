/** What nested braces and designators mean. */
module NestedInitializers {
  import opened Runs
  import opened Grammar
  import opened Precedence
  import opened Layout
  import opened Initializers
  import M = InitMemory

  /** An initializer as it is written: an expression for a scalar, a string for an array of
      characters, braces around expressions alone, which fill what is inside one after
      another, braces around initializers of the members themselves, or such initializers
      without their braces. */
  datatype Init = Scalar(e: Tree) | Text(text: string) | Flat(es: seq<Tree>) | Nest(items: Items, comma: bool) | Elided(items: Items)

  /** Each with the name in its designator, if it has one. */
  datatype Items = NoItems | Item(designator: Option<string>, init: Init, rest: Items)

  function Spell(init: Init): seq<Token> {
    match init
    case Scalar(e) => Yield(e)
    case Text(s) => [StringLiteral(s)]
    case Flat(es) => [Punctuation(OpenBrace)] + Commas(es) + [Punctuation(CloseBrace)]
    case Nest(items, comma) => [Punctuation(OpenBrace)] + SpellItems(items, comma) + [Punctuation(CloseBrace)]
    case Elided(items) => SpellItems(items, false)
  }

  function SpellItems(items: Items, comma: bool): seq<Token> {
    match items
    case NoItems => []
    case Item(d, init, rest) => SpellDesignator(d) + Spell(init) + SpellComma(rest, comma) + SpellItems(rest, comma)
  }

  function SpellDesignator(d: Option<string>): seq<Token> {
    match d
    case None => []
    case Some(name) => [Punctuation(Dot), Identifier(name), Punctuation(Punct.Assign)]
  }

  function SpellComma(rest: Items, comma: bool): seq<Token> {
    if rest.NoItems? && !comma then [] else [Punctuation(Comma)]
  }

  /** The member an item initializes, when i is the one after the last. */
  function Index(d: Option<string>, t: Type, i: nat): nat
    requires t.Structure?
  {
    match d
    case None => i
    case Some(name) => IndexOf(t.fields, name)
  }

  predicate Unnamed(items: Items) {
    items.Item? ==> items.designator.None? && Unnamed(items.rest)
  }

  /** Every member inside has its initializer; only elided braces can end early. */
  predicate Full(init: Init, t: Type) {
    init.Elided? ==> if t.ArrayOf? then FullElements(init.items, t, 0) else t.Structure? && FullMembers(init.items, t, 0)
  }

  predicate FullElements(items: Items, t: Type, i: nat)
    requires t.ArrayOf?
  {
    match items
    case NoItems => i >= t.length
    case Item(_, init, rest) => (rest.NoItems? ==> Full(init, t.element)) && FullElements(rest, t, i + 1)
  }

  predicate FullMembers(items: Items, t: Type, i: nat)
    requires t.Structure?
  {
    match items
    case NoItems => i >= |t.fields|
    case Item(_, init, rest) => i < |t.fields| && (rest.NoItems? ==> Full(init, t.fields[i].kind)) && FullMembers(rest, t, i + 1)
  }

  /** It fits the type: nothing too much, no unknown member. A member whose own braces are
      elided begins without a brace, has no designators inside, and is full unless a
      designator or the end of the list follows (section 6.7.8 of ISO/IEC 9899:1999). */
  predicate Legal(init: Init, t: Type) {
    match init
    case Scalar(e) => t.Basic? && Plain(e)
    case Text(_) => IsCharArray(t)
    case Flat(es) => !t.Basic? && AllPlain(es)
    case Nest(items, comma) =>
      (comma ==> items.Item?) && if t.ArrayOf? then LegalElements(items, t, 0) else t.Structure? && LegalMembers(items, t, 0)
    case Elided(items) =>
      items.Item? && Unnamed(items) && !items.init.Flat? && !items.init.Nest? &&
      if t.ArrayOf? then LegalElements(items, t, 0) else t.Structure? && LegalMembers(items, t, 0)
  }

  predicate LegalElements(items: Items, t: Type, i: nat)
    requires t.ArrayOf?
  {
    match items
    case NoItems => true
    case Item(d, init, rest) =>
      d.None? && i < t.length && Legal(init, t.element) && (rest.Item? ==> Full(init, t.element)) && LegalElements(rest, t, i + 1)
  }

  predicate LegalMembers(items: Items, t: Type, i: nat)
    requires t.Structure?
  {
    match items
    case NoItems => true
    case Item(d, init, rest) =>
      var k := Index(d, t, i);
      k < |t.fields| && Legal(init, t.fields[k].kind) &&
      (rest.Item? && rest.designator.None? ==> Full(init, t.fields[k].kind)) && LegalMembers(rest, t, k + 1)
  }

  /** No member is initialized twice. */
  predicate Once(init: Init, t: Type)
    requires Legal(init, t)
  {
    match init
    case Scalar(_) => true
    case Text(_) => true
    case Flat(_) => true
    case Nest(items, _) => if t.ArrayOf? then OnceElements(items, t, 0) else OnceMembers(items, t, 0, {})
    case Elided(items) => if t.ArrayOf? then OnceElements(items, t, 0) else OnceMembers(items, t, 0, {})
  }

  predicate OnceElements(items: Items, t: Type, i: nat)
    requires t.ArrayOf? && LegalElements(items, t, i)
  {
    match items
    case NoItems => true
    case Item(_, init, rest) => Once(init, t.element) && OnceElements(rest, t, i + 1)
  }

  predicate OnceMembers(items: Items, t: Type, i: nat, wrote: set<string>)
    requires t.Structure? && LegalMembers(items, t, i)
  {
    match items
    case NoItems => true
    case Item(d, init, rest) =>
      var k := Index(d, t, i);
      t.fields[k].name !in wrote && Once(init, t.fields[k].kind) && OnceMembers(rest, t, k + 1, wrote + {t.fields[k].name})
  }

  /** No designated item directly follows a structure whose braces are elided, or an array
      without braces that is not full; `named` says that one follows this initializer. */
  predicate Tidy(init: Init, t: Type, named: bool)
    requires Legal(init, t)
  {
    match init
    case Scalar(_) => true
    case Text(_) => true
    case Flat(_) => true
    case Nest(items, _) => if t.ArrayOf? then TidyElements(items, t, 0, false) else TidyMembers(items, t, 0, false)
    case Elided(items) => if t.ArrayOf? then TidyElements(items, t, 0, named) else TidyMembers(items, t, 0, named)
  }

  predicate TidyElements(items: Items, t: Type, i: nat, named: bool)
    requires t.ArrayOf? && LegalElements(items, t, i)
  {
    match items
    case NoItems => named ==> i >= t.length
    case Item(_, init, rest) => Tidy(init, t.element, NamedNext(rest, named)) && TidyElements(rest, t, i + 1, named)
  }

  predicate TidyMembers(items: Items, t: Type, i: nat, named: bool)
    requires t.Structure? && LegalMembers(items, t, i)
  {
    match items
    case NoItems => !named
    case Item(d, init, rest) =>
      Tidy(init, t.fields[Index(d, t, i)].kind, NamedNext(rest, named)) && TidyMembers(rest, t, Index(d, t, i) + 1, named)
  }

  /** Whether a designator follows an item: that of the next one, or the one after the list. */
  predicate NamedNext(rest: Items, named: bool) {
    if rest.Item? then rest.designator.Some? else named
  }

  /** The initializer of member k among the items. */
  function ItemFor(items: Items, t: Type, i: nat, k: nat): (r: Option<Init>)
    requires t.Structure? && LegalMembers(items, t, i) && k < |t.fields|
    ensures r.Some? ==> r.value < items && Legal(r.value, t.fields[k].kind)
    decreases items
  {
    match items
    case NoItems => None
    case Item(d, init, rest) => if Index(d, t, i) == k then Some(init) else ItemFor(rest, t, Index(d, t, i) + 1, k)
  }

  /** What section 6.7.8 of ISO/IEC 9899:1999 makes of it, in the order of declaration. */
  function Meant(init: Init, t: Type, base: int): seq<Entry>
    requires Legal(init, t)
    decreases init, 0
  {
    match init
    case Scalar(e) => [Entry(base, t.scalar, Given(e))]
    case Text(s) => Characters(s, base, 0, t.length)
    case Flat(es) => Zip(Leaves(t, base), es)
    case Nest(items, _) => if t.ArrayOf? then MeantElements(items, t, 0, base) else MeantMembers(items, t, 0, {}, 0, base)
    case Elided(items) => if t.ArrayOf? then MeantElements(items, t, 0, base) else MeantMembers(items, t, 0, {}, 0, base)
  }

  function MeantElements(items: Items, t: Type, i: nat, base: int): seq<Entry>
    requires t.ArrayOf? && LegalElements(items, t, i)
    decreases items, 1
  {
    match items
    case NoItems => ZeroElements(t, i, base)
    case Item(_, init, rest) => Meant(init, t.element, base + Size(t.element) * i) + MeantElements(rest, t, i + 1, base)
  }

  /** The members from k on, but those in `wrote`. */
  function MeantMembers(items: Items, t: Type, i: nat, wrote: set<string>, k: nat, base: int): seq<Entry>
    requires t.Structure? && LegalMembers(items, t, i) && k <= |t.fields|
    decreases items, 1, |t.fields| - k
  {
    if k == |t.fields| then [] else
    var f := t.fields[k];
    (if f.name in wrote then []
     else match ItemFor(items, t, i, k)
       case None => Zeros(f.kind, base + f.offset)
       case Some(init) => Meant(init, f.kind, base + f.offset)) + MeantMembers(items, t, i, wrote, k + 1, base)
  }

  // ------------------------------------------------------ members in order

  lemma {:induction false} MeantLevel(items: Items, t: Type, i: nat, wrote: set<string>, k: nat, base: int)
    requires t.Structure? && LegalMembers(items, t, i) && k < |t.fields|
    ensures var f := t.fields[k]; var after := MeantMembers(items, t, i, wrote, k + 1, base);
      (f.name in wrote ==> MeantMembers(items, t, i, wrote, k, base) == after) &&
      (f.name !in wrote ==> var x := ItemFor(items, t, i, k);
        (x.None? ==> MeantMembers(items, t, i, wrote, k, base) == Zeros(f.kind, base + f.offset) + after) &&
        (x.Some? ==> MeantMembers(items, t, i, wrote, k, base) == Meant(x.value, f.kind, base + f.offset) + after))
  {
    hide Meant, Zeros, ItemFor;
    var after := MeantMembers(items, t, i, wrote, k + 1, base);
    assert [] + after == after;
  }

  lemma {:induction false} ItemLevel(items: Items, t: Type, i: nat, k: nat)
    requires t.Structure? && items.Item? && LegalMembers(items, t, i) && k < |t.fields|
    ensures var j := Index(items.designator, t, i);
      j < |t.fields| && Legal(items.init, t.fields[j].kind) && LegalMembers(items.rest, t, j + 1) &&
      ItemFor(items, t, i, k) == if j == k then Some(items.init) else ItemFor(items.rest, t, j + 1, k)
  {
    hide Legal;
  }

  /** Taking the first item out leaves the members of the others. */
  lemma {:induction false} Taken(items: Items, t: Type, i: nat, wrote: set<string>, k: nat, base: int, j: nat)
    requires t.Structure? && items.Item? && LegalMembers(items, t, i) && Distinct(t.fields) && k <= |t.fields|
    requires j == Index(items.designator, t, i) && j < |t.fields| && t.fields[j].name !in wrote
    requires Legal(items.init, t.fields[j].kind) && LegalMembers(items.rest, t, j + 1)
    ensures var f := t.fields[j]; var others := multiset(MeantMembers(items.rest, t, j + 1, wrote + {f.name}, k, base));
      multiset(MeantMembers(items, t, i, wrote, k, base)) ==
        if k <= j then multiset(Meant(items.init, f.kind, base + f.offset)) + others else others
    decreases |t.fields| - k
  {
    hide *;
    if k < |t.fields| {
      Taken(items, t, i, wrote, k + 1, base, j);
      ItemLevel(items, t, i, k);
      MeantLevel(items, t, i, wrote, k, base);
      MeantLevel(items.rest, t, j + 1, wrote + {t.fields[j].name}, k, base);
      if k != j {
        OtherName(t, j, k);
      }
    } else {
      MeantEnd(items, t, i, wrote, base);
      MeantEnd(items.rest, t, j + 1, wrote + {t.fields[j].name}, base);
    }
  }

  lemma MeantEnd(items: Items, t: Type, i: nat, wrote: set<string>, base: int)
    requires t.Structure? && LegalMembers(items, t, i)
    ensures MeantMembers(items, t, i, wrote, |t.fields|, base) == []
  {
  }

  lemma OtherName(t: Type, j: nat, k: nat)
    requires t.Structure? && Distinct(t.fields) && j < |t.fields| && k < |t.fields| && j != k
    ensures t.fields[j].name != t.fields[k].name
  {
  }

  /** Without items, zeros. */
  lemma {:induction false} NoneMeant(t: Type, i: nat, wrote: set<string>, k: nat, base: int)
    requires t.Structure? && k <= |t.fields|
    ensures MeantMembers(NoItems, t, i, wrote, k, base) == ZeroFields(t, k, base, wrote, false)
    decreases |t.fields| - k
  {
    hide Zeros;
    if k < |t.fields| {
      NoneMeant(t, i, wrote, k + 1, base);
      MeantLevel(NoItems, t, i, wrote, k, base);
    }
  }

  // ----------------------------------------------- what is meant covers all

  lemma {:induction false} ZipPlaces(leaves: seq<Leaf>, es: seq<Tree>)
    ensures Places(Zip(leaves, es)) == leaves
    decreases |leaves|
  {
    if |leaves| > 0 {
      ZipPlaces(leaves[1..], Drop(es, 1));
      var first := Entry(leaves[0].offset, leaves[0].scalar, if |es| > 0 then Given(es[0]) else Zero);
      PlacesAppend([first], Zip(leaves[1..], Drop(es, 1)));
      assert Places([first]) == [leaves[0]] + Places([]);
      assert [leaves[0]] + leaves[1..] == leaves;
    }
  }

  /** It sets every scalar once. */
  lemma {:induction false} MeantCover(init: Init, t: Type, base: int)
    requires Sane(t) && Legal(init, t)
    ensures Places(Meant(init, t, base)) == Leaves(t, base)
    decreases init, 0
  {
    hide Zip, Characters, Plain;
    match init {
      case Scalar(_) =>
      case Text(s) => CharactersCover(s, t, base, 0); AllElements(t, base);
      case Flat(es) => ZipPlaces(Leaves(t, base), es);
      case Nest(items, _) => ListMeantCover(items, t, base);
      case Elided(items) => ListMeantCover(items, t, base);
    }
  }

  lemma {:induction false} ListMeantCover(items: Items, t: Type, base: int)
    requires Sane(t) && if t.ArrayOf? then LegalElements(items, t, 0) else t.Structure? && LegalMembers(items, t, 0)
    ensures Places(if t.ArrayOf? then MeantElements(items, t, 0, base) else MeantMembers(items, t, 0, {}, 0, base)) == Leaves(t, base)
    decreases items, 2
  {
    hide MeantElements, MeantMembers, LegalElements, LegalMembers, Leaves;
    if t.ArrayOf? {
      MeantElementsCover(items, t, 0, base);
      AllElements(t, base);
    } else {
      MeantMembersCover(items, t, 0, {}, 0, base);
      AllFields(t, base);
    }
  }

  lemma {:induction false} MeantElementsCover(items: Items, t: Type, i: nat, base: int)
    requires t.ArrayOf? && Sane(t) && LegalElements(items, t, i)
    ensures Places(MeantElements(items, t, i, base)) == ElementsFrom(t, i, base)
    decreases items, 1
  {
    hide Legal, Full, Meant, Size, Leaves, ZeroElements;
    match items {
      case NoItems => ZeroElementsCover(t, i, base);
      case Item(_, init, rest) =>
        var at := base + Size(t.element) * i;
        MeantCover(init, t.element, at);
        MeantElementsCover(rest, t, i + 1, base);
        PlacesAppend(Meant(init, t.element, at), MeantElements(rest, t, i + 1, base));
    }
  }

  lemma {:induction false} MeantMembersCover(items: Items, t: Type, i: nat, wrote: set<string>, k: nat, base: int)
    requires t.Structure? && Sane(t) && LegalMembers(items, t, i) && k <= |t.fields|
    ensures Places(MeantMembers(items, t, i, wrote, k, base)) == FieldsFrom(t, k, base, wrote)
    decreases items, 1, |t.fields| - k
  {
    hide Legal, LegalMembers, Meant, Leaves, Zeros, ItemFor, MeantMembers;
    SaneStructure(t);
    if k == |t.fields| {
      MeantEnd(items, t, i, wrote, base);
    } else {
      var f := t.fields[k];
      var at := base + f.offset;
      var after := MeantMembers(items, t, i, wrote, k + 1, base);
      MeantMembersCover(items, t, i, wrote, k + 1, base);
      MeantLevel(items, t, i, wrote, k, base);
      FieldsLevel(t, k, base, wrote);
      assert [] + FieldsFrom(t, k + 1, base, wrote) == FieldsFrom(t, k + 1, base, wrote);
      if f.name !in wrote {
        var x := ItemFor(items, t, i, k);
        if x.Some? {
          MeantCover(x.value, f.kind, at);
          PlacesAppend(Meant(x.value, f.kind, at), after);
        } else {
          ZerosCover(f.kind, at);
          PlacesAppend(Zeros(f.kind, at), after);
        }
      }
    }
  }

  /** No scalar is in two members. */
  lemma {:induction false} LeavesOnce(t: Type, base: int, l: Leaf)
    requires Sane(t)
    ensures multiset(Leaves(t, base))[l] <= 1
  {
    hide *;
    LeavesStrung(t, base);
    M.StrungOnce(Leaves(t, base), base, base + Size(t), l);
  }

  lemma {:induction false} ElementsApart(t: Type, i: nat, base: int, l: Leaf)
    requires t.ArrayOf? && Sane(t) && i < t.length && l in Leaves(t.element, base + Size(t.element) * i)
    ensures l !in ElementsFrom(t, i + 1, base)
  {
    hide *;
    LeavesOnce(t, base, l);
    ElementsSplit(t, i, base);
    ElementsLevel(t, i, base);
    var here := Leaves(t.element, base + Size(t.element) * i);
    CountedOnce(ArrayLeaves(t, i, base), here, ElementsFrom(t, i + 1, base), Leaves(t, base), l);
  }

  lemma {:induction false} CountedOnce(a: seq<Leaf>, b: seq<Leaf>, c: seq<Leaf>, whole: seq<Leaf>, l: Leaf)
    requires whole == a + (b + c) && multiset(whole)[l] <= 1 && l in b
    ensures l !in c
  {
    assert multiset(whole) == multiset(a) + multiset(b) + multiset(c);
    assert multiset(b)[l] >= 1;
    assert multiset(c)[l] == 0;
  }

  lemma {:induction false} FieldsFewer(t: Type, k: nat, base: int, wrote: set<string>)
    requires t.Structure? && k <= |t.fields|
    ensures multiset(FieldsFrom(t, k, base, wrote)) <= multiset(FieldsFrom(t, k, base, {}))
    decreases |t.fields| - k
  {
    hide Leaves, FieldsFrom;
    if k < |t.fields| {
      FieldsFewer(t, k + 1, base, wrote);
      FieldsLevel(t, k, base, wrote);
      FieldsLevel(t, k, base, {});
    } else {
      assert FieldsFrom(t, k, base, wrote) == [] by { FieldsNone(t, base, wrote); }
    }
  }

  lemma FieldsNone(t: Type, base: int, wrote: set<string>)
    requires t.Structure?
    ensures FieldsFrom(t, |t.fields|, base, wrote) == []
  {
  }

  lemma {:induction false} FieldsApart(t: Type, j: nat, base: int, wrote: set<string>, l: Leaf)
    requires t.Structure? && Sane(t) && j < |t.fields| && t.fields[j].name !in wrote
    requires l in Leaves(t.fields[j].kind, base + t.fields[j].offset)
    ensures l !in FieldsFrom(t, 0, base, wrote + {t.fields[j].name})
  {
    SaneStructure(t);
    hide *;
    var here := Leaves(t.fields[j].kind, base + t.fields[j].offset);
    var others := FieldsFrom(t, 0, base, wrote + {t.fields[j].name});
    LeavesOnce(t, base, l);
    AllFields(t, base);
    FieldsFewer(t, 0, base, wrote);
    WriteField(t, 0, base, wrote, j);
    assert multiset(here)[l] >= 1;
    assert multiset(others)[l] == 0;
  }

  // ------------------------------------------------------ what comes first

  /** Braces and designators lead to something other than a closing brace. */
  predicate Leads(ts: seq<Token>)
    decreases |ts|
  {
    |ts| > 0 &&
    if ts[0] == Punctuation(OpenBrace) then Leads(ts[1..])
    else if ts[0] == Punctuation(Dot) then |ts| > 3 && Leads(ts[3..])
    else ts[0] != Punctuation(CloseBrace)
  }

  /** Arrays have elements and structures members, as section 6.7 asks of them. */
  predicate Positive(t: Type) {
    match t
    case Basic(_) => true
    case ArrayOf(e, n) => n > 0 && Positive(e)
    case Structure(fields, _, _) => |fields| > 0 && forall i :: 0 <= i < |fields| ==> Positive(fields[i].kind)
  }

  /** No braces are empty, as the grammar of section 6.7.8 asks. */
  predicate Written(init: Init) {
    match init
    case Flat(es) => |es| > 0
    case Nest(items, _) => items.Item? && WrittenItems(items)
    case Elided(items) => WrittenItems(items)
    case _ => true
  }

  predicate WrittenItems(items: Items) {
    items.Item? ==> Written(items.init) && WrittenItems(items.rest)
  }

  /** The first scalar is set from the initializer, not to zero for want of one. */
  predicate Starts(es: seq<Entry>) {
    |es| > 0 && es[0].value != Zero
  }

  predicate AllZero(es: seq<Entry>) {
    forall i :: 0 <= i < |es| ==> es[i].value == Zero
  }

  lemma {:induction false} StartsDiffers(es: seq<Entry>, zs: seq<Entry>)
    requires Starts(es) && AllZero(zs)
    ensures multiset(es) != multiset(zs)
  {
    assert es[0] in multiset(es);
    assert es[0] !in multiset(zs);
  }

  lemma {:induction false} ZerosZero(t: Type, base: int)
    ensures AllZero(Zeros(t, base))
    decreases t, 1
  {
    match t {
      case Basic(_) =>
      case ArrayOf(_, _) => ZeroElementsZero(t, 0, base);
      case Structure(_, _, _) => ZeroFieldsZero(t, 0, base, {}, true);
    }
  }

  lemma {:induction false} ZeroElementsZero(t: Type, i: nat, base: int)
    requires t.ArrayOf?
    ensures AllZero(ZeroElements(t, i, base))
    decreases t, 0, t.length - i
  {
    if i < t.length {
      ZerosZero(t.element, base + Size(t.element) * i);
      ZeroElementsZero(t, i + 1, base);
      hide Zeros, Size;
    }
  }

  lemma {:induction false} ZeroFieldsZero(t: Type, i: nat, base: int, wrote: set<string>, whole: bool)
    requires t.Structure? && i <= |t.fields|
    ensures AllZero(ZeroFields(t, i, base, wrote, whole))
    decreases t, 0, |t.fields| - i
  {
    if i < |t.fields| {
      ZerosZero(t.fields[i].kind, base + t.fields[i].offset);
      ZeroFieldsZero(t, i + 1, base, wrote, whole);
      hide Zeros;
    }
  }

  /** An object that is read from such tokens has its first scalar set from them. */
  lemma {:induction false} ElementStarts(ts: seq<Token>, t: Type, base: int)
    requires Positive(t) && Sane(t) && Leads(ts) && Element(ts, t, base).Some?
    ensures Starts(Element(ts, t, base).value.entries)
    decreases t, 2
  {
    hide Climb, List;
    if !t.Basic? {
      ListStarts(ts, t, base);
    }
  }

  lemma {:induction false} ListStarts(ts: seq<Token>, t: Type, base: int)
    requires !t.Basic? && Positive(t) && Sane(t) && Leads(ts) && List(ts, t, base).Some?
    ensures Starts(List(ts, t, base).value.entries)
    decreases t, 1
  {
    hide Elements, Members;
    var brace := Begins(ts, OpenBrace);
    var inside := if brace then ts[1..] else ts;
    if IsCharArray(t) && ts[0].StringLiteral? {
    } else if t.ArrayOf? {
      ElementsStarts(inside, t, 0, base, brace);
    } else {
      MembersStarts(inside, t, 0, {}, base, brace);
    }
  }

  lemma {:induction false} ElementsStarts(ts: seq<Token>, t: Type, i: nat, base: int, brace: bool)
    requires t.ArrayOf? && Positive(t) && Sane(t) && Leads(ts) && i < t.length && Elements(ts, t, i, base, brace).Some?
    ensures Starts(Elements(ts, t, i, base, brace).value.entries)
    decreases t, 0
  {
    hide Element, Size;
    ElementStarts(ts, t.element, base + Size(t.element) * i);
  }

  lemma {:induction false} MembersStarts(ts: seq<Token>, t: Type, i: nat, wrote: set<string>, base: int, brace: bool)
    requires t.Structure? && Positive(t) && Sane(t) && Leads(ts) && i <= |t.fields| && (i < |t.fields| || Begins(ts, Dot))
    requires Members(ts, t, i, wrote, base, brace).Some?
    ensures Starts(Members(ts, t, i, wrote, base, brace).value.entries)
    decreases t, 0
  {
    hide Element, ZeroFields, SkipExcess;
    var turn := NextField(ts, t, i).value;
    var f := t.fields[turn.index];
    ElementStarts(turn.rest, f.kind, base + f.offset);
  }

  // --------------------------------------------------------------- reading

  /** The result of reading an initializer. In order and without repetition: these entries,
      in some order, and the rest. In order but with a repetition: refused. Out of order, if
      `strict`: refused, or other entries. */
  ghost predicate Reads(r: Option<Filled>, once: bool, tidy: bool, strict: bool, entries: seq<Entry>, rest: seq<Token>) {
    (tidy && once ==> r.Some? && r.value.rest == rest && multiset(r.value.entries) == multiset(entries)) &&
    (tidy && !once ==> r.None?) &&
    (!tidy && strict && r.Some? ==> multiset(r.value.entries) != multiset(entries))
  }

  ghost predicate InitReads(r: Option<Filled>, init: Init, t: Type, base: int, trail: seq<Token>, named: bool, strict: bool) {
    Legal(init, t) &&
    Reads(r, Once(init, t), Tidy(init, t, named), strict, Meant(init, t, base), if init.Elided? then SkipComma(trail) else trail)
  }

  ghost predicate ElementsRead(r: Option<Filled>, items: Items, t: Type, i: nat, base: int, rest: seq<Token>, named: bool, strict: bool) {
    t.ArrayOf? && LegalElements(items, t, i) &&
    Reads(r, OnceElements(items, t, i), TidyElements(items, t, i, named), strict, MeantElements(items, t, i, base), rest)
  }

  ghost predicate MembersRead(r: Option<Filled>, items: Items, t: Type, i: nat, wrote: set<string>, base: int, rest: seq<Token>, named: bool, strict: bool) {
    t.Structure? && LegalMembers(items, t, i) &&
    Reads(r, OnceMembers(items, t, i, wrote), TidyMembers(items, t, i, named), strict, MeantMembers(items, t, i, wrote, 0, base), rest)
  }

  /** No scalar is in both. */
  ghost predicate Apart(a: seq<Entry>, b: seq<Entry>) {
    forall l :: l in Places(a) ==> l !in Places(b)
  }

  lemma {:induction false} PlaceOf(es: seq<Entry>, e: Entry)
    requires e in es
    ensures Leaf(e.offset, e.scalar) in Places(es)
    decreases |es|
  {
    if es[0] != e {
      PlaceOf(es[1..], e);
      assert Leaf(e.offset, e.scalar) in Places(es[1..]);
    }
  }

  /** Entries that differ in one part differ as a whole. */
  lemma {:induction false} DiffersWhole(x: seq<Entry>, a: seq<Entry>, w: seq<Entry>, b: seq<Entry>)
    requires multiset(Places(x)) == multiset(Places(a)) && multiset(Places(w)) == multiset(Places(b)) && Apart(a, b)
    requires multiset(x) + multiset(w) == multiset(a) + multiset(b)
    ensures multiset(x) == multiset(a)
  {
    hide Places;
    forall e: Entry ensures multiset(x)[e] == multiset(a)[e] {
      if e in multiset(x) || e in multiset(a) {
        InPart(x, a, w, b, e);
      }
    }
  }

  lemma {:induction false} InPart(x: seq<Entry>, a: seq<Entry>, w: seq<Entry>, b: seq<Entry>, e: Entry)
    requires multiset(Places(x)) == multiset(Places(a)) && multiset(Places(w)) == multiset(Places(b)) && Apart(a, b)
    requires multiset(x) + multiset(w) == multiset(a) + multiset(b) && (e in x || e in a)
    ensures multiset(x)[e] == multiset(a)[e]
  {
    hide Places;
    var l := Leaf(e.offset, e.scalar);
    if e in x { InPlaces(x, a, e); } else { PlaceOf(a, e); }
    assert l in Places(a);
    if e in w {
      InPlaces(w, b, e);
      assert false;
    }
    if e in b {
      PlaceOf(b, e);
      assert false;
    }
    assert multiset(w)[e] == 0 && multiset(b)[e] == 0;
    assert (multiset(x) + multiset(w))[e] == multiset(x)[e] && (multiset(a) + multiset(b))[e] == multiset(a)[e];
  }

  lemma {:induction false} InPlaces(x: seq<Entry>, a: seq<Entry>, e: Entry)
    requires multiset(Places(x)) == multiset(Places(a)) && e in x
    ensures Leaf(e.offset, e.scalar) in Places(a)
  {
    hide Places;
    PlaceOf(x, e);
    assert Leaf(e.offset, e.scalar) in multiset(Places(x));
    assert Leaf(e.offset, e.scalar) in multiset(Places(a));
  }

  lemma Cancels(a: multiset<Entry>, b: multiset<Entry>, c: multiset<Entry>)
    requires a + b == a + c
    ensures b == c
  {
    forall e: Entry ensures b[e] == c[e] {
      assert (a + b)[e] == a[e] + b[e] && (a + c)[e] == a[e] + c[e];
    }
  }

  /** What comes of the first part and the others. */
  lemma {:induction false} ReadsBoth(x: Option<Filled>, o1: bool, t1: bool, a: seq<Entry>, mid: seq<Token>,
    y: Option<Filled>, o2: bool, t2: bool, b: seq<Entry>, rest: seq<Token>, z: Option<Filled>, w: seq<Entry>, all: seq<Entry>, strict: bool)
    requires Reads(x, o1, t1, strict, a, mid) && Reads(y, o2, t2, strict, b, rest) && multiset(all) == multiset(a) + multiset(b)
    requires (x.None? ==> z == None) && (x.Some? && x.value.rest == mid ==> z == Then(x.value.entries, y))
    requires x.Some? && z.Some? ==>
      z.value.entries == x.value.entries + w && multiset(Places(x.value.entries)) == multiset(Places(a)) &&
      multiset(Places(w)) == multiset(Places(b)) && Apart(a, b)
    ensures Reads(z, o1 && o2, t1 && t2, strict, all, rest)
  {
    hide Places, Apart;
    if x.Some? && z.Some? {
      assert multiset(z.value.entries) == multiset(x.value.entries) + multiset(w);
      if !t1 && strict && multiset(z.value.entries) == multiset(all) {
        DiffersWhole(x.value.entries, a, w, b);
      }
      if t1 && o1 {
        var others := y.value.entries;
        assert multiset(x.value.entries + others) == multiset(a) + multiset(others);
        if multiset(z.value.entries) == multiset(all) {
          Cancels(multiset(a), multiset(others), multiset(b));
        }
      }
    }
  }

  // ----- what stands around an item

  /** The tokens of the items that are left. */
  function Left(items: Items, comma: bool, end: seq<Token>): seq<Token> {
    if items.NoItems? then SkipComma(end) else SpellItems(items, comma) + end
  }

  /** The tokens after the first item. */
  function Trail(rest: Items, comma: bool, end: seq<Token>): seq<Token> {
    SpellComma(rest, comma) + (SpellItems(rest, comma) + end)
  }

  /** What may follow a list: its brace, or, if that is elided, a comma or a brace further
      out, and a designator or a brace if the list is not full. */
  ghost predicate Ends(end: seq<Token>, brace: bool, named: bool, full: bool, strict: bool) {
    |end| > 0 &&
    if brace then end[0] == Punctuation(CloseBrace) && !named
    else
      var after := SkipComma(end);
      Separates(end[0]) && |after| > 0 && after[0] != Punctuation(Comma) && (named <==> after[0] == Punctuation(Dot)) &&
      (full || named || after[0] == Punctuation(CloseBrace)) && (strict && named ==> Leads(after))
  }

  /** The tokens after a list. */
  function Beyond(end: seq<Token>, brace: bool): seq<Token> {
    if brace && |end| > 0 then end[1..] else SkipComma(end)
  }

  /** What may follow an initializer. */
  ghost predicate Follows(trail: seq<Token>, elided: bool, full: bool, named: bool, strict: bool) {
    |trail| > 0 && Separates(trail[0]) && (elided ==> Ends(trail, false, named, full, strict))
  }

  predicate Opens(ts: seq<Token>) {
    |ts| > 0 && ts[0] != Punctuation(CloseBrace) && ts[0] != Punctuation(Dot) && ts[0] != Punctuation(Comma)
  }

  /** What an initializer begins with. */
  lemma {:induction false} SpellFirst(init: Init, t: Type)
    requires Legal(init, t)
    ensures Opens(Spell(init))
    ensures Spell(init)[0] == Punctuation(OpenBrace) ==> init.Flat? || init.Nest?
    ensures Spell(init)[0].StringLiteral? ==> init.Text? || init.Elided?
    ensures init.Scalar? ==> !Spell(init)[0].StringLiteral?
    decreases init
  {
    hide Yield, WellFormed, Commas, Full;
    match init {
      case Scalar(e) => FirstOf(e, 3);
      case Elided(items) =>
        SpellLevel(items, false, []);
        assert SpellItems(items, false) + [] == SpellItems(items, false);
        if t.ArrayOf? { SpellFirst(items.init, t.element); } else { SpellFirst(items.init, t.fields[0].kind); }
      case _ =>
    }
  }

  lemma {:induction false} SpellLevel(items: Items, comma: bool, end: seq<Token>)
    requires items.Item?
    ensures SpellItems(items, comma) + end == SpellDesignator(items.designator) + (Spell(items.init) + Trail(items.rest, comma, end))
  {
    hide Spell;
  }

  lemma {:induction false} SpellLeads(init: Init, t: Type, tail: seq<Token>)
    requires Legal(init, t) && Written(init)
    ensures Leads(Spell(init) + tail)
    decreases init, 1
  {
    hide Yield, WellFormed, Full;
    match init {
      case Scalar(e) => FirstOf(e, 3);
      case Text(_) =>
      case Flat(es) => FlatLeads(es, tail);
      case Nest(items, comma) =>
        var close := [Punctuation(CloseBrace)] + tail;
        ItemsLead(items, comma, t, 0, close);
        assert (Spell(init) + tail)[1..] == SpellItems(items, comma) + close;
      case Elided(items) => ItemsLead(items, false, t, 0, tail);
    }
  }

  lemma {:induction false} FlatLeads(es: seq<Tree>, tail: seq<Token>)
    requires AllPlain(es) && |es| > 0
    ensures Leads(Spell(Flat(es)) + tail)
  {
    hide Yield, WellFormed;
    assert Plain(es[0]);
    FirstOf(es[0], 3);
    assert (Spell(Flat(es)) + tail)[1..] == Commas(es) + ([Punctuation(CloseBrace)] + tail);
    assert Commas(es)[0] == Yield(es[0])[0];
  }

  /** The first item, with its designator. */
  lemma {:induction false} ItemsLead(items: Items, comma: bool, t: Type, i: nat, end: seq<Token>)
    requires items.Item? && WrittenItems(items)
    requires if t.ArrayOf? then LegalElements(items, t, i) else t.Structure? && LegalMembers(items, t, i)
    ensures Leads(SpellItems(items, comma) + end)
    decreases items, 0
  {
    hide Spell, Legal, Full, Trail;
    var kind := if t.ArrayOf? then t.element else t.fields[Index(items.designator, t, i)].kind;
    var ts := Spell(items.init) + Trail(items.rest, comma, end);
    SpellLevel(items, comma, end);
    SpellLeads(items.init, kind, Trail(items.rest, comma, end));
    if items.designator.Some? {
      assert (SpellDesignator(items.designator) + ts)[3..] == ts;
    } else {
      assert [] + ts == ts;
    }
  }

  /** Around the first item and around the others the same holds as around the list. */
  lemma {:induction false} TrailFollows(rest: Items, comma: bool, end: seq<Token>, brace: bool, named: bool, strict: bool,
    elided: bool, full: bool, fullRest: bool)
    requires (brace || !comma) && Ends(end, brace, named, (rest.NoItems? ==> full) && fullRest, strict)
    requires rest.Item? ==> Opens(Spell(rest.init)) && (rest.designator.None? ==> full)
    requires strict && rest.Item? && rest.designator.Some? ==> Leads(SpellItems(rest, comma) + end)
    ensures Follows(Trail(rest, comma, end), elided, full, NamedNext(rest, named), strict)
    ensures SkipComma(Trail(rest, comma, end)) == Left(rest, comma, end) && SkipComma(Left(rest, comma, end)) == Left(rest, comma, end)
    ensures Ends(end, brace, named, fullRest, strict)
  {
    hide Spell, Leads;
    var trail := Trail(rest, comma, end);
    if rest.Item? {
      SpellLevel(rest, comma, end);
      assert trail == [Punctuation(Comma)] + (SpellItems(rest, comma) + end);
      assert trail[1..] == SpellItems(rest, comma) + end;
    } else if comma {
      assert trail == [Punctuation(Comma)] + end;
      assert trail[1..] == end;
    } else {
      assert trail == end;
    }
  }

  // ----- an initializer

  /** Every initializer, wherever it stands, is read so. */
  lemma {:induction false} NestedReads(init: Init, t: Type, base: int, trail: seq<Token>, named: bool, strict: bool)
    requires Sane(t) && Legal(init, t) && Follows(trail, init.Elided?, Full(init, t), named, strict)
    requires strict ==> Positive(t) && Written(init)
    ensures InitReads(Element(Spell(init) + trail, t, base), init, t, base, trail, named, strict)
    decreases init, 2
  {
    hide *;
    match init {
      case Scalar(e) => ScalarReads(init, t, base, trail, named, strict);
      case Text(s) => TextReads(init, t, base, trail, named, strict);
      case Flat(es) => FlatReads(init, t, base, trail, named, strict);
      case Nest(_, _) => NestReads(init, t, base, trail, named, strict);
      case Elided(_) => ElidedReads(init, t, base, trail, named, strict);
    }
  }

  lemma {:induction false} ScalarReads(init: Init, t: Type, base: int, trail: seq<Token>, named: bool, strict: bool)
    requires init.Scalar? && Legal(init, t) && Follows(trail, init.Elided?, Full(init, t), named, strict)
    ensures InitReads(Element(Spell(init) + trail, t, base), init, t, base, trail, named, strict)
  {
    hide Climb, WellFormed, Yield;
    SeparatorCloses(init.e, trail[0], 3);
    ClimbComplete(init.e, 3, trail);
    BasicElement(Yield(init.e) + trail, t, base, Parsed(init.e, trail));
  }

  lemma {:induction false} TextReads(init: Init, t: Type, base: int, trail: seq<Token>, named: bool, strict: bool)
    requires init.Text? && Legal(init, t)
    ensures InitReads(Element(Spell(init) + trail, t, base), init, t, base, trail, named, strict)
  {
    hide Characters, Elements;
    assert ([StringLiteral(init.text)] + trail)[1..] == trail;
  }

  lemma {:induction false} FlatReads(init: Init, t: Type, base: int, trail: seq<Token>, named: bool, strict: bool)
    requires init.Flat? && Sane(t) && Legal(init, t)
    ensures InitReads(Element(Spell(init) + trail, t, base), init, t, base, trail, named, strict)
  {
    FlatSpelled(init, t, trail);
    var es := init.es;
    var ts := [Punctuation(OpenBrace)] + (Commas(es) + ([Punctuation(CloseBrace)] + trail));
    hide *;
    FlatList(t, base, es, trail);
    ElementList(ts, t, base);
    FlatMeant(Element(ts, t, base), init, t, base, trail, named, strict);
  }

  lemma {:induction false} FlatSpelled(init: Init, t: Type, trail: seq<Token>)
    requires init.Flat? && Legal(init, t)
    ensures !t.Basic? && AllPlain(init.es)
    ensures Spell(init) + trail == [Punctuation(OpenBrace)] + (Commas(init.es) + ([Punctuation(CloseBrace)] + trail))
  {
    hide Commas;
  }

  lemma {:induction false} ElementList(ts: seq<Token>, t: Type, base: int)
    requires !t.Basic?
    ensures Element(ts, t, base) == List(ts, t, base)
  {
    hide List;
  }

  lemma {:induction false} FlatMeant(r: Option<Filled>, init: Init, t: Type, base: int, trail: seq<Token>, named: bool, strict: bool)
    requires init.Flat? && Legal(init, t) && r == Some(Filled(Zip(Leaves(t, base), init.es), trail))
    ensures InitReads(r, init, t, base, trail, named, strict)
  {
    hide Zip, Leaves, Plain;
  }

  lemma {:induction false} NestReads(init: Init, t: Type, base: int, trail: seq<Token>, named: bool, strict: bool)
    requires init.Nest? && Sane(t) && Legal(init, t) && (strict ==> Positive(t) && Written(init))
    ensures InitReads(Element(Spell(init) + trail, t, base), init, t, base, trail, named, strict)
    decreases init, 1
  {
    var end := [Punctuation(CloseBrace)] + trail;
    NestSpelled(init, t, base, end, trail);
    EndsClose(end, if t.ArrayOf? then FullElements(init.items, t, 0) else FullMembers(init.items, t, 0), strict);
    hide Ends, Element, Elements, Members, SpellItems, Spell, Full, Positive, Written, Leads;
    if t.ArrayOf? {
      NestedElements(init.items, init.comma, t, 0, base, end, true, false, strict);
    } else {
      NestedMembers(init.items, init.comma, t, 0, {}, base, end, true, false, strict);
    }
  }

  /** Past the brace. */
  lemma {:induction false} NestSpelled(init: Init, t: Type, base: int, end: seq<Token>, trail: seq<Token>)
    requires init.Nest? && Legal(init, t) && end == [Punctuation(CloseBrace)] + trail
    ensures var ts := Left(init.items, init.comma, end);
      Element(Spell(init) + trail, t, base) == if t.ArrayOf? then Elements(ts, t, 0, base, true) else Members(ts, t, 0, {}, base, true)
    ensures end[1..] == trail && !t.Basic? && (!t.ArrayOf? ==> t.Structure?) && (Written(init) ==> WrittenItems(init.items))
  {
    hide Element, Elements, Members, Left, SpellItems, Spell, Full;
    NestSecond(init, t, end);
    NestTokens(init, end, trail);
    BraceOpens(Left(init.items, init.comma, end), t, base);
  }

  lemma {:induction false} NestTokens(init: Init, end: seq<Token>, trail: seq<Token>)
    requires init.Nest? && end == [Punctuation(CloseBrace)] + trail
    ensures Spell(init) + trail == [Punctuation(OpenBrace)] + Left(init.items, init.comma, end)
    ensures Left(init.items, init.comma, end) == SpellItems(init.items, init.comma) + end
  {
    var ts := SpellItems(init.items, init.comma) + end;
    assert init.items.NoItems? ==> ts == end;
    hide SpellItems;
    assert Spell(init) + trail == [Punctuation(OpenBrace)] + ts;
  }

  lemma {:induction false} BraceOpens(ts: seq<Token>, t: Type, base: int)
    requires !t.Basic? && |ts| > 0 && (IsCharArray(t) ==> !ts[0].StringLiteral?)
    ensures Element([Punctuation(OpenBrace)] + ts, t, base) ==
      if t.ArrayOf? then Elements(ts, t, 0, base, true) else Members(ts, t, 0, {}, base, true)
  {
    hide Elements, Members;
    assert ([Punctuation(OpenBrace)] + ts)[1..] == ts;
  }

  /** No string comes first in the braces of an array of characters. */
  lemma {:induction false} NestSecond(init: Init, t: Type, end: seq<Token>)
    requires (init.Nest? || init.Elided?) && Legal(init, t) && (Begins(end, CloseBrace) || init.items.Item?)
    ensures var ts := SpellItems(init.items, if init.Nest? then init.comma else false) + end;
      |ts| > 0 && (IsCharArray(t) ==> !ts[0].StringLiteral?) && (init.Elided? ==> ts[0] != Punctuation(OpenBrace))
  {
    hide Full;
    if init.items.Item? {
      var kind := if t.ArrayOf? then t.element else t.fields[Index(init.items.designator, t, 0)].kind;
      SpellLevel(init.items, if init.Nest? then init.comma else false, end);
      SpellFirst(init.items.init, kind);
    }
  }

  lemma {:induction false} ElidedReads(init: Init, t: Type, base: int, trail: seq<Token>, named: bool, strict: bool)
    requires init.Elided? && Sane(t) && Legal(init, t) && Follows(trail, true, Full(init, t), named, strict)
    requires strict ==> Positive(t) && Written(init)
    ensures InitReads(Element(Spell(init) + trail, t, base), init, t, base, trail, named, strict)
    decreases init, 1
  {
    ElidedSpelled(init, t, base, trail);
    hide Element, Elements, Members, SpellItems, Spell, Positive, Written, Leads, SkipComma;
    if t.ArrayOf? {
      NestedElements(init.items, false, t, 0, base, trail, false, named, strict);
    } else {
      NestedMembers(init.items, false, t, 0, {}, base, trail, false, named, strict);
    }
  }

  lemma {:induction false} ElidedSpelled(init: Init, t: Type, base: int, trail: seq<Token>)
    requires init.Elided? && Legal(init, t)
    ensures var ts := Left(init.items, false, trail);
      Element(Spell(init) + trail, t, base) == if t.ArrayOf? then Elements(ts, t, 0, base, false) else Members(ts, t, 0, {}, base, false)
    ensures !t.Basic? && (!t.ArrayOf? ==> t.Structure?) && Unnamed(init.items) && (Written(init) ==> WrittenItems(init.items))
  {
    hide Elements, Members;
    NestSecond(init, t, trail);
    hide SpellItems;
  }

  // ----- arrays

  lemma {:induction false} NestedElements(items: Items, comma: bool, t: Type, i: nat, base: int, end: seq<Token>, brace: bool, named: bool, strict: bool)
    requires t.ArrayOf? && Sane(t) && LegalElements(items, t, i) && (brace || !comma)
    requires Ends(end, brace, named, FullElements(items, t, i), strict) && (strict ==> Positive(t) && WrittenItems(items))
    ensures ElementsRead(Elements(Left(items, comma, end), t, i, base, brace), items, t, i, base, Beyond(end, brace), named, strict)
    decreases items, 1, 1
  {
    hide *;
    if items.NoItems? {
      ElementsOver(items, comma, t, i, base, end, brace, named, strict);
    } else {
      var trail := ElementsAround(items, comma, t, i, end, brace, named, strict);
      ElementsHere(items, comma, t, i, end);
      ElementsStep(Spell(items.init) + trail, t, i, base, brace);
      ElementsRest(items, comma, t, i, base, end, brace, named, strict, trail, Elements(Left(items, comma, end), t, i, base, brace));
    }
  }

  lemma {:induction false} ElementsRest(items: Items, comma: bool, t: Type, i: nat, base: int, end: seq<Token>, brace: bool, named: bool, strict: bool,
    trail: seq<Token>, z: Option<Filled>)
    requires t.ArrayOf? && Sane(t) && items.Item? && LegalElements(items, t, i) && (brace || !comma)
    requires Legal(items.init, t.element) && LegalElements(items.rest, t, i + 1) && i < t.length && Sane(t.element)
    requires Follows(trail, items.init.Elided?, Full(items.init, t.element), NamedNext(items.rest, named), strict)
    requires Ends(end, brace, named, FullElements(items.rest, t, i + 1), strict)
    requires SkipComma(trail) == Left(items.rest, comma, end) && SkipComma(SkipComma(trail)) == SkipComma(trail)
    requires strict ==> Positive(t) && Positive(t.element) && Written(items.init) && WrittenItems(items.rest)
    requires z == AfterElement(Element(Spell(items.init) + trail, t.element, base + Size(t.element) * i), t, i, base, brace)
    ensures ElementsRead(z, items, t, i, base, Beyond(end, brace), named, strict)
    decreases items, 1, 0
  {
    hide *;
    var at := base + Size(t.element) * i;
    NestedReads(items.init, t.element, at, trail, NamedNext(items.rest, named), strict);
    NestedElements(items.rest, comma, t, i + 1, base, end, brace, named, strict);
    ElementsJoin(items, t, i, base, Beyond(end, brace), brace, named, strict, trail, Spell(items.init) + trail, Element(Spell(items.init) + trail, t.element, at), z);
  }

  /** The rest of the loop, when element i was read. */
  function AfterElement(x: Option<Filled>, t: Type, i: nat, base: int, brace: bool): Option<Filled>
    requires t.ArrayOf?
  {
    if x.None? then None else Then(x.value.entries, Elements(SkipComma(x.value.rest), t, i + 1, base, brace))
  }

  lemma {:induction false} ElementsAround(items: Items, comma: bool, t: Type, i: nat, end: seq<Token>, brace: bool, named: bool, strict: bool)
    returns (trail: seq<Token>)
    requires t.ArrayOf? && Sane(t) && items.Item? && LegalElements(items, t, i) && (brace || !comma)
    requires Ends(end, brace, named, FullElements(items, t, i), strict) && (strict ==> Positive(t) && WrittenItems(items))
    ensures trail == Trail(items.rest, comma, end)
    ensures Legal(items.init, t.element) && LegalElements(items.rest, t, i + 1) && i < t.length && Sane(t.element) && items.designator.None?
    ensures Follows(trail, items.init.Elided?, Full(items.init, t.element), NamedNext(items.rest, named), strict)
    ensures Ends(end, brace, named, FullElements(items.rest, t, i + 1), strict)
    ensures SkipComma(trail) == Left(items.rest, comma, end) && SkipComma(SkipComma(trail)) == SkipComma(trail)
    ensures strict ==> Positive(t) && Positive(t.element) && Written(items.init) && WrittenItems(items.rest)
  {
    hide Spell, Legal, Full, Leads, Ends, Follows, Trail, Left, SkipComma, Sane, Opens, SpellItems;
    trail := Trail(items.rest, comma, end);
    assert Sane(t.element) by { ElementSane(t); }
    if items.rest.Item? {
      SpellFirst(items.rest.init, t.element);
    }
    TrailFollows(items.rest, comma, end, brace, named, strict, items.init.Elided?, Full(items.init, t.element), FullElements(items.rest, t, i + 1));
  }

  lemma ElementSane(t: Type)
    requires t.ArrayOf? && Sane(t)
    ensures Sane(t.element)
  {
  }

  lemma {:induction false} ElementsHere(items: Items, comma: bool, t: Type, i: nat, end: seq<Token>)
    requires t.ArrayOf? && items.Item? && items.designator.None? && Legal(items.init, t.element)
    ensures var ts := Spell(items.init) + Trail(items.rest, comma, end);
      Left(items, comma, end) == ts && !Begins(ts, CloseBrace)
  {
    hide Spell, Trail, SpellItems, Legal;
    SpellLevel(items, comma, end);
    SpellFirst(items.init, t.element);
    var ts := Spell(items.init) + Trail(items.rest, comma, end);
    assert [] + ts == ts;
  }

  lemma {:induction false} ElementsStep(ts: seq<Token>, t: Type, i: nat, base: int, brace: bool)
    requires t.ArrayOf? && i < t.length && !Begins(ts, CloseBrace)
    ensures Elements(ts, t, i, base, brace) == AfterElement(Element(ts, t.element, base + Size(t.element) * i), t, i, base, brace)
  {
    hide Element, Size;
  }

  /** The element and the others are apart, and cover what they are meant to. */
  lemma {:induction false} ElementsCovered(items: Items, t: Type, i: nat, base: int, brace: bool, x: Option<Filled>, ts: seq<Token>) returns (w: seq<Entry>)
    requires t.ArrayOf? && Sane(t) && items.Item? && LegalElements(items, t, i) && i < t.length
    requires Legal(items.init, t.element) && LegalElements(items.rest, t, i + 1) && Sane(t.element)
    requires x == Element(ts, t.element, base + Size(t.element) * i)
    ensures var a, b := Meant(items.init, t.element, base + Size(t.element) * i), MeantElements(items.rest, t, i + 1, base);
      var z := AfterElement(x, t, i, base, brace);
      Apart(a, b) && (x.Some? && z.Some? ==>
        z.value.entries == x.value.entries + w && multiset(Places(x.value.entries)) == multiset(Places(a)) && multiset(Places(w)) == multiset(Places(b)))
  {
    hide *;
    var at := base + Size(t.element) * i;
    var a, b := Meant(items.init, t.element, at), MeantElements(items.rest, t, i + 1, base);
    MeantCover(items.init, t.element, at);
    MeantElementsCover(items.rest, t, i + 1, base);
    forall l | l in Places(a) ensures l !in Places(b) {
      ElementsApart(t, i, base, l);
    }
    ApartHere(a, b);
    w := [];
    AfterElementLevel(x, t, i, base, brace);
    if x.Some? && AfterElement(x, t, i, base, brace).Some? {
      Cover(ts, t.element, at);
      ElementsCover(SkipComma(x.value.rest), t, i + 1, base, brace);
      w := Elements(SkipComma(x.value.rest), t, i + 1, base, brace).value.entries;
    }
  }

  lemma ApartHere(a: seq<Entry>, b: seq<Entry>)
    requires forall l :: l in Places(a) ==> l !in Places(b)
    ensures Apart(a, b)
  {
  }

  lemma {:induction false} AfterElementLevel(x: Option<Filled>, t: Type, i: nat, base: int, brace: bool)
    requires t.ArrayOf?
    ensures x.None? ==> AfterElement(x, t, i, base, brace) == None
    ensures x.Some? ==>
      var y := Elements(SkipComma(x.value.rest), t, i + 1, base, brace);
      AfterElement(x, t, i, base, brace) == (if y.None? then None else Some(Filled(x.value.entries + y.value.entries, y.value.rest))) &&
      AfterElement(x, t, i, base, brace) == Then(x.value.entries, y)
  {
    hide Elements, SkipComma;
  }

  lemma {:induction false} ElementsJoin(items: Items, t: Type, i: nat, base: int, rest: seq<Token>, brace: bool, named: bool, strict: bool,
    trail: seq<Token>, ts: seq<Token>, x: Option<Filled>, z: Option<Filled>)
    requires t.ArrayOf? && Sane(t) && items.Item? && LegalElements(items, t, i) && i < t.length
    requires Legal(items.init, t.element) && LegalElements(items.rest, t, i + 1) && Sane(t.element)
    requires InitReads(x, items.init, t.element, base + Size(t.element) * i, trail, NamedNext(items.rest, named), strict)
    requires ElementsRead(Elements(SkipComma(trail), t, i + 1, base, brace), items.rest, t, i + 1, base, rest, named, strict)
    requires SkipComma(SkipComma(trail)) == SkipComma(trail) && z == AfterElement(x, t, i, base, brace)
    requires x == Element(ts, t.element, base + Size(t.element) * i)
    ensures ElementsRead(z, items, t, i, base, rest, named, strict)
  {
    hide Legal, LegalElements, Full, Once, Tidy, Meant, Size, Sane, Element, Elements, SkipComma, Reads, Places, Apart, AfterElement, MeantElements, TidyElements, OnceElements;
    var at := base + Size(t.element) * i;
    var a, b := Meant(items.init, t.element, at), MeantElements(items.rest, t, i + 1, base);
    ElementsLists(items, t, i, base, named);
    var w := ElementsCovered(items, t, i, base, brace, x, ts);
    AfterElementLevel(x, t, i, base, brace);
    ReadsBoth(x, Once(items.init, t.element), Tidy(items.init, t.element, NamedNext(items.rest, named)), a,
      if items.init.Elided? then SkipComma(trail) else trail,
      Elements(SkipComma(trail), t, i + 1, base, brace), OnceElements(items.rest, t, i + 1), TidyElements(items.rest, t, i + 1, named), b, rest,
      z, w, MeantElements(items, t, i, base), strict);
  }

  lemma {:induction false} ElementsLists(items: Items, t: Type, i: nat, base: int, named: bool)
    requires t.ArrayOf? && items.Item? && LegalElements(items, t, i)
    ensures Legal(items.init, t.element) && LegalElements(items.rest, t, i + 1)
    ensures OnceElements(items, t, i) == (Once(items.init, t.element) && OnceElements(items.rest, t, i + 1))
    ensures TidyElements(items, t, i, named) ==
      (Tidy(items.init, t.element, NamedNext(items.rest, named)) && TidyElements(items.rest, t, i + 1, named))
    ensures var a, b := Meant(items.init, t.element, base + Size(t.element) * i), MeantElements(items.rest, t, i + 1, base);
      multiset(MeantElements(items, t, i, base)) == multiset(a) + multiset(b)
  {
    hide Legal, Full, Once, Tidy, Meant, Size;
    var a, b := Meant(items.init, t.element, base + Size(t.element) * i), MeantElements(items.rest, t, i + 1, base);
    assert MeantElements(items, t, i, base) == a + b;
    assert multiset(a + b) == multiset(a) + multiset(b);
  }

  /** No items are left. */
  lemma {:induction false} ElementsOver(items: Items, comma: bool, t: Type, i: nat, base: int, end: seq<Token>, brace: bool, named: bool, strict: bool)
    requires t.ArrayOf? && Sane(t) && items.NoItems? && LegalElements(items, t, i)
    requires Ends(end, brace, named, FullElements(items, t, i), strict) && (strict ==> Positive(t))
    ensures ElementsRead(Elements(Left(items, comma, end), t, i, base, brace), items, t, i, base, Beyond(end, brace), named, strict)
  {
    hide Leads, Positive, Sane, Separates, Zeros;
    var ts := SkipComma(end);
    if i < t.length && !Begins(ts, CloseBrace) {
      if strict && Elements(ts, t, i, base, brace).Some? {
        ElementsStarts(ts, t, i, base, brace);
        ZeroElementsZero(t, i, base);
        StartsDiffers(Elements(ts, t, i, base, brace).value.entries, ZeroElements(t, i, base));
      }
    } else {
      hide Starts, AllZero;
      assert Elements(ts, t, i, base, brace) == Some(Filled(ZeroElements(t, i, base), Beyond(end, brace)));
    }
  }

  // ----- structures

  lemma {:induction false} NestedMembers(items: Items, comma: bool, t: Type, i: nat, wrote: set<string>, base: int, end: seq<Token>,
    brace: bool, named: bool, strict: bool)
    requires t.Structure? && Sane(t) && i <= |t.fields| && LegalMembers(items, t, i) && (brace || (!comma && Unnamed(items)))
    requires Ends(end, brace, named, FullMembers(items, t, i), strict) && (strict ==> Positive(t) && WrittenItems(items))
    ensures MembersRead(Members(Left(items, comma, end), t, i, wrote, base, brace), items, t, i, wrote, base, Beyond(end, brace), named, strict)
    decreases items, 1, 2
  {
    hide *;
    if items.NoItems? {
      MembersOver(items, comma, t, i, wrote, base, end, brace, named, strict);
    } else {
      var j, f := MembersItem(items, t, i, strict);
      var ts := MembersHere(items, comma, t, j, end);
      var z := Members(Left(items, comma, end), t, i, wrote, base, brace);
      MembersNext(items.designator, ts, t, i, wrote, base, brace);
      if f.name in wrote {
        MembersTwice(items, t, i, wrote, base, Beyond(end, brace), named, strict, j, z);
      } else {
        MembersFresh(items, comma, t, i, wrote, base, end, brace, named, strict, j, f, ts, z);
      }
    }
  }

  lemma {:induction false} MembersFresh(items: Items, comma: bool, t: Type, i: nat, wrote: set<string>, base: int, end: seq<Token>,
    brace: bool, named: bool, strict: bool, j: nat, f: Field, ts: seq<Token>, z: Option<Filled>)
    requires t.Structure? && Sane(t) && items.Item? && i <= |t.fields| && LegalMembers(items, t, i) && (brace || (!comma && Unnamed(items)))
    requires Ends(end, brace, named, FullMembers(items, t, i), strict) && (strict ==> Positive(t) && WrittenItems(items))
    requires j == Index(items.designator, t, i) && j < |t.fields| && f == t.fields[j] && f.name !in wrote && Sane(f.kind) && Legal(items.init, f.kind)
    requires strict ==> Positive(f.kind) && Written(items.init)
    requires ts == Spell(items.init) + Trail(items.rest, comma, end) && z == AfterMember(Element(ts, f.kind, base + f.offset), t, j, wrote, base, brace)
    ensures MembersRead(z, items, t, i, wrote, base, Beyond(end, brace), named, strict)
    decreases items, 1, 1
  {
    hide *;
    var trail := MembersAround(items, comma, t, i, end, brace, named, strict, j, f);
    NestedReads(items.init, f.kind, base + f.offset, trail, NamedNext(items.rest, named), strict);
    MembersRest(items, comma, t, i, wrote, base, end, brace, named, strict, j, f, ts, Element(ts, f.kind, base + f.offset), trail, z);
  }

  lemma {:induction false} MembersRest(items: Items, comma: bool, t: Type, i: nat, wrote: set<string>, base: int, end: seq<Token>,
    brace: bool, named: bool, strict: bool, j: nat, f: Field, ts: seq<Token>, x: Option<Filled>, trail: seq<Token>, z: Option<Filled>)
    requires t.Structure? && Sane(t) && items.Item? && LegalMembers(items, t, i) && LegalMembers(items.rest, t, j + 1)
    requires (brace || (!comma && Unnamed(items.rest))) && (strict ==> Positive(t) && WrittenItems(items.rest))
    requires Ends(end, brace, named, FullMembers(items.rest, t, j + 1), strict)
    requires j == Index(items.designator, t, i) && j < |t.fields| && f == t.fields[j] && f.name !in wrote
    requires InitReads(x, items.init, f.kind, base + f.offset, trail, NamedNext(items.rest, named), strict)
    requires SkipComma(trail) == Left(items.rest, comma, end) && SkipComma(SkipComma(trail)) == SkipComma(trail)
    requires x == Element(ts, f.kind, base + f.offset) && z == AfterMember(x, t, j, wrote, base, brace)
    ensures MembersRead(z, items, t, i, wrote, base, Beyond(end, brace), named, strict)
    decreases items, 1, 0
  {
    hide *;
    NestedMembers(items.rest, comma, t, j + 1, wrote + {f.name}, base, end, brace, named, strict);
    MembersJoin(items, t, i, wrote, base, Beyond(end, brace), brace, named, strict, j, f, trail, ts, x, z);
  }

  /** The rest of the loop, when member j was read. */
  function AfterMember(x: Option<Filled>, t: Type, j: nat, wrote: set<string>, base: int, brace: bool): Option<Filled>
    requires t.Structure? && j < |t.fields|
  {
    if x.None? then None
    else Then(x.value.entries, Members(SkipComma(x.value.rest), t, j + 1, wrote + {t.fields[j].name}, base, brace))
  }

  lemma {:induction false} AfterMemberLevel(x: Option<Filled>, t: Type, j: nat, wrote: set<string>, base: int, brace: bool)
    requires t.Structure? && j < |t.fields|
    ensures x.None? ==> AfterMember(x, t, j, wrote, base, brace) == None
    ensures x.Some? ==>
      var y := Members(SkipComma(x.value.rest), t, j + 1, wrote + {t.fields[j].name}, base, brace);
      AfterMember(x, t, j, wrote, base, brace) == (if y.None? then None else Some(Filled(x.value.entries + y.value.entries, y.value.rest))) &&
      AfterMember(x, t, j, wrote, base, brace) == Then(x.value.entries, y)
  {
    hide Members, SkipComma;
  }

  lemma {:induction false} MembersItem(items: Items, t: Type, i: nat, strict: bool) returns (j: nat, f: Field)
    requires t.Structure? && Sane(t) && items.Item? && LegalMembers(items, t, i) && (strict ==> Positive(t) && WrittenItems(items))
    ensures j == Index(items.designator, t, i) && j < |t.fields| && f == t.fields[j]
    ensures Legal(items.init, f.kind) && LegalMembers(items.rest, t, j + 1)
    ensures t.isStruct && Distinct(t.fields) && Sane(f.kind) && (strict ==> Positive(f.kind) && Written(items.init))
  {
    hide Legal, Full, Distinct;
    j := Index(items.designator, t, i);
    f := t.fields[j];
  }

  lemma {:induction false} MembersAround(items: Items, comma: bool, t: Type, i: nat, end: seq<Token>, brace: bool, named: bool, strict: bool, j: nat, f: Field)
    returns (trail: seq<Token>)
    requires t.Structure? && items.Item? && i <= |t.fields| && LegalMembers(items, t, i) && (brace || (!comma && Unnamed(items)))
    requires Ends(end, brace, named, FullMembers(items, t, i), strict) && (strict ==> WrittenItems(items))
    requires j == Index(items.designator, t, i) && j < |t.fields| && f == t.fields[j]
    ensures trail == Trail(items.rest, comma, end) && LegalMembers(items.rest, t, j + 1) && (brace || (!comma && Unnamed(items.rest)))
    ensures Follows(trail, items.init.Elided?, Full(items.init, f.kind), NamedNext(items.rest, named), strict)
    ensures Ends(end, brace, named, FullMembers(items.rest, t, j + 1), strict)
    ensures SkipComma(trail) == Left(items.rest, comma, end) && SkipComma(SkipComma(trail)) == SkipComma(trail)
    ensures strict ==> WrittenItems(items.rest)
  {
    hide Spell, Legal, Full, Leads, Ends, Follows, Trail, Left, SkipComma, Opens, SpellItems, Written;
    trail := Trail(items.rest, comma, end);
    var full, fullRest := Full(items.init, f.kind), FullMembers(items.rest, t, j + 1);
    if items.rest.Item? {
      SpellFirst(items.rest.init, t.fields[Index(items.rest.designator, t, j + 1)].kind);
      if strict {
        ItemsLead(items.rest, comma, t, j + 1, end);
      }
    }
    if brace {
      EndsBrace(end, named, FullMembers(items, t, i), (items.rest.NoItems? ==> full) && fullRest, strict);
    }
    TrailFollows(items.rest, comma, end, brace, named, strict, items.init.Elided?, full, fullRest);
  }

  lemma EndsClose(end: seq<Token>, full: bool, strict: bool)
    requires Begins(end, CloseBrace)
    ensures Ends(end, true, false, full, strict)
  {
  }

  lemma EndsBrace(end: seq<Token>, named: bool, full: bool, full': bool, strict: bool)
    requires Ends(end, true, named, full, strict)
    ensures Ends(end, true, named, full', strict)
  {
  }

  lemma {:induction false} MembersHere(items: Items, comma: bool, t: Type, j: nat, end: seq<Token>) returns (ts: seq<Token>)
    requires t.Structure? && items.Item? && j < |t.fields| && Legal(items.init, t.fields[j].kind)
    ensures ts == Spell(items.init) + Trail(items.rest, comma, end)
    ensures Left(items, comma, end) == SpellDesignator(items.designator) + ts && |ts| > 0 && !Begins(ts, CloseBrace) && !Begins(ts, Dot)
  {
    hide Spell, Trail, SpellItems, Legal, SpellDesignator;
    SpellLevel(items, comma, end);
    SpellFirst(items.init, t.fields[j].kind);
    ts := Spell(items.init) + Trail(items.rest, comma, end);
  }

  /** The member that comes next, named or not. */
  lemma {:induction false} MembersNext(d: Option<string>, ts: seq<Token>, t: Type, i: nat, wrote: set<string>, base: int, brace: bool)
    requires t.Structure? && t.isStruct && i <= |t.fields| && Index(d, t, i) < |t.fields|
    requires |ts| > 0 && !Begins(ts, CloseBrace) && !Begins(ts, Dot)
    ensures var j := Index(d, t, i); var f := t.fields[j];
      Members(SpellDesignator(d) + ts, t, i, wrote, base, brace) ==
        if f.name in wrote then None else AfterMember(Element(ts, f.kind, base + f.offset), t, j, wrote, base, brace)
  {
    hide Element, SkipComma, ZeroFields, SkipExcess;
    match d {
      case None => assert [] + ts == ts;
      case Some(name) => assert (SpellDesignator(d) + ts)[3..] == ts;
    }
  }

  lemma {:induction false} MembersTwice(items: Items, t: Type, i: nat, wrote: set<string>, base: int, rest: seq<Token>, named: bool, strict: bool,
    j: nat, z: Option<Filled>)
    requires t.Structure? && items.Item? && LegalMembers(items, t, i) && j == Index(items.designator, t, i) && j < |t.fields|
    requires t.fields[j].name in wrote && z == None
    ensures MembersRead(z, items, t, i, wrote, base, rest, named, strict)
  {
    hide Legal, Full, Once, Tidy, MeantMembers;
  }

  lemma {:induction false} MembersCovered(items: Items, t: Type, i: nat, wrote: set<string>, base: int, brace: bool, j: nat, f: Field,
    x: Option<Filled>, ts: seq<Token>) returns (w: seq<Entry>)
    requires t.Structure? && Sane(t) && j < |t.fields| && f == t.fields[j] && f.name !in wrote && Sane(f.kind)
    requires items.Item? && Legal(items.init, f.kind) && LegalMembers(items.rest, t, j + 1) && x == Element(ts, f.kind, base + f.offset)
    ensures var a, b := Meant(items.init, f.kind, base + f.offset), MeantMembers(items.rest, t, j + 1, wrote + {f.name}, 0, base);
      var z := AfterMember(x, t, j, wrote, base, brace);
      Apart(a, b) && (x.Some? && z.Some? ==>
        z.value.entries == x.value.entries + w && multiset(Places(x.value.entries)) == multiset(Places(a)) && multiset(Places(w)) == multiset(Places(b)))
  {
    hide *;
    var a, b := Meant(items.init, f.kind, base + f.offset), MeantMembers(items.rest, t, j + 1, wrote + {f.name}, 0, base);
    MeantCover(items.init, f.kind, base + f.offset);
    MeantMembersCover(items.rest, t, j + 1, wrote + {f.name}, 0, base);
    forall l | l in Places(a) ensures l !in Places(b) {
      FieldsApart(t, j, base, wrote, l);
    }
    ApartHere(a, b);
    w := [];
    AfterMemberLevel(x, t, j, wrote, base, brace);
    if x.Some? && AfterMember(x, t, j, wrote, base, brace).Some? {
      Cover(ts, f.kind, base + f.offset);
      MembersCover(SkipComma(x.value.rest), t, j + 1, wrote + {f.name}, base, brace);
      w := Members(SkipComma(x.value.rest), t, j + 1, wrote + {f.name}, base, brace).value.entries;
    }
  }

  lemma {:induction false} MembersJoin(items: Items, t: Type, i: nat, wrote: set<string>, base: int, rest: seq<Token>, brace: bool, named: bool, strict: bool,
    j: nat, f: Field, trail: seq<Token>, ts: seq<Token>, x: Option<Filled>, z: Option<Filled>)
    requires t.Structure? && Sane(t) && items.Item? && LegalMembers(items, t, i)
    requires j == Index(items.designator, t, i) && j < |t.fields| && f == t.fields[j] && f.name !in wrote
    requires InitReads(x, items.init, f.kind, base + f.offset, trail, NamedNext(items.rest, named), strict)
    requires MembersRead(Members(SkipComma(trail), t, j + 1, wrote + {f.name}, base, brace), items.rest, t, j + 1, wrote + {f.name}, base, rest, named, strict)
    requires SkipComma(SkipComma(trail)) == SkipComma(trail)
    requires x == Element(ts, f.kind, base + f.offset) && z == AfterMember(x, t, j, wrote, base, brace)
    ensures MembersRead(z, items, t, i, wrote, base, rest, named, strict)
  {
    hide Legal, LegalMembers, Full, Once, Tidy, Meant, Sane, Element, Members, SkipComma, Reads, Places, Apart, AfterMember, MeantMembers, TidyMembers, OnceMembers;
    var j', f' := MembersItem(items, t, i, false);
    var a, b := Meant(items.init, f.kind, base + f.offset), MeantMembers(items.rest, t, j + 1, wrote + {f.name}, 0, base);
    MembersLists(items, t, i, wrote, base, named, j, f);
    var w := MembersCovered(items, t, i, wrote, base, brace, j, f, x, ts);
    AfterMemberLevel(x, t, j, wrote, base, brace);
    ReadsBoth(x, Once(items.init, f.kind), Tidy(items.init, f.kind, NamedNext(items.rest, named)), a,
      if items.init.Elided? then SkipComma(trail) else trail,
      Members(SkipComma(trail), t, j + 1, wrote + {f.name}, base, brace), OnceMembers(items.rest, t, j + 1, wrote + {f.name}),
      TidyMembers(items.rest, t, j + 1, named), b, rest, z, w, MeantMembers(items, t, i, wrote, 0, base), strict);
  }

  lemma {:induction false} MembersLists(items: Items, t: Type, i: nat, wrote: set<string>, base: int, named: bool, j: nat, f: Field)
    requires t.Structure? && Sane(t) && items.Item? && LegalMembers(items, t, i)
    requires j == Index(items.designator, t, i) && j < |t.fields| && f == t.fields[j] && f.name !in wrote
    ensures Legal(items.init, f.kind) && LegalMembers(items.rest, t, j + 1)
    ensures OnceMembers(items, t, i, wrote) == (Once(items.init, f.kind) && OnceMembers(items.rest, t, j + 1, wrote + {f.name}))
    ensures TidyMembers(items, t, i, named) ==
      (Tidy(items.init, f.kind, NamedNext(items.rest, named)) && TidyMembers(items.rest, t, j + 1, named))
    ensures multiset(MeantMembers(items, t, i, wrote, 0, base)) ==
      multiset(Meant(items.init, f.kind, base + f.offset)) + multiset(MeantMembers(items.rest, t, j + 1, wrote + {f.name}, 0, base))
  {
    hide Legal, Full, Once, Tidy, Meant, MeantMembers;
    SaneStructure(t);
    Taken(items, t, i, wrote, 0, base, j);
  }

  lemma {:induction false} MembersOver(items: Items, comma: bool, t: Type, i: nat, wrote: set<string>, base: int, end: seq<Token>,
    brace: bool, named: bool, strict: bool)
    requires t.Structure? && Sane(t) && items.NoItems? && i <= |t.fields| && LegalMembers(items, t, i)
    requires Ends(end, brace, named, FullMembers(items, t, i), strict) && (strict ==> Positive(t))
    ensures MembersRead(Members(Left(items, comma, end), t, i, wrote, base, brace), items, t, i, wrote, base, Beyond(end, brace), named, strict)
  {
    hide Leads, Positive, Sane, Separates, Zeros, MeantMembers, ZeroFields, Element, NextField;
    var ts := SkipComma(end);
    NoneMeant(t, i, wrote, 0, base);
    if named {
      if strict && Members(ts, t, i, wrote, base, brace).Some? {
        MembersStarts(ts, t, i, wrote, base, brace);
        ZeroFieldsZero(t, 0, base, wrote, false);
        StartsDiffers(Members(ts, t, i, wrote, base, brace).value.entries, ZeroFields(t, 0, base, wrote, false));
      }
    } else {
      assert Members(ts, t, i, wrote, base, brace) == Some(Filled(ZeroFields(t, 0, base, wrote, false), Beyond(end, brace)));
    }
  }

  // ----- the results

  /** These entries, in some order, and what follows. */
  predicate AsMeant(r: Option<Filled>, entries: seq<Entry>, rest: seq<Token>) {
    r.Some? && r.value.rest == rest && multiset(r.value.entries) == multiset(entries)
  }

  /** An initializer in which no designator follows a structure with elided braces is
      accepted if and only if no member is initialized twice, and then it sets each scalar
      as section 6.7.8 means it. */
  lemma {:induction false} NestedValues(init: Init, t: Type, base: int, rest: seq<Token>)
    requires Sane(t) && Legal(init, t) && Tidy(init, t, false) && !init.Elided? && |rest| > 0 && Separates(rest[0])
    ensures var r := Element(Spell(init) + rest, t, base);
      (r.Some? <==> Once(init, t)) && (r.Some? ==> AsMeant(r, Meant(init, t, base), rest))
  {
    hide Element, Spell, Legal, Once, Tidy, Meant, Full, Separates, Sane;
    NestedReads(init, t, base, rest, false, false);
  }

  /** Of all initializers it is exactly these, without repetition, that set each scalar from
      the initializer that section 6.7.8 gives it. */
  lemma {:induction false} NestedExactly(init: Init, t: Type, base: int, rest: seq<Token>)
    requires Sane(t) && Positive(t) && Legal(init, t) && Written(init) && !init.Elided? && |rest| > 0 && Separates(rest[0])
    ensures AsMeant(Element(Spell(init) + rest, t, base), Meant(init, t, base), rest) <==> Once(init, t) && Tidy(init, t, false)
  {
    hide Element, Spell, Legal, Once, Tidy, Meant, Full, Separates, Sane, Positive, Written;
    NestedReads(init, t, base, rest, false, true);
  }

  /** Executing what was read, in any order, sets every scalar as section 6.7.8 means it and
      changes nothing outside the object, if there is room for each store. */
  lemma {:induction false} NestedLands(init: Init, t: Type, base: int, rest: seq<Token>, order: seq<Entry>, meaning: Tree -> int, mem: M.Bytes)
    requires Sane(t) && Legal(init, t) && Once(init, t) && Tidy(init, t, false) && !init.Elided? && |rest| > 0 && Separates(rest[0])
    requires M.Roomy(Leaves(t, base), base + Size(t))
    requires Element(Spell(init) + rest, t, base).Some? ==> multiset(order) == multiset(Element(Spell(init) + rest, t, base).value.entries)
    ensures var after := M.Run(order, meaning, mem);
      (forall i :: 0 <= i < |Meant(init, t, base)| ==> M.Holds(after, Meant(init, t, base)[i], meaning)) &&
      (forall a :: a < base || base + Size(t) <= a ==> M.SameAt(mem, after, a))
  {
    hide *;
    NestedValues(init, t, base, rest);
    MeantTwice(Element(Spell(init) + rest, t, base), Meant(init, t, base), rest);
    M.InitializedExactly(Spell(init) + rest, t, base, order, meaning, mem);
    var meant := Meant(init, t, base);
    var after := M.Run(order, meaning, mem);
    forall i | 0 <= i < |meant| ensures M.Holds(after, meant[i], meaning) {
      var k := Among(meant, order, i);
    }
  }

  lemma MeantTwice(r: Option<Filled>, entries: seq<Entry>, rest: seq<Token>)
    requires AsMeant(r, entries, rest)
    ensures r.Some? && multiset(r.value.entries) == multiset(entries)
  {
  }

  lemma {:induction false} Among(a: seq<Entry>, b: seq<Entry>, i: nat) returns (k: nat)
    requires multiset(a) == multiset(b) && i < |a|
    ensures k < |b| && b[k] == a[i]
  {
    assert a[i] in multiset(b);
    k :| k < |b| && b[k] == a[i];
  }

  /** { .f = 1, .f = 2 } is refused, where section 6.7.8 lets the second override. */
  lemma {:induction false} OverrideRefused(t: Type, base: int, name: string, one: string, two: string)
    requires t == Structure([Field(name, Basic(Int), 0)], 4, true)
    ensures var f := [Punctuation(Dot), Identifier(name), Punctuation(Punct.Assign)];
      Element([Punctuation(OpenBrace)] + f + [Constant(one), Punctuation(Comma)] + f + [Constant(two), Punctuation(CloseBrace), Punctuation(Semicolon)], t, base) == None
  {
    var f := [Punctuation(Dot), Identifier(name), Punctuation(Punct.Assign)];
    var rest := [Punctuation(Semicolon)];
    var second := Item(Some(name), Scalar(Atom(Constant(two))), NoItems);
    var init := Nest(Item(Some(name), Scalar(Atom(Constant(one))), second), false);
    OverrideLegal(t, name, one, two);
    hide Element, Legal, Once, Tidy, Sane;
    assert SpellItems(second, false) == f + [Constant(two)];
    assert SpellItems(init.items, false) == f + [Constant(one)] + [Punctuation(Comma)] + (f + [Constant(two)]);
    assert Spell(init) == [Punctuation(OpenBrace)] + (f + [Constant(one)] + [Punctuation(Comma)] + (f + [Constant(two)])) + [Punctuation(CloseBrace)];
    hide Spell, SpellItems;
    assert Spell(init) + rest ==
      [Punctuation(OpenBrace)] + f + [Constant(one), Punctuation(Comma)] + f + [Constant(two), Punctuation(CloseBrace), Punctuation(Semicolon)];
    NestedValues(init, t, base, rest);
  }

  lemma {:induction false} OverrideLegal(t: Type, name: string, one: string, two: string)
    requires t == Structure([Field(name, Basic(Int), 0)], 4, true)
    ensures var second := Item(Some(name), Scalar(Atom(Constant(two))), NoItems);
      var init := Nest(Item(Some(name), Scalar(Atom(Constant(one))), second), false);
      Sane(t) && Legal(init, t) && Tidy(init, t, false) && !Once(init, t)
  {
    var second := Item(Some(name), Scalar(Atom(Constant(two))), NoItems);
    var items := Item(Some(name), Scalar(Atom(Constant(one))), second);
    assert Plain(Atom(Constant(one))) && Plain(Atom(Constant(two)));
    assert Legal(second.init, Basic(Int)) && Legal(items.init, Basic(Int));
    assert Index(Some(name), t, 0) == 0 == Index(Some(name), t, 1);
    assert LegalMembers(NoItems, t, 1) && TidyMembers(NoItems, t, 1, false);
    assert Tidy(second.init, Basic(Int), false) && Tidy(items.init, Basic(Int), true);
    assert LegalMembers(second, t, 1);
    assert LegalMembers(items, t, 0);
    assert TidyMembers(second, t, 1, false);
    assert TidyMembers(items, t, 0, false);
    assert name in {} + {name};
    assert !OnceMembers(second, t, 1, {} + {name});
  }

  // ----- designators after elided braces

  /** A structure whose own braces are elided takes the next designator for itself, even
      when it is full; section 6.7.8 gives it to the braces it stands in. So what follows is
      accepted only if the name is that of a member of the inner structure that is not set. */
  lemma {:induction false} DesignatorCaught(ts: seq<Token>, t: Type, i: nat, wrote: set<string>, base: int)
    requires t.Structure? && i <= |t.fields| && |ts| > 1 && Begins(ts, Dot) && Members(ts, t, i, wrote, base, false).Some?
    ensures IsName(ts[1]) && ts[1].name !in wrote
    ensures exists k :: 0 <= k < |t.fields| && t.fields[k].name == ts[1].name
  {
    hide Element, ZeroFields, SkipExcess;
    var k := IndexOf(t.fields, ts[1].name);
    assert t.fields[k].name == ts[1].name;
  }

  /** { 1, .c = 2 } is refused for struct { struct { int a; } in; int c; }. */
  lemma {:induction false} ElidedThenNamed(inner: Type, t: Type, base: int, one: string, two: string)
    requires inner == Structure([Field("a", Basic(Int), 0)], 4, true)
    requires t == Structure([Field("in", inner, 0), Field("c", Basic(Int), 4)], 8, true)
    ensures List([Punctuation(OpenBrace), Constant(one), Punctuation(Comma), Punctuation(Dot), Identifier("c"), Punctuation(Punct.Assign), Constant(two),
      Punctuation(CloseBrace), Punctuation(Semicolon)], t, base) == None
  {
    hide *;
    var named := [Punctuation(Dot), Identifier("c"), Punctuation(Punct.Assign), Constant(two), Punctuation(CloseBrace), Punctuation(Semicolon)];
    var ts := [Constant(one)] + ([Punctuation(Comma)] + named);
    InnerCaught(inner, named, base, one);
    MembersPlain(ts, t, base, true);
    assert {} + {"in"} == {"in"};
    var all := [Punctuation(OpenBrace)] + ts;
    assert all[1..] == ts;
    assert all == [Punctuation(OpenBrace), Constant(one), Punctuation(Comma), Punctuation(Dot), Identifier("c"), Punctuation(Punct.Assign), Constant(two),
      Punctuation(CloseBrace), Punctuation(Semicolon)];
    BracedMembers(all, t, base);
    ElementList(ts, inner, base);
  }

  lemma {:induction false} BracedMembers(ts: seq<Token>, t: Type, base: int)
    requires t.Structure? && |ts| > 0
    ensures List(ts, t, base) ==
      if ts[0] == Punctuation(OpenBrace) then Members(ts[1..], t, 0, {}, base, true) else Members(ts, t, 0, {}, base, false)
  {
    hide Members;
  }

  lemma {:induction false} InnerCaught(inner: Type, named: seq<Token>, base: int, one: string)
    requires inner == Structure([Field("a", Basic(Int), 0)], 4, true)
    requires |named| > 1 && named[0] == Punctuation(Dot) && named[1] == Identifier("c")
    ensures Element([Constant(one)] + ([Punctuation(Comma)] + named), inner, base) == None
  {
    hide Climb, Members, Element, List;
    var rest := [Punctuation(Comma)] + named;
    var ts := [Constant(one)] + rest;
    assert rest[1..] == named && {} + {"a"} == {"a"};
    ConstantStops(one, rest);
    if Members(named, inner, 1, {"a"}, base, false).Some? {
      DesignatorCaught(named, inner, 1, {"a"}, base);
      assert false;
    }
    BasicElement(ts, Basic(Int), base, Parsed(Atom(Constant(one)), rest));
    MembersPlain(ts, inner, base, false);
    BracedMembers(ts, inner, base);
    ElementList(ts, inner, base);
  }

  /** The first member, without a designator. */
  lemma {:induction false} MembersPlain(ts: seq<Token>, t: Type, base: int, brace: bool)
    requires t.Structure? && t.isStruct && |t.fields| > 0 && |ts| > 0 && ts[0].Constant?
    ensures var f := t.fields[0]; var x := Element(ts, f.kind, base + f.offset);
      Members(ts, t, 0, {}, base, brace) ==
        if x.None? then None else Then(x.value.entries, Members(SkipComma(x.value.rest), t, 1, {} + {f.name}, base, brace))
  {
    hide Element, SkipComma, ZeroFields, SkipExcess;
  }

  /** { int a; int b; }, and a structure that holds it and then a member of this name. */
  const PAIR: Type := Structure([Field("a", Basic(Int), 0), Field("b", Basic(Int), 4)], 8, true)

  const HOLDER: Type := Structure([Field("in", PAIR, 0), Field("b", Basic(Int), 8)], 12, true)

  /** { 1, .b = 2 }, with the designator for the outer structure. */
  function NamedAfter(one: string, two: string): Init {
    Nest(Item(None, FirstElided(one), SecondNamed(two)), false)
  }

  function FirstElided(one: string): Init {
    Elided(Item(None, Scalar(Atom(Constant(one))), NoItems))
  }

  function SecondNamed(two: string): Items {
    Item(Some("b"), Scalar(Atom(Constant(two))), NoItems)
  }

  function IntEntry(offset: int, text: string): Entry {
    Entry(offset, Int, Given(Atom(Constant(text))))
  }

  function FromDot(two: string, rest: seq<Token>): seq<Token> {
    SpellDesignator(Some("b")) + ([Constant(two)] + ([Punctuation(CloseBrace)] + rest))
  }

  lemma {:induction false} NamedAfterSpelled(one: string, two: string, rest: seq<Token>)
    ensures Spell(NamedAfter(one, two)) + rest == [Punctuation(OpenBrace)] + ([Constant(one)] + ([Punctuation(Comma)] + FromDot(two, rest)))
  {
    var first, second := FirstElided(one), SecondNamed(two);
    assert SpellItems(second, false) == SpellDesignator(Some("b")) + [Constant(two)];
    assert SpellItems(first.items, false) == [Constant(one)];
    assert SpellItems(Item(None, first, second), false) == [Constant(one)] + [Punctuation(Comma)] + SpellItems(second, false);
    hide SpellItems, SpellDesignator;
    assert Spell(NamedAfter(one, two)) == [Punctuation(OpenBrace)] + SpellItems(Item(None, first, second), false) + [Punctuation(CloseBrace)];
  }

  lemma {:induction false} ConstantReads(text: string, rest: seq<Token>, at: int)
    requires |rest| > 0 && Stops(rest[0], 3)
    ensures Element([Constant(text)] + rest, Basic(Int), at) == Some(Filled([IntEntry(at, text)], rest))
  {
    hide Climb;
    ConstantStops(text, rest);
    IntElement([Constant(text)] + rest, at, Parsed(Atom(Constant(text)), rest));
  }

  lemma {:induction false} MembersStops(ts: seq<Token>, t: Type, i: nat, wrote: set<string>, base: int, brace: bool)
    requires t.Structure? && i <= |t.fields| && Begins(ts, CloseBrace)
    ensures Members(ts, t, i, wrote, base, brace) == Some(Filled(ZeroFields(t, 0, base, wrote, false), if brace then ts[1..] else ts))
  {
    hide ZeroFields, Element, NextField;
  }

  /** The inner structure sets its own b. */
  lemma {:induction false} InnerTakes(one: string, two: string, at: int, rest: seq<Token>)
    ensures Element([Constant(one)] + ([Punctuation(Comma)] + FromDot(two, rest)), PAIR, at) ==
      Some(Filled([IntEntry(at, one), IntEntry(at + 4, two)], [Punctuation(CloseBrace)] + rest))
  {
    hide *;
    var dot := FromDot(two, rest);
    var ts := [Constant(one)] + ([Punctuation(Comma)] + dot);
    InnerTokens(ts, two, dot, at, rest);
    DotTaken(two, at, rest);
    ConstantReads(one, [Punctuation(Comma)] + dot, at);
    MembersNext(None, ts, PAIR, 0, {}, at, false);
    AfterMemberLevel(Element(ts, Basic(Int), at), PAIR, 0, {}, at, false);
    assert [IntEntry(at, one)] + [IntEntry(at + 4, two)] == [IntEntry(at, one), IntEntry(at + 4, two)];
  }

  lemma {:induction false} InnerTokens(ts: seq<Token>, two: string, dot: seq<Token>, at: int, rest: seq<Token>)
    requires dot == FromDot(two, rest) && |ts| > 0 && ts[0].Constant?
    ensures Stops(Punctuation(Comma), 3) && SkipComma([Punctuation(Comma)] + dot) == dot && SpellDesignator(None) + ts == ts
    ensures !Begins(ts, CloseBrace) && !Begins(ts, Dot) && Index(None, PAIR, 0) == 0
    ensures {} + {"a"} == {"a"} && PAIR.Structure? && PAIR.isStruct && |PAIR.fields| == 2 && PAIR.fields[0] == Field("a", Basic(Int), 0)
    ensures Element(ts, PAIR, at) == Members(ts, PAIR, 0, {}, at, false)
  {
    hide Members, FromDot;
    assert ([Punctuation(Comma)] + dot)[1..] == dot;
    assert [] + ts == ts;
  }

  lemma {:induction false} DotTaken(two: string, at: int, rest: seq<Token>)
    ensures Members(FromDot(two, rest), PAIR, 1, {"a"}, at, false) == Some(Filled([IntEntry(at + 4, two)], [Punctuation(CloseBrace)] + rest))
  {
    var close := [Punctuation(CloseBrace)] + rest;
    PairFields(at);
    hide Element, Members, ZeroFields, SpellDesignator, Size;
    ConstantReads(two, close, at + 4);
    MembersStops(close, PAIR, 2, {"a"} + {"b"}, at, false);
    MembersNext(Some("b"), [Constant(two)] + close, PAIR, 1, {"a"}, at, false);
    AfterMemberLevel(Element([Constant(two)] + close, Basic(Int), at + 4), PAIR, 1, {"a"}, at, false);
    assert [IntEntry(at + 4, two)] + [] == [IntEntry(at + 4, two)];
  }

  lemma {:induction false} PairFields(at: int)
    ensures IndexOf(PAIR.fields, "b") == 1 && IndexOf(HOLDER.fields, "b") == 1
    ensures ZeroFields(PAIR, 0, at, {"a"} + {"b"}, false) == []
    ensures ZeroFields(HOLDER, 0, at, {"in"}, false) == [Entry(at + 8, Int, Zero)]
  {
    assert PAIR.fields[0].name == "a" && PAIR.fields[1].name == "b" && HOLDER.fields[0].name == "in" && HOLDER.fields[1].name == "b";
    assert PAIR.fields[1..] == [Field("b", Basic(Int), 4)] && HOLDER.fields[1..] == [Field("b", Basic(Int), 8)];
    assert ZeroFields(PAIR, 2, at, {"a"} + {"b"}, false) == [];
    assert ZeroFields(PAIR, 1, at, {"a"} + {"b"}, false) == [];
    assert ZeroFields(HOLDER, 2, at, {"in"}, false) == [];
    assert ZeroFields(HOLDER, 1, at, {"in"}, false) == [Entry(at + 8, Int, Zero)] + [];
  }

  /** { 1, .b = 2 } for struct { struct { int a; int b; } in; int b; }: section 6.7.8 sets the
      outer b, the code sets the inner one and zeroes the outer. */
  lemma {:induction false} InnerTaken(base: int, one: string, two: string, rest: seq<Token>)
    ensures var init := NamedAfter(one, two);
      Sane(HOLDER) && Legal(init, HOLDER) && Once(init, HOLDER) && !Tidy(init, HOLDER, false) &&
      Meant(init, HOLDER, base) == [IntEntry(base, one), Entry(base + 4, Int, Zero), IntEntry(base + 8, two)] &&
      Element(Spell(init) + rest, HOLDER, base) == Some(Filled([IntEntry(base, one), IntEntry(base + 4, two), Entry(base + 8, Int, Zero)], rest))
  {
    hide *;
    NamedAfterSpelled(one, two, rest);
    OuterTakes(one, two, base, rest);
    NamedAfterMeant(base, one, two);
  }

  lemma {:induction false} OuterTakes(one: string, two: string, base: int, rest: seq<Token>)
    ensures Element([Punctuation(OpenBrace)] + ([Constant(one)] + ([Punctuation(Comma)] + FromDot(two, rest))), HOLDER, base) ==
      Some(Filled([IntEntry(base, one), IntEntry(base + 4, two), Entry(base + 8, Int, Zero)], rest))
  {
    var close := [Punctuation(CloseBrace)] + rest;
    var ts := [Constant(one)] + ([Punctuation(Comma)] + FromDot(two, rest));
    hide Element, FromDot, Members, ZeroFields;
    InnerTakes(one, two, base, rest);
    PairFields(base);
    assert close[1..] == rest && SkipComma(close) == close && [] + ts == ts && {} + {"in"} == {"in"};
    BraceOpens(ts, HOLDER, base);
    MembersNext(None, ts, HOLDER, 0, {}, base, true);
    AfterMemberLevel(Element(ts, PAIR, base), HOLDER, 0, {}, base, true);
    MembersStops(close, HOLDER, 1, {"in"}, base, true);
    var inner := [IntEntry(base, one), IntEntry(base + 4, two)];
    assert Element(ts, PAIR, base + 0) == Some(Filled(inner, close));
    assert inner + [Entry(base + 8, Int, Zero)] == [IntEntry(base, one), IntEntry(base + 4, two), Entry(base + 8, Int, Zero)];
  }

  lemma {:induction false} NamedAfterMeant(base: int, one: string, two: string)
    ensures var init := NamedAfter(one, two);
      Sane(HOLDER) && Legal(init, HOLDER) && Once(init, HOLDER) && !Tidy(init, HOLDER, false) &&
      Meant(init, HOLDER, base) == [IntEntry(base, one), Entry(base + 4, Int, Zero), IntEntry(base + 8, two)]
  {
    var items := Item(None, FirstElided(one), SecondNamed(two));
    PairFields(base);
    FirstMeant(base, one);
    SecondMeant(base, two);
    HolderSane();
    assert Index(None, HOLDER, 0) == 0 && Index(Some("b"), HOLDER, 1) == 1;
    hide Legal, Meant, Full, Once, Tidy, FirstElided, SecondNamed, Sane;
    assert SecondNamed(two).designator == Some("b") && SecondNamed(two).rest == NoItems by { SecondShape(two); }
    assert LegalMembers(items, HOLDER, 0);
    assert OnceMembers(items, HOLDER, 0, {}) by { assert {} + {"in"} == {"in"}; }
    assert !TidyMembers(items, HOLDER, 0, false);
    ItemLevel(items, HOLDER, 0, 0);
    ItemLevel(items, HOLDER, 0, 1);
    ItemLevel(SecondNamed(two), HOLDER, 1, 1);
    MeantEnd(items, HOLDER, 0, {}, base);
    MeantLevel(items, HOLDER, 0, {}, 1, base);
    MeantLevel(items, HOLDER, 0, {}, 0, base);
    NamedAfterLevel(base, one, two);
  }

  lemma HolderSane()
    ensures Sane(HOLDER) && Sane(PAIR)
  {
    assert Sane(Basic(Int));
    assert Sane(PAIR);
  }

  lemma SecondShape(two: string)
    ensures SecondNamed(two).designator == Some("b") && SecondNamed(two).rest == NoItems && SecondNamed(two).Item?
  {
  }

  lemma NamedAfterLevel(base: int, one: string, two: string)
    ensures var init := NamedAfter(one, two); var items := Item(None, FirstElided(one), SecondNamed(two));
      (Legal(init, HOLDER) <==> LegalMembers(items, HOLDER, 0)) &&
      (LegalMembers(items, HOLDER, 0) ==>
        Once(init, HOLDER) == OnceMembers(items, HOLDER, 0, {}) && Tidy(init, HOLDER, false) == TidyMembers(items, HOLDER, 0, false) &&
        Meant(init, HOLDER, base) == MeantMembers(items, HOLDER, 0, {}, 0, base))
  {
    hide LegalMembers, OnceMembers, TidyMembers, MeantMembers;
  }

  lemma {:induction false} FirstMeant(base: int, one: string)
    ensures var first := FirstElided(one);
      Legal(first, PAIR) && Once(first, PAIR) && !Tidy(first, PAIR, true) && Meant(first, PAIR, base) == [IntEntry(base, one), Entry(base + 4, Int, Zero)]
  {
    var e := Atom(Constant(one));
    var items := Item(None, Scalar(e), NoItems);
    assert Plain(e);
    assert Legal(Scalar(e), Basic(Int)) && Unnamed(items) && Index(None, PAIR, 0) == 0;
    hide Plain;
    assert LegalMembers(NoItems, PAIR, 1) && LegalMembers(items, PAIR, 0);
    assert OnceMembers(NoItems, PAIR, 1, {} + {"a"}) && OnceMembers(items, PAIR, 0, {});
    assert !TidyMembers(NoItems, PAIR, 1, true) && !TidyMembers(items, PAIR, 0, true);
    assert ItemFor(NoItems, PAIR, 1, 1) == None;
    ItemLevel(items, PAIR, 0, 0);
    ItemLevel(items, PAIR, 0, 1);
    MeantEnd(items, PAIR, 0, {}, base);
    MeantLevel(items, PAIR, 0, {}, 1, base);
    MeantLevel(items, PAIR, 0, {}, 0, base);
    assert Zeros(Basic(Int), base + 4) == [Entry(base + 4, Int, Zero)];
    assert Meant(Scalar(e), Basic(Int), base) == [IntEntry(base, one)];
  }

  lemma {:induction false} SecondMeant(base: int, two: string)
    ensures var second := SecondNamed(two);
      LegalMembers(second, HOLDER, 1) && OnceMembers(second, HOLDER, 1, {"in"}) && Legal(second.init, Basic(Int)) &&
      Meant(second.init, Basic(Int), base + 8) == [IntEntry(base + 8, two)]
  {
    var e := Atom(Constant(two));
    PairFields(base);
    assert Plain(e);
    hide Plain;
    assert LegalMembers(NoItems, HOLDER, 2);
    assert OnceMembers(NoItems, HOLDER, 2, {"in"} + {"b"});
  }
}
