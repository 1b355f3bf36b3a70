/** Declaration specifiers: a state machine. */
module Specifiers {
  import opened Runs

  /** User stands for a structure, union or enumeration specifier or a typedef name. */
  datatype Word =
    | Const | Volatile | Inline
    | Typedef | Extern | Static | Auto | Register
    | Void | Char | Int | Float | Double
    | Signed | Unsigned
    | Short | Long
    | User(id: nat)

  datatype Class = Ignored | Storage | BaseType | Sign | Length | Defined

  function ClassOf(w: Word): Class {
    match w
    case Const => Ignored
    case Volatile => Ignored
    case Inline => Ignored
    case Typedef => Storage
    case Extern => Storage
    case Static => Storage
    case Auto => Storage
    case Register => Storage
    case Void => BaseType
    case Char => BaseType
    case Int => BaseType
    case Float => BaseType
    case Double => BaseType
    case Signed => Sign
    case Unsigned => Sign
    case Short => Length
    case Long => Length
    case User(_) => Defined
  }

  datatype Size = Unsized | ShortSize | LongSize | LongLongSize

  datatype State = State(storage: Option<Word>, base: Option<Word>, size: Size, sign: Option<Word>, user: Option<Word>)

  const Start := State(None, None, Unsized, None, None)

  /** The checks made after each type, sign or size word, but the second `long`. */
  predicate Compatible(s: State) {
    (s.size == ShortSize ==> s.base == None || s.base == Some(Int)) &&
    (s.size == LongSize ==> s.base == None || s.base == Some(Int) || s.base == Some(Double)) &&
    (s.sign.Some? ==> s.base != Some(Void) && s.base != Some(Float) && s.base != Some(Double)) &&
    (s.user.Some? ==> s.base == None && s.size == Unsized && s.sign == None)
  }

  function Checked(s: State): Option<State> {
    if Compatible(s) then Some(s) else None
  }

  function Step(s: State, w: Word): Option<State> {
    match ClassOf(w)
    case Ignored => Some(s)
    case Storage => if s.storage.Some? then None else Some(s.(storage := Some(w)))
    case BaseType => if s.base.Some? then None else Checked(s.(base := Some(w)))
    case Sign => if s.sign.Some? then None else Checked(s.(sign := Some(w)))
    case Defined => if s.user.Some? then None else Checked(s.(user := Some(w)))
    case Length =>
      if w == Short then (if s.size != Unsized then None else Checked(s.(size := ShortSize)))
      else if s.size == Unsized then Checked(s.(size := LongSize))
      else if s.size == LongSize then Some(s.(size := LongLongSize))
      else None
  }

  function Machine(ws: seq<Word>): Option<State>
    decreases |ws|
  {
    if |ws| == 0 then Some(Start) else
    match Machine(ws[..|ws| - 1])
    case None => None
    case Some(s) => Step(s, ws[|ws| - 1])
  }

  datatype DataType = VoidType | CharType | ShortType | IntType | LongType | LongLongType | FloatType | DoubleType | LongDoubleType | UserType(id: nat)

  datatype Specified = Specified(kind: DataType, signed: bool, storage: Option<Word>)

  /** The type a final state stands for; without any type word it is int. */
  function Result(s: State): Specified {
    var signed := s.sign != Some(Unsigned);
    if s.user.Some? && s.user.value.User? then Specified(UserType(s.user.value.id), false, s.storage)
    else if s.base == Some(Void) then Specified(VoidType, false, s.storage)
    else if s.base == Some(Char) then Specified(CharType, signed, s.storage)
    else if s.base == Some(Float) then Specified(FloatType, false, s.storage)
    else if s.base == Some(Double) then Specified(if s.size == LongSize then LongDoubleType else DoubleType, false, s.storage)
    else
      match s.size
      case ShortSize => Specified(ShortType, signed, s.storage)
      case LongSize => Specified(LongType, signed, s.storage)
      case LongLongSize => Specified(LongLongType, signed, s.storage)
      case Unsized => Specified(IntType, signed, s.storage)
  }

  function Specify(ws: seq<Word>): Option<Specified> {
    match Machine(ws)
    case None => None
    case Some(s) => Some(Result(s))
  }

  /** parse_declaration_specification over the specifiers that are there. */
  method ParseSpecifiers(ws: seq<Word>) returns (r: Option<Specified>)
    ensures r == Specify(ws)
  {
    var storage, base, sign, user: Option<Word> := None, None, None, None;
    var size := Unsized;
    var i := 0;
    while i < |ws|
      invariant i <= |ws| && Machine(ws[..i]) == Some(State(storage, base, size, sign, user))
    {
      var w := ws[i];
      var before := State(storage, base, size, sign, user);
      assert ws[..i + 1][..i] == ws[..i];
      assert Machine(ws[..i + 1]) == Step(before, w);
      var double := false;
      match ClassOf(w) {
        case Ignored =>
        case Storage =>
          if storage.Some? {
            Rejects(ws, i + 1);
            return None;
          }
          storage := Some(w);
          double := true;
        case BaseType =>
          if base.Some? {
            Rejects(ws, i + 1);
            return None;
          }
          base := Some(w);
        case Sign =>
          if sign.Some? {
            Rejects(ws, i + 1);
            return None;
          }
          sign := Some(w);
        case Defined =>
          if user.Some? {
            Rejects(ws, i + 1);
            return None;
          }
          user := Some(w);
        case Length =>
          if size == Unsized {
            size := if w == Short then ShortSize else LongSize;
          } else if size == LongSize && w == Long {
            size := LongLongSize;
            double := true;
          } else {
            Rejects(ws, i + 1);
            return None;
          }
      }
      if !double && ClassOf(w) != Ignored && !Compatible(State(storage, base, size, sign, user)) {
        Rejects(ws, i + 1);
        return None;
      }
      i := i + 1;
    }
    assert ws[..|ws|] == ws;
    r := Some(Result(State(storage, base, size, sign, user)));
  }

  /** A list whose beginning is refused is refused. */
  lemma {:induction false} Rejects(ws: seq<Word>, i: nat)
    requires i <= |ws| && Machine(ws[..i]) == None
    ensures Machine(ws) == None
    decreases |ws| - i
  {
    if i < |ws| {
      assert ws[..i + 1][..i] == ws[..i];
      Rejects(ws, i + 1);
    } else {
      assert ws[..i] == ws;
    }
  }

  // ------------------------------------------------------ what is accepted

  /** The words of a class, in order. */
  function Of(ws: seq<Word>, c: Class): seq<Word>
    decreases |ws|
  {
    if |ws| == 0 then [] else
    var last := ws[|ws| - 1];
    Of(ws[..|ws| - 1], c) + if ClassOf(last) == c then [last] else []
  }

  /** The size and type words, in order. */
  function SizesAndTypes(ws: seq<Word>): seq<Word>
    decreases |ws|
  {
    if |ws| == 0 then [] else
    var last := ws[|ws| - 1];
    SizesAndTypes(ws[..|ws| - 1]) + if ClassOf(last) == Length || ClassOf(last) == BaseType then [last] else []
  }

  function Only(ws: seq<Word>): Option<Word> {
    if |ws| == 0 then None else Some(ws[|ws| - 1])
  }

  function SizeOf(ws: seq<Word>): Size {
    if |ws| == 0 then Unsized else if ws[0] == Short then ShortSize else if |ws| == 1 then LongSize else LongLongSize
  }

  function Summary(ws: seq<Word>): State {
    State(Only(Of(ws, Storage)), Only(Of(ws, BaseType)), SizeOf(Of(ws, Length)), Only(Of(ws, Sign)), Only(Of(ws, Defined)))
  }

  /** Which words are there, whatever their order. */
  predicate Consistent(ws: seq<Word>) {
    |Of(ws, Storage)| <= 1 && |Of(ws, BaseType)| <= 1 && |Of(ws, Sign)| <= 1 && |Of(ws, Defined)| <= 1 &&
    (Of(ws, Length) == [] || Of(ws, Length) == [Short] || Of(ws, Length) == [Long] || Of(ws, Length) == [Long, Long]) &&
    Compatible(Summary(ws))
  }

  /** Two `long` with void, char or float. */
  predicate Hazard(ws: seq<Word>) {
    |Of(ws, Length)| == 2 && (Void in Of(ws, BaseType) || Char in Of(ws, BaseType) || Float in Of(ws, BaseType))
  }

  predicate LongsFirst(ws: seq<Word>) {
    |SizesAndTypes(ws)| >= 2 && SizesAndTypes(ws)[0] == Long && SizesAndTypes(ws)[1] == Long
  }

  predicate Good(ws: seq<Word>) {
    Consistent(ws) && (Hazard(ws) ==> LongsFirst(ws))
  }

  lemma {:induction false} MergedWords(ws: seq<Word>)
    ensures |SizesAndTypes(ws)| == |Of(ws, Length)| + |Of(ws, BaseType)|
    ensures Of(ws, BaseType) == [] ==> SizesAndTypes(ws) == Of(ws, Length)
    ensures forall w :: w in Of(ws, BaseType) ==> w in SizesAndTypes(ws) && ClassOf(w) == BaseType
    ensures forall w :: w in Of(ws, Length) ==> w == Short || w == Long
    decreases |ws|
  {
    if |ws| > 0 {
      MergedWords(ws[..|ws| - 1]);
    }
  }

  /** One more word, by its class. */
  lemma MoreOf(v: seq<Word>, w: Word, c: Class)
    ensures Of(v + [w], c) == Of(v, c) + (if ClassOf(w) == c then [w] else [])
    ensures SizesAndTypes(v + [w]) == SizesAndTypes(v) + (if ClassOf(w) == Length || ClassOf(w) == BaseType then [w] else [])
  {
    assert (v + [w])[..|v|] == v;
  }

  lemma MoreOfAll(v: seq<Word>, w: Word)
    ensures forall c :: Of(v + [w], c) == Of(v, c) + (if ClassOf(w) == c then [w] else [])
    ensures SizesAndTypes(v + [w]) == SizesAndTypes(v) + (if ClassOf(w) == Length || ClassOf(w) == BaseType then [w] else [])
  {
    forall c ensures Of(v + [w], c) == Of(v, c) + (if ClassOf(w) == c then [w] else []) {
      MoreOf(v, w, c);
    }
    MoreOf(v, w, Storage);
  }

  /** The machine makes the step exactly when the longer list is still good. */
  ghost predicate StepsRightly(v: seq<Word>, w: Word) {
    var next := Step(Summary(v), w);
    (Good(v) && next.Some? <==> Good(v + [w])) && (Good(v) && next.Some? ==> next.value == Summary(v + [w]))
  }

  lemma StepPlain(v: seq<Word>, w: Word)
    requires ClassOf(w) == Ignored || ClassOf(w) == Storage
    ensures StepsRightly(v, w)
  {
    hide Of, SizesAndTypes;
    MoreOfAll(v, w);
  }

  lemma StepSign(v: seq<Word>, w: Word)
    requires ClassOf(w) == Sign || ClassOf(w) == Defined
    ensures StepsRightly(v, w)
  {
    hide Of, SizesAndTypes;
    MoreOfAll(v, w);
  }

  lemma StepType(v: seq<Word>, w: Word)
    requires ClassOf(w) == BaseType
    ensures StepsRightly(v, w)
  {
    hide Of, SizesAndTypes;
    MoreOfAll(v, w);
    MergedWords(v);
    if |Of(v, BaseType)| == 0 {
      assert SizesAndTypes(v + [w]) == Of(v, Length) + [w];
    }
  }

  lemma StepLength(v: seq<Word>, w: Word)
    requires ClassOf(w) == Length
    ensures StepsRightly(v, w)
  {
    hide Of, SizesAndTypes;
    MoreOfAll(v, w);
    MergedWords(v);
    var ws := v + [w];
    if Of(v, Length) == [Long] && w == Long {
      assert Of(ws, Length) == [Long, Long];
      if |Of(v, BaseType)| == 1 {
        SecondLong(v, SizesAndTypes(v));
        assert Of(v, BaseType)[0] in Of(v, BaseType);
        assert SizesAndTypes(ws)[0] == SizesAndTypes(v)[0] && SizesAndTypes(ws)[1] == SizesAndTypes(v)[1];
      }
    } else if |Of(v, Length)| > 0 {
      assert Of(ws, Length)[|Of(v, Length)|] == w && Of(ws, Length)[0] == Of(v, Length)[0];
    } else {
      assert Of(ws, Length) == [w];
    }
  }

  /** With a type word among two words, not both are `long`. */
  lemma SecondLong(v: seq<Word>, merged: seq<Word>)
    requires merged == SizesAndTypes(v) && |merged| == 2 && |Of(v, BaseType)| == 1
    ensures !(merged[0] == Long && merged[1] == Long)
  {
    hide Of, SizesAndTypes;
    MergedWords(v);
    assert Of(v, BaseType)[0] in merged;
  }

  /** Exactly which specifier lists are accepted: order only matters when two `long` meet
      void, char or float, and then both must come first. */
  lemma {:induction false} AcceptsExactly(ws: seq<Word>)
    ensures Machine(ws).Some? <==> Consistent(ws) && (Hazard(ws) ==> LongsFirst(ws))
    ensures Machine(ws).Some? ==> Machine(ws).value == Summary(ws)
    decreases |ws|
  {
    if |ws| > 0 {
      hide Consistent, Hazard, LongsFirst, Step;
      var v, w := ws[..|ws| - 1], ws[|ws| - 1];
      assert ws == v + [w];
      AcceptsExactly(v);
      match ClassOf(w) {
        case Ignored => StepPlain(v, w);
        case Storage => StepPlain(v, w);
        case Sign => StepSign(v, w);
        case Defined => StepSign(v, w);
        case BaseType => StepType(v, w);
        case Length => StepLength(v, w);
      }
    }
  }

  // ------------------------------------------------ order does not matter

  lemma {:induction false} OfCounts(ws: seq<Word>, c: Class, w: Word)
    ensures multiset(Of(ws, c))[w] == if ClassOf(w) == c then multiset(ws)[w] else 0
    decreases |ws|
  {
    if |ws| > 0 {
      var v := ws[..|ws| - 1];
      assert ws == v + [ws[|ws| - 1]];
      OfCounts(v, c, w);
    }
  }

  lemma OfPermuted(a: seq<Word>, b: seq<Word>, c: Class)
    requires multiset(a) == multiset(b)
    ensures multiset(Of(a, c)) == multiset(Of(b, c)) && |Of(a, c)| == |Of(b, c)|
  {
    hide Of;
    forall w ensures multiset(Of(a, c))[w] == multiset(Of(b, c))[w] {
      OfCounts(a, c, w);
      OfCounts(b, c, w);
    }
    assert |multiset(Of(a, c))| == |Of(a, c)| && |multiset(Of(b, c))| == |Of(b, c)|;
  }

  /** Lists of equal words that are permutations of each other are equal. */
  lemma SameOne(a: seq<Word>, b: seq<Word>)
    requires multiset(a) == multiset(b) && |a| == |b| && |a| <= 1
    ensures a == b
  {
    if |a| == 1 {
      assert a[0] in multiset(b);
    }
  }

  lemma SameTwo(a: seq<Word>, b: seq<Word>)
    requires multiset(a) == multiset(b) && |a| == |b| && a == [Long, Long]
    ensures b == [Long, Long]
  {
    assert b[0] in multiset(a) && b[1] in multiset(a);
  }

  lemma OfSame(a: seq<Word>, b: seq<Word>, c: Class)
    requires multiset(a) == multiset(b) && (|Of(a, c)| <= 1 || Of(a, c) == [Long, Long])
    ensures Of(a, c) == Of(b, c)
  {
    hide Of;
    OfPermuted(a, b, c);
    if |Of(a, c)| <= 1 {
      SameOne(Of(a, c), Of(b, c));
    } else {
      SameTwo(Of(a, c), Of(b, c));
    }
  }

  lemma ConsistentPermuted(a: seq<Word>, b: seq<Word>)
    requires multiset(a) == multiset(b) && Consistent(a)
    ensures Consistent(b) && Summary(a) == Summary(b) && (Hazard(a) <==> Hazard(b))
  {
    hide Of;
    OfSame(a, b, Storage);
    OfSame(a, b, BaseType);
    OfSame(a, b, Sign);
    OfSame(a, b, Defined);
    OfSame(a, b, Length);
  }

  /** Any two orders of a specifier list are both refused or both accepted with the same
      type and storage class, unless two `long` meet void, char or float. */
  lemma OrderDoesNotMatter(a: seq<Word>, b: seq<Word>)
    requires multiset(a) == multiset(b) && !Hazard(a)
    ensures Specify(a) == Specify(b)
  {
    hide Of, Consistent, Machine, LongsFirst, Hazard;
    AcceptsExactly(a);
    AcceptsExactly(b);
    if Consistent(a) {
      ConsistentPermuted(a, b);
    } else if Consistent(b) {
      ConsistentPermuted(b, a);
    }
  }

  /** For those lists it does: `long long char` is a char, `char long long` an error. */
  lemma OrderMatters()
    ensures Specify([Long, Long, Char]) == Some(Specified(CharType, true, None)) && Specify([Char, Long, Long]) == None
  {
    assert [Long, Long, Char][..2] == [Long, Long] && [Long, Long][..1] == [Long] && [Long][..0] == [];
    assert Machine([Long]) == Some(Start.(size := LongSize));
    assert Machine([Long, Long]) == Some(Start.(size := LongLongSize));
    assert [Char, Long, Long][..2] == [Char, Long] && [Char, Long][..1] == [Char] && [Char][..0] == [];
    assert Machine([Char]) == Some(Start.(base := Some(Char)));
    assert Machine([Char, Long]) == None;
  }

  // ------------------------------------------------------- the C99 lists

  /** The type specifier lists of section 6.7.2 of ISO/IEC 9899:1999, without _Bool and
      complex types: which type, sign and size words may come together, in any order, and
      the type they stand for. */
  function IsoType(base: seq<Word>, sign: seq<Word>, length: seq<Word>): Option<(DataType, bool)> {
    var signed := sign != [Unsigned];
    if !(sign == [] || sign == [Signed] || sign == [Unsigned]) then None
    else if base == [Void] && sign == [] && length == [] then Some((VoidType, false))
    else if base == [Char] && length == [] then Some((CharType, signed))
    else if (base == [] || base == [Int]) && length == [Short] then Some((ShortType, signed))
    else if (base == [Int] || (base == [] && sign != [])) && length == [] then Some((IntType, signed))
    else if (base == [] || base == [Int]) && length == [Long] then Some((LongType, signed))
    else if (base == [] || base == [Int]) && length == [Long, Long] then Some((LongLongType, signed))
    else if base == [Float] && sign == [] && length == [] then Some((FloatType, false))
    else if base == [Double] && sign == [] && length == [] then Some((DoubleType, false))
    else if base == [Double] && sign == [] && length == [Long] then Some((LongDoubleType, false))
    else None
  }

  /** Every list C99 allows is accepted, with the type it stands for; a storage class may
      stand anywhere among the words. */
  lemma IsoAccepted(ws: seq<Word>)
    requires |Of(ws, Storage)| <= 1 && Of(ws, Defined) == []
    requires IsoType(Of(ws, BaseType), Of(ws, Sign), Of(ws, Length)).Some?
    ensures var t := IsoType(Of(ws, BaseType), Of(ws, Sign), Of(ws, Length)).value;
      Specify(ws) == Some(Specified(t.0, t.1, Only(Of(ws, Storage))))
  {
    hide Of, SizesAndTypes, Machine;
    AcceptsExactly(ws);
  }
}
