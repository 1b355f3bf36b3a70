/** Declarators, built by overwriting stub types later. */
module Declarators {
  // The type a declarator spells is read inside out; the parser builds it on the heap by
  // handing out stubs.
  // Functions have parameter lists, which hold declarators again.
  import opened Runs
  import S = Specifiers

  /** A Constant stands for a constant expression between brackets; `...` is a word. */
  datatype Token =
    | LeftParen | RightParen | LeftBracket | RightBracket | Asterisk | Comma | Word(text: string) | Constant(value: int) | Other

  /** What is under the layers: a type of the specifiers, a typedef name, or a stub that
      nobody filled. */
  datatype Base = Basic(kind: S.DataType, signed: bool) | Alias(name: string) | Unfilled

  /** One layer of a type; -1 is the length of an array without one. */
  datatype Step = ArrayStep(length: int) | PointerStep | FunctionStep(params: ParamTypes, dots: bool)

  datatype ParamTypes = NoTypes | MoreTypes(base: Base, steps: seq<Step>, rest: ParamTypes)

  /** The `[n]` and parameter lists after a name or a closing parenthesis. */
  datatype Suffix = NoSuffix | Bracket(length: int, rest: Suffix) | Call(params: Params, dots: bool)

  /** Each parameter has the words of its specifiers and a declarator. */
  datatype Params = NoParams | MoreParams(words: seq<string>, declarator: Declarator, rest: Params)

  datatype Declarator =
    | Named(name: string, suffix: Suffix)
    | Star(target: Declarator)
    | Paren(inner: Declarator, suffix: Suffix)

  // ---------------------------------------------------------- the meaning

  function SuffixSteps(s: Suffix): seq<Step> {
    match s
    case NoSuffix => []
    case Bracket(n, rest) => [ArrayStep(n)] + SuffixSteps(rest)
    case Call(params, dots) => [FunctionStep(TypesOf(params), dots)]
  }

  /** A parameter that is an array is a pointer to its element (section 6.7.5.3 of
      ISO/IEC 9899:1999). */
  function Adjusted(steps: seq<Step>): (r: seq<Step>)
    ensures |r| == |steps|
  {
    if |steps| > 0 && steps[0].ArrayStep? then [PointerStep] + steps[1..] else steps
  }

  /** The types of parameters: the layers that can be reached, and the base unless it is lost. */
  function TypesOf(params: Params): ParamTypes {
    match params
    case NoParams => NoTypes
    case MoreParams(words, d, rest) => MoreTypes(BaseUnder(words, d), Adjusted(Reach(d)), TypesOf(rest))
  }

  function BaseUnder(words: seq<string>, d: Declarator): Base {
    if EndOf(d) == Lost || BaseOf(words).None? then Unfilled else BaseOf(words).value
  }

  /** The layers of the declared type, outermost first, down to the base type
      (section 6.7.5 of ISO/IEC 9899:1999). */
  function Steps(d: Declarator): seq<Step> {
    match d
    case Named(_, s) => SuffixSteps(s)
    case Star(e) => Steps(e) + [PointerStep]
    case Paren(e, s) => Steps(e) + SuffixSteps(s)
  }

  function NameOf(d: Declarator): string {
    match d
    case Named(name, _) => name
    case Star(e) => NameOf(e)
    case Paren(e, _) => NameOf(e)
  }

  /** Parentheses with nothing after them. */
  predicate Bare(d: Declarator) {
    match d
    case Named(_, _) => false
    case Star(e) => Bare(e)
    case Paren(e, s) => s.NoSuffix? || Bare(e)
  }

  predicate BareInside(d: Declarator) {
    !d.Named? && Bare(if d.Star? then d.target else d.inner)
  }

  /** What becomes of the end of the chain of types: it is the base type itself, a copy of
      it, or a copy of a stub that nobody fills. */
  datatype End = Shared | Copied | Lost

  function EndOf(d: Declarator): End {
    match d
    case Named(_, _) => Shared
    case Star(e) => if EndOf(e) == Shared then Shared else Lost
    case Paren(e, s) => if EndOf(e) != Shared then Lost else if s.NoSuffix? then Copied else Shared
  }

  /** The layers that can be reached from the declared type. */
  function Reach(d: Declarator): seq<Step> {
    match d
    case Named(_, s) => SuffixSteps(s)
    case Star(e) => Reach(e) + if EndOf(e) == Shared then [PointerStep] else []
    case Paren(e, s) => Reach(e) + if EndOf(e) == Shared then SuffixSteps(s) else []
  }

  lemma {:induction false} SharedReach(d: Declarator)
    requires EndOf(d) != Lost
    ensures Reach(d) == Steps(d)
    decreases d
  {
    match d {
      case Named(_, _) =>
      case Star(e) => SharedReach(e);
      case Paren(e, _) => SharedReach(e);
    }
  }

  /** The stub is lost exactly when parentheses without a suffix stand inside a pointer or
      other parentheses. */
  lemma {:induction false} LostExactly(d: Declarator)
    ensures EndOf(d) == Shared <==> !Bare(d)
    ensures EndOf(d) == Lost <==> BareInside(d)
    decreases d
  {
    match d {
      case Named(_, _) =>
      case Star(e) => LostExactly(e);
      case Paren(e, _) => LostExactly(e);
    }
  }

  // ------------------------------------------------------------- parsing

  /** What the parser looks at in a base type. */
  datatype Kind = Stub | Leaf | Array | Pointer | Function

  function StepKind(s: Step): Kind {
    match s
    case ArrayStep(_) => Array
    case PointerStep => Pointer
    case FunctionStep(_, _) => Function
  }

  datatype Context = NameRequired | NameOptional | NameForbidden

  const TYPE_WORDS: set<string> := {
    "char", "short", "int", "long", "float", "double", "struct", "union", "signed", "unsigned", "enum", "void",
    "typedef", "extern", "static", "auto", "register", "const", "volatile", "inline", "restrict"
  }

  const QUALIFIERS: set<string> := { "const", "volatile", "restrict" }

  /** Those that begin a definition of their own. */
  const TAG_WORDS: set<string> := { "struct", "union", "enum" }

  datatype SuffixRead = SuffixRead(suffix: Suffix, rest: seq<Token>)
  datatype DeclaratorRead = DeclaratorRead(declarator: Declarator, rest: seq<Token>)
  datatype ParamsRead = ParamsRead(params: Params, dots: bool, rest: seq<Token>)
  datatype WordsRead = WordsRead(words: seq<string>, rest: seq<Token>)

  predicate Begins(ts: seq<Token>, token: Token) { |ts| > 0 && ts[0] == token }

  predicate NamesType(token: Token, typedefs: set<string>) {
    token.Word? && (token.text in TYPE_WORDS || token.text in typedefs)
  }

  /** A suffix applied to a type of this kind. */
  function SuffixKind(s: Suffix, base: Kind): Kind {
    match s
    case NoSuffix => base
    case Bracket(_, _) => Array
    case Call(_, _) => Function
  }

  // ------------------------------------------------------------ specifiers

  /** The word as parse_declaration_specification takes it, a typedef name if none other. */
  function WordOf(text: string): S.Word {
    if text == "const" then S.Const else if text == "volatile" then S.Volatile else if text == "inline" then S.Inline
    else if text == "typedef" then S.Typedef else if text == "extern" then S.Extern else if text == "static" then S.Static
    else if text == "auto" then S.Auto else if text == "register" then S.Register
    else if text == "void" then S.Void else if text == "char" then S.Char else if text == "int" then S.Int
    else if text == "float" then S.Float else if text == "double" then S.Double
    else if text == "signed" then S.Signed else if text == "unsigned" then S.Unsigned
    else if text == "short" then S.Short else if text == "long" then S.Long else S.User(0)
  }

  function WordsOf(words: seq<string>): seq<S.Word> {
    seq(|words|, i requires 0 <= i < |words| => WordOf(words[i]))
  }

  function FirstAlias(words: seq<string>): string {
    if |words| == 0 then "" else if WordOf(words[0]).User? then words[0] else FirstAlias(words[1..])
  }

  /** The type of a list of specifiers, if it is accepted. */
  function BaseOf(words: seq<string>): Option<Base> {
    match S.Specify(WordsOf(words))
    case None => None
    case Some(s) => Some(if s.kind.UserType? then Alias(FirstAlias(words)) else Basic(s.kind, s.signed))
  }

  /** A word that the specifiers take without looking further. */
  predicate Specifies(token: Token, typedefs: set<string>) {
    token.Word? && (!WordOf(token.text).User? || token.text in typedefs) && token.text !in TAG_WORDS
  }

  function ReadWords(ts: seq<Token>, typedefs: set<string>): (r: WordsRead)
    ensures |r.rest| <= |ts|
    decreases |ts|
  {
    if |ts| > 0 && Specifies(ts[0], typedefs) then
      var r := ReadWords(ts[1..], typedefs);
      WordsRead([ts[0].text] + r.words, r.rest)
    else WordsRead([], ts)
  }

  // ----------------------------------------------------------- declarators

  /** parse_declarator_direct_restage. */
  function ReadSuffix(ts: seq<Token>, base: Kind, vars: bool, typedefs: set<string>): (r: Option<SuffixRead>)
    ensures r.Some? ==> |r.value.rest| <= |ts|
    decreases |ts|, 0
  {
    if Begins(ts, LeftBracket) then
      match ReadLength(ts[1..]) {
        case None => None
        case Some(l) =>
          match ReadSuffix(l.1, base, vars, typedefs) {
            case None => None
            case Some(r) =>
              if SuffixKind(r.suffix, base) == Function then None else Some(SuffixRead(Bracket(l.0, r.suffix), r.rest))
          }
      }
    else if Begins(ts, LeftParen) then
      if base == Function || base == Array then None else
      match ReadParams(ts[1..], vars, typedefs) {
        case None => None
        case Some(p) => Some(SuffixRead(Call(p.params, p.dots), p.rest))
      }
    else Some(SuffixRead(NoSuffix, ts))
  }

  /** parse_function_parameters; with `vars` the parameters become variables and need names. */
  function ReadParams(ts: seq<Token>, vars: bool, typedefs: set<string>): (r: Option<ParamsRead>)
    ensures r.Some? ==> |r.value.rest| < |ts|
    decreases |ts|, 4
  {
    if Begins(ts, Word("void")) && Begins(ts[1..], RightParen) then Some(ParamsRead(NoParams, false, ts[2..]))
    else if Begins(ts, RightParen) then Some(ParamsRead(NoParams, true, ts[1..]))
    else ReadMore(ts, true, vars, typedefs)
  }

  /** The loop of parse_function_parameters, for the first or a later parameter. */
  function ReadMore(ts: seq<Token>, first: bool, vars: bool, typedefs: set<string>): (r: Option<ParamsRead>)
    ensures r.Some? ==> |r.value.rest| < |ts|
    decreases |ts|, 3
  {
    if Begins(ts, Word("...")) then
      if !first && Begins(ts[1..], RightParen) then Some(ParamsRead(NoParams, true, ts[2..])) else None
    else
      match ReadParam(ts, vars, typedefs)
      case None => None
      case Some(p) =>
        if Begins(p.rest, RightParen) then Some(ParamsRead(MoreParams(p.params.words, p.params.declarator, NoParams), false, p.rest[1..]))
        else if !Begins(p.rest, Comma) then None
        else
          match ReadMore(p.rest[1..], false, vars, typedefs)
          case None => None
          case Some(m) => Some(ParamsRead(MoreParams(p.params.words, p.params.declarator, m.params), m.dots, m.rest))
  }

  /** The type is void itself. */
  predicate IsVoid(words: seq<string>, d: Declarator) {
    Reach(d) == [] && BaseUnder(words, d).Basic? && BaseUnder(words, d).kind == S.VoidType
  }

  /** parse_function_parameter and the check for void; the result is one parameter. A bound
      after a parameter's own parameter list counts as a failure. */
  function ReadParam(ts: seq<Token>, vars: bool, typedefs: set<string>): (r: Option<ParamsRead>)
    ensures r.Some? ==> r.value.params.MoreParams? && r.value.params.rest.NoParams? && |r.value.rest| <= |ts|
    decreases |ts|, 2
  {
    if |ts| == 0 || !ts[0].Word? then None else
    var w := ReadWords(ts, typedefs);
    if BaseOf(w.words).None? || (|w.rest| > 0 && w.rest[0].Word? && w.rest[0].text in TAG_WORDS) then None else
    match ReadDeclarator(w.rest, Leaf, if vars then NameRequired else NameOptional, false, typedefs)
    case None => None
    case Some(d) =>
      if Begins(d.rest, LeftBracket) || IsVoid(w.words, d.declarator) then None
      else Some(ParamsRead(MoreParams(w.words, d.declarator, NoParams), false, d.rest))
  }

  /** The length up to the closing bracket. */
  function ReadLength(ts: seq<Token>): (r: Option<(int, seq<Token>)>)
    ensures r.Some? ==> |r.value.1| < |ts|
  {
    if Begins(ts, RightBracket) then Some((-1, ts[1..]))
    else if |ts| > 0 && ts[0].Constant? && Begins(ts[1..], RightBracket) then Some((ts[0].value, ts[2..]))
    else None
  }

  function SkipQualifiers(ts: seq<Token>): (r: seq<Token>)
    ensures |r| <= |ts|
    decreases |ts|
  {
    if |ts| > 0 && ts[0].Word? && ts[0].text in QUALIFIERS then SkipQualifiers(ts[1..]) else ts
  }

  /** parse_declarator_direct. */
  function ReadDeclarator(ts: seq<Token>, base: Kind, context: Context, vars: bool, typedefs: set<string>): (r: Option<DeclaratorRead>)
    ensures r.Some? ==> |r.value.rest| <= |ts|
    decreases |ts|, 1
  {
    if Begins(ts, LeftParen) && |ts| > 1 && !NamesType(ts[1], typedefs) && ts[1] != RightParen then
      match ReadDeclarator(ts[1..], Stub, context, vars, typedefs) {
        case None => None
        case Some(d) =>
          if !Begins(d.rest, RightParen) then None else
          match ReadSuffix(d.rest[1..], base, vars, typedefs) {
            case None => None
            case Some(s) => Some(DeclaratorRead(Paren(d.declarator, s.suffix), s.rest))
          }
      }
    else if Begins(ts, Asterisk) then
      match ReadDeclarator(SkipQualifiers(ts[1..]), Stub, context, vars, typedefs) {
        case None => None
        case Some(d) => Some(DeclaratorRead(Star(d.declarator), d.rest))
      }
    else if |ts| > 0 && ts[0].Word? then
      if context == NameForbidden then None else
      match ReadSuffix(ts[1..], base, vars, typedefs) {
        case None => None
        case Some(s) => Some(DeclaratorRead(Named(ts[0].text, s.suffix), s.rest))
      }
    else if |ts| == 0 || context == NameRequired || (Begins(ts, LeftParen) && |ts| == 1) then None
    else
      match ReadSuffix(ts, base, vars, typedefs) {
        case None => None
        case Some(s) => Some(DeclaratorRead(Named("", s.suffix), s.rest))
      }
  }

  // ------------------------------------------------------ types on the heap

  function LengthOf(ps: ParamTypes): nat {
    match ps
    case NoTypes => 0
    case MoreTypes(_, _, rest) => 1 + LengthOf(rest)
  }

  /** The k-th type, as the first of those from there on. */
  function TypeAt(ps: ParamTypes, k: nat): (r: ParamTypes)
    requires k < LengthOf(ps)
    ensures r.MoreTypes? && (k == 0 ==> r == ps) && (k > 0 ==> r < ps)
  {
    if k == 0 then ps else TypeAt(ps.rest, k - 1)
  }

  class Type {
    var kind: Kind
    var size: int
    var length: int
    var dots: bool
    var pointer: Type?
    var returntype: Type?
    var base: Base
    var parameters: seq<Type>
    /** The objects of each parameter's type, from its outermost layer down, and all that
        these reach through parameters of their own. */
    ghost var chains: seq<seq<Type>>
    ghost var repr: set<Type>

    /** ast_type_stub. */
    constructor ()
      ensures kind == Stub && size == 0 && base == Unfilled && repr == {}
    {
      kind, size, length, dots, pointer, returntype, base, parameters := Stub, 0, 0, false, null, null, Unfilled, [];
      chains, repr := [], {};
    }

    /** The type of a list of specifiers. */
    constructor LeafOf(base: Base, size: int)
      ensures kind == Leaf && this.size == size && this.base == base && repr == {}
    {
      kind, this.size, length, dots, pointer, returntype := Leaf, size, 0, false, null, null;
      this.base, parameters, chains, repr := base, [], [], {};
    }

    /** ast_array: the size may be worked out from a stub's, and is mended later. */
    constructor ArrayOf(element: Type, length: int)
      ensures IsStep(ArrayStep(length), element) && repr == {}
    {
      kind, this.length, dots, pointer, returntype := Array, length, false, element, null;
      size := if length < 0 then -1 else element.size * length;
      base, parameters, chains, repr := Unfilled, [], [], {};
    }

    /** ast_pointer. */
    constructor PointerTo(target: Type)
      ensures IsStep(PointerStep, target) && repr == {}
    {
      kind, size, length, dots, pointer, returntype, base, parameters := Pointer, 8, 0, false, target, null, Unfilled, [];
      chains, repr := [], {};
    }

    /** ast_prototype. */
    constructor FunctionTo(result: Type, parameters: seq<Type>, dots: bool, ghost chains: seq<seq<Type>>, ghost repr: set<Type>)
      ensures kind == Function && size == 0 && this.dots == dots && returntype == result
      ensures this.parameters == parameters && this.chains == chains && this.repr == repr
    {
      kind, size, length, this.dots, pointer, returntype, base := Function, 0, 0, dots, null, result, Unfilled;
      this.parameters, this.chains, this.repr := parameters, chains, repr;
    }

    /** The assignment of one structure to another. */
    method Become(other: Type)
      modifies this
      ensures Same(other)
    {
      kind, size, length, dots, pointer, returntype := other.kind, other.size, other.length, other.dots, other.pointer, other.returntype;
      base, parameters, chains, repr := other.base, other.parameters, other.chains, other.repr;
    }

    ghost predicate Same(other: Type)
      reads this, other
    {
      kind == other.kind && size == other.size && length == other.length && dots == other.dots && pointer == other.pointer &&
      returntype == other.returntype && base == other.base && parameters == other.parameters && chains == other.chains && repr == other.repr
    }

    /** This object is a base type, or the stub that is left when the base is lost. */
    ghost predicate IsEnd(b: Base)
      reads this
    {
      base == b && kind == if b == Unfilled then Stub else Leaf
    }

    /** This object is one layer over another. */
    ghost predicate IsStep(s: Step, next: Type)
      reads this
    {
      match s
      case ArrayStep(n) => kind == Array && length == n && pointer == next
      case PointerStep => kind == Pointer && size == 8 && pointer == next
      case FunctionStep(ps, d) => kind == Function && size == 0 && dots == d && returntype == next && |parameters| == LengthOf(ps)
    }
  }

  /** The objects of a type from its outermost layer down. */
  ghost predicate Linked(nodes: seq<Type>, steps: seq<Step>)
    reads nodes
  {
    |nodes| == |steps| + 1 &&
    forall i, j {:trigger nodes[i], nodes[j]} :: 0 <= i < j < |nodes| ==>
      nodes[i] != nodes[j] && (j == i + 1 ==> nodes[i].IsStep(steps[i], nodes[j]))
  }

  /** What the layers reach through parameters. */
  ghost function Foot(nodes: seq<Type>): set<Type>
    reads (set i | 0 <= i < |nodes| - 1 :: nodes[i])`repr
  {
    set i, x | 0 <= i < |nodes| - 1 && x in nodes[i].repr :: x
  }

  /** Linked, and each function's parameters have the types of its layer, to any depth. */
  ghost predicate Deep(nodes: seq<Type>, steps: seq<Step>)
    reads nodes, Foot(nodes)
  {
    DeepIn(nodes, MoreTypes(Unfilled, steps, NoTypes))
  }

  /** The same for the layers of the first of these types. */
  ghost predicate DeepIn(nodes: seq<Type>, types: ParamTypes)
    requires types.MoreTypes?
    reads nodes, Foot(nodes)
    decreases types, 0
  {
    Linked(nodes, types.steps) && (forall i :: 0 <= i < |nodes| ==> nodes[i] !in Foot(nodes)) &&
    forall i :: 0 <= i < |types.steps| && types.steps[i].FunctionStep? ==> Carries(nodes[i], types.steps[i].params)
  }

  lemma DeepAlso(nodes: seq<Type>, types: ParamTypes)
    requires types.MoreTypes?
    ensures DeepIn(nodes, types) == Deep(nodes, types.steps)
  {
    hide Linked, Foot, Carries;
  }

  ghost predicate Carries(f: Type, ps: ParamTypes)
    reads f`parameters, f`chains, f`repr, f.repr
    decreases ps, 3
  {
    Listed(f.parameters, f.chains, f.repr, ps)
  }

  /** The k-th parameter heads a chain that is itself of the k-th type. */
  ghost predicate Listed(params: seq<Type>, chains: seq<seq<Type>>, repr: set<Type>, ps: ParamTypes)
    reads repr
    decreases ps, 2
  {
    |params| == LengthOf(ps) == |chains| &&
    forall k :: 0 <= k < LengthOf(ps) ==> Within(chains[k], repr) && Typed(params[k], chains[k], TypeAt(ps, k))
  }

  ghost predicate Within(chain: seq<Type>, repr: set<Type>)
    reads repr
  {
    (forall i :: 0 <= i < |chain| ==> chain[i] in repr) && Foot(chain) <= repr
  }

  /** A type object, its chain, and the first of these types. */
  ghost predicate Typed(t: Type, chain: seq<Type>, types: ParamTypes)
    reads chain, Foot(chain)
    decreases types, 1
  {
    types.MoreTypes? && |chain| > 0 && chain[0] == t && DeepIn(chain, types) && |chain| == |types.steps| + 1 && Measured(chain, types.steps) &&
    chain[|chain| - 1].IsEnd(types.base)
  }

  /** All the objects of a chain. */
  ghost function All(nodes: seq<Type>): set<Type>
    reads nodes`repr
  {
    (set t | t in nodes) + Foot(nodes)
  }

  lemma DeepLinked(nodes: seq<Type>, steps: seq<Step>)
    requires Deep(nodes, steps)
    ensures Linked(nodes, steps) && |nodes| == |steps| + 1
  {
    hide Linked;
    LinkedLength(nodes, steps);
  }

  lemma LinkedLength(nodes: seq<Type>, steps: seq<Step>)
    requires Linked(nodes, steps)
    ensures |nodes| == |steps| + 1
  {
  }

  lemma DeepOne(t: Type)
    ensures Deep([t], []) && Foot([t]) == {} && All([t]) == {t}
  {
  }

  lemma FootAllocated(nodes: seq<Type>)
    ensures allocated(Foot(nodes))
  {
  }

  lemma FootHas(nodes: seq<Type>)
    ensures forall i :: 0 <= i < |nodes| - 1 ==> nodes[i].repr <= Foot(nodes)
  {
  }

  lemma DeepParts(nodes: seq<Type>, steps: seq<Step>)
    ensures Deep(nodes, steps) <==>
      Linked(nodes, steps) && (forall i :: 0 <= i < |nodes| ==> nodes[i] !in Foot(nodes)) &&
      forall i :: 0 <= i < |steps| && steps[i].FunctionStep? ==> Carries(nodes[i], steps[i].params)
  {
    hide Linked, Foot, Carries;
  }

  lemma DeepApart(nodes: seq<Type>, steps: seq<Step>)
    requires Deep(nodes, steps)
    ensures forall i :: 0 <= i < |nodes| ==> nodes[i] !in Foot(nodes)
  {
    hide Linked, Foot, Carries;
  }

  lemma FootCons(t: Type, nodes: seq<Type>)
    requires |nodes| > 0
    ensures Foot([t] + nodes) == t.repr + Foot(nodes)
  {
    var all := [t] + nodes;
    forall x ensures x in Foot(all) <==> x in t.repr + Foot(nodes) {
      if x in t.repr {
        assert x in all[0].repr;
      }
      if x in Foot(nodes) {
        var i :| 0 <= i < |nodes| - 1 && x in nodes[i].repr;
        assert all[i + 1] == nodes[i];
      }
      if x in Foot(all) && x !in t.repr {
        var i :| 0 <= i < |all| - 1 && x in all[i].repr;
        assert all[i] == nodes[i - 1];
      }
    }
  }

  /** A layer that is no function on top. */
  lemma DeepCons(outer: Type, nodes: seq<Type>, step: Step, steps: seq<Step>)
    requires Deep(nodes, steps) && |nodes| > 0 && !step.FunctionStep? && outer.IsStep(step, nodes[0]) && outer.repr == {}
    requires outer !in nodes && outer !in Foot(nodes)
    ensures Deep([outer] + nodes, [step] + steps) && Foot([outer] + nodes) == Foot(nodes)
  {
    FootCons(outer, nodes);
    var all, more := [outer] + nodes, [step] + steps;
    assert all[1..] == nodes && more[1..] == steps;
    DeepLinked(nodes, steps);
    LinkedCons(all, more);
    hide Linked, Foot, Carries;
    forall i | 0 <= i < |more| && more[i].FunctionStep? ensures Carries(all[i], more[i].params) {
      assert all[i] == nodes[i - 1] && more[i] == steps[i - 1];
    }
    forall i | 0 <= i < |all| ensures all[i] !in Foot(all) {
      if i > 0 { assert all[i] == nodes[i - 1]; }
    }
  }

  lemma DeepTail(nodes: seq<Type>, steps: seq<Step>)
    requires Deep(nodes, steps) && |nodes| > 1
    ensures Deep(nodes[1..], steps[1..]) && Foot(nodes[1..]) <= Foot(nodes) && nodes[0].IsStep(steps[0], nodes[1])
    ensures nodes[0] !in nodes[1..]
  {
    LinkedTail(nodes, steps);
    FootCons(nodes[0], nodes[1..]);
    assert [nodes[0]] + nodes[1..] == nodes;
    hide Linked, Foot, Carries;
    forall i | 0 <= i < |steps| - 1 && steps[1..][i].FunctionStep? ensures Carries(nodes[1..][i], steps[1..][i].params) {
      assert nodes[1..][i] == nodes[i + 1] && steps[1..][i] == steps[i + 1];
    }
    forall i | 0 <= i < |nodes| - 1 ensures nodes[1..][i] !in Foot(nodes[1..]) {
      assert nodes[1..][i] == nodes[i + 1];
    }
  }

  /** A function and what it returns. */
  lemma DeepFunction(outer: Type, base: Type, ps: ParamTypes, dots: bool)
    requires outer.IsStep(FunctionStep(ps, dots), base) && outer != base && outer !in outer.repr && base !in outer.repr
    requires Listed(outer.parameters, outer.chains, outer.repr, ps)
    ensures Deep([outer, base], [FunctionStep(ps, dots)]) && Foot([outer, base]) == outer.repr
  {
    FootCons(outer, [base]);
    assert [outer] + [base] == [outer, base] && Foot([base]) == {};
    hide Listed, Foot;
    var nodes, steps := [outer, base], [FunctionStep(ps, dots)];
    assert Linked(nodes, steps);
    assert Carries(nodes[0], ps);
    assert forall i :: 0 <= i < |nodes| ==> nodes[i] !in Foot(nodes);
  }

  lemma FootJoin(a: seq<Type>, b: seq<Type>)
    requires |a| > 0 && |b| > 0 && a[|a| - 1] == b[0]
    ensures Foot(a + b[1..]) == Foot(a) + Foot(b)
  {
    var all := a + b[1..];
    forall x ensures x in Foot(all) <==> x in Foot(a) + Foot(b) {
      if x in Foot(a) {
        var i :| 0 <= i < |a| - 1 && x in a[i].repr;
        assert all[i] == a[i];
      }
      if x in Foot(b) {
        var i :| 0 <= i < |b| - 1 && x in b[i].repr;
        assert all[|a| - 1 + i] == b[i];
      }
      if x in Foot(all) {
        var i :| 0 <= i < |all| - 1 && x in all[i].repr;
        if i < |a| - 1 { assert all[i] == a[i]; } else { assert all[i] == b[i - (|a| - 1)]; }
      }
    }
  }

  /** Two chains that share the object between them. */
  lemma DeepJoin(a: seq<Type>, b: seq<Type>, s: seq<Step>, t: seq<Step>)
    requires Deep(a, s) && Deep(b, t) && |a| > 0 && |b| > 0 && a[|a| - 1] == b[0]
    requires forall i, j :: 0 <= i < |a| - 1 && 0 <= j < |b| ==> a[i] != b[j]
    requires (forall i :: 0 <= i < |a| ==> a[i] !in Foot(b)) && forall j :: 0 <= j < |b| ==> b[j] !in Foot(a)
    ensures Deep(a + b[1..], s + t) && Foot(a + b[1..]) == Foot(a) + Foot(b)
  {
    FootJoin(a, b);
    DeepLinked(a, s);
    DeepLinked(b, t);
    LinkedJoin(a, b, s, t);
    hide Linked, Foot, Carries;
    var all, steps := a + b[1..], s + t;
    forall i | 0 <= i < |steps| && steps[i].FunctionStep? ensures Carries(all[i], steps[i].params) {
      if i < |s| { assert all[i] == a[i] && steps[i] == s[i]; } else { assert all[i] == b[i - |s|] && steps[i] == t[i - |s|]; }
    }
    forall i | 0 <= i < |all| ensures all[i] !in Foot(all) {
      if i < |a| { assert all[i] == a[i]; } else { assert all[i] == b[i - |s|]; }
    }
  }

  /** A chain stays one when its first object is replaced by a copy. */
  lemma DeepHead(a: seq<Type>, b: seq<Type>, s: seq<Step>)
    requires Deep(a, s) && |b| == |a| > 1 && b[1..] == a[1..] && b[0].Same(a[0]) && b[0] !in Foot(a)
    requires forall i :: 0 < i < |b| ==> b[i] != b[0]
    ensures Deep(b, s) && Foot(b) == Foot(a)
  {
    DeepLinked(a, s);
    LinkedHead(a, b, s);
    FootCons(a[0], a[1..]);
    FootCons(b[0], b[1..]);
    assert [a[0]] + a[1..] == a && [b[0]] + b[1..] == b;
    if s[0].FunctionStep? { CarriesSame(a[0], b[0], s[0].params); }
    hide Linked, Foot, Carries;
    forall i | 0 <= i < |s| && s[i].FunctionStep? ensures Carries(b[i], s[i].params) {
      if i > 0 { assert b[i] == b[1..][i - 1] == a[i]; }
    }
    forall i | 0 <= i < |b| ensures b[i] !in Foot(b) {
      if i > 0 { assert b[i] == b[1..][i - 1] == a[i]; }
    }
  }

  lemma DeepPair(pointer: Type, target: Type)
    requires pointer.IsStep(PointerStep, target) && pointer != target && pointer.repr == {}
    ensures Deep([pointer, target], [PointerStep]) && Foot([pointer, target]) == {}
  {
    DeepOne(target);
    DeepCons(pointer, [target], PointerStep, []);
    assert [pointer] + [target] == [pointer, target] && [PointerStep] + [] == [PointerStep];
  }

  lemma CarriesSame(f: Type, g: Type, ps: ParamTypes)
    requires Carries(f, ps) && g.Same(f)
    ensures Carries(g, ps)
  {
    hide Typed, Within;
  }

  ghost predicate EndsInStub(nodes: seq<Type>, steps: seq<Step>)
    reads nodes, Foot(nodes)
  {
    Deep(nodes, steps) && Measured(nodes, steps) && nodes[|nodes| - 1].kind == Stub && nodes[|nodes| - 1].base == Unfilled
  }

  lemma KindOf(nodes: seq<Type>, steps: seq<Step>)
    requires Linked(nodes, steps)
    ensures |steps| > 0 ==> nodes[0].IsStep(steps[0], nodes[1]) && nodes[0].kind == StepKind(steps[0])
  {
  }

  /** How the last object of a chain relates to the base type it was built on. */
  ghost predicate EndsAt(e: End, last: Type, base: Type)
    reads last, base
  {
    match e
    case Shared => last == base
    case Copied => last != base && last.Same(base)
    case Lost => last != base && last.kind == Stub && last.base == Unfilled
  }

  class DeclaratorParser {
    var tokens: seq<Token>
    const typedefs: set<string>
    /** The sizes of the types that specifiers name. */
    const sizes: Base -> int

    constructor (tokens: seq<Token>, typedefs: set<string>, sizes: Base -> int)
      ensures this.tokens == tokens && this.typedefs == typedefs && this.sizes == sizes
    {
      this.tokens := tokens;
      this.typedefs := typedefs;
      this.sizes := sizes;
    }

    /** parse_declarator_direct_restage. */
    method Restage(base: Type, vars: bool) returns (r: Option<Type>, ghost nodes: seq<Type>)
      modifies this
      ensures var p := ReadSuffix(old(tokens), base.kind, vars, typedefs);
        r.Some? == p.Some? &&
        (r.Some? ==> tokens == p.value.rest && r.value.kind == SuffixKind(p.value.suffix, base.kind)) &&
        (r.Some? ==> Deep(nodes, SuffixSteps(p.value.suffix)) && nodes[0] == r.value && nodes[|nodes| - 1] == base)
      ensures r.Some? ==> fresh(Foot(nodes)) && forall i :: 0 <= i < |nodes| - 1 ==> fresh(nodes[i])
      decreases |tokens|, 2
    {
      hide ReadParams, ReadLength, TypesOf, Deep, Foot, Linked;
      nodes := [];
      if Begins(tokens, LeftBracket) {
        tokens := tokens[1..];
        var length := ReadLength(tokens);
        if length.None? {
          return None, nodes;
        }
        tokens := length.value.1;
        ghost var q := ReadSuffix(tokens, base.kind, vars, typedefs);
        r, nodes := Restage(base, vars);
        if r.None? {
          return;
        }
        if r.value.kind == Function {
          return None, nodes;
        }
        ghost var inner, foot := nodes, Foot(nodes);
        DeepLinked(inner, SuffixSteps(q.value.suffix));
        FootAllocated(inner);
        var outer := new Type.ArrayOf(r.value, length.value.0);
        assert Foot(inner) == foot && outer !in foot;
        assert outer !in inner;
        DeepCons(outer, inner, ArrayStep(length.value.0), SuffixSteps(q.value.suffix));
        nodes := [outer] + inner;
        r := Some(outer);
      } else if Begins(tokens, LeftParen) {
        if base.kind == Function || base.kind == Array {
          return None, nodes;
        }
        r, nodes := Parameters(base, vars);
      } else {
        r := Some(base);
        nodes := [base];
        DeepOne(base);
      }
    }

    /** A parameter list and the function it makes of the base. */
    method Parameters(base: Type, vars: bool) returns (r: Option<Type>, ghost nodes: seq<Type>)
      requires Begins(tokens, LeftParen) && base.kind != Function && base.kind != Array
      modifies this
      ensures var p := ReadSuffix(old(tokens), base.kind, vars, typedefs);
        r.Some? == p.Some? &&
        (r.Some? ==> tokens == p.value.rest && r.value.kind == SuffixKind(p.value.suffix, base.kind)) &&
        (r.Some? ==> Deep(nodes, SuffixSteps(p.value.suffix)) && nodes[0] == r.value && nodes[|nodes| - 1] == base)
      ensures r.Some? ==> fresh(Foot(nodes)) && forall i :: 0 <= i < |nodes| - 1 ==> fresh(nodes[i])
      decreases |tokens|, 1
    {
      hide ReadParams, TypesOf, Deep, Foot, Linked, Listed;
      nodes := [];
      tokens := tokens[1..];
      var ok, params, dots;
      ghost var types, chains, repr;
      ok, params, dots, types, chains, repr := ParameterList(vars);
      if !ok {
        return None, nodes;
      }
      var outer := new Type.FunctionTo(base, params, dots, chains, repr);
      assert outer !in repr && base !in repr;
      DeepFunction(outer, base, types, dots);
      nodes := [outer, base];
      r := Some(outer);
    }

    /** parse_function_parameters: the types are pushed on a list as they are read. */
    method ParameterList(vars: bool) returns (ok: bool, params: seq<Type>, dots: bool, ghost types: ParamTypes, ghost chains: seq<seq<Type>>,
      ghost repr: set<Type>)
      modifies this
      ensures var p := ReadParams(old(tokens), vars, typedefs);
        ok == p.Some? &&
        (ok ==> tokens == p.value.rest && dots == p.value.dots && types == TypesOf(p.value.params) && |params| == LengthOf(types))
      ensures ok ==> fresh(repr) && Listed(params, chains, repr, types)
      decreases |tokens|, 8
    {
      hide ReadMore, ReadParam, TypesOf, Joined, Prepended, Typed, Listed, Foot, All;
      params, dots, types, ok, chains, repr := [], false, NoTypes, false, [], {};
      NoTypesOf();
      if Begins(tokens, Word("void")) && Begins(tokens[1..], RightParen) {
        tokens, ok := tokens[2..], true;
        return;
      }
      if Begins(tokens, RightParen) {
        tokens, dots, ok := tokens[1..], true, true;
        return;
      }
      ghost var start := tokens;
      ghost var done := NoParams;
      PrependNone(ReadMore(start, true, vars, typedefs));
      while true
        invariant |tokens| <= |start| && |params| == LengthOf(TypesOf(done))
        invariant fresh(repr) && Listed(params, chains, repr, TypesOf(done))
        invariant ReadMore(start, true, vars, typedefs) == Prepended(done, ReadMore(tokens, |params| == 0, vars, typedefs))
        decreases |tokens|
      {
        MoreLevel(tokens, |params| == 0, vars, typedefs);
        PrependMissing(done);
        if Begins(tokens, Word("...")) {
          if |params| == 0 || !Begins(tokens[1..], RightParen) {
            return false, params, dots, types, chains, repr;
          }
          tokens, dots, types, ok := tokens[2..], true, TypesOf(done), true;
          JoinedNone(done);
          PrependSome(done, NoParams, true, tokens);
          return;
        }
        ghost var before := tokens;
        var t;
        ghost var nodes;
        t, nodes := ParseParam(vars);
        if t.None? {
          return false, params, dots, types, chains, repr;
        }
        ghost var p := ReadParam(before, vars, typedefs).value.params;
        ghost var words, d := p.words, p.declarator;
        JoinedOne(done, words, d);
        TypedMore(params, chains, repr, done, t.value, nodes, words, d);
        params, chains, repr := params + [t.value], chains + [nodes], repr + All(nodes);
        if Begins(tokens, RightParen) {
          tokens, types, ok := tokens[1..], TypesOf(Joined(done, MoreParams(words, d, NoParams))), true;
          PrependSome(done, MoreParams(words, d, NoParams), false, tokens);
          return;
        }
        if !Begins(tokens, Comma) {
          return false, params, dots, types, chains, repr;
        }
        tokens := tokens[1..];
        PrependTwice(done, words, d, ReadMore(tokens, false, vars, typedefs));
        done := Joined(done, MoreParams(words, d, NoParams));
      }
    }

    /** parse_function_parameter and the check for void, then arrays become pointers: the
        type has the layers and the base that the parameter spells, and is complete. */
    method ParseParam(vars: bool) returns (r: Option<Type>, ghost nodes: seq<Type>)
      modifies this
      ensures var p := ReadParam(old(tokens), vars, typedefs);
        r.Some? == p.Some? && (r.Some? ==> tokens == p.value.rest) &&
        (r.Some? ==> Typed(r.value, nodes, TypesOf(p.value.params)))
      ensures r.Some? ==> fresh(All(nodes))
      decreases |tokens|, 7
    {
      hide ReadDeclarator, ReadWords, BaseOf, Reach, Deep, Foot, Linked, Measured, Adjusted, Typed, TypesOf;
      r, nodes := None, [];
      if |tokens| == 0 || !tokens[0].Word? {
        return;
      }
      var w := ReadWords(tokens, typedefs);
      tokens := w.rest;
      var base := BaseOf(w.words);
      if base.None? || (|tokens| > 0 && tokens[0].Word? && tokens[0].text in TAG_WORDS) {
        return;
      }
      ghost var d;
      r, nodes, d := ParseNamed(base.value, vars, w.words);
      if r.None? {
        return;
      }
      if Begins(tokens, LeftBracket) || (r.value.kind == Leaf && r.value.base.Basic? && r.value.base.kind == S.VoidType) {
        return None, nodes;
      }
      var t;
      t, nodes := Decay(r.value, nodes, Reach(d));
      DeepLinked(nodes, Adjusted(Reach(d)));
      TypedBy(t, nodes, w.words, d);
      r := Some(t);
    }

    /** The declarator of a parameter whose specifiers are read. */
    method ParseNamed(base: Base, vars: bool, ghost words: seq<string>) returns (r: Option<Type>, ghost nodes: seq<Type>, ghost d: Declarator)
      requires BaseOf(words) == Some(base)
      modifies this
      ensures var p := ReadDeclarator(old(tokens), Leaf, if vars then NameRequired else NameOptional, false, typedefs);
        r.Some? == p.Some? && (r.Some? ==> tokens == p.value.rest && d == p.value.declarator)
      ensures r.Some? ==>
        |nodes| > 0 && nodes[0] == r.value && Deep(nodes, Reach(d)) && Measured(nodes, Reach(d)) &&
        nodes[|nodes| - 1].IsEnd(BaseUnder(words, d)) &&
        (IsVoid(words, d) <==> r.value.kind == Leaf && r.value.base.Basic? && r.value.base.kind == S.VoidType)
      ensures r.Some? ==> fresh(Foot(nodes)) && forall i :: 0 <= i < |nodes| ==> fresh(nodes[i])
      decreases |tokens|, 6, 1
    {
      hide ReadDeclarator, BaseOf, Reach, Steps, EndOf, BareInside, SizeOf, Deep, Foot, Linked, Measured;
      var leaf := new Type.LeafOf(base, sizes(base));
      var name;
      var context := if vars then NameRequired else NameOptional;
      ghost var p := ReadDeclarator(tokens, Leaf, context, false, typedefs);
      DeepOne(leaf);
      r, name, nodes := ParseDeclarator(leaf, context, false, [leaf], []);
      d := if p.Some? then p.value.declarator else Named("", NoSuffix);
      if r.Some? {
        BaseKnown(words);
        Reached(words, d);
        Whole(nodes, d, base, sizes(base));
        DeepLinked(nodes, Reach(d));
        KindOf(nodes, Reach(d));
        LastOf(nodes, Reach(d));
      }
    }

    /** An array type for a parameter gives way to a pointer to its element. */
    method Decay(t: Type, ghost nodes: seq<Type>, ghost steps: seq<Step>) returns (r: Type, ghost chain: seq<Type>)
      requires |nodes| > 0 && nodes[0] == t && Deep(nodes, steps) && Measured(nodes, steps)
      requires nodes[|nodes| - 1].kind == Leaf || nodes[|nodes| - 1].kind == Stub
      ensures |chain| > 0 && chain[0] == r && Deep(chain, Adjusted(steps)) && Measured(chain, Adjusted(steps))
      ensures chain[|chain| - 1] == nodes[|nodes| - 1] && Foot(chain) <= Foot(nodes)
      ensures forall i :: 0 <= i < |chain| ==> chain[i] in nodes || fresh(chain[i])
    {
      hide SizeOf, Deep, Foot, Linked, Measured;
      DeepLinked(nodes, steps);
      KindOf(nodes, steps);
      r, chain := t, nodes;
      if t.kind == Array {
        DeepTail(nodes, steps);
        FootAllocated(nodes[1..]);
        ghost var foot := Foot(nodes[1..]);
        var pointer := new Type.PointerTo(t.pointer);
        assert Foot(nodes[1..]) == foot && pointer !in foot && pointer !in nodes[1..];
        DeepCons(pointer, nodes[1..], PointerStep, steps[1..]);
        AdjustedChain(pointer, nodes, steps);
        r, chain := pointer, [pointer] + nodes[1..];
      }
    }

    /** parse_declarator_direct: the type is linked down to the base type, or to a copy of
        it, or to a stub that stays one. */
    method Direct(base: Type, context: Context, vars: bool) returns (r: Option<Type>, name: string, ghost nodes: seq<Type>)
      modifies this
      ensures var p := ReadDeclarator(old(tokens), base.kind, context, vars, typedefs);
        r.Some? == p.Some? &&
        (r.Some? ==> tokens == p.value.rest && name == NameOf(p.value.declarator)) &&
        (r.Some? ==> Deep(nodes, Reach(p.value.declarator)) && nodes[0] == r.value) &&
        (r.Some? ==> EndsAt(EndOf(p.value.declarator), nodes[|nodes| - 1], base))
      ensures r.Some? ==> fresh(Foot(nodes))
      ensures r.Some? ==> forall i :: 0 <= i < |nodes| ==> fresh(nodes[i]) || (i == |nodes| - 1 && nodes[i] == base)
      decreases |tokens|, 5
    {
      hide ReadSuffix, Deep, Foot, Linked, SuffixSteps, BaseOf;
      nodes, name := [], "";
      if Begins(tokens, LeftParen) && |tokens| > 1 && !NamesType(tokens[1], typedefs) && tokens[1] != RightParen {
        r, name, nodes := Parenthesised(base, context, vars);
      } else if Begins(tokens, Asterisk) {
        r, name, nodes := Starred(base, context, vars);
      } else if |tokens| > 0 && tokens[0].Word? {
        if context == NameForbidden {
          return None, name, nodes;
        }
        name := tokens[0].text;
        tokens := tokens[1..];
        r, nodes := Restage(base, vars);
      } else if |tokens| == 0 || context == NameRequired || (Begins(tokens, LeftParen) && |tokens| == 1) {
        r := None;
      } else {
        r, nodes := Restage(base, vars);
      }
    }

    /** The assignment to a stub that no layer but the last may be. */
    method Fill(stub: Type, value: Type, ghost nodes: seq<Type>, ghost steps: seq<Step>)
      requires Deep(nodes, steps) && |nodes| > 0 && stub !in Foot(nodes) && stub != value
      requires forall i :: 0 <= i < |nodes| - 1 ==> nodes[i] != stub
      modifies stub
      ensures stub.Same(value) && Deep(nodes, steps) && Foot(nodes) == old(Foot(nodes))
    {
      hide Deep, Foot, Carries;
      FootAllocated(nodes);
      FootHas(nodes);
      DeepParts(nodes, steps);
      DeepLinked(nodes, steps);
      ghost var foot := Foot(nodes);
      stub.Become(value);
      assert Foot(nodes) == foot;
      assert Linked(nodes, steps);
      DeepParts(nodes, steps);
    }

    /** A pointer: the stub becomes it once the rest of the declarator is read. */
    method Starred(base: Type, context: Context, vars: bool) returns (r: Option<Type>, name: string, ghost nodes: seq<Type>)
      requires Begins(tokens, Asterisk)
      modifies this
      ensures var p := ReadDeclarator(old(tokens), base.kind, context, vars, typedefs);
        r.Some? == p.Some? &&
        (r.Some? ==> tokens == p.value.rest && name == NameOf(p.value.declarator)) &&
        (r.Some? ==> Deep(nodes, Reach(p.value.declarator)) && nodes[0] == r.value) &&
        (r.Some? ==> EndsAt(EndOf(p.value.declarator), nodes[|nodes| - 1], base))
      ensures r.Some? ==> fresh(Foot(nodes))
      ensures r.Some? ==> forall i :: 0 <= i < |nodes| ==> fresh(nodes[i]) || (i == |nodes| - 1 && nodes[i] == base)
      decreases |tokens|, 4
    {
      hide ReadDeclarator, SkipQualifiers, Reach, EndOf, NameOf, Deep, Foot, Linked;
      assert tokens == [Asterisk] + tokens[1..];
      ReadStar(tokens[1..], base.kind, context, vars, typedefs);
      tokens := SkipQualifiers(tokens[1..]);
      ghost var p := ReadDeclarator(tokens, Stub, context, vars, typedefs);
      ghost var was := if p.Some? then p.value.declarator else Named("", NoSuffix);
      var stub := new Type();
      r, name, nodes := Direct(stub, context, vars);
      if r.Some? {
        StarNamed(was);
        StarLevel(was);
        DeepLinked(nodes, Reach(was));
        nodes := Point(stub, base, nodes, was);
      }
    }

    /** The stub becomes a pointer to the base type. */
    method Point(stub: Type, base: Type, ghost nodes: seq<Type>, ghost d: Declarator) returns (ghost all: seq<Type>)
      requires Deep(nodes, Reach(d)) && |nodes| > 0 && EndsAt(EndOf(d), nodes[|nodes| - 1], stub)
      requires stub.kind == Stub && stub.base == Unfilled && stub != base && stub !in Foot(nodes) && base !in Foot(nodes)
      requires forall i :: 0 <= i < |nodes| ==> nodes[i] != base && (i < |nodes| - 1 ==> nodes[i] != stub)
      modifies stub
      ensures |all| > 0 && all[0] == nodes[0] && Foot(all) == old(Foot(nodes))
      ensures Deep(all, Reach(d) + if EndOf(d) == Shared then [PointerStep] else [])
      ensures EndsAt(if EndOf(d) == Shared then Shared else Lost, all[|all| - 1], base)
      ensures forall i :: 0 <= i < |all| ==> all[i] in nodes || (i == |all| - 1 && all[i] == base)
    {
      hide Deep, Foot, Linked, Reach, EndOf;
      DeepLinked(nodes, Reach(d));
      FootAllocated(nodes);
      ghost var foot := Foot(nodes);
      var target := new Type.PointerTo(base);
      assert Foot(nodes) == foot;
      Fill(stub, target, nodes, Reach(d));
      all := nodes;
      if EndOf(d) == Shared {
        DeepPair(stub, base);
        DeepJoin(nodes, [stub, base], Reach(d), [PointerStep]);
        all := nodes + [base];
      } else {
        assert Reach(d) + [] == Reach(d);
      }
    }

    /** Parentheses: the stub becomes whatever the suffix after them makes of the base. */
    method Parenthesised(base: Type, context: Context, vars: bool) returns (r: Option<Type>, name: string, ghost nodes: seq<Type>)
      requires Begins(tokens, LeftParen) && |tokens| > 1 && !NamesType(tokens[1], typedefs) && tokens[1] != RightParen
      modifies this
      ensures var p := ReadDeclarator(old(tokens), base.kind, context, vars, typedefs);
        r.Some? == p.Some? &&
        (r.Some? ==> tokens == p.value.rest && name == NameOf(p.value.declarator)) &&
        (r.Some? ==> Deep(nodes, Reach(p.value.declarator)) && nodes[0] == r.value) &&
        (r.Some? ==> EndsAt(EndOf(p.value.declarator), nodes[|nodes| - 1], base))
      ensures r.Some? ==> fresh(Foot(nodes))
      ensures r.Some? ==> forall i :: 0 <= i < |nodes| ==> fresh(nodes[i]) || (i == |nodes| - 1 && nodes[i] == base)
      decreases |tokens|, 4
    {
      hide ReadDeclarator, ReadSuffix, Deep, Foot, Linked, Reach, NamesType;
      ReadParen(tokens, base.kind, context, vars, typedefs);
      tokens := tokens[1..];
      ghost var p := ReadDeclarator(tokens, Stub, context, vars, typedefs);
      ghost var was := if p.Some? then p.value.declarator else Named("", NoSuffix);
      var stub := new Type();
      r, name, nodes := Direct(stub, context, vars);
      if r.None? || !Begins(tokens, RightParen) {
        return None, name, nodes;
      }
      tokens := tokens[1..];
      DeepLinked(nodes, Reach(was));
      FootAllocated(nodes);
      ghost var foot := Foot(nodes);
      assert fresh(foot);
      var ok;
      ok, nodes := FillStub(stub, base, vars, nodes, was);
      if !ok {
        r := None;
      }
    }

    /** parse_declarator. The declared type is the one the declarator spells exactly when no
        parentheses without a suffix stand inside a pointer or other parentheses; otherwise
        its base is a stub. */
    method ParseDeclarator(base: Type, context: Context, vars: bool, ghost under: seq<Type>, ghost layers: seq<Step>)
      returns (r: Option<Type>, name: string, ghost nodes: seq<Type>)
      requires Deep(under, layers) && |under| > 0 && under[0] == base && under[|under| - 1].kind == Leaf
      modifies this, under
      ensures var p := ReadDeclarator(old(tokens), old(base.kind), context, vars, typedefs);
        r.Some? == p.Some? &&
        (r.Some? ==> tokens == p.value.rest && name == NameOf(p.value.declarator) && |nodes| > 0 && nodes[0] == r.value) &&
        (r.Some? && !BareInside(p.value.declarator) ==> Denotes(nodes, Steps(p.value.declarator) + layers, old(under[|under| - 1].base), old(under[|under| - 1].size))) &&
        (r.Some? && BareInside(p.value.declarator) ==> EndsInStub(nodes, Reach(p.value.declarator)))
      ensures r.Some? ==> forall x :: x in Foot(nodes) ==> x in old(Foot(under)) || fresh(x)
      ensures r.Some? ==> forall i :: 0 <= i < |nodes| ==> nodes[i] in under || fresh(nodes[i])
      decreases |tokens|, 6, 0
    {
      hide ReadDeclarator, Steps, Reach, BareInside, EndOf, SizeOf, Deep, Foot, Linked, Carries;
      DeepLinked(under, layers);
      FootAllocated(under);
      DeepApart(under, layers);
      LinkedDistinct(under, layers);
      ghost var foot := Foot(under);
      ghost var p := ReadDeclarator(tokens, base.kind, context, vars, typedefs);
      r, name, nodes := Direct(base, context, vars);
      if r.Some? {
        ghost var d := p.value.declarator;
        ghost var steps := Reach(d);
        LostExactly(d);
        DeepLinked(nodes, Reach(d));
        assert Foot(under) == foot;
        if EndOf(d) != Lost {
          SharedReach(d);
          assert under[0] in under;
          forall i | 0 <= i < |nodes| ensures nodes[i] !in Foot(under) {
            assert fresh(nodes[i]) || nodes[i] == under[0];
          }
          ghost var before := nodes;
          nodes := Rejoin(nodes, Steps(d), under, layers);
          assert forall i :: 0 <= i < |nodes| ==> nodes[i] in before || nodes[i] in under;
          steps := Steps(d) + layers;
        }
        forall i | 0 <= i < |nodes| ensures nodes[i] in under || fresh(nodes[i]) {
        }
        DeepLinked(nodes, steps);
        FixSizes(r.value, nodes, steps);
      }
    }

    /** `*stub = *restage(basetype)`. */
    method FillStub(stub: Type, base: Type, vars: bool, ghost nodes: seq<Type>, ghost d: Declarator) returns (ok: bool, ghost all: seq<Type>)
      requires Deep(nodes, Reach(d)) && |nodes| > 0 && EndsAt(EndOf(d), nodes[|nodes| - 1], stub)
      requires stub.kind == Stub && stub.base == Unfilled && stub != base && stub !in Foot(nodes) && base !in Foot(nodes)
      requires forall i :: 0 <= i < |nodes| ==> nodes[i] != base && (i < |nodes| - 1 ==> nodes[i] != stub)
      modifies this, stub
      ensures var p := ReadSuffix(old(tokens), base.kind, vars, typedefs);
        ok == p.Some? &&
        (ok ==> tokens == p.value.rest && Deep(all, Reach(Paren(d, p.value.suffix))) && |all| > 0 && all[0] == nodes[0]) &&
        (ok ==> EndsAt(EndOf(Paren(d, p.value.suffix)), all[|all| - 1], base))
      ensures ok ==> forall x :: x in Foot(all) ==> x in old(Foot(nodes)) || fresh(x)
      ensures ok ==> forall i :: 0 <= i < |all| ==> all[i] in nodes || fresh(all[i]) || (i == |all| - 1 && all[i] == base)
      decreases |tokens|, 3
    {
      hide ReadSuffix, Reach, EndOf, SuffixSteps, Deep, Foot, Linked;
      all := nodes;
      FootAllocated(nodes);
      DeepLinked(nodes, Reach(d));
      ghost var q := ReadSuffix(tokens, base.kind, vars, typedefs);
      ghost var end := nodes[|nodes| - 1];
      var filling;
      ghost var suffix;
      filling, suffix := Restage(base, vars);
      ok := filling.Some?;
      if ok {
        ghost var s := SuffixSteps(q.value.suffix);
        DeepLinked(suffix, s);
        FootAllocated(suffix);
        Fill(stub, filling.value, nodes, Reach(d));
        if end == stub && |suffix| > 1 {
          ghost var filled := [stub] + suffix[1..];
          DeepHead(suffix, filled, s);
          DeepJoin(nodes, filled, Reach(d), s);
          all := nodes + filled[1..];
        }
        SuffixEmpty(q.value.suffix);
        ParenLevel(d, q.value.suffix);
        assert Reach(d) + [] == Reach(d);
      }
    }
  }

  /** The size of a type with these layers over a base of the given size: pointers are 8
      bytes and functions count as 0. */
  function SizeOf(steps: seq<Step>, base: int): int
    decreases |steps|
  {
    if |steps| == 0 then base else
    match steps[0]
    case ArrayStep(n) => n * SizeOf(steps[1..], base)
    case PointerStep => 8
    case FunctionStep(_, _) => 0
  }

  ghost predicate Measured(nodes: seq<Type>, steps: seq<Step>)
    requires |nodes| == |steps| + 1
    reads nodes
  {
    forall i :: 0 <= i < |nodes| ==> nodes[i].size == SizeOf(steps[i..], nodes[|nodes| - 1].size)
  }

  /** parse_array_fix: afterwards every array down the chain, through pointers and returned
      types too, has its length times its element's size. */
  method ArrayFix(t: Type, ghost nodes: seq<Type>, ghost steps: seq<Step>)
    requires Linked(nodes, steps) && nodes[0] == t && (nodes[|nodes| - 1].kind == Leaf || nodes[|nodes| - 1].kind == Stub)
    modifies nodes`size
    ensures Linked(nodes, steps) && Measured(nodes, steps)
    ensures var last := nodes[|nodes| - 1]; last.kind == old(last.kind) && last.size == old(last.size) && last.base == old(last.base)
    decreases |nodes|
  {
    if |nodes| > 1 {
      LinkedTail(nodes, steps);
    }
    if t.kind == Array {
      ArrayFix(t.pointer, nodes[1..], steps[1..]);
      t.size := t.length * t.pointer.size;
    } else if t.kind == Pointer {
      ArrayFix(t.pointer, nodes[1..], steps[1..]);
    } else if t.kind == Function {
      ArrayFix(t.returntype, nodes[1..], steps[1..]);
    }
    if |nodes| > 1 {
      LinkedCons(nodes, steps);
      MeasuredCons(nodes, steps);
    }
  }

  lemma LinkedDistinct(nodes: seq<Type>, steps: seq<Step>)
    requires Linked(nodes, steps)
    ensures forall i, j :: 0 <= i < j < |nodes| ==> nodes[i] != nodes[j]
  {
  }

  /** Which leaves the layers and their parameters as they are. */
  method FixSizes(t: Type, ghost nodes: seq<Type>, ghost steps: seq<Step>)
    requires Deep(nodes, steps) && |nodes| > 0 && nodes[0] == t && (nodes[|nodes| - 1].kind == Leaf || nodes[|nodes| - 1].kind == Stub)
    modifies nodes`size
    ensures Deep(nodes, steps) && |nodes| == |steps| + 1 && Measured(nodes, steps) && Foot(nodes) == old(Foot(nodes))
    ensures var last := nodes[|nodes| - 1]; last.kind == old(last.kind) && last.size == old(last.size) && last.base == old(last.base)
  {
    hide Deep, Foot, Carries, Linked, Measured;
    DeepLinked(nodes, steps);
    DeepParts(nodes, steps);
    FootAllocated(nodes);
    FootHas(nodes);
    ghost var foot := Foot(nodes);
    ArrayFix(t, nodes, steps);
    assert Foot(nodes) == foot;
    DeepParts(nodes, steps);
  }

  lemma LinkedTail(nodes: seq<Type>, steps: seq<Step>)
    requires Linked(nodes, steps) && |nodes| > 1
    ensures Linked(nodes[1..], steps[1..]) && nodes[0].IsStep(steps[0], nodes[1])
    ensures forall i :: 0 <= i < |nodes| - 1 ==> nodes[1..][i] != nodes[0]
  {
  }

  lemma LinkedCons(nodes: seq<Type>, steps: seq<Step>)
    requires |nodes| == |steps| + 1 && |nodes| > 1
    requires Linked(nodes[1..], steps[1..]) && nodes[0].IsStep(steps[0], nodes[1])
    requires forall i :: 0 <= i < |nodes| - 1 ==> nodes[1..][i] != nodes[0]
    ensures Linked(nodes, steps)
  {
    forall i, j | 0 <= i < j < |nodes| ensures nodes[i] != nodes[j] && (j == i + 1 ==> nodes[i].IsStep(steps[i], nodes[j])) {
      assert nodes[j] == nodes[1..][j - 1];
      if i > 0 {
        assert nodes[i] == nodes[1..][i - 1] && steps[i] == steps[1..][i - 1];
      }
    }
  }

  lemma MeasuredCons(nodes: seq<Type>, steps: seq<Step>)
    requires |nodes| == |steps| + 1 && |nodes| > 1 && Measured(nodes[1..], steps[1..])
    requires nodes[0].size == SizeOf(steps, nodes[|nodes| - 1].size)
    ensures Measured(nodes, steps)
  {
    forall i | 0 <= i < |nodes| ensures nodes[i].size == SizeOf(steps[i..], nodes[|nodes| - 1].size) {
      if i == 0 {
        assert steps[0..] == steps;
      } else {
        assert nodes[i] == nodes[1..][i - 1] && steps[i..] == steps[1..][i - 1..];
      }
    }
  }

  /** A finished type: these layers over a base of this size, and every size right. */
  ghost predicate Denotes(nodes: seq<Type>, steps: seq<Step>, base: Base, size: int)
    reads nodes, Foot(nodes)
  {
    Deep(nodes, steps) && Measured(nodes, steps) && nodes[|nodes| - 1].kind == Leaf && nodes[|nodes| - 1].base == base &&
    nodes[|nodes| - 1].size == size
  }

  lemma TypedBy(t: Type, nodes: seq<Type>, words: seq<string>, d: Declarator)
    requires BaseOf(words).Some? && |nodes| > 0 && nodes[0] == t && Deep(nodes, Adjusted(Reach(d))) && |nodes| == |Adjusted(Reach(d))| + 1
    requires Measured(nodes, Adjusted(Reach(d)))
    requires nodes[|nodes| - 1].IsEnd(BaseUnder(words, d))
    ensures Typed(t, nodes, TypesOf(MoreParams(words, d, NoParams)))
  {
    hide BaseOf, Deep, DeepIn, Linked, Measured, Adjusted, Reach, Foot;
    Reached(words, d);
    DeepAlso(nodes, TypesOf(MoreParams(words, d, NoParams)));
  }

  /** A type over a leaf alone, whether or not its base is lost. */
  lemma Whole(nodes: seq<Type>, d: Declarator, base: Base, size: int)
    requires !BareInside(d) ==> Denotes(nodes, Steps(d) + [], base, size)
    requires BareInside(d) ==> EndsInStub(nodes, Reach(d))
    ensures Deep(nodes, Reach(d)) && |nodes| == |Reach(d)| + 1 && Measured(nodes, Reach(d))
    ensures var last := nodes[|nodes| - 1]; last.base == (if BareInside(d) then Unfilled else base) && last.kind == if BareInside(d) then Stub else Leaf
  {
    hide Deep, Linked, Measured, Bare;
    LostExactly(d);
    if !BareInside(d) {
      SharedReach(d);
      assert Steps(d) + [] == Steps(d);
    }
    DeepLinked(nodes, Reach(d));
  }

  lemma LastOf(nodes: seq<Type>, steps: seq<Step>)
    requires Linked(nodes, steps)
    ensures |nodes| == |steps| + 1 && (|steps| == 0 ==> nodes[0] == nodes[|nodes| - 1])
  {
  }

  lemma BaseKnown(words: seq<string>)
    ensures BaseOf(words) != Some(Unfilled)
  {
    hide S.Specify, WordsOf;
  }

  /** The type of a parameter, before arrays are converted. */
  lemma Reached(words: seq<string>, d: Declarator)
    requires BaseOf(words).Some?
    ensures TypesOf(MoreParams(words, d, NoParams)) == MoreTypes(BaseUnder(words, d), Adjusted(Reach(d)), NoTypes)
    ensures BaseUnder(words, d) == if BareInside(d) then Unfilled else BaseOf(words).value
    ensures !BareInside(d) ==> Reach(d) == Steps(d) && Steps(d) + [] == Steps(d)
  {
    hide BaseOf, Bare;
    LostExactly(d);
    if !BareInside(d) {
      SharedReach(d);
    }
  }

  /** A pointer in place of the outermost array. */
  lemma AdjustedChain(pointer: Type, nodes: seq<Type>, steps: seq<Step>)
    requires Linked(nodes, steps) && Measured(nodes, steps) && |nodes| > 1 && nodes[0].kind == Array && pointer !in nodes
    requires pointer.IsStep(PointerStep, nodes[1])
    ensures var chain := [pointer] + nodes[1..]; var adjusted := [PointerStep] + steps[1..];
      steps[0].ArrayStep? && Linked(chain, adjusted) && Measured(chain, adjusted) && chain[|chain| - 1] == nodes[|nodes| - 1]
  {
    var chain, adjusted := [pointer] + nodes[1..], [PointerStep] + steps[1..];
    LinkedTail(nodes, steps);
    assert chain[1..] == nodes[1..] && adjusted[1..] == steps[1..];
    forall i | 0 <= i < |nodes[1..]| ensures nodes[1..][i].size == SizeOf(steps[1..][i..], nodes[|nodes| - 1].size) {
      assert nodes[1..][i] == nodes[i + 1] && steps[1..][i..] == steps[i + 1..];
    }
    LinkedCons(chain, adjusted);
    MeasuredCons(chain, adjusted);
  }

  // ------------------------------------------------- the loop over parameters

  function Joined(a: Params, b: Params): Params {
    match a
    case NoParams => b
    case MoreParams(words, d, rest) => MoreParams(words, d, Joined(rest, b))
  }

  function Prepended(done: Params, r: Option<ParamsRead>): Option<ParamsRead> {
    match r
    case None => None
    case Some(p) => Some(ParamsRead(Joined(done, p.params), p.dots, p.rest))
  }

  lemma NoTypesOf()
    ensures TypesOf(NoParams) == NoTypes && LengthOf(NoTypes) == 0 && Listed([], [], {}, NoTypes)
  {
  }

  lemma PrependNone(r: Option<ParamsRead>)
    ensures Prepended(NoParams, r) == r
  {
  }

  lemma PrependMissing(done: Params)
    ensures Prepended(done, None) == None
  {
  }

  lemma PrependSome(done: Params, params: Params, dots: bool, rest: seq<Token>)
    ensures Prepended(done, Some(ParamsRead(params, dots, rest))) == Some(ParamsRead(Joined(done, params), dots, rest))
  {
  }

  lemma {:induction false} JoinedNone(a: Params)
    ensures Joined(a, NoParams) == a
  {
    if a.MoreParams? {
      JoinedNone(a.rest);
    }
  }

  lemma {:induction false} JoinedOne(a: Params, words: seq<string>, d: Declarator)
    ensures LengthOf(TypesOf(Joined(a, MoreParams(words, d, NoParams)))) == LengthOf(TypesOf(a)) + 1
  {
    hide Reach, BaseUnder, Adjusted;
    if a.MoreParams? {
      JoinedOne(a.rest, words, d);
    }
  }

  lemma {:induction false} JoinedAt(a: Params, words: seq<string>, d: Declarator, k: nat)
    requires k <= LengthOf(TypesOf(a)) && LengthOf(TypesOf(Joined(a, MoreParams(words, d, NoParams)))) == LengthOf(TypesOf(a)) + 1
    ensures var at := TypeAt(TypesOf(Joined(a, MoreParams(words, d, NoParams))), k);
      if k < LengthOf(TypesOf(a)) then at.base == TypeAt(TypesOf(a), k).base && at.steps == TypeAt(TypesOf(a), k).steps
      else at.base == BaseUnder(words, d) && at.steps == Adjusted(Reach(d))
  {
    hide Reach, BaseUnder, Adjusted;
    if a.MoreParams? {
      JoinedOne(a.rest, words, d);
      if k > 0 {
        JoinedAt(a.rest, words, d, k - 1);
      }
    }
  }

  /** One more parameter. */
  lemma {:induction false} TypedMore(params: seq<Type>, chains: seq<seq<Type>>, repr: set<Type>, done: Params, t: Type, nodes: seq<Type>,
    words: seq<string>, d: Declarator)
    requires Listed(params, chains, repr, TypesOf(done)) && Typed(t, nodes, TypesOf(MoreParams(words, d, NoParams)))
    ensures LengthOf(TypesOf(done)) == |params| && LengthOf(TypesOf(Joined(done, MoreParams(words, d, NoParams)))) == |params| + 1
    ensures Listed(params + [t], chains + [nodes], repr + All(nodes), TypesOf(Joined(done, MoreParams(words, d, NoParams))))
  {
    JoinedOne(done, words, d);
    JoinedAt(done, words, d, |params|);
    OneType(words, d);
    hide Deep, Linked, Measured, Joined, TypesOf, Reach, BaseUnder, Adjusted, Typed, Within, Foot;
    var types := TypesOf(Joined(done, MoreParams(words, d, NoParams)));
    forall k | 0 <= k <= |params|
      ensures Within((chains + [nodes])[k], repr + All(nodes)) && Typed((params + [t])[k], (chains + [nodes])[k], TypeAt(types, k))
    {
      JoinedAt(done, words, d, k);
      WithinAll(nodes, repr);
      if k < |params| {
        WithinMore(chains[k], repr, All(nodes));
        TypedSame(params[k], chains[k], TypeAt(TypesOf(done), k), TypeAt(types, k));
      } else {
        TypedSame(t, nodes, TypesOf(MoreParams(words, d, NoParams)), TypeAt(types, k));
      }
    }
  }

  lemma WithinMore(chain: seq<Type>, repr: set<Type>, more: set<Type>)
    requires Within(chain, repr)
    ensures Within(chain, repr + more)
  {
  }

  lemma WithinAll(chain: seq<Type>, repr: set<Type>)
    ensures Within(chain, repr + All(chain))
  {
  }

  /** Only the first type matters. */
  lemma TypedSame(t: Type, chain: seq<Type>, a: ParamTypes, b: ParamTypes)
    requires Typed(t, chain, a) && b.MoreTypes? && a.base == b.base && a.steps == b.steps
    ensures Typed(t, chain, b)
  {
    hide Deep, DeepIn, Measured, Foot;
    DeepAlso(chain, a);
    DeepAlso(chain, b);
  }

  lemma OneType(words: seq<string>, d: Declarator)
    ensures TypesOf(MoreParams(words, d, NoParams)) == MoreTypes(BaseUnder(words, d), Adjusted(Reach(d)), NoTypes)
  {
    hide Reach, BaseUnder, Adjusted;
  }

  lemma {:induction false} JoinedTwice(a: Params, words: seq<string>, d: Declarator, b: Params)
    ensures Joined(Joined(a, MoreParams(words, d, NoParams)), b) == Joined(a, MoreParams(words, d, b))
  {
    if a.MoreParams? {
      JoinedTwice(a.rest, words, d, b);
    }
  }

  lemma PrependTwice(done: Params, words: seq<string>, d: Declarator, r: Option<ParamsRead>)
    ensures Prepended(Joined(done, MoreParams(words, d, NoParams)), r) ==
      Prepended(done, if r.None? then None else Some(ParamsRead(MoreParams(words, d, r.value.params), r.value.dots, r.value.rest)))
  {
    if r.Some? {
      JoinedTwice(done, words, d, r.value.params);
    }
  }

  /** One round of the loop. */
  lemma MoreLevel(ts: seq<Token>, first: bool, vars: bool, typedefs: set<string>)
    ensures Begins(ts, Word("...")) ==>
      ReadMore(ts, first, vars, typedefs) ==
        if !first && Begins(ts[1..], RightParen) then Some(ParamsRead(NoParams, true, ts[2..])) else None
    ensures !Begins(ts, Word("...")) ==>
      var p := ReadParam(ts, vars, typedefs); var r := ReadMore(ts, first, vars, typedefs);
      (p.None? ==> r == None) &&
      (p.Some? && Begins(p.value.rest, RightParen) ==>
        r == Some(ParamsRead(MoreParams(p.value.params.words, p.value.params.declarator, NoParams), false, p.value.rest[1..]))) &&
      (p.Some? && !Begins(p.value.rest, RightParen) && !Begins(p.value.rest, Comma) ==> r == None) &&
      (p.Some? && Begins(p.value.rest, Comma) ==>
        var m := ReadMore(p.value.rest[1..], false, vars, typedefs);
        r == if m.None? then None else
          Some(ParamsRead(MoreParams(p.value.params.words, p.value.params.declarator, m.value.params), m.value.dots, m.value.rest)))
  {
    hide ReadParam;
  }

  /** A declarator's layers, ending at the base type or a copy of it, with those under it. */
  lemma Rejoin(nodes: seq<Type>, steps: seq<Step>, under: seq<Type>, layers: seq<Step>) returns (all: seq<Type>)
    requires Deep(nodes, steps) && Deep(under, layers) && |nodes| > 0 && |under| > 0 && nodes[|nodes| - 1].Same(under[0])
    requires forall i, j :: 0 <= i < |nodes| && 0 <= j < |under| && nodes[i] == under[j] ==> i == |nodes| - 1 && j == 0
    requires (forall i :: 0 <= i < |nodes| ==> nodes[i] !in Foot(under)) && forall j :: 0 <= j < |under| ==> under[j] !in Foot(nodes)
    ensures Deep(all, steps + layers) && |all| > 0 && all[0] == nodes[0] && Foot(all) == Foot(nodes) + Foot(under)
    ensures var last, end := all[|all| - 1], under[|under| - 1]; last.kind == end.kind && last.size == end.size && last.base == end.base
    ensures forall i :: 0 <= i < |all| ==> all[i] in nodes || all[i] in under
  {
    all := nodes + under[1..];
    DeepLinked(under, layers);
    hide Deep, Linked, Foot;
    if |under| > 1 {
      var head := [nodes[|nodes| - 1]] + under[1..];
      DeepHead(under, head, layers);
      DeepJoin(nodes, head, steps, layers);
      assert all == nodes + head[1..];
    } else {
      assert all == nodes && steps + layers == steps;
      DeepOne(under[0]);
      assert under == [under[0]];
    }
  }

  /** Reading a pointer, in steps. */
  lemma ReadStar(ts: seq<Token>, base: Kind, context: Context, vars: bool, typedefs: set<string>)
    ensures var d := ReadDeclarator(SkipQualifiers(ts), Stub, context, vars, typedefs);
      ReadDeclarator([Asterisk] + ts, base, context, vars, typedefs) ==
        if d.None? then None else Some(DeclaratorRead(Star(d.value.declarator), d.value.rest))
  {
    hide ReadSuffix, NamesType, SkipQualifiers;
    assert ([Asterisk] + ts)[1..] == ts;
  }

  /** What a pointer or parentheses add to the layers that can be reached. */
  lemma StarLevel(e: Declarator)
    ensures Reach(Star(e)) == Reach(e) + (if EndOf(e) == Shared then [PointerStep] else [])
    ensures EndOf(Star(e)) == if EndOf(e) == Shared then Shared else Lost
  {
  }

  lemma StarNamed(e: Declarator)
    ensures NameOf(Star(e)) == NameOf(e)
  {
  }

  lemma ParenLevel(e: Declarator, s: Suffix)
    ensures Reach(Paren(e, s)) == Reach(e) + (if EndOf(e) == Shared then SuffixSteps(s) else [])
    ensures EndOf(Paren(e, s)) == if EndOf(e) != Shared then Lost else if s.NoSuffix? then Copied else Shared
  {
  }

  /** Reading parentheses, in steps. */
  lemma ReadParen(ts: seq<Token>, base: Kind, context: Context, vars: bool, typedefs: set<string>)
    requires Begins(ts, LeftParen) && |ts| > 1 && !NamesType(ts[1], typedefs) && ts[1] != RightParen
    ensures var d := ReadDeclarator(ts[1..], Stub, context, vars, typedefs); var p := ReadDeclarator(ts, base, context, vars, typedefs);
      (d.None? ==> p.None?) && (d.Some? && !Begins(d.value.rest, RightParen) ==> p.None?)
    ensures var d := ReadDeclarator(ts[1..], Stub, context, vars, typedefs); var p := ReadDeclarator(ts, base, context, vars, typedefs);
      d.Some? && Begins(d.value.rest, RightParen) ==>
        var s := ReadSuffix(d.value.rest[1..], base, vars, typedefs);
        p == if s.None? then None else Some(DeclaratorRead(Paren(d.value.declarator, s.value.suffix), s.value.rest))
  {
    hide ReadSuffix, NamesType;
  }

  lemma SuffixEmpty(s: Suffix)
    ensures s.NoSuffix? <==> |SuffixSteps(s)| == 0
  {
  }

  /** A chain stays one when its first object is replaced by a copy. */
  lemma LinkedHead(a: seq<Type>, b: seq<Type>, s: seq<Step>)
    requires Linked(a, s) && |b| == |a| > 1 && b[1..] == a[1..] && b[0].Same(a[0])
    requires forall i :: 0 < i < |b| ==> b[i] != b[0]
    ensures Linked(b, s)
  {
    forall i, j | 0 <= i < j < |b| ensures b[i] != b[j] && (j == i + 1 ==> b[i].IsStep(s[i], b[j])) {
      assert b[j] == b[1..][j - 1] == a[j];
      if i > 0 {
        assert b[i] == b[1..][i - 1] == a[i];
      }
      assert a[i] != a[j];
    }
  }

  /** Two chains that share the object between them. */
  lemma LinkedJoin(a: seq<Type>, b: seq<Type>, s: seq<Step>, t: seq<Step>)
    requires Linked(a, s) && Linked(b, t) && a[|a| - 1] == b[0]
    requires forall i, j :: 0 <= i < |a| - 1 && 0 <= j < |b| ==> a[i] != b[j]
    ensures Linked(a + b[1..], s + t)
  {
  }

  /** An object has only one type, parameters included: what is declared cannot be two. */
  lemma {:induction false} OneMeaning(a: seq<Type>, s: seq<Step>, b: seq<Type>, t: seq<Step>)
    requires Deep(a, s) && Deep(b, t) && |a| > 0 && |b| > 0 && a[0] == b[0]
    requires a[|a| - 1].kind == Leaf || a[|a| - 1].kind == Stub
    requires b[|b| - 1].kind == Leaf || b[|b| - 1].kind == Stub
    ensures a == b && s == t
  {
    hide Deep, DeepIn, Linked;
    var x, y := MoreTypes(Unfilled, s, NoTypes), MoreTypes(Unfilled, t, NoTypes);
    DeepAlso(a, x);
    DeepAlso(b, y);
    OneChain(a, x, b, y);
  }

  lemma {:induction false} OneChain(a: seq<Type>, x: ParamTypes, b: seq<Type>, y: ParamTypes)
    requires x.MoreTypes? && y.MoreTypes? && DeepIn(a, x) && DeepIn(b, y) && |a| > 0 && |b| > 0 && a[0] == b[0]
    requires a[|a| - 1].kind == Leaf || a[|a| - 1].kind == Stub
    requires b[|b| - 1].kind == Leaf || b[|b| - 1].kind == Stub
    ensures a == b && x.steps == y.steps
    decreases x, 0
  {
    hide Carries, Foot;
    SameNodes(a, x.steps, b, y.steps);
    forall i | 0 <= i < |x.steps| ensures x.steps[i] == y.steps[i] {
      var u, v := x.steps[i], y.steps[i];
      assert a[i].IsStep(u, a[i + 1]) && a[i].IsStep(v, a[i + 1]);
      if u.FunctionStep? {
        assert Carries(a[i], u.params) && Carries(b[i], v.params);
        OneList(a[i], u.params, v.params);
      }
    }
  }

  /** The parameters of an object have only one list of types. */
  lemma {:induction false} OneList(f: Type, x: ParamTypes, y: ParamTypes)
    requires Carries(f, x) && Carries(f, y)
    ensures x == y
    decreases x, 1
  {
    hide DeepIn, Foot;
    forall k | 0 <= k < LengthOf(x) ensures TypeAt(x, k).base == TypeAt(y, k).base && TypeAt(x, k).steps == TypeAt(y, k).steps {
      assert Typed(f.parameters[k], f.chains[k], TypeAt(x, k)) && Typed(f.parameters[k], f.chains[k], TypeAt(y, k));
      OneChain(f.chains[k], TypeAt(x, k), f.chains[k], TypeAt(y, k));
    }
    SameTypes(x, y);
  }

  lemma {:induction false} SameTypes(x: ParamTypes, y: ParamTypes)
    requires LengthOf(x) == LengthOf(y)
    requires forall k :: 0 <= k < LengthOf(x) ==> TypeAt(x, k).base == TypeAt(y, k).base && TypeAt(x, k).steps == TypeAt(y, k).steps
    ensures x == y
    decreases x
  {
    if x.MoreTypes? {
      assert TypeAt(x, 0) == x && TypeAt(y, 0) == y;
      forall k | 0 <= k < LengthOf(x.rest)
        ensures TypeAt(x.rest, k).base == TypeAt(y.rest, k).base && TypeAt(x.rest, k).steps == TypeAt(y.rest, k).steps
      {
        assert TypeAt(x, k + 1) == TypeAt(x.rest, k) && TypeAt(y, k + 1) == TypeAt(y.rest, k);
      }
      SameTypes(x.rest, y.rest);
    }
  }

  /** The same objects, whatever the layers are called. */
  lemma {:induction false} SameNodes(a: seq<Type>, s: seq<Step>, b: seq<Type>, t: seq<Step>)
    requires Linked(a, s) && Linked(b, t) && a[0] == b[0]
    requires a[|a| - 1].kind == Leaf || a[|a| - 1].kind == Stub
    requires b[|b| - 1].kind == Leaf || b[|b| - 1].kind == Stub
    ensures a == b
    decreases |a|
  {
    if |a| > 1 {
      LinkedTail(a, s);
    }
    if |b| > 1 {
      LinkedTail(b, t);
    }
    if |a| > 1 && |b| > 1 {
      SameNodes(a[1..], s[1..], b[1..], t[1..]);
      assert a == [a[0]] + a[1..] && b == [b[0]] + b[1..];
    }
  }

  // ------------------------------------------------------------- printing

  /** How many layers a type has, parameters included. */
  function StepWeight(s: Step): nat
    decreases s, 0, 0
  {
    if s.FunctionStep? then 1 + TypesWeight(s.params) else 1
  }

  function TypesWeight(ps: ParamTypes): nat
    decreases ps, 1, 0
  {
    match ps
    case NoTypes => 0
    case MoreTypes(_, steps, rest) => 1 + StepsIn(ps, |steps|) + TypesWeight(rest)
  }

  /** Those of the first n layers of the first type. */
  function StepsIn(ps: ParamTypes, n: nat): nat
    requires ps.MoreTypes? && n <= |ps.steps|
    decreases ps, 0, n
  {
    if n == 0 then 0 else StepsIn(ps, n - 1) + StepWeight(ps.steps[n - 1])
  }

  function Weight(steps: seq<Step>): nat {
    StepsIn(MoreTypes(Unfilled, steps, NoTypes), |steps|)
  }

  lemma {:induction false} StepsInSame(ps: ParamTypes, qs: ParamTypes, n: nat)
    requires ps.MoreTypes? && qs.MoreTypes? && n <= |ps.steps| && n <= |qs.steps| && ps.steps[..n] == qs.steps[..n]
    ensures StepsIn(ps, n) == StepsIn(qs, n)
    decreases n
  {
    if n > 0 {
      assert ps.steps[n - 1] == ps.steps[..n][n - 1] == qs.steps[..n][n - 1] == qs.steps[n - 1];
      assert ps.steps[..n - 1] == ps.steps[..n][..n - 1] == qs.steps[..n][..n - 1] == qs.steps[..n - 1];
      StepsInSame(ps, qs, n - 1);
    }
  }

  lemma {:induction false} WeightLast(steps: seq<Step>)
    requires |steps| > 0
    ensures var n := |steps| - 1; Weight(steps) == Weight(steps[..n]) + StepWeight(steps[n]) && StepWeight(steps[n]) >= 1
  {
    var n := |steps| - 1;
    StepsInSame(MoreTypes(Unfilled, steps, NoTypes), MoreTypes(Unfilled, steps[..n], NoTypes), n);
  }

  lemma {:induction false} WeightFirst(ps: ParamTypes)
    requires ps.MoreTypes?
    ensures TypesWeight(ps) == 1 + Weight(ps.steps) + TypesWeight(ps.rest)
  {
    StepsInSame(ps, MoreTypes(Unfilled, ps.steps, NoTypes), |ps.steps|);
  }

  /** Specifiers that name the type. */
  function WordsFor(base: Base): seq<string> {
    match base
    case Basic(kind, signed) =>
      (if signed || kind.VoidType? || kind.FloatType? || kind.DoubleType? || kind.LongDoubleType? then [] else ["unsigned"]) +
      (match kind
       case VoidType => ["void"]
       case CharType => ["char"]
       case ShortType => ["short"]
       case IntType => ["int"]
       case LongType => ["long"]
       case LongLongType => ["long", "long"]
       case FloatType => ["float"]
       case DoubleType => ["double"]
       case LongDoubleType => ["long", "double"]
       case UserType(_) => [])
    case Alias(name) => [name]
    case Unfilled => []
  }

  /** A base that specifiers can name. */
  predicate Printable(base: Base, typedefs: set<string>) {
    match base
    case Basic(kind, signed) =>
      !kind.UserType? && (kind.VoidType? || kind.FloatType? || kind.DoubleType? || kind.LongDoubleType? ==> !signed)
    case Alias(name) => name in typedefs && WordOf(name).User? && name !in TAG_WORDS && name != "..."
    case Unfilled => false
  }

  /** No array of functions, and no function returning an array or a function; `base` is
      what lies under the last layer. */
  predicate Legal(steps: seq<Step>, base: Kind, typedefs: set<string>)
    decreases Weight(steps), 0
  {
    |steps| > 0 ==>
      var last := steps[|steps| - 1];
      WeightLast(steps);
      (last.ArrayStep? ==> base != Function) &&
      (last.FunctionStep? ==> base != Function && base != Array && LegalTypes(last.params, typedefs)) &&
      Legal(steps[..|steps| - 1], StepKind(last), typedefs)
  }

  /** Parameters are no arrays and not void. */
  predicate LegalTypes(ps: ParamTypes, typedefs: set<string>)
    decreases TypesWeight(ps), 1
  {
    match ps
    case NoTypes => true
    case MoreTypes(base, steps, rest) =>
      WeightFirst(ps);
      Printable(base, typedefs) && Legal(steps, Leaf, typedefs) && (|steps| > 0 ==> !steps[0].ArrayStep?) &&
      (|steps| == 0 ==> !IsVoidBase(base)) && LegalTypes(rest, typedefs)
  }

  predicate IsVoidBase(base: Base) {
    base.Basic? && base.kind == S.VoidType
  }

  function Extend(suffix: Suffix, s: Step, own: Suffix): Suffix {
    match suffix
    case NoSuffix => own
    case Bracket(n, rest) => Bracket(n, Extend(rest, s, own))
    case Call(_, _) => suffix
  }

  /** The declarator of one more layer, `own` as a suffix; a pointer needs parentheses
      before a suffix. */
  function Attach(d: Declarator, s: Step, own: Suffix): Declarator {
    if s.PointerStep? then Star(d) else
    match d
    case Named(name, suffix) => Named(name, Extend(suffix, s, own))
    case Star(_) => Paren(d, Extend(NoSuffix, s, own))
    case Paren(e, suffix) => Paren(e, Extend(suffix, s, own))
  }

  /** One layer as a suffix; all parameters are given the same name. */
  function OwnSuffix(s: Step, param: string): Suffix
    decreases StepWeight(s), 2
  {
    match s
    case ArrayStep(n) => Bracket(n, NoSuffix)
    case FunctionStep(ps, dots) => Call(DeclareAll(ps, param), dots)
    case PointerStep => NoSuffix
  }

  function DeclareAll(ps: ParamTypes, param: string): Params
    decreases TypesWeight(ps), 1
  {
    match ps
    case NoTypes => NoParams
    case MoreTypes(base, steps, rest) =>
      WeightFirst(ps);
      MoreParams(WordsFor(base), Declare(param, steps, param), DeclareAll(rest, param))
  }

  function Declare(name: string, steps: seq<Step>, param: string): Declarator
    decreases Weight(steps), 3
  {
    if |steps| == 0 then Named(name, NoSuffix) else
    WeightLast(steps);
    Attach(Declare(name, steps[..|steps| - 1], param), steps[|steps| - 1], OwnSuffix(steps[|steps| - 1], param))
  }

  function SpellSuffix(s: Suffix): seq<Token> {
    match s
    case NoSuffix => []
    case Bracket(n, rest) => [LeftBracket] + (SpellLength(n) + SpellSuffix(rest))
    case Call(params, dots) => [LeftParen] + SpellParams(params, dots)
  }

  function SpellLength(n: int): seq<Token> {
    if n == -1 then [RightBracket] else [Constant(n), RightBracket]
  }

  /** What stands after the parenthesis of a parameter list, up to the closing one. */
  function SpellParams(params: Params, dots: bool): seq<Token> {
    match params
    case NoParams => if dots then [RightParen] else [Word("void"), RightParen]
    case MoreParams(words, d, rest) => SpellWords(words) + (Spell(d) + SpellRest(rest, dots))
  }

  function SpellRest(params: Params, dots: bool): seq<Token> {
    match params
    case NoParams => if dots then [Comma, Word("..."), RightParen] else [RightParen]
    case MoreParams(words, d, rest) => [Comma] + (SpellWords(words) + (Spell(d) + SpellRest(rest, dots)))
  }

  function SpellWords(words: seq<string>): seq<Token> {
    seq(|words|, i requires 0 <= i < |words| => Word(words[i]))
  }

  function Spell(d: Declarator): seq<Token> {
    match d
    case Named(name, s) => [Word(name)] + SpellSuffix(s)
    case Star(e) => [Asterisk] + Spell(e)
    case Paren(e, s) => [LeftParen] + (Spell(e) + ([RightParen] + SpellSuffix(s)))
  }

  predicate SuffixAllowed(s: Suffix, base: Kind, typedefs: set<string>) {
    match s
    case NoSuffix => true
    case Bracket(_, rest) => SuffixAllowed(rest, base, typedefs) && SuffixKind(rest, base) != Function
    case Call(params, _) => base != Function && base != Array && ParamsAllowed(params, typedefs)
  }

  /** Specifiers the parser takes whole, then a declarator that they end at. */
  predicate ParamsAllowed(params: Params, typedefs: set<string>) {
    match params
    case NoParams => true
    case MoreParams(words, d, rest) =>
      (forall i :: 0 <= i < |words| ==> Specifies(Word(words[i]), typedefs) && words[i] != "...") &&
      BaseOf(words).Some? && !IsVoid(words, d) && Readable(d, Leaf, typedefs) && Ends(words, d, typedefs) && ParamsAllowed(rest, typedefs)
  }

  /** The declarator begins with nothing that would be read as a specifier or a tag, and with
      a name if there are no specifiers. */
  predicate Ends(words: seq<string>, d: Declarator, typedefs: set<string>) {
    (d.Named? ==> !Specifies(Word(d.name), typedefs) && d.name !in TAG_WORDS && (|words| == 0 ==> d.name != "...")) &&
    (|words| == 0 ==> d.Named?)
  }

  /** The declarators the parser accepts on a base of this kind. */
  predicate Readable(d: Declarator, base: Kind, typedefs: set<string>) {
    match d
    case Named(name, s) => SuffixAllowed(s, base, typedefs) && name !in QUALIFIERS
    case Star(e) => Readable(e, Stub, typedefs)
    case Paren(e, s) =>
      Readable(e, Stub, typedefs) && SuffixAllowed(s, base, typedefs) && (e.Named? ==> !NamesType(Word(e.name), typedefs))
  }

  /** Nothing that would be read as one more suffix. */
  predicate Settled(rest: seq<Token>) {
    !Begins(rest, LeftBracket) && !Begins(rest, LeftParen)
  }

  lemma {:induction false} SuffixReadsBack(s: Suffix, base: Kind, vars: bool, typedefs: set<string>, rest: seq<Token>)
    requires SuffixAllowed(s, base, typedefs) && Settled(rest)
    ensures ReadSuffix(SpellSuffix(s) + rest, base, vars, typedefs) == Some(SuffixRead(s, rest))
    decreases s, 0
  {
    hide *;
    match s {
      case NoSuffix => NoneReadsBack(base, vars, typedefs, rest);
      case Bracket(n, more) => BracketReadsBack(n, more, base, vars, typedefs, rest);
      case Call(params, dots) => CallReadsBack(params, dots, base, vars, typedefs, rest);
    }
  }

  lemma {:induction false} NoneReadsBack(base: Kind, vars: bool, typedefs: set<string>, rest: seq<Token>)
    requires Settled(rest)
    ensures ReadSuffix(SpellSuffix(NoSuffix) + rest, base, vars, typedefs) == Some(SuffixRead(NoSuffix, rest))
  {
    hide ReadParams;
    assert SpellSuffix(NoSuffix) + rest == rest;
  }

  lemma {:induction false} BracketReadsBack(n: int, more: Suffix, base: Kind, vars: bool, typedefs: set<string>, rest: seq<Token>)
    requires SuffixAllowed(Bracket(n, more), base, typedefs) && Settled(rest)
    ensures ReadSuffix(SpellSuffix(Bracket(n, more)) + rest, base, vars, typedefs) == Some(SuffixRead(Bracket(n, more), rest))
    decreases more, 1
  {
    hide ReadSuffix, ReadLength, SpellLength, Settled;
    var mid := SpellSuffix(more) + rest;
    SuffixReadsBack(more, base, vars, typedefs, rest);
    LengthReadsBack(n, mid);
    assert SpellSuffix(Bracket(n, more)) + rest == [LeftBracket] + (SpellLength(n) + mid);
    ReadBracket(SpellLength(n) + mid, base, vars, typedefs, n, mid, more, rest);
  }

  lemma {:induction false} CallReadsBack(params: Params, dots: bool, base: Kind, vars: bool, typedefs: set<string>, rest: seq<Token>)
    requires SuffixAllowed(Call(params, dots), base, typedefs)
    ensures ReadSuffix(SpellSuffix(Call(params, dots)) + rest, base, vars, typedefs) == Some(SuffixRead(Call(params, dots), rest))
    decreases params, 3
  {
    hide ReadParams, SpellParams, ParamsAllowed;
    var inside := SpellParams(params, dots) + rest;
    ParamsReadBack(params, dots, vars, typedefs, rest);
    assert SpellSuffix(Call(params, dots)) + rest == [LeftParen] + inside;
    assert ([LeftParen] + inside)[1..] == inside;
  }

  /** A parameter list, from after its parenthesis. */
  lemma {:induction false} ParamsReadBack(params: Params, dots: bool, vars: bool, typedefs: set<string>, rest: seq<Token>)
    requires ParamsAllowed(params, typedefs)
    ensures ReadParams(SpellParams(params, dots) + rest, vars, typedefs) == Some(ParamsRead(params, dots, rest))
    decreases params, 2
  {
    hide ReadMore, Readable, Spell, BaseOf, Specifies;
    var ts := SpellParams(params, dots) + rest;
    match params {
      case NoParams =>
        if dots { assert ts[1..] == rest; } else { assert ts[2..] == rest && ts[1..] == [RightParen] + rest; }
      case MoreParams(words, d, more) =>
        FirstToken(d, Leaf, typedefs);
        MoreReadsBack(params, true, dots, vars, typedefs, rest);
        VoidSpecifies(typedefs);
        NotVoidAlone(words, Spell(d), SpellRest(more, dots) + rest);
        assert ts == SpellWords(words) + (Spell(d) + (SpellRest(more, dots) + rest));
        NotClosed(words, Spell(d), SpellRest(more, dots) + rest);
    }
  }

  lemma VoidSpecifies(typedefs: set<string>)
    ensures Specifies(Word("void"), typedefs)
  {
  }

  lemma {:induction false} NotVoidAlone(words: seq<string>, d: seq<Token>, tail: seq<Token>)
    requires |d| > 0 && d[0] != RightParen && (|words| == 0 ==> d[0] != Word("void"))
    ensures var ts := SpellWords(words) + (d + tail); !(Begins(ts, Word("void")) && Begins(ts[1..], RightParen))
  {
  }

  lemma {:induction false} NotClosed(words: seq<string>, d: seq<Token>, tail: seq<Token>)
    requires |d| > 0 && d[0] != RightParen
    ensures !Begins(SpellWords(words) + (d + tail), RightParen)
  {
  }

  /** The loop, from one of the parameters on. */
  lemma {:induction false} MoreReadsBack(params: Params, first: bool, dots: bool, vars: bool, typedefs: set<string>, rest: seq<Token>)
    requires params.MoreParams? && ParamsAllowed(params, typedefs)
    ensures ReadMore(SpellParams(params, dots) + rest, first, vars, typedefs) == Some(ParamsRead(params, dots, rest))
    decreases params, 1
  {
    hide ReadParam, Readable, Spell, BaseOf, Specifies, ReadMore, SpellWords;
    var MoreParams(words, d, more) := params;
    var tail := SpellRest(more, dots) + rest;
    var ts := SpellWords(words) + (Spell(d) + tail);
    assert SpellParams(params, dots) + rest == ts;
    FirstToken(d, Leaf, typedefs);
    ParamReadsBack(words, d, vars, typedefs, tail);
    MoreLevel(ts, first, vars, typedefs);
    NotDots(words, d, Spell(d), tail, typedefs);
    match more {
      case NoParams =>
        if dots {
          assert tail[1..] == [Word("..."), RightParen] + rest;
          DotsReadBack(vars, typedefs, rest);
        } else {
          assert tail[1..] == rest;
        }
      case MoreParams(_, _, _) =>
        MoreReadsBack(more, false, dots, vars, typedefs, rest);
        assert tail == [Comma] + (SpellParams(more, dots) + rest);
        assert tail[1..] == SpellParams(more, dots) + rest;
    }
  }

  lemma {:induction false} DotsReadBack(vars: bool, typedefs: set<string>, rest: seq<Token>)
    ensures ReadMore([Word("..."), RightParen] + rest, false, vars, typedefs) == Some(ParamsRead(NoParams, true, rest))
  {
    hide ReadParam;
    var ts := [Word("..."), RightParen] + rest;
    assert ts[1..] == [RightParen] + rest && ts[2..] == rest;
  }

  lemma {:induction false} NotDots(words: seq<string>, d: Declarator, spelled: seq<Token>, tail: seq<Token>, typedefs: set<string>)
    requires (forall i :: 0 <= i < |words| ==> words[i] != "...") && Ends(words, d, typedefs)
    requires |spelled| > 0 && (spelled[0].Word? ==> d.Named? && spelled[0].text == d.name)
    ensures !Begins(SpellWords(words) + (spelled + tail), Word("..."))
  {
    hide Specifies;
  }

  /** One parameter. */
  lemma {:induction false} ParamReadsBack(words: seq<string>, d: Declarator, vars: bool, typedefs: set<string>, tail: seq<Token>)
    requires forall i :: 0 <= i < |words| ==> Specifies(Word(words[i]), typedefs)
    requires BaseOf(words).Some? && !IsVoid(words, d) && Readable(d, Leaf, typedefs) && Ends(words, d, typedefs) && Settled(tail)
    ensures ReadParam(SpellWords(words) + (Spell(d) + tail), vars, typedefs) == Some(ParamsRead(MoreParams(words, d, NoParams), false, tail))
    decreases d, 4
  {
    hide Readable, Spell, BaseOf, Specifies, ReadDeclarator, ReadWords, SpellWords, IsVoid, SuffixAllowed;
    var after := Spell(d) + tail;
    var ts := SpellWords(words) + after;
    FirstToken(d, Leaf, typedefs);
    ReadsBack(d, Leaf, if vars then NameRequired else NameOptional, false, typedefs, tail);
    BeginsWord(words, d, Spell(d), tail, typedefs);
    WordsReadBack(words, after, typedefs);
  }

  lemma {:induction false} BeginsWord(words: seq<string>, d: Declarator, spelled: seq<Token>, tail: seq<Token>, typedefs: set<string>)
    requires Ends(words, d, typedefs) && |spelled| > 0 && (spelled[0].Word? ==> d.Named? && spelled[0].text == d.name)
    requires d.Named? ==> spelled[0].Word?
    ensures var ts := SpellWords(words) + (spelled + tail); |ts| > 0 && ts[0].Word?
    ensures !Specifies((spelled + tail)[0], typedefs) && ((spelled + tail)[0].Word? ==> (spelled + tail)[0].text !in TAG_WORDS)
  {
  }

  lemma {:induction false} WordsReadBack(words: seq<string>, after: seq<Token>, typedefs: set<string>)
    requires (forall i :: 0 <= i < |words| ==> Specifies(Word(words[i]), typedefs)) && |after| > 0 && !Specifies(after[0], typedefs)
    ensures ReadWords(SpellWords(words) + after, typedefs) == WordsRead(words, after)
    decreases |words|
  {
    hide Specifies;
    if |words| == 0 {
      assert SpellWords(words) + after == after;
    } else {
      var ts := SpellWords(words) + after;
      assert ts[1..] == SpellWords(words[1..]) + after;
      WordsReadBack(words[1..], after, typedefs);
      assert [words[0]] + words[1..] == words;
    }
  }

  lemma ReadBracket(ts: seq<Token>, base: Kind, vars: bool, typedefs: set<string>, n: int, mid: seq<Token>, more: Suffix, rest: seq<Token>)
    requires ReadLength(ts) == Some((n, mid)) && ReadSuffix(mid, base, vars, typedefs) == Some(SuffixRead(more, rest))
    requires SuffixKind(more, base) != Function
    ensures ReadSuffix([LeftBracket] + ts, base, vars, typedefs) == Some(SuffixRead(Bracket(n, more), rest))
  {
    hide ReadLength, ReadParams;
    assert ([LeftBracket] + ts)[1..] == ts;
  }

  lemma LengthReadsBack(n: int, rest: seq<Token>)
    ensures ReadLength(SpellLength(n) + rest) == Some((n, rest))
  {
    if n == -1 {
      assert ([RightBracket] + rest)[1..] == rest;
    } else {
      assert ([Constant(n), RightBracket] + rest)[2..] == rest;
    }
  }

  /** Every declarator the parser can accept is read back from its tokens. */
  lemma {:induction false} ReadsBack(d: Declarator, base: Kind, context: Context, vars: bool, typedefs: set<string>, rest: seq<Token>)
    requires Readable(d, base, typedefs) && context != NameForbidden && Settled(rest)
    ensures ReadDeclarator(Spell(d) + rest, base, context, vars, typedefs) == Some(DeclaratorRead(d, rest))
    decreases d, 3
  {
    hide ReadSuffix, SuffixAllowed, SpellSuffix, ReadDeclarator, SkipQualifiers;
    match d {
      case Named(name, s) => SuffixReadsBack(s, base, vars, typedefs, rest); NamedReadsBack(d, base, context, vars, typedefs, rest);
      case Star(_) => StarReadsBack(d, base, context, vars, typedefs, rest);
      case Paren(_, _) => ParenReadsBack(d, base, context, vars, typedefs, rest);
    }
  }

  lemma {:induction false} NamedReadsBack(d: Declarator, base: Kind, context: Context, vars: bool, typedefs: set<string>, rest: seq<Token>)
    requires d.Named? && context != NameForbidden
    requires ReadSuffix(SpellSuffix(d.suffix) + rest, base, vars, typedefs) == Some(SuffixRead(d.suffix, rest))
    ensures ReadDeclarator(Spell(d) + rest, base, context, vars, typedefs) == Some(DeclaratorRead(d, rest))
  {
    hide ReadSuffix, SpellSuffix, ReadDeclarator;
    assert Spell(d) + rest == [Word(d.name)] + (SpellSuffix(d.suffix) + rest);
    ReadNamed(d.name, SpellSuffix(d.suffix) + rest, base, context, vars, typedefs, SuffixRead(d.suffix, rest));
  }

  lemma {:induction false} StarReadsBack(d: Declarator, base: Kind, context: Context, vars: bool, typedefs: set<string>, rest: seq<Token>)
    requires d.Star? && Readable(d, base, typedefs) && context != NameForbidden && Settled(rest)
    ensures ReadDeclarator(Spell(d) + rest, base, context, vars, typedefs) == Some(DeclaratorRead(d, rest))
    decreases d, 2
  {
    hide ReadSuffix, SuffixAllowed, SpellSuffix, ReadDeclarator, SkipQualifiers;
    var e := d.target;
    ReadsBack(e, Stub, context, vars, typedefs, rest);
    FirstToken(e, Stub, typedefs);
    assert Spell(d) + rest == [Asterisk] + (Spell(e) + rest);
    ReadStar(Spell(e) + rest, base, context, vars, typedefs);
    NoQualifiers(Spell(e) + rest);
  }

  lemma {:induction false} ParenReadsBack(d: Declarator, base: Kind, context: Context, vars: bool, typedefs: set<string>, rest: seq<Token>)
    requires d.Paren? && Readable(d, base, typedefs) && context != NameForbidden && Settled(rest)
    ensures ReadDeclarator(Spell(d) + rest, base, context, vars, typedefs) == Some(DeclaratorRead(d, rest))
    decreases d, 2
  {
    hide ReadSuffix, SuffixAllowed, SpellSuffix, ReadDeclarator, SkipQualifiers;
    var e, s := d.inner, d.suffix;
    var tail := [RightParen] + (SpellSuffix(s) + rest);
    ReadsBack(e, Stub, context, vars, typedefs, tail);
    SuffixReadsBack(s, base, vars, typedefs, rest);
    FirstToken(e, Stub, typedefs);
    assert Spell(d) + rest == [LeftParen] + (Spell(e) + tail);
    assert ([LeftParen] + (Spell(e) + tail))[1..] == Spell(e) + tail;
    assert tail[1..] == SpellSuffix(s) + rest;
    ReadParen([LeftParen] + (Spell(e) + tail), base, context, vars, typedefs);
  }

  lemma NoQualifiers(ts: seq<Token>)
    requires |ts| > 0 && (ts[0].Word? ==> ts[0].text !in QUALIFIERS)
    ensures SkipQualifiers(ts) == ts
  {
  }

  lemma ReadNamed(name: string, ts: seq<Token>, base: Kind, context: Context, vars: bool, typedefs: set<string>, s: SuffixRead)
    requires context != NameForbidden && ReadSuffix(ts, base, vars, typedefs) == Some(s)
    ensures ReadDeclarator([Word(name)] + ts, base, context, vars, typedefs) == Some(DeclaratorRead(Named(name, s.suffix), s.rest))
  {
    hide ReadSuffix, NamesType;
    assert ([Word(name)] + ts)[1..] == ts;
  }

  lemma FirstToken(d: Declarator, base: Kind, typedefs: set<string>)
    requires Readable(d, base, typedefs)
    ensures |Spell(d)| > 0 && Spell(d)[0] != RightParen
    ensures Spell(d)[0].Word? ==> d.Named? && Spell(d)[0].text == d.name && d.name !in QUALIFIERS
    ensures d.Named? ==> Spell(d)[0] == Word(d.name)
  {
    hide SuffixAllowed, SpellSuffix;
  }

  lemma {:induction false} ExtendAllowed(suffix: Suffix, s: Step, own: Suffix, base: Kind, typedefs: set<string>)
    requires !s.PointerStep? && SuffixAllowed(suffix, StepKind(s), typedefs) && SuffixAllowed(own, base, typedefs)
    requires SuffixSteps(own) == [s] && SuffixKind(own, base) == StepKind(s)
    ensures SuffixAllowed(Extend(suffix, s, own), base, typedefs)
    ensures SuffixKind(Extend(suffix, s, own), base) == SuffixKind(suffix, StepKind(s))
    ensures SuffixSteps(Extend(suffix, s, own)) == SuffixSteps(suffix) + [s] && !Extend(suffix, s, own).NoSuffix?
    decreases suffix
  {
    hide ParamsAllowed, TypesOf;
    match suffix {
      case Bracket(n, rest) => ExtendAllowed(rest, s, own, base, typedefs);
      case _ =>
    }
  }

  lemma KnownWords()
    ensures WordOf("void") == S.Void && WordOf("char") == S.Char && WordOf("int") == S.Int && WordOf("float") == S.Float
    ensures WordOf("double") == S.Double && WordOf("unsigned") == S.Unsigned && WordOf("short") == S.Short && WordOf("long") == S.Long
  {
  }

  lemma NoTags()
    ensures "void" !in TAG_WORDS && "char" !in TAG_WORDS && "int" !in TAG_WORDS && "float" !in TAG_WORDS && "double" !in TAG_WORDS
    ensures "unsigned" !in TAG_WORDS && "short" !in TAG_WORDS && "long" !in TAG_WORDS
    ensures "..." !in {"void", "char", "int", "float", "double", "unsigned", "short", "long"}
  {
  }

  /** Each word for a base is a specifier. */
  lemma {:induction false} WordsForSpecify(base: Base, typedefs: set<string>)
    requires Printable(base, typedefs)
    ensures var words := WordsFor(base);
      |words| > 0 && forall i :: 0 <= i < |words| ==> Specifies(Word(words[i]), typedefs) && words[i] != "..."
  {
    KnownWords();
    NoTags();
    hide WordOf, TAG_WORDS;
    var words := WordsFor(base);
    if base.Basic? {
      forall i | 0 <= i < |words| ensures words[i] in {"void", "char", "int", "float", "double", "unsigned", "short", "long"} {
      }
    }
  }

  /** Specifiers give back the type they were written for. */
  lemma {:induction false} WordsForRight(base: Base, typedefs: set<string>)
    requires Printable(base, typedefs)
    ensures var words := WordsFor(base);
      |words| > 0 && BaseOf(words) == Some(base) && forall i :: 0 <= i < |words| ==> Specifies(Word(words[i]), typedefs) && words[i] != "..."
  {
    WordsForSpecify(base, typedefs);
    if base.Alias? {
      AliasRight(base.name);
    } else if base.signed || base.kind.VoidType? || base.kind.FloatType? || base.kind.DoubleType? || base.kind.LongDoubleType? {
      PlainRight(base);
    } else {
      UnsignedRight(base);
    }
    hide WordsFor, BaseOf, Specifies;
  }

  lemma {:induction false} AliasRight(name: string)
    requires WordOf(name).User?
    ensures BaseOf([name]) == Some(Alias(name))
  {
    hide WordOf;
    var ws := WordsOf([name]);
    assert ws == [WordOf(name)];
    OneWord(ws);
    UserWord(name);
  }

  lemma UserWord(name: string)
    requires WordOf(name).User?
    ensures WordOf(name) == S.User(0)
  {
  }

  lemma {:induction false} PlainRight(base: Base)
    requires base.Basic? && !base.kind.UserType?
    requires base.signed <==> !(base.kind.VoidType? || base.kind.FloatType? || base.kind.DoubleType? || base.kind.LongDoubleType?)
    ensures BaseOf(WordsFor(base)) == Some(base)
  {
    KnownWords();
    hide WordOf;
    var words := WordsFor(base);
    var ws := WordsOf(words);
    if base.kind.LongLongType? || base.kind.LongDoubleType? {
      assert ws == [S.Long, if base.kind.LongLongType? then S.Long else S.Double];
      TwoWords(ws);
    } else {
      assert |words| == 1 && ws == [WordOf(words[0])];
      OneWord(ws);
    }
  }

  lemma {:induction false} UnsignedRight(base: Base)
    requires base.Basic? && !base.kind.UserType? && !base.signed
    requires !(base.kind.VoidType? || base.kind.FloatType? || base.kind.DoubleType? || base.kind.LongDoubleType?)
    ensures BaseOf(WordsFor(base)) == Some(base)
  {
    KnownWords();
    hide WordOf;
    var words := WordsFor(base);
    var ws := WordsOf(words);
    if base.kind.LongLongType? {
      assert ws == [S.Unsigned, S.Long, S.Long];
      ThreeWords(ws);
    } else {
      assert |words| == 2 && ws == [S.Unsigned, WordOf(words[1])];
      TwoWords(ws);
    }
  }

  lemma {:induction false} OneWord(ws: seq<S.Word>)
    requires |ws| == 1
    ensures S.Machine(ws) == S.Step(S.Start, ws[0])
  {
    hide S.Step;
    assert ws[..0] == [] && S.Machine([]) == Some(S.Start);
  }

  lemma {:induction false} TwoWords(ws: seq<S.Word>)
    requires |ws| == 2
    ensures var a := S.Step(S.Start, ws[0]); S.Machine(ws) == if a.None? then None else S.Step(a.value, ws[1])
  {
    hide S.Step;
    OneWord(ws[..1]);
  }

  lemma {:induction false} ThreeWords(ws: seq<S.Word>)
    requires |ws| == 3
    ensures var a := S.Step(S.Start, ws[0]); var b := if a.None? then None else S.Step(a.value, ws[1]);
      S.Machine(ws) == if b.None? then None else S.Step(b.value, ws[2])
  {
    hide S.Step;
    TwoWords(ws[..2]);
  }

  /** A parameter name that is no type word and not an ellipsis. */
  predicate PlainName(param: string, typedefs: set<string>) {
    !NamesType(Word(param), typedefs) && param != "..."
  }

  /** The printed parameters are acceptable and have the types they were printed from. */
  lemma {:induction false} AllSpell(ps: ParamTypes, param: string, typedefs: set<string>)
    requires LegalTypes(ps, typedefs) && PlainName(param, typedefs)
    ensures ParamsAllowed(DeclareAll(ps, param), typedefs) && TypesOf(DeclareAll(ps, param)) == ps
    decreases TypesWeight(ps), 1
  {
    match ps {
      case NoTypes =>
      case MoreTypes(base, steps, rest) =>
        WeightFirst(ps);
        AllSpell(rest, param, typedefs);
        DeclareSpells(param, steps, Leaf, param, typedefs);
        OneSpells(base, steps, param, typedefs);
        hide Legal, Declare, Readable, WordsFor, BaseOf, TypesWeight, Reach, Specifies;
    }
  }

  lemma {:induction false} OneSpells(base: Base, steps: seq<Step>, param: string, typedefs: set<string>)
    requires Printable(base, typedefs) && PlainName(param, typedefs)
    requires (|steps| > 0 ==> !steps[0].ArrayStep?) && (|steps| == 0 ==> !IsVoidBase(base))
    requires var d := Declare(param, steps, param); Steps(d) == steps && !Bare(d) && NameOf(d) == param
    ensures var d := Declare(param, steps, param); var words := WordsFor(base);
      |words| > 0 && BaseOf(words) == Some(base) && BaseUnder(words, d) == base && Adjusted(Reach(d)) == steps && !IsVoid(words, d) &&
      Ends(words, d, typedefs) && forall i :: 0 <= i < |words| ==> Specifies(Word(words[i]), typedefs) && words[i] != "..."
  {
    var d := Declare(param, steps, param);
    WordsForRight(base, typedefs);
    LostExactly(d);
    SharedReach(d);
    NameSpecifies(param, typedefs);
    hide Declare, WordsFor, BaseOf, Specifies, Printable, Reach, Steps;
  }

  lemma NameSpecifies(param: string, typedefs: set<string>)
    requires PlainName(param, typedefs)
    ensures !Specifies(Word(param), typedefs) && param !in TAG_WORDS && param !in QUALIFIERS
  {
  }

  /** The printed declarator of any legal type is acceptable, spells that type and that
      name, and has no parentheses without a suffix. */
  lemma {:induction false} DeclareSpells(name: string, steps: seq<Step>, base: Kind, param: string, typedefs: set<string>)
    requires Legal(steps, base, typedefs) && name !in QUALIFIERS && PlainName(param, typedefs)
    ensures var d := Declare(name, steps, param);
      Readable(d, base, typedefs) && Steps(d) == steps && NameOf(d) == name && !Bare(d)
    decreases Weight(steps), 3
  {
    if |steps| > 0 {
      var before, s := steps[..|steps| - 1], steps[|steps| - 1];
      assert before + [s] == steps;
      WeightLast(steps);
      hide Weight, StepWeight;
      DeclareSpells(name, before, StepKind(s), param, typedefs);
      if s.PointerStep? || Declare(name, before, param).Star? {
        LegalStub(before, StepKind(s), typedefs);
        DeclareSpells(name, before, Stub, param, typedefs);
      }
      OwnSpells(s, base, param, typedefs);
      AttachSpells(Declare(name, before, param), s, OwnSuffix(s, param), base, typedefs);
    }
  }

  lemma {:induction false} OwnSpells(s: Step, base: Kind, param: string, typedefs: set<string>)
    requires PlainName(param, typedefs) && (s.ArrayStep? ==> base != Function)
    requires s.FunctionStep? ==> base != Function && base != Array && LegalTypes(s.params, typedefs)
    ensures !s.PointerStep? ==>
      var own := OwnSuffix(s, param);
      SuffixAllowed(own, base, typedefs) && SuffixSteps(own) == [s] && SuffixKind(own, base) == StepKind(s)
    decreases StepWeight(s), 2
  {
    if s.FunctionStep? {
      AllSpell(s.params, param, typedefs);
    }
  }

  lemma {:induction false} LegalStub(steps: seq<Step>, base: Kind, typedefs: set<string>)
    requires Legal(steps, base, typedefs)
    ensures Legal(steps, Stub, typedefs)
  {
    hide LegalTypes;
  }

  lemma {:induction false} AttachSpells(d: Declarator, s: Step, own: Suffix, base: Kind, typedefs: set<string>)
    requires Readable(d, StepKind(s), typedefs) && (s.PointerStep? || d.Star? ==> Readable(d, Stub, typedefs)) && !Bare(d)
    requires !s.PointerStep? ==> SuffixAllowed(own, base, typedefs) && SuffixSteps(own) == [s] && SuffixKind(own, base) == StepKind(s)
    ensures Readable(Attach(d, s, own), base, typedefs) && Steps(Attach(d, s, own)) == Steps(d) + [s]
    ensures NameOf(Attach(d, s, own)) == NameOf(d) && !Bare(Attach(d, s, own))
  {
    hide SuffixAllowed, SuffixSteps;
    if !s.PointerStep? {
      match d {
        case Named(_, suffix) => ExtendAllowed(suffix, s, own, base, typedefs);
        case Star(_) =>
          NoSuffixAllowed(StepKind(s), typedefs);
          ExtendAllowed(NoSuffix, s, own, base, typedefs);
        case Paren(e, suffix) =>
          ExtendAllowed(suffix, s, own, base, typedefs);
          assert Steps(e) + (SuffixSteps(suffix) + [s]) == Steps(e) + SuffixSteps(suffix) + [s];
      }
    }
  }

  lemma NoSuffixAllowed(base: Kind, typedefs: set<string>)
    ensures SuffixAllowed(NoSuffix, base, typedefs) && SuffixSteps(NoSuffix) == []
  {
  }

  /** Round trip: printing a type and a name as a declarator, parameters of functions
      included, and reading it gives a declarator of that type and name, and ParseDeclarator
      builds that type for it. */
  lemma {:induction false} RoundTrip(name: string, steps: seq<Step>, base: Kind, param: string, context: Context, vars: bool,
    typedefs: set<string>, rest: seq<Token>)
    requires Legal(steps, base, typedefs) && name !in QUALIFIERS && PlainName(param, typedefs) && context != NameForbidden && Settled(rest)
    ensures var p := ReadDeclarator(Spell(Declare(name, steps, param)) + rest, base, context, vars, typedefs);
      p.Some? && p.value.rest == rest && Steps(p.value.declarator) == steps && NameOf(p.value.declarator) == name && !BareInside(p.value.declarator)
  {
    hide ReadDeclarator, Spell, Declare, Steps, Legal;
    DeclareSpells(name, steps, base, param, typedefs);
    ReadsBack(Declare(name, steps, param), base, context, vars, typedefs, rest);
  }

  /** The declarator of `int *(x)` is read, but its type ends in a stub. */
  lemma {:induction false} BareParentheses(rest: seq<Token>)
    requires Settled(rest)
    ensures var ts := [Asterisk, LeftParen, Word("x"), RightParen] + rest;
      var d := Star(Paren(Named("x", NoSuffix), NoSuffix));
      ReadDeclarator(ts, Leaf, NameRequired, false, {}) == Some(DeclaratorRead(d, rest)) && EndOf(d) == Lost && Reach(d) == [] &&
      Steps(d) == [PointerStep]
  {
    var inner := Named("x", NoSuffix);
    var d := Star(Paren(inner, NoSuffix));
    assert Spell(Paren(inner, NoSuffix)) == [LeftParen, Word("x"), RightParen];
    assert Spell(d) + rest == [Asterisk, LeftParen, Word("x"), RightParen] + rest;
    assert Readable(d, Leaf, {});
    ReadsBack(d, Leaf, NameRequired, false, {}, rest);
  }
}
