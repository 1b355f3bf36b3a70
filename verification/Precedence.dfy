/** The same language as a stratified grammar; printing. */
module Precedence {
  // Printing puts the fewest parentheses.
  import opened Runs
  import opened Grammar

  /** No operand is missing. */
  predicate Whole(t: Tree) {
    match t
    case Nothing => false
    case Atom(_) => true
    case Paren(x) => Whole(x)
    case Prefix(_, x) => Whole(x)
    case Postfix(_, x) => Whole(x)
    case Member(x, _, _) => Whole(x)
    case Index(x, i) => Whole(x) && Whole(i)
    case Binary(_, l, r) => Whole(l) && Whole(r)
    case Conditional(c, y, n) => Whole(c) && Whole(y) && Whole(n)
    case Call(_, args) => WholeArguments(args)
  }

  predicate WholeArguments(args: Arguments) {
    args.Argument? ==> Whole(args.value) && WholeArguments(args.more)
  }

  /** The stratum a tree's root belongs to. */
  function Level(t: Tree): int {
    match t
    case Binary(op, _, _) => Priority(op)
    case Conditional(_, _, _) => 13
    case _ => 0
  }

  /** The grammar: a binary operator's left operand is from its own stratum or a tighter
      one, its right operand from a tighter one, but for `=` also from its own; the left
      side of an assignment is an lvalue; a condition is tighter than `?:`, whose arms are
      full expressions; a prefix operator takes a prefix or postfix expression, a postfix
      operator a postfix one. */
  predicate Stratified(t: Tree, bound: int) {
    Level(t) < bound &&
    match t
    case Nothing => false
    case Atom(a) => IsOperand(a)
    case Paren(x) => Stratified(x, 16)
    case Prefix(op, x) => IsPrefix(op) && Stratified(x, 3) && (op.Ampersand? || op.Increment? || op.Decrement? ==> IsLValue(x))
    case Postfix(op, x) => (op.Increment? || op.Decrement?) && IsLValue(x) && Stratified(x, 3) && !x.Prefix?
    case Member(x, op, field) => (op.Dot? || op.Arrow?) && IsName(field) && Stratified(x, 3) && !x.Prefix?
    case Index(x, i) => Stratified(x, 3) && !x.Prefix? && Stratified(i, 16)
    case Binary(op, l, r) =>
      IsBinary(op) && Stratified(l, Priority(op) + 1) && (IsAssignment(op) ==> IsLValue(l)) && Stratified(r, OperandBound(op))
    case Conditional(c, y, n) => Stratified(c, 13) && Stratified(y, 16) && Stratified(n, 16)
    case Call(name, args) => name.Identifier? && StratifiedArguments(args)
  }

  /** Arguments are full expressions. */
  predicate StratifiedArguments(args: Arguments) {
    args.Argument? ==> Stratified(args.value, 16) && (!args.comma ==> args.more.NoMore?) && StratifiedArguments(args.more)
  }

  lemma {:induction false} WholeThere(t: Tree)
    requires Whole(t)
    ensures !Null(t)
    decreases t
  {
    if t.Paren? {
      WholeThere(t.inner);
    }
  }

  /** In a whole tree that an operator closes, that operator binds no tighter than the
      root; a postfix operator needs more. */
  lemma ClosedLevel(t: Tree, op: Punct)
    requires Whole(t) && Priority(op) >= 0 && Closed(t, Punctuation(op))
    ensures Level(t) <= Priority(op) && (t.Prefix? ==> 3 <= Priority(op)) && (Priority(op) < 3 ==> Level(t) < 3)
    ensures t.Conditional? ==> Priority(op) >= 16
    ensures t.Binary? && t.op.Assign? ==> Priority(op) >= 15
  {
    hide Whole;
    WholeRight(t);
  }

  lemma WholeRight(t: Tree)
    requires Whole(t)
    ensures t.Prefix? ==> !Null(t.operand)
    ensures t.Binary? ==> !Null(t.right)
    ensures t.Conditional? ==> !Null(t.no)
    ensures !t.Nothing?
    ensures t.Prefix? ==> Whole(t.operand)
    ensures t.Binary? ==> Whole(t.right)
  {
    match t {
      case Prefix(_, x) => WholeThere(x);
      case Binary(_, _, r) => WholeThere(r);
      case Conditional(_, _, n) => WholeThere(n);
      case _ =>
    }
  }

  /** Operators that may stand to the right of a tree of stratum `bound` or tighter. */
  lemma {:induction false} StratifiedCloses(t: Tree, op: Punct, bound: int)
    requires Stratified(t, bound) && Whole(t) && bound <= 13
    requires 0 <= Priority(op) && bound <= Priority(op) + 1 && (Priority(op) < 3 ==> !t.Prefix? && Level(t) < 3)
    ensures Closed(t, Punctuation(op))
    decreases t
  {
    hide Null, Stratified, Whole;
    WholeRight(t);
    StratifiedRight(t, bound);
    match t {
      case Prefix(_, x) => StratifiedCloses(x, op, 3);
      case Binary(p, _, r) => StratifiedCloses(r, op, OperandBound(p));
      case _ =>
    }
  }

  lemma StratifiedRight(t: Tree, bound: int)
    requires Stratified(t, bound) && bound <= 13
    ensures !t.Conditional?
    ensures t.Prefix? ==> Stratified(t.operand, 3)
    ensures t.Binary? ==> Stratified(t.right, OperandBound(t.op)) && 3 <= Priority(t.op) < bound
    ensures t.Atom? ==> IsOperand(t.token)
  {
    hide IsLValue;
  }

  lemma LValueCloses(t: Tree, op: Punct)
    requires IsLValue(t) && Stratified(t, 15) && Whole(t) && Priority(op) >= 3
    ensures Closed(t, Punctuation(op))
  {
    if t.Prefix? {
      StratifiedCloses(t, op, 3);
    }
  }

  lemma {:induction false} StratifiedWider(t: Tree, bound: int, wider: int)
    requires Stratified(t, bound) && bound <= wider
    ensures Stratified(t, wider)
  {
  }

  /** The stratified grammar generates exactly the whole trees of the parser's language. */
  lemma {:induction false} StratifiedExact(t: Tree, bound: int)
    requires 3 <= bound <= 16
    ensures Stratified(t, bound) <==> WellFormed(t, bound) && Whole(t)
    decreases t, 1
  {
    hide *;
    if Stratified(t, bound) {
      StratifiedParses(t, bound);
    }
    if WellFormed(t, bound) && Whole(t) {
      ParsedStratified(t, bound);
    }
  }

  lemma {:induction false} StratifiedWhole(t: Tree, bound: int)
    requires Stratified(t, bound)
    ensures Whole(t)
    decreases t
  {
    match t {
      case Paren(x) => StratifiedWhole(x, 16);
      case Prefix(_, x) => StratifiedWhole(x, 3);
      case Postfix(_, x) => StratifiedWhole(x, 3);
      case Member(x, _, _) => StratifiedWhole(x, 3);
      case Index(x, i) => StratifiedWhole(x, 3); StratifiedWhole(i, 16);
      case Binary(op, l, r) => StratifiedWhole(l, Priority(op) + 1); StratifiedWhole(r, OperandBound(op));
      case Conditional(c, y, n) => StratifiedWhole(c, 13); StratifiedWhole(y, 16); StratifiedWhole(n, 16);
      case Call(_, args) => StratifiedArgumentsWhole(args);
      case _ =>
    }
  }

  lemma {:induction false} StratifiedArgumentsWhole(args: Arguments)
    requires StratifiedArguments(args)
    ensures WholeArguments(args)
    decreases args
  {
    if args.Argument? {
      StratifiedWhole(args.value, 16);
      StratifiedArgumentsWhole(args.more);
    }
  }

  lemma {:induction false} StratifiedParses(t: Tree, bound: int)
    requires Stratified(t, bound) && 3 <= bound <= 16
    ensures WellFormed(t, bound) && Whole(t)
    decreases t, 0
  {
    StratifiedWhole(t, bound);
    hide Whole, Closed, Null;
    match t {
      case Atom(_) =>
      case Paren(x) => StratifiedParses(x, 16);
      case Prefix(_, x) => StratifiedParses(x, 3); WholeThere(x);
      case Postfix(op, x) => LeadsPostfix(x, op, bound);
      case Member(x, op, _) => LeadsPostfix(x, op, bound);
      case Index(x, i) => LeadsPostfix(x, OpenBracket, bound); StratifiedParses(i, 16); WholeThere(i);
      case Binary(op, l, r) =>
        StratifiedParses(r, OperandBound(op));
        WholeThere(r);
        LeadsBinary(l, op, Priority(op) + 1, bound);
      case Conditional(c, y, n) =>
        StratifiedParses(y, 16);
        StratifiedParses(n, 16);
        WholeThere(y);
        LeadsBinary(c, Question, 13, bound);
      case Call(_, args) => ArgumentsParse(args);
    }
  }

  lemma {:induction false} ArgumentsParse(args: Arguments)
    requires StratifiedArguments(args)
    ensures WellFormedArguments(args)
    decreases args, 0
  {
    if args.Argument? {
      StratifiedParses(args.value, 16);
      WholeThere(args.value);
      ArgumentsParse(args.more);
    }
  }

  lemma {:induction false} LeadsPostfix(x: Tree, op: Punct, bound: int)
    requires Stratified(x, 3) && !x.Prefix? && 0 <= Priority(op) < 3 <= bound <= 16
    ensures Leads(x, op, bound)
    decreases x, 2
  {
    hide Whole, Closed, Stratified, WellFormed, Null, Level;
    StratifiedWider(x, 3, bound);
    StratifiedParses(x, bound);
    WholeThere(x);
    LowLevel(x);
    StratifiedCloses(x, op, 1);
  }

  lemma LowLevel(x: Tree)
    requires Stratified(x, 3)
    ensures Stratified(x, 1) && Level(x) < 3
  {
  }

  /** b is the stratum of the left operand. */
  lemma {:induction false} LeadsBinary(x: Tree, op: Punct, b: int, bound: int)
    requires 3 <= b <= Priority(op) + 1 <= bound <= 16 && Stratified(x, b) && 3 <= Priority(op)
    requires b <= 13 || (b <= 15 && IsLValue(x))
    ensures Leads(x, op, bound)
    decreases x, 2
  {
    hide Whole, Closed, Stratified, WellFormed, Null, IsLValue, Priority;
    StratifiedWider(x, b, bound);
    StratifiedParses(x, bound);
    WholeThere(x);
    if b > 13 {
      StratifiedWider(x, b, 15);
      LValueCloses(x, op);
    } else {
      StratifiedCloses(x, op, b);
    }
  }

  lemma {:induction false} ParsedStratified(t: Tree, bound: int)
    requires WellFormed(t, bound) && Whole(t) && 3 <= bound <= 16
    ensures Stratified(t, bound)
    decreases t, 0
  {
    match t {
      case Atom(_) =>
      case Paren(x) => ParsedStratified(x, 16);
      case Prefix(_, x) => ParsedStratified(x, 3);
      case Postfix(op, x) => LeadsLow(x, op, bound);
      case Member(x, op, _) => LeadsLow(x, op, bound);
      case Index(x, i) => LeadsLow(x, OpenBracket, bound); ParsedStratified(i, 16);
      case Binary(op, l, r) => ParsedStratified(r, OperandBound(op)); LeadsLevel(l, op, bound);
      case Conditional(c, y, n) => ParsedStratified(y, 16); ParsedStratified(n, 16); LeadsLevel(c, Question, bound);
      case Call(_, args) => ArgumentsStratified(args);
    }
  }

  lemma {:induction false} ArgumentsStratified(args: Arguments)
    requires WellFormedArguments(args) && WholeArguments(args)
    ensures StratifiedArguments(args)
    decreases args, 0
  {
    if args.Argument? {
      ParsedStratified(args.value, 16);
      ArgumentsStratified(args.more);
    }
  }

  lemma {:induction false} LeadsLow(x: Tree, op: Punct, bound: int)
    requires Leads(x, op, bound) && Whole(x) && Priority(op) < 3 <= bound <= 16
    ensures Stratified(x, 3) && !x.Prefix?
    decreases x, 2
  {
    ParsedStratified(x, bound);
    ClosedLevel(x, op);
  }

  lemma {:induction false} LeadsLevel(x: Tree, op: Punct, bound: int)
    requires Leads(x, op, bound) && Whole(x) && 3 <= Priority(op) < bound <= 16
    ensures Stratified(x, Priority(op) + 1) && (op.Question? ==> Stratified(x, 13))
    decreases x, 2
  {
    ParsedStratified(x, bound);
    ClosedLevel(x, op);
  }

  // ------------------------------------------------- fewest parentheses

  /** The tree the parser hands on: parentheses and a comma after the last argument leave
      no trace. */
  function Strip(t: Tree): Tree {
    match t
    case Nothing => t
    case Atom(_) => t
    case Paren(x) => Strip(x)
    case Prefix(op, x) => Prefix(op, Strip(x))
    case Postfix(op, x) => Postfix(op, Strip(x))
    case Member(x, op, field) => Member(Strip(x), op, field)
    case Index(x, i) => Index(Strip(x), Strip(i))
    case Binary(op, l, r) => Binary(op, Strip(l), Strip(r))
    case Conditional(c, y, n) => Conditional(Strip(c), Strip(y), Strip(n))
    case Call(name, args) => Call(name, StripArguments(args))
  }

  function StripArguments(args: Arguments): Arguments {
    match args
    case NoMore => NoMore
    case Argument(e, _, more) => Argument(Strip(e), more.Argument?, StripArguments(more))
  }

  /** Any tree of operators on proper operands, whatever their strata. */
  predicate Shaped(t: Tree) {
    match t
    case Nothing => false
    case Atom(a) => IsOperand(a)
    case Paren(_) => false
    case Prefix(op, x) => IsPrefix(op) && Shaped(x) && (op.Ampersand? || op.Increment? || op.Decrement? ==> IsLValue(x))
    case Postfix(op, x) => (op.Increment? || op.Decrement?) && IsLValue(x) && Shaped(x)
    case Member(x, op, field) => (op.Dot? || op.Arrow?) && IsName(field) && Shaped(x)
    case Index(x, i) => Shaped(x) && Shaped(i)
    case Binary(op, l, r) => IsBinary(op) && Shaped(l) && (IsAssignment(op) ==> IsLValue(l)) && Shaped(r)
    case Conditional(c, y, n) => Shaped(c) && Shaped(y) && Shaped(n)
    case Call(name, args) => name.Identifier? && ShapedArguments(args)
  }

  predicate ShapedArguments(args: Arguments) {
    args.Argument? ==> Shaped(args.value) && args.comma == args.more.Argument? && ShapedArguments(args.more)
  }

  /** The same tree with parentheses where the grammar needs them. */
  function Print(t: Tree): Tree
    decreases t, 0
  {
    match t
    case Nothing => t
    case Atom(_) => t
    case Paren(x) => Print(x)
    case Prefix(op, x) => Prefix(op, Fit(x, 3))
    case Postfix(op, x) => Postfix(op, FitPostfix(x))
    case Member(x, op, field) => Member(FitPostfix(x), op, field)
    case Index(x, i) => Index(FitPostfix(x), Print(i))
    case Binary(op, l, r) => Binary(op, Fit(l, Priority(op) + 1), Fit(r, OperandBound(op)))
    case Conditional(c, y, n) => Conditional(Fit(c, 13), Print(y), Print(n))
    case Call(name, args) => Call(name, PrintArguments(args))
  }

  function PrintArguments(args: Arguments): Arguments
    decreases args, 0
  {
    match args
    case NoMore => NoMore
    case Argument(e, _, more) => Argument(Print(e), more.Argument?, PrintArguments(more))
  }

  function Fit(t: Tree, bound: int): Tree
    decreases t, 1
  {
    if Level(t) < bound then Print(t) else Paren(Print(t))
  }

  function FitPostfix(t: Tree): Tree
    decreases t, 1
  {
    if Level(t) < 3 && !t.Prefix? then Print(t) else Paren(Print(t))
  }

  lemma {:induction false} PrintKeeps(t: Tree)
    requires Shaped(t)
    ensures Strip(Print(t)) == t && IsLValue(Print(t)) == IsLValue(t) && Level(Print(t)) == Level(t)
    ensures Print(t).Prefix? == t.Prefix? && !Print(t).Paren?
    decreases t
  {
    match t {
      case Atom(_) =>
      case Prefix(_, x) => PrintKeeps(x);
      case Postfix(_, x) => PrintKeeps(x);
      case Member(x, _, _) => PrintKeeps(x);
      case Index(x, i) => PrintKeeps(x); PrintKeeps(i);
      case Binary(_, l, r) => PrintKeeps(l); PrintKeeps(r);
      case Conditional(c, y, n) => PrintKeeps(c); PrintKeeps(y); PrintKeeps(n);
      case Call(_, args) => PrintKeepsArguments(args);
    }
  }

  lemma {:induction false} PrintKeepsArguments(args: Arguments)
    requires ShapedArguments(args)
    ensures StripArguments(PrintArguments(args)) == args
    decreases args
  {
    if args.Argument? {
      PrintKeeps(args.value);
      PrintKeepsArguments(args.more);
    }
  }

  lemma {:induction false} PrintStratified(t: Tree)
    requires Shaped(t)
    ensures Stratified(Print(t), 16)
    decreases t, 0
  {
    match t {
      case Atom(_) =>
      case Prefix(_, x) => FitStratified(x, 3);
      case Postfix(_, x) => FitPostfixStratified(x);
      case Member(x, _, _) => FitPostfixStratified(x);
      case Index(x, i) => FitPostfixStratified(x); PrintStratified(i);
      case Binary(op, l, r) => FitStratified(l, Priority(op) + 1); FitStratified(r, OperandBound(op));
      case Conditional(c, y, n) => FitStratified(c, 13); PrintStratified(y); PrintStratified(n);
      case Call(_, args) => ArgumentsPrintStratified(args);
    }
  }

  lemma {:induction false} ArgumentsPrintStratified(args: Arguments)
    requires ShapedArguments(args)
    ensures StratifiedArguments(PrintArguments(args))
    decreases args, 0
  {
    if args.Argument? {
      PrintStratified(args.value);
      ArgumentsPrintStratified(args.more);
    }
  }

  lemma {:induction false} FitStratified(t: Tree, bound: int)
    requires Shaped(t) && 3 <= bound
    ensures Stratified(Fit(t, bound), bound) && IsLValue(Fit(t, bound)) == IsLValue(t)
    decreases t, 1
  {
    PrintKeeps(t);
    PrintStratified(t);
  }

  lemma {:induction false} FitPostfixStratified(t: Tree)
    requires Shaped(t)
    ensures Stratified(FitPostfix(t), 3) && !FitPostfix(t).Prefix? && IsLValue(FitPostfix(t)) == IsLValue(t)
    decreases t, 1
  {
    PrintKeeps(t);
    PrintStratified(t);
  }

  /** Print and parse: every tree comes back, and nothing of what follows is consumed. */
  lemma PrintParses(t: Tree, rest: seq<Token>)
    requires Shaped(t) && |rest| > 0 && Separates(rest[0])
    ensures Climb(Yield(Print(t)) + rest, 16) == Some(Parsed(Print(t), rest)) && Strip(Print(t)) == t
  {
    hide Climb, Yield, Print, Strip, WellFormed, Halts, Stratified;
    PrintKeeps(t);
    PrintStratified(t);
    StratifiedExact(Print(t), 16);
    SeparatorCloses(Print(t), rest[0], 16);
    ClimbComplete(Print(t), 16, rest);
  }

  function Parens(t: Tree): nat {
    match t
    case Nothing => 0
    case Atom(_) => 0
    case Paren(x) => 1 + Parens(x)
    case Prefix(_, x) => Parens(x)
    case Postfix(_, x) => Parens(x)
    case Member(x, _, _) => Parens(x)
    case Index(x, i) => Parens(x) + Parens(i)
    case Binary(_, l, r) => Parens(l) + Parens(r)
    case Conditional(c, y, n) => Parens(c) + Parens(y) + Parens(n)
    case Call(_, args) => ParensIn(args)
  }

  function ParensIn(args: Arguments): nat {
    match args
    case NoMore => 0
    case Argument(e, _, more) => Parens(e) + ParensIn(more)
  }

  /** No way of writing the tree uses fewer parentheses. */
  lemma {:induction false} PrintMinimal(t: Tree, u: Tree)
    requires Stratified(u, 16) && Strip(u) == t
    ensures Parens(Print(t)) <= Parens(u)
    decreases u, 0
  {
    match u {
      case Atom(_) =>
      case Paren(x) => PrintMinimal(t, x);
      case Prefix(_, x) => FitMinimal(t.operand, x, 3);
      case Postfix(_, x) => FitPostfixMinimal(t.operand, x);
      case Member(x, _, _) => FitPostfixMinimal(t.operand, x);
      case Index(x, i) => FitPostfixMinimal(t.operand, x); PrintMinimal(t.index, i);
      case Binary(op, l, r) => FitMinimal(t.left, l, Priority(op) + 1); FitMinimal(t.right, r, OperandBound(op));
      case Conditional(c, y, n) => FitMinimal(t.cond, c, 13); PrintMinimal(t.yes, y); PrintMinimal(t.no, n);
      case Call(_, args) => ArgumentsMinimal(t.args, args);
    }
  }

  lemma {:induction false} ArgumentsMinimal(args: Arguments, others: Arguments)
    requires StratifiedArguments(others) && StripArguments(others) == args
    ensures ParensIn(PrintArguments(args)) <= ParensIn(others)
    decreases others, 0
  {
    if others.Argument? {
      PrintMinimal(args.value, others.value);
      ArgumentsMinimal(args.more, others.more);
    }
  }

  lemma {:induction false} FitMinimal(t: Tree, u: Tree, bound: int)
    requires Stratified(u, bound) && bound <= 16 && Strip(u) == t
    ensures Parens(Fit(t, bound)) <= Parens(u)
    decreases u, 1
  {
    StratifiedWider(u, bound, 16);
    if u.Paren? {
      PrintMinimal(t, u.inner);
    } else {
      PrintMinimal(t, u);
    }
  }

  lemma {:induction false} FitPostfixMinimal(t: Tree, u: Tree)
    requires Stratified(u, 3) && !u.Prefix? && Strip(u) == t
    ensures Parens(FitPostfix(t)) <= Parens(u)
    decreases u, 1
  {
    StratifiedWider(u, 3, 16);
    if u.Paren? {
      PrintMinimal(t, u.inner);
    } else {
      PrintMinimal(t, u);
    }
  }

  /** Only `=` chains: `a = b = c` groups to the right, `a += b += c` is refused, although
      section 6.5.16 of ISO/IEC 9899:1999 groups both the same way. */
  lemma CompoundDoesNotChain(a: string, b: string, c: string)
    ensures var x, y, z := Identifier(a), Identifier(b), Identifier(c);
      Climb([x, Punctuation(Assign), y, Punctuation(Assign), z, Punctuation(Semicolon)], 16) ==
        Some(Parsed(Binary(Assign, Atom(x), Binary(Assign, Atom(y), Atom(z))), [Punctuation(Semicolon)])) &&
      Climb([x, Punctuation(AddAssign), y, Punctuation(AddAssign), z, Punctuation(Semicolon)], 16) == None
  {
    hide Climb, ParseOperators, ParseOperator, ParseUnary;
    var x, y, z := Identifier(a), Identifier(b), Identifier(c);
    var end := [Punctuation(Semicolon)];
    var t := Binary(Assign, Atom(x), Binary(Assign, Atom(y), Atom(z)));
    LeafLeads(y, Assign, 15);
    LeafLeads(x, Assign, 16);
    assert WellFormed(Atom(z), 15) && WellFormed(t.right, 15) && WellFormed(t, 16);
    SeparatorCloses(t, end[0], 16);
    ClimbComplete(t, 16, end);
    assert Yield(Binary(Assign, Atom(y), Atom(z))) == [y] + ([Punctuation(Assign)] + [z]);
    assert Yield(t) == [x] + ([Punctuation(Assign)] + Yield(Binary(Assign, Atom(y), Atom(z))));
    assert Yield(t) + end == [x, Punctuation(Assign), y, Punctuation(Assign), z, Punctuation(Semicolon)];
    CompoundRefused(x, y, [z] + end);
    assert [x, Punctuation(AddAssign), y, Punctuation(AddAssign)] + ([z] + end) ==
      [x, Punctuation(AddAssign), y, Punctuation(AddAssign), z, Punctuation(Semicolon)];
  }

  /** A comma may follow the last argument: `f(e,)` is read as `f(e)` is, although section
      6.5.2 of ISO/IEC 9899:1999 has no such call. */
  lemma TrailingComma(f: string, e: Tree, rest: seq<Token>)
    requires Stratified(e, 16) && |rest| > 0 && Separates(rest[0])
    ensures var plain, comma := Call(Identifier(f), Argument(e, false, NoMore)), Call(Identifier(f), Argument(e, true, NoMore));
      Yield(comma) == [Identifier(f), Punctuation(OpenParen)] + Yield(e) + [Punctuation(Comma), Punctuation(CloseParen)] &&
      Climb(Yield(comma) + rest, 16) == Some(Parsed(comma, rest)) && Climb(Yield(plain) + rest, 16) == Some(Parsed(plain, rest)) &&
      Strip(comma) == Strip(plain)
  {
    hide Climb, Halts, Closed;
    forall c: bool ensures Climb(Yield(Call(Identifier(f), Argument(e, c, NoMore))) + rest, 16) ==
      Some(Parsed(Call(Identifier(f), Argument(e, c, NoMore)), rest))
    {
      var t := Call(Identifier(f), Argument(e, c, NoMore));
      assert StratifiedArguments(Argument(e, c, NoMore));
      StratifiedExact(t, 16);
      SeparatorCloses(t, rest[0], 16);
      ClimbComplete(t, 16, rest);
    }
    assert YieldArguments(Argument(e, true, NoMore)) == Yield(e) + [Punctuation(Comma)];
  }

  lemma LeafLeads(x: Token, op: Punct, bound: int)
    requires x.Identifier? && 0 <= Priority(op) < bound
    ensures Leads(Atom(x), op, bound)
  {
  }

  lemma CompoundRefused(x: Token, y: Token, rest: seq<Token>)
    requires x.Identifier? && y.Identifier?
    ensures Climb([x, Punctuation(AddAssign), y, Punctuation(AddAssign)] + rest, 16) == None
  {
    var ts := [x, Punctuation(AddAssign), y, Punctuation(AddAssign)] + rest;
    var tail := [Punctuation(AddAssign)] + rest;
    var t := Binary(AddAssign, Atom(x), Atom(y));
    assert Yield(t) == [x, Punctuation(AddAssign), y];
    assert ts == Yield(t) + tail;
    LeafLeads(x, AddAssign, 16);
    assert WellFormed(Atom(y), 14) && WellFormed(t, 16);
    assert Halts(Atom(y), tail[0], 14) && Closed(t, tail[0]);
    ClimbReaches(t, 16, tail);
    assert ParseOperator(t, tail) == None;
  }
}
