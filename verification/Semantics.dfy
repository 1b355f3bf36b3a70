/** What a program means: a big-step semantics in four dialects. `Iso` follows
    ISO/IEC 9899:1999, `Lice` follows the rules the generated code implements where
    the two differ, `Common` is undefined wherever the two rules differ, and `Narrow`
    is `Iso` but undefined for a switch on a value that is no `int`. */
module Semantics {
  import opened Words
  import opened Runs
  import opened Machine
  import opened Syntax

  datatype Dialect = Iso | Lice | Common | Narrow

  /** One activation: the other functions and the address the frame is based at. */
  datatype Context = Context(callees: Callees, base: Word)

  datatype Valued = Valued(value: Word, mem: Memory)
  datatype Passed = Passed(values: seq<Word>, mem: Memory)

  datatype Outcome = Normal | Broke | Continued | Returned(value: Option<Word>)
  datatype Done = Done(outcome: Outcome, mem: Memory)

  /** The one place where the dialects part. */
  function Pick<T(==)>(d: Dialect, iso: Option<T>, lice: Option<T>): Option<T> {
    match d
    case Iso => iso
    case Lice => lice
    case Common => if iso == lice then iso else None
    case Narrow => iso
  }

  function Fetch(mem: Memory, a: Word): Option<Word> {
    if a in mem then Some(mem[a]) else None
  }

  function Put(mem: Memory, a: Word, v: Word): Option<Valued> {
    if a in mem then Some(Valued(v, mem[a := v])) else None
  }

  /** Signed arithmetic wraps; a quotient that does not exist is undefined, and the
      generated code zero-extends the low half of a remainder. */
  function Apply(d: Dialect, op: BinaryOp, a: Word, b: Word): Option<Word> {
    match op
    case Plus => Some(Wrap(a + b))
    case Minus => Some(Wrap(a - b))
    case Times => Some(Wrap(a * b))
    case Divide =>
      if b == 0 || (a == -HALF && b == -1) then None else TruncDivFits(a, b); Some(TruncDiv(a, b))
    case Remainder =>
      if b == 0 || (a == -HALF && b == -1) then None else
      DivRem(a, b);
      Pick(d, Some(TruncRem(a, b)), Some(TruncRem(a, b) % LOW32))
    case ExclusiveOr => Some(BitWord(Xor, a, b))
    case ShiftL => Some(ShiftLeft(a, b))
    case ShiftR => Some(ShiftRight(a, b))
    case Less => Some(Bool(a < b))
    case Greater => Some(Bool(a > b))
    case Equal => Some(Bool(a == b))
    case NotEqual => Some(Bool(a != b))
    case LessEqual => Some(Bool(a <= b))
    case GreaterEqual => Some(Bool(a >= b))
    case BothBits => Some(BitWord(And, a, b))
    case EitherBits => Some(BitWord(Or, a, b))
    case Pointer(minus, size) =>
      Pick(d, Some(if minus then Wrap(a - size * b) else Wrap(a + size * b)),
        Some(Wrap(a + if size > 1 then size * b else b)))
  }

  /** The object an lvalue designates. */
  function Place(d: Dialect, c: Context, lv: LValue, mem: Memory): Option<Valued>
    decreases lv, 0
  {
    match lv
    case Local(off) => Some(Valued(Wrap(c.base + off), mem))
    case Deref(e) => Eval(d, c, e, mem)
    case Member(s, off) =>
      match Place(d, c, s, mem)
      case None => None
      case Some(p) => Some(p.(value := Wrap(p.value + off)))
  }

  function Through(place: Option<Valued>): Option<Valued> {
    match place
    case None => None
    case Some(p) =>
      match Fetch(p.mem, p.value)
      case None => None
      case Some(v) => Some(Valued(v, p.mem))
  }

  function Stepped(minus: bool, v: Word, amount: int): Word {
    if minus then Wrap(v - amount) else Wrap(v + amount)
  }

  function Restored(prefix: bool, before: Word, stored: Option<Valued>): Option<Valued> {
    match stored
    case None => None
    case Some(r) => Some(if prefix then r else r.(value := before))
  }

  /** One evaluation of the lvalue and a step by the size of the pointed-to object. */
  function IncDecIso(place: Option<Valued>, prefix: bool, minus: bool, scale: int): Option<Valued> {
    match place
    case None => None
    case Some(p) =>
      match Fetch(p.mem, p.value)
      case None => None
      case Some(before) => Restored(prefix, before, Put(p.mem, p.value, Stepped(minus, before, scale)))
  }

  /** The generated code steps by one, and evaluates the lvalue again to store. */
  function IncDecLice(d: Dialect, c: Context, lv: LValue, mem: Memory, prefix: bool, minus: bool): Option<Valued>
    decreases lv, 1
  {
    match Through(Place(d, c, lv, mem))
    case None => None
    case Some(before) =>
      match Place(d, c, lv, before.mem)
      case None => None
      case Some(p) => Restored(prefix, before.value, Put(p.mem, p.value, Stepped(minus, before.value, 1)))
  }

  /** Operands are evaluated left to right, a stored value before its place. Only six
      arguments can be compiled. */
  function Eval(d: Dialect, c: Context, e: Expr, mem: Memory): Option<Valued>
    decreases e
  {
    match e
    case Literal(v) => Some(Valued(Wrap(v), mem))
    case Read(lv) => Through(Place(d, c, lv, mem))
    case AddressOf(lv) =>
      Pick(d, Place(d, c, lv, mem),
        match lv
        case Local(_) => Place(d, c, lv, mem)
        case Deref(_) => Through(Place(d, c, lv, mem))
        case Member(_, _) => None)
    case Binary(op, l, r) =>
      match Eval(d, c, l, mem) {
        case None => None
        case Some(a) =>
          match Eval(d, c, r, a.mem) {
            case None => None
            case Some(b) => WithMemory(Apply(d, op, a.value, b.value), b.mem)
          }
      }
    case LogicalAnd(l, r) =>
      match Eval(d, c, l, mem) {
        case None => None
        case Some(p) => if p.value == 0 then Some(Valued(0, p.mem)) else Truth(Eval(d, c, r, p.mem))
      }
    case LogicalOr(l, r) =>
      match Eval(d, c, l, mem) {
        case None => None
        case Some(p) => if p.value != 0 then Some(Valued(1, p.mem)) else Truth(Eval(d, c, r, p.mem))
      }
    case LogicalNot(a) =>
      match Eval(d, c, a, mem) {
        case None => None
        case Some(p) => Some(Valued(Bool(p.value == 0), p.mem))
      }
    case OnesComplement(a) =>
      match Eval(d, c, a, mem) {
        case None => None
        case Some(p) => Some(Valued(Complement(p.value), p.mem))
      }
    case Assign(lv, a) =>
      match Eval(d, c, a, mem) {
        case None => None
        case Some(v) =>
          match Place(d, c, lv, v.mem) {
            case None => None
            case Some(p) => Put(p.mem, p.value, v.value)
          }
      }
    case IncDec(lv, prefix, minus, scale) =>
      Pick(d, IncDecIso(Place(d, c, lv, mem), prefix, minus, scale),
        IncDecLice(d, c, lv, mem, prefix, minus))
    case Conditional(b, y, n) =>
      match Eval(d, c, b, mem) {
        case None => None
        case Some(p) => if p.value != 0 then Eval(d, c, y, p.mem) else Eval(d, c, n, p.mem)
      }
    case Call(name, args) =>
      if Count(args) > 6 && (d == Lice || d == Common) then None else
      match EvalArgs(d, c, args, mem) {
        case None => None
        case Some(p) => Invoke(c, name, p)
      }
  }

  function Truth(v: Option<Valued>): Option<Valued> {
    match v
    case None => None
    case Some(p) => Some(p.(value := Bool(p.value != 0)))
  }

  function WithMemory(v: Option<Word>, mem: Memory): Option<Valued> {
    if v.None? then None else Some(Valued(v.value, mem))
  }

  function EvalArgs(d: Dialect, c: Context, args: Args, mem: Memory): (p: Option<Passed>)
    ensures p.Some? ==> |p.value.values| == Count(args)
    decreases args
  {
    match args
    case NoArgs => Some(Passed([], mem))
    case Arg(e, tail) =>
      match Eval(d, c, e, mem)
      case None => None
      case Some(v) =>
        match EvalArgs(d, c, tail, v.mem)
        case None => None
        case Some(p) => Some(Passed([v.value] + p.values, p.mem))
  }

  /** A call needs as many arguments as the callee takes. */
  function Invoke(c: Context, name: string, p: Passed): Option<Valued> {
    if c.callees.arity(name) != |p.values| then None else
    match c.callees.run(name, p.values, p.mem)
    case None => None
    case Some(r) => if r.objects.Keys == p.mem.Keys then Some(Valued(r.value, r.objects)) else None
  }

  // ---------------------------------------------------------- statements

  function EvalOption(d: Dialect, c: Context, e: Option<Expr>, default: Word, mem: Memory): Option<Valued> {
    if e.None? then Some(Valued(default, mem)) else Eval(d, c, e.value, mem)
  }

  predicate IsInt(x: int) { -0x8000_0000 <= x < 0x8000_0000 }

  /** Which marker of a switch body control enters at (section 6.8.4.2): the case
      equal to the value, else default, else none. */
  function SelectIso(v: Word, ms: seq<Marker>): (k: Option<nat>)
    ensures k.Some? ==> k.value < |ms|
  {
    var k := IndexOf(CaseMarker(v), ms);
    if k < |ms| then Some(k) else
    var j := IndexOf(DefaultMarker, ms);
    if j < |ms| then Some(j) else None
  }

  function IndexOf(m: Marker, ms: seq<Marker>): (k: nat)
    ensures k <= |ms|
    ensures m !in ms[..k]
    ensures k < |ms| ==> ms[k] == m
  {
    if |ms| == 0 || ms[0] == m then 0 else 1 + IndexOf(m, ms[1..])
  }

  /** The compare chain looks at the low half of the value and is cut off by the
      first default. */
  function SelectLice(v: Word, ms: seq<Marker>): (k: Option<nat>)
    ensures k.Some? ==> k.value < |ms|
  {
    var k := FirstMatch(Low32(v), ms);
    if k < |ms| then Some(k) else None
  }

  /** Executes s from its start, or from just after its marker number `entry`. Fuel
      bounds the loop iterations. */
  function Exec(d: Dialect, c: Context, s: Stmt, entry: Option<nat>, mem: Memory, fuel: nat): Option<Done>
    requires entry.Some? ==> entry.value < |Markers(s)|
    decreases fuel, s, 2
  {
    match s
    case Skip => Some(Done(Normal, mem))
    case Sequence(a, b) =>
      if entry.Some? && entry.value >= |Markers(a)| then
        Exec(d, c, b, Some(entry.value - |Markers(a)|), mem, fuel)
      else
        match Exec(d, c, a, entry, mem, fuel) {
          case None => None
          case Some(r) => if r.outcome == Normal then Exec(d, c, b, None, r.mem, fuel) else Some(r)
        }
    case Expression(e) =>
      match Eval(d, c, e, mem) {
        case None => None
        case Some(v) => Some(Done(Normal, v.mem))
      }
    case Initialize(off, e) =>
      match Eval(d, c, Assign(Local(off), e), mem) {
        case None => None
        case Some(v) => Some(Done(Normal, v.mem))
      }
    case If(b, y) =>
      if entry.Some? then Exec(d, c, y, entry, mem, fuel) else
      match Eval(d, c, b, mem) {
        case None => None
        case Some(v) => if v.value != 0 then Exec(d, c, y, None, v.mem, fuel) else Some(Done(Normal, v.mem))
      }
    case IfElse(b, y, n) =>
      if entry.Some? then
        if entry.value < |Markers(y)| then Exec(d, c, y, entry, mem, fuel)
        else Exec(d, c, n, Some(entry.value - |Markers(y)|), mem, fuel)
      else
      match Eval(d, c, b, mem) {
        case None => None
        case Some(v) => if v.value != 0 then Exec(d, c, y, None, v.mem, fuel) else Exec(d, c, n, None, v.mem, fuel)
      }
    case While(b, body) =>
      if entry.Some? then AfterWhile(d, c, s, Exec(d, c, body, entry, mem, fuel), fuel) else
      match Eval(d, c, b, mem) {
        case None => None
        case Some(v) =>
          if v.value == 0 then Some(Done(Normal, v.mem))
          else AfterWhile(d, c, s, Exec(d, c, body, None, v.mem, fuel), fuel)
      }
    case DoWhile(body, b) =>
      AfterDo(d, c, s, Exec(d, c, body, entry, mem, fuel), fuel)
    case For(init, test, step, body) =>
      if entry.Some? && entry.value >= |Markers(init)| then
        AfterFor(d, c, s, Exec(d, c, body, Some(entry.value - |Markers(init)|), mem, fuel), fuel)
      else
        match Exec(d, c, init, entry, mem, fuel) {
          case None => None
          case Some(r) => if r.outcome == Normal then ForLoop(d, c, s, r.mem, fuel) else Some(r)
        }
    case Switch(e, body) =>
      match Eval(d, c, e, mem) {
        case None => None
        case Some(v) =>
          if d == Narrow && !IsInt(v.value) then None else
          match Pick(d, Some(SelectIso(v.value, Markers(body))), Some(SelectLice(v.value, Markers(body)))) {
            case None => None
            case Some(target) =>
              if target.None? then Some(Done(Normal, v.mem)) else
              match Exec(d, c, body, target, v.mem, fuel) {
                case None => None
                case Some(r) => Some(if r.outcome == Broke then r.(outcome := Normal) else r)
              }
          }
      }
    case Case(_) => Some(Done(Normal, mem))
    case Default => Some(Done(Normal, mem))
    case Break => Some(Done(Broke, mem))
    case Continue => Some(Done(Continued, mem))
    case Return(r) =>
      match EvalOption(d, c, r, 0, mem) {
        case None => None
        case Some(v) => Some(Done(Returned(if r.Some? then Some(v.value) else None), v.mem))
      }
  }

  /** The rest of a loop once its body has run. */
  function AfterWhile(d: Dialect, c: Context, s: Stmt, r: Option<Done>, fuel: nat): Option<Done>
    requires s.While?
    decreases fuel, s, 0
  {
    if r.None? || fuel == 0 then None else
    if r.value.outcome.Broke? then Some(Done(Normal, r.value.mem)) else
    if r.value.outcome.Returned? then r else
    Exec(d, c, s, None, r.value.mem, fuel - 1)
  }

  /** A continue in a do statement goes to the test (section 6.8.6.2); the generated
      code sends it to the start of the body. */
  function AfterDo(d: Dialect, c: Context, s: Stmt, r: Option<Done>, fuel: nat): Option<Done>
    requires s.DoWhile?
    decreases fuel, s, 0
  {
    if r.None? || fuel == 0 then None else
    if r.value.outcome.Broke? then Some(Done(Normal, r.value.mem)) else
    if r.value.outcome.Returned? then r else
      if r.value.outcome == Continued && d == Common then None else
      if r.value.outcome == Continued && d == Lice then Exec(d, c, s, None, r.value.mem, fuel - 1) else
      match Eval(d, c, s.cond, r.value.mem)
      case None => None
      case Some(v) => if v.value == 0 then Some(Done(Normal, v.mem)) else Exec(d, c, s, None, v.mem, fuel - 1)
  }

  function AfterFor(d: Dialect, c: Context, s: Stmt, r: Option<Done>, fuel: nat): Option<Done>
    requires s.For?
    decreases fuel, s, 0
  {
    if r.None? || fuel == 0 then None else
    if r.value.outcome.Broke? then Some(Done(Normal, r.value.mem)) else
    if r.value.outcome.Returned? then r else
      match EvalOption(d, c, s.step, 0, r.value.mem)
      case None => None
      case Some(v) => ForLoop(d, c, s, v.mem, fuel - 1)
  }

  function ForLoop(d: Dialect, c: Context, s: Stmt, mem: Memory, fuel: nat): Option<Done>
    requires s.For?
    decreases fuel, s, 1
  {
    match EvalOption(d, c, s.test, 1, mem)
    case None => None
    case Some(v) =>
      if v.value == 0 then Some(Done(Normal, v.mem))
      else AfterFor(d, c, s, Exec(d, c, s.body, None, v.mem, fuel), fuel)
  }
}
