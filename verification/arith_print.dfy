// Parsing is right: for every expression tree, evaluating its printed text gives the value, the
// variables and the error that evaluating the tree itself gives.

module ArithPrint {
  import opened Basics
  import opened ArithNumbers
  import opened ArithGrammar

  // ----- Trees, their meaning and their text -----

  datatype Expr =
    | Const(n: nat)
    | Var(name: string)
    | PostStep(name: string, up: bool)
    | PreStep(name: string, up: bool)
    | Prefix(operator: char, inner: Expr)
    | Power(left: Expr, right: Expr)
    | Binary(level: nat, symbol: string, left: Expr, right: Expr)
    | AndAlso(left: Expr, right: Expr)
    | OrElse(left: Expr, right: Expr)
    | Choose(cond: Expr, left: Expr, right: Expr)
    | Assign(symbol: string, name: string, right: Expr)
    | Comma(left: Expr, right: Expr)

  predicate IsName(name: string) {
    name != "" && IsNameStart(name[0]) && forall i :: 0 <= i < |name| ==> IsNameChar(name[i])
  }

  /** Constants fit 64 bits, names are names, and operators belong to their level. */
  predicate Valid(e: Expr) {
    match e
    case Const(n) => n <= I64_MAX
    case Var(name) => IsName(name)
    case PostStep(name, _) => IsName(name)
    case PreStep(name, _) => IsName(name)
    case Prefix(operator, inner) => IsUnary(operator) && Valid(inner)
    case Power(left, right) => Valid(left) && Valid(right)
    case Binary(level, symbol, left, right) =>
      level < 8 && symbol in LevelOperators(level) && Valid(left) && Valid(right)
    case AndAlso(left, right) => Valid(left) && Valid(right)
    case OrElse(left, right) => Valid(left) && Valid(right)
    case Choose(cond, left, right) => Valid(cond) && Valid(left) && Valid(right)
    case Assign(symbol, name, right) => symbol in ASSIGNMENTS && IsName(name) && Valid(right)
    case Comma(left, right) => Valid(left) && Valid(right)
  }

  /** The value of a tree and the variables afterwards. */
  datatype Value = Val(value: i64, store: Store) | Fail(error: ArithError, store: Store)

  function Read(name: string, depth: nat, store: Store): Value
    requires depth <= MAX_RECURSION
  {
    match VariableValue(depth, Scalar(name), store)
    case (Number(value), after) => Val(value, after)
    case (Malformed(e), after) => Fail(e, after)
  }

  function Checked(value: Parsed, store: Store): Value {
    match value
    case Number(v) => Val(v, store)
    case Malformed(e) => Fail(e, store)
  }

  function TruthOf(value: Value): Value {
    if value.Val? then Val(Truth(value.value != 0), value.store) else value
  }

  function Stepped(value: i64, up: bool): i64 {
    Wrap(value + if up then 1 else -1)
  }

  /** Evaluate a tree directly, left to right; `&&`, `||` and `?:` evaluate what they select. */
  function Eval(e: Expr, depth: nat, store: Store): Value
    requires Valid(e) && depth <= MAX_RECURSION
  {
    match e
    case Const(n) => Val(n, store)
    case Var(name) => Read(name, depth, store)
    case PostStep(name, up) =>
      (match Read(name, depth, store)
       case Fail(err, s) => Fail(err, s)
       case Val(v, s) => Val(v, Assigned(s, Scalar(name), Stepped(v, up))))
    case PreStep(name, up) =>
      (match Read(name, depth, store)
       case Fail(err, s) => Fail(err, s)
       case Val(v, s) => Val(Stepped(v, up), Assigned(s, Scalar(name), Stepped(v, up))))
    case Prefix(operator, inner) =>
      (match Eval(inner, depth, store)
       case Fail(err, s) => Fail(err, s)
       case Val(v, s) => Val(UnaryValue(operator, v), s))
    case Power(left, right) =>
      (match Eval(left, depth, store)
       case Fail(err, s) => Fail(err, s)
       case Val(v, s) =>
         match Eval(right, depth, s)
         case Fail(err, s1) => Fail(err, s1)
         case Val(w, s1) => Checked(Apply("**", v, w), s1))
    case Binary(_, symbol, left, right) =>
      (match Eval(left, depth, store)
       case Fail(err, s) => Fail(err, s)
       case Val(v, s) =>
         match Eval(right, depth, s)
         case Fail(err, s1) => Fail(err, s1)
         case Val(w, s1) => Checked(Apply(symbol, v, w), s1))
    case AndAlso(left, right) =>
      (match Eval(left, depth, store)
       case Fail(err, s) => Fail(err, s)
       case Val(v, s) => if v == 0 then Val(0, s) else TruthOf(Eval(right, depth, s)))
    case OrElse(left, right) =>
      (match Eval(left, depth, store)
       case Fail(err, s) => Fail(err, s)
       case Val(v, s) => if v != 0 then Val(1, s) else TruthOf(Eval(right, depth, s)))
    case Choose(cond, left, right) =>
      (match Eval(cond, depth, store)
       case Fail(err, s) => Fail(err, s)
       case Val(v, s) => if v != 0 then Eval(left, depth, s) else Eval(right, depth, s))
    case Assign(symbol, name, right) =>
      (match Read(name, depth, store)
       case Fail(err, s) => Fail(err, s)
       case Val(v, s) =>
         match Eval(right, depth, s)
         case Fail(err, s1) => Fail(err, s1)
         case Val(w, s1) =>
           match Checked(if symbol == "=" then Number(w) else Apply(symbol[..|symbol| - 1], v, w), s1)
           case Fail(err, s2) => Fail(err, s2)
           case Val(x, s2) => Val(x, Assigned(s2, Scalar(name), x)))
    case Comma(left, right) =>
      (match Eval(left, depth, store)
       case Fail(err, s) => Fail(err, s)
       case Val(_, s) => Eval(right, depth, s))
  }

  /** The grammar level a tree's outermost operator belongs to. */
  function Level(e: Expr): (k: nat)
    requires Valid(e)
    ensures k <= 15
  {
    match e
    case Comma(_, _) => 0
    case Assign(_, _, _) => 1
    case Choose(_, _, _) => 2
    case OrElse(_, _) => 3
    case AndAlso(_, _) => 4
    case Binary(level, _, _, _) => 5 + level
    case Power(_, _) => 13
    case PreStep(_, _) => 14
    case Prefix(_, _) => 14
    case _ => 15
  }

  function StepText(up: bool): string {
    if up then "++" else "--"
  }

  /** The text of a tree where an operand of level `k` is expected: parentheses only where needed,
      and a blank after every token. */
  function Print(e: Expr, k: nat): string
    requires Valid(e) && k <= 15
    decreases e, k > Level(e)
  {
    if k > Level(e) then "( " + Print(e, 0) + ") "
    else match e
      case Const(n) => Decimal(n) + " "
      case Var(name) => name + " "
      case PostStep(name, up) => name + " " + (StepText(up) + " ")
      case PreStep(name, up) => StepText(up) + " " + (name + " ")
      case Prefix(operator, inner) => [operator, ' '] + Print(inner, 14)
      case Power(left, right) => Print(left, 14) + ("**" + " " + Print(right, 13))
      case Binary(level, symbol, left, right) => Print(left, 5 + level) + (symbol + " " + Print(right, 6 + level))
      case AndAlso(left, right) => Print(left, 4) + ("&&" + " " + Print(right, 5))
      case OrElse(left, right) => Print(left, 3) + ("||" + " " + Print(right, 4))
      case Choose(cond, left, right) => Print(cond, 3) + ("?" + " " + (Print(left, 0) + (":" + " " + Print(right, 2))))
      case Assign(symbol, name, right) => name + " " + (symbol + " " + Print(right, 1))
      case Comma(left, right) => Print(left, 0) + ("," + " " + Print(right, 1))
  }

  function Max(a: nat, b: nat): nat {
    if a < b then b else a
  }

  /** The syntactic nesting the printed text needs. */
  function Nest(e: Expr, k: nat): nat
    requires Valid(e) && k <= 15
    decreases e, k > Level(e)
  {
    if k > Level(e) then 1 + Nest(e, 0)
    else match e
      case Const(_) => 0
      case Var(_) => 0
      case PostStep(_, _) => 0
      case PreStep(_, _) => 0
      case Prefix(_, inner) => 1 + Nest(inner, 14)
      case Power(left, right) => Max(Nest(left, 14), 1 + Nest(right, 13))
      case Binary(level, _, left, right) => Max(Nest(left, 5 + level), Nest(right, 6 + level))
      case AndAlso(left, right) => Max(Nest(left, 4), Nest(right, 5))
      case OrElse(left, right) => Max(Nest(left, 3), Nest(right, 4))
      case Choose(cond, left, right) => Max(Nest(cond, 3), 1 + Max(Nest(left, 0), Nest(right, 2)))
      case Assign(_, _, right) => Nest(right, 1)
      case Comma(left, right) => Max(Nest(left, 0), Nest(right, 1))
  }

  /** The placeholder value the parser carries for a skipped tree. */
  function SkipValue(e: Expr): i64
    requires Valid(e)
  {
    match e
    case Const(n) => n
    case Prefix(operator, inner) => UnaryValue(operator, SkipValue(inner))
    case AndAlso(left, right) => Truth(SkipValue(left) != 0 && SkipValue(right) != 0)
    case OrElse(left, right) => Truth(SkipValue(left) != 0 || SkipValue(right) != 0)
    case Choose(cond, left, right) => if SkipValue(cond) != 0 then SkipValue(left) else SkipValue(right)
    case Comma(_, right) => SkipValue(right)
    case _ => 0
  }

  /** The place an unparenthesised tree can be assigned to: a comma expression ends in its last
      operand, place included. */
  function PlaceOf(e: Expr, k: nat): Option<Place>
    requires Valid(e)
  {
    if k > Level(e) then None
    else match e
      case Var(name) => Some(Scalar(name))
      case Comma(_, right) => PlaceOf(right, 1)
      case _ => None
  }

  /** What parsing the text of `e` at level `k` must yield once the cursor of `s` is behind it. */
  function Outcome(e: Expr, k: nat, depth: nat, s: State, skip: bool): Result
    requires Valid(e) && depth <= MAX_RECURSION
  {
    if skip then Ok(Operand(SkipValue(e), PlaceOf(e, k)), s)
    else match Eval(e, depth, s.store)
      case Fail(err, store) => Err(err, store)
      case Val(v, store) => Ok(Operand(v, PlaceOf(e, k)), s.(store := store))
  }
}
