// Which operand an operator takes: the binding of every pair of binary operators, and what an
// assignment leaves for later reads.

module ArithPrecedence {
  import opened Basics
  import opened ArithNumbers
  import opened ArithGrammar
  import opened ArithPrint
  import opened ArithRoundTrip

  const OPERATORS: seq<string> := ["||", "&&", "|", "^", "&", "==", "!=", "<", ">", "<=", ">=", "<<", ">>", "+", "-",
                                   "*", "/", "%", "**"]

  predicate IsOperator(op: string) {
    op in OPERATORS
  }

  /** How tightly an operator binds. */
  function Rank(op: string): int {
    match op
    case "||" => -1
    case "&&" => 0
    case "|" => 1
    case "^" => 2
    case "&" => 3
    case "==" => 4
    case "!=" => 4
    case "<" => 5
    case ">" => 5
    case "<=" => 5
    case ">=" => 5
    case "<<" => 6
    case ">>" => 6
    case "+" => 7
    case "-" => 7
    case "*" => 8
    case "/" => 8
    case "%" => 8
    case _ => 9
  }

  /** An operator between two values: `&&` and `||` are decided by the left one where it decides, and an
      error of an operand that is evaluated is the error of the whole. */
  function Meaning(op: string, x: Parsed, y: Parsed): Parsed {
    if x.Malformed? then x
    else if op == "&&" && x.value == 0 then Number(0)
    else if op == "||" && x.value != 0 then Number(1)
    else if y.Malformed? then y
    else if op == "&&" || op == "||" then Number(if y.value == 0 then 0 else 1)
    else Apply(op, x.value, y.value)
  }

  /** Two operators without parentheses: the tighter one takes the middle operand; of equally tight ones the
      left one does, except that powers group to the right. */
  lemma PrecedenceExactly(a: nat, f: string, b: nat, g: string, c: nat, depth: nat, store: Store)
    requires a <= I64_MAX && b <= I64_MAX && c <= I64_MAX && IsOperator(f) && IsOperator(g) && depth <= MAX_RECURSION
    ensures var text := Decimal(a) + " " + (f + " " + (Decimal(b) + " " + (g + " " + (Decimal(c) + " "))));
            Evaluate(text, depth, store) ==
            (if Rank(g) > Rank(f) || (f == "**" && g == "**") then
               Meaning(f, Number(a), Meaning(g, Number(b), Number(c)))
             else Meaning(g, Meaning(f, Number(a), Number(b)), Number(c)), store)
  {
    hide Print, Nest, Eval, Evaluate, Decimal, Rank, IsOperator, Meaning, Tree, Valid;
    Consts(a, depth, store);
    Consts(b, depth, store);
    Consts(c, depth, store);
    var x, y, z := Const(a), Const(b), Const(c);
    var right := Rank(g) > Rank(f) || (f == "**" && g == "**");
    RankBounds(f);
    RankBounds(g);
    if right {
      var inner := Tree(g, y, z);
      TreeOf(g, y, z, RightLevel(f), depth, store, Number(b), Number(c));
      TreeOf(f, x, inner, 0, depth, store, Number(a), Meaning(g, Number(b), Number(c)));
      Concat3(Decimal(b) + " ", g + " ", Decimal(c) + " ");
      EvaluatePrinted(Tree(f, x, inner), depth, store);
    } else {
      var inner := Tree(f, x, y);
      TreeOf(f, x, y, LeftLevel(g), depth, store, Number(a), Number(b));
      TreeOf(g, inner, z, 0, depth, store, Meaning(f, Number(a), Number(b)), Number(c));
      Regroup(Decimal(a) + " ", f + " ", Decimal(b) + " ", g + " " + (Decimal(c) + " "));
      EvaluatePrinted(Tree(g, inner, z), depth, store);
    }
  }

  lemma Concat3(a: string, b: string, c: string)
    ensures a + (b + c) == a + b + c
  {
  }

  lemma Regroup(a: string, b: string, c: string, d: string)
    ensures a + (b + c) + d == a + (b + (c + d))
  {
  }

  /** The tree of an operator. */
  function Tree(op: string, left: Expr, right: Expr): Expr {
    if op == "**" then Power(left, right)
    else if op == "&&" then AndAlso(left, right)
    else if op == "||" then OrElse(left, right)
    else Binary(if Rank(op) >= 1 then Rank(op) - 1 else 0, op, left, right)
  }

  function Result(x: Parsed, store: Store): Value {
    match x
    case Number(v) => Val(v, store)
    case Malformed(e) => Fail(e, store)
  }

  function LeftLevel(op: string): int {
    if op == "**" then 14 else 4 + Rank(op)
  }

  function RightLevel(op: string): int {
    if op == "**" then 13 else 5 + Rank(op)
  }

  /** Trees of an operator over operands that leave the variables alone. */
  lemma TreeOf(op: string, left: Expr, right: Expr, k: nat, depth: nat, store: Store, x: Parsed, y: Parsed)
    requires IsOperator(op) && Valid(left) && Valid(right) && depth <= MAX_RECURSION && k <= 4 + Rank(op) <= 13
    requires Eval(left, depth, store) == Result(x, store) && Eval(right, depth, store) == Result(y, store)
    ensures var e := Tree(op, left, right);
            && Valid(e) && Eval(e, depth, store) == Result(Meaning(op, x, y), store)
            && 0 <= LeftLevel(op) <= 15 && 0 <= RightLevel(op) <= 15
            && Print(e, k) == Print(left, LeftLevel(op)) + (op + " " + Print(right, RightLevel(op)))
            && Nest(e, k) <= 1 + Max(Nest(left, LeftLevel(op)), Nest(right, RightLevel(op)))
  {
    hide Rank, Print, Nest, Eval, Meaning, IsOperator, Valid, Level;
    TreeLevel(op, left, right);
    TreeText(op, left, right, k);
    TreeValue(op, left, right, depth, store, x, y);
  }

  lemma TreeText(op: string, left: Expr, right: Expr, k: nat)
    requires IsOperator(op) && Valid(left) && Valid(right) && k <= 4 + Rank(op) <= 13
    requires Valid(Tree(op, left, right)) && Level(Tree(op, left, right)) == 4 + Rank(op)
    ensures var e := Tree(op, left, right);
            && 0 <= LeftLevel(op) <= 15 && 0 <= RightLevel(op) <= 15
            && Print(e, k) == Print(left, LeftLevel(op)) + (op + " " + Print(right, RightLevel(op)))
            && Nest(e, k) <= 1 + Max(Nest(left, LeftLevel(op)), Nest(right, RightLevel(op)))
  {
    hide Rank, Valid, IsOperator, Print, Nest, Level, LevelOperators;
    RankKinds(op);
    if op == "**" {
      PowerText(left, right, k);
    } else if op == "&&" {
      AndText(left, right, k);
    } else if op == "||" {
      OrText(left, right, k);
    } else {
      BinaryText(Rank(op) - 1, op, left, right, k);
    }
  }

  lemma PowerText(left: Expr, right: Expr, k: nat)
    requires Valid(left) && Valid(right) && k <= 13
    ensures Print(Power(left, right), k) == Print(left, 14) + ("**" + " " + Print(right, 13))
    ensures Nest(Power(left, right), k) <= 1 + Max(Nest(left, 14), Nest(right, 13))
  {
  }

  lemma AndText(left: Expr, right: Expr, k: nat)
    requires Valid(left) && Valid(right) && k <= 4
    ensures Print(AndAlso(left, right), k) == Print(left, 4) + ("&&" + " " + Print(right, 5))
    ensures Nest(AndAlso(left, right), k) == Max(Nest(left, 4), Nest(right, 5))
  {
  }

  lemma OrText(left: Expr, right: Expr, k: nat)
    requires Valid(left) && Valid(right) && k <= 3
    ensures Print(OrElse(left, right), k) == Print(left, 3) + ("||" + " " + Print(right, 4))
    ensures Nest(OrElse(left, right), k) == Max(Nest(left, 3), Nest(right, 4))
  {
  }

  lemma BinaryText(level: nat, op: string, left: Expr, right: Expr, k: nat)
    requires Valid(Binary(level, op, left, right)) && Valid(left) && Valid(right) && level < 8 && k <= 5 + level
    ensures Print(Binary(level, op, left, right), k) == Print(left, 5 + level) + (op + " " + Print(right, 6 + level))
    ensures Nest(Binary(level, op, left, right), k) == Max(Nest(left, 5 + level), Nest(right, 6 + level))
  {
    hide Valid;
  }

  lemma TreeValue(op: string, left: Expr, right: Expr, depth: nat, store: Store, x: Parsed, y: Parsed)
    requires Valid(left) && Valid(right) && Valid(Tree(op, left, right)) && depth <= MAX_RECURSION
    requires Eval(left, depth, store) == Result(x, store) && Eval(right, depth, store) == Result(y, store)
    ensures Eval(Tree(op, left, right), depth, store) == Result(Meaning(op, x, y), store)
  {
    hide Rank, Valid, Eval, Apply;
    if op == "**" {
      PowerValue(left, right, depth, store);
    } else if op == "&&" {
      AndValue(left, right, depth, store);
    } else if op == "||" {
      OrValue(left, right, depth, store);
    } else {
      BinaryValue(Tree(op, left, right), depth, store);
    }
  }

  lemma PowerValue(left: Expr, right: Expr, depth: nat, store: Store)
    requires Valid(left) && Valid(right) && depth <= MAX_RECURSION
    ensures Eval(Power(left, right), depth, store) == Behind("**", Eval(left, depth, store), right, depth)
  {
    hide Apply, Valid;
  }

  lemma BinaryValue(e: Expr, depth: nat, store: Store)
    requires e.Binary? && Valid(e) && Valid(e.left) && Valid(e.right) && depth <= MAX_RECURSION
    ensures Eval(e, depth, store) == Behind(e.symbol, Eval(e.left, depth, store), e.right, depth)
  {
    hide Apply, Valid;
  }

  /** The right operand and the operator behind a left operand. */
  function Behind(op: string, left: Value, right: Expr, depth: nat): Value
    requires Valid(right) && depth <= MAX_RECURSION
  {
    if left.Fail? then left
    else
      var w := Eval(right, depth, left.store);
      if w.Fail? then w else Checked(Apply(op, left.value, w.value), w.store)
  }

  lemma AndValue(left: Expr, right: Expr, depth: nat, store: Store)
    requires Valid(left) && Valid(right) && depth <= MAX_RECURSION
    ensures var v := Eval(left, depth, store);
            Eval(AndAlso(left, right), depth, store) ==
            if v.Fail? then v else if v.value == 0 then Val(0, v.store) else TruthOf(Eval(right, depth, v.store))
  {
    hide Valid;
  }

  lemma OrValue(left: Expr, right: Expr, depth: nat, store: Store)
    requires Valid(left) && Valid(right) && depth <= MAX_RECURSION
    ensures var v := Eval(left, depth, store);
            Eval(OrElse(left, right), depth, store) ==
            if v.Fail? then v else if v.value != 0 then Val(1, v.store) else TruthOf(Eval(right, depth, v.store))
  {
    hide Valid;
  }

  lemma TreeLevel(op: string, left: Expr, right: Expr)
    requires IsOperator(op) && Valid(left) && Valid(right)
    ensures Valid(Tree(op, left, right)) && Level(Tree(op, left, right)) == 4 + Rank(op)
  {
    hide Rank, LevelOperators, IsOperator;
    RankKinds(op);
    if op == "**" {
    } else if op == "&&" {
    } else if op == "||" {
    } else {
      assert Tree(op, left, right) == Binary(Rank(op) - 1, op, left, right);
    }
  }

  /** The grammar level of every operator. */
  lemma RankKinds(op: string)
    requires IsOperator(op)
    ensures op == "**" ==> Rank(op) == 9
    ensures op == "&&" ==> Rank(op) == 0
    ensures op == "||" ==> Rank(op) == -1
    ensures op != "**" && op != "&&" && op != "||" ==> 1 <= Rank(op) <= 8 && op in LevelOperators(Rank(op) - 1)
  {
    var i :| 0 <= i < |OPERATORS| && OPERATORS[i] == op;
    if i < 5 {
    } else if i < 11 {
    } else {
    }
  }

  lemma RankBounds(op: string)
    ensures -1 <= Rank(op) <= 9 && (IsOperator(op) && Rank(op) == 9 ==> op == "**") && (op == "**" ==> Rank(op) == 9)
  {
  }

  lemma Consts(n: nat, depth: nat, store: Store)
    requires n <= I64_MAX && depth <= MAX_RECURSION
    ensures Valid(Const(n)) && Eval(Const(n), depth, store) == Result(Number(n), store)
    ensures forall k: nat :: k <= 15 ==> Print(Const(n), k) == Decimal(n) + " " && Nest(Const(n), k) == 0
  {
  }

  // ----- Unary operators and the conditional -----

  /** A unary operator binds tighter than every binary one. */
  lemma UnaryBindsTighter(u: char, a: nat, g: string, b: nat, depth: nat, store: Store)
    requires IsUnary(u) && a <= I64_MAX && b <= I64_MAX && IsOperator(g) && depth <= MAX_RECURSION
    ensures Evaluate([u, ' '] + (Decimal(a) + " ") + (g + " " + (Decimal(b) + " ")), depth, store) ==
            (Meaning(g, Number(UnaryValue(u, a)), Number(b)), store)
  {
    hide Nest, Eval, Evaluate, Decimal, Rank, IsOperator, Meaning, Tree, Valid, UnaryValue;
    Consts(a, depth, store);
    Consts(b, depth, store);
    RankBounds(g);
    var x := Prefix(u, Const(a));
    UnaryText(u, a, LeftLevel(g), depth, store);
    TreeOf(g, x, Const(b), 0, depth, store, Number(UnaryValue(u, a)), Number(b));
    EvaluatePrinted(Tree(g, x, Const(b)), depth, store);
  }

  lemma UnaryText(u: char, a: nat, k: int, depth: nat, store: Store)
    requires IsUnary(u) && a <= I64_MAX && depth <= MAX_RECURSION && 0 <= k <= 14
    ensures var x := Prefix(u, Const(a));
            && Valid(x) && Print(x, k) == [u, ' '] + (Decimal(a) + " ") && Nest(x, k) == 1
            && Eval(x, depth, store) == Result(Number(UnaryValue(u, a)), store)
  {
    hide Decimal, UnaryValue;
  }

  /** A conditional takes its middle part exactly when the condition is not zero. */
  lemma ConditionalExactly(a: nat, b: nat, c: nat, depth: nat, store: Store)
    requires a <= I64_MAX && b <= I64_MAX && c <= I64_MAX && depth <= MAX_RECURSION
    ensures Evaluate(Decimal(a) + " " + ("?" + " " + (Decimal(b) + " " + (":" + " " + (Decimal(c) + " ")))), depth,
                     store) ==
            (Number(if a == 0 then c else b), store)
  {
    hide Nest, Evaluate, Decimal;
    Consts(a, depth, store);
    Consts(b, depth, store);
    Consts(c, depth, store);
    var e := Choose(Const(a), Const(b), Const(c));
    ChooseText(e);
    EvaluatePrinted(e, depth, store);
  }

  lemma ChooseText(e: Expr)
    requires e.Choose? && e.cond.Const? && e.left.Const? && e.right.Const? && Valid(e)
    ensures Nest(e, 0) <= 2
    ensures Print(e, 0) == Print(e.cond, 3) + ("?" + " " + (Print(e.left, 0) + (":" + " " + Print(e.right, 2))))
  {
    hide Decimal;
  }

  // ----- Variables -----

  /** A variable reads back as the integer it was assigned, whatever stood there before, and every other
      variable keeps its text. */
  lemma AssignedReadsBack(depth: nat, place: Place, value: i64, store: Store)
    requires depth <= MAX_RECURSION
    ensures var after := Assigned(store, place, value);
            && VariableValue(depth, place, after) == (Number(value), after)
            && (forall other :: other != place ==>
                  (other in after <==> other in store) && (other in store ==> after[other] == store[other]))
  {
    hide Evaluate;
    PrintedReads(value);
  }

  /** What a variable counts as: unset or blank it is zero, a plain integer is itself, and any other text is
      evaluated one level deeper, up to the recursion limit. */
  lemma VariableExactly(depth: nat, place: Place, store: Store)
    requires depth <= MAX_RECURSION
    ensures place !in store || Trim(store[place]) == "" ==> VariableValue(depth, place, store) == (Number(0), store)
    ensures place in store && ParseI64(Trim(store[place])).Some? ==>
              VariableValue(depth, place, store) == (Number(ParseI64(Trim(store[place])).value), store)
    ensures place in store && Trim(store[place]) != "" && ParseI64(Trim(store[place])).None? ==>
              VariableValue(depth, place, store) ==
              if depth < MAX_RECURSION then Evaluate(Trim(store[place]), depth + 1, store)
              else (Malformed(RecursionTooDeep), store)
  {
    hide Evaluate, Trim;
  }

  lemma PrintedReads(value: i64)
    ensures var text := Printed(value); Trim(text) == text && text != "" && ParseI64(text) == Some(value)
  {
    hide Trim, Decimal;
    var digits := Decimal(if value < 0 then 0 - value else value);
    DecimalRoundTrip(if value < 0 then 0 - value else value);
    var text := Printed(value);
    assert digits != "" by { DecimalNonempty(if value < 0 then 0 - value else value); }
    if value < 0 {
      assert text[1..] == digits;
    } else {
      assert text[0] == digits[0];
    }
    NothingTrimmed(text);
  }

  lemma DecimalNonempty(n: nat)
    ensures Decimal(n) != ""
  {
  }

  lemma NothingTrimmed(s: string)
    requires s != "" && !IsBlank(s[0]) && !IsBlank(s[|s| - 1])
    ensures Trim(s) == s
  {
    assert SkipBlanks(s, 0) == 0;
    assert s[0..] == s;
  }
}
