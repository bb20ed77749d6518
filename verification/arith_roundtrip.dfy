// The proof that parsing printed trees is right, one grammar level at a time.

module ArithRoundTrip {
  import opened Basics
  import opened ArithNumbers
  import opened ArithGrammar
  import opened ArithOperators
  import opened ArithPrint

  // ----- Tokens that may follow an operand -----

  /** Tokens that can follow an operand; the empty token is the end of the text. */
  predicate IsFollow(f: string) {
    f in ["", ")", ":", ",", "?", "||", "&&", "**"] || f in ASSIGNMENTS ||
    exists level | 0 <= level < 8 :: f in LevelOperators(level)
  }

  /** The level whose tail consumes a token (-1 if none does) and the token's length, from its first
      three characters with blanks past its end. */
  function ClassOf(c: char, d: char, e: char): (int, nat) {
    if c == ',' then (0, 1)
    else if (c == '<' || c == '>') && d == c then if e == '=' then (1, 3) else (10, 2)
    else if c in COMPOUND && d == '=' then (1, 2)
    else if c == '=' then if d == '=' then (8, 2) else (1, 1)
    else if c == '!' then (8, 2)
    else if c == '?' then (2, 1)
    else if c == '|' then if d == '|' then (3, 2) else (5, 1)
    else if c == '&' then if d == '&' then (4, 2) else (7, 1)
    else if c == '^' then (6, 1)
    else if c == '<' || c == '>' then if d == '=' then (9, 2) else (9, 1)
    else if c == '+' || c == '-' then (11, 1)
    else if c == '*' && d == '*' then (13, 2)
    else if c == '*' || c == '/' || c == '%' then (12, 1)
    else (-1, 1)
  }

  function CharOf(f: string, i: nat): char {
    if i < |f| then f[i] else ' '
  }

  function TailOf(f: string): int {
    if f == "" then -1 else ClassOf(f[0], CharOf(f, 1), CharOf(f, 2)).0
  }

  /** The token at `q`, followed by a blank, is `f`. */
  predicate FollowedBy(t: string, q: nat, f: string) {
    if f == "" then q == |t| else StartsAt(t, q, f + " ")
  }

  /** Tokens allowed after an operand of level `k`: none that a tighter tail would take, and for
      the right-associative levels none that the level itself would take. */
  predicate Allowed(k: nat, f: string) {
    IsFollow(f) && TailOf(f) <= k && (k == 1 || k == 2 || k == 13 ==> TailOf(f) < k)
  }

  /** What is known of a token from its characters. */
  predicate Classified(f: string) {
    && 1 <= |f| <= 3
    && ClassOf(f[0], CharOf(f, 1), CharOf(f, 2)).1 == |f|
    && (forall i :: 0 <= i < |f| ==> !IsBlank(f[i]))
    && (f[0] == '!' ==> CharOf(f, 1) == '=')
  }

  lemma AssignmentClassified(f: string)
    requires f in ASSIGNMENTS
    ensures Classified(f)
  {
  }

  lemma LevelClassified(f: string, level: nat)
    requires level < 8 && f in LevelOperators(level)
    ensures Classified(f) && TailOf(f) == 5 + level
  {
  }

  lemma TokenClassified(f: string)
    requires IsFollow(f) && f != ""
    ensures Classified(f)
  {
    hide Classified;
    if f in ASSIGNMENTS {
      AssignmentClassified(f);
    } else if level :| 0 <= level < 8 && f in LevelOperators(level) {
      LevelClassified(f, level);
    } else {
      OtherClassified(f);
    }
  }

  lemma OtherClassified(f: string)
    requires f in [")", ":", ",", "?", "||", "&&", "**"]
    ensures Classified(f)
  {
  }

  /** The characters of the token at `q`. */
  lemma FollowChars(t: string, q: nat, f: string)
    requires q <= |t| && IsFollow(f) && FollowedBy(t, q, f)
    ensures f == "" ==> CharAt(t, q) == '\0' && CharAt(t, q + 1) == '\0'
    ensures f != "" ==>
              && Classified(f)
              && CharAt(t, q) == f[0] && CharAt(t, q + 1) == CharOf(f, 1)
              && (|f| > 1 ==> CharAt(t, q + 2) == CharOf(f, 2))
    ensures SkipBlanks(t, q) == q
  {
    hide IsFollow, TailOf, ClassOf;
    if f != "" {
      TokenClassified(f);
      var g := f + " ";
      forall i | 0 <= i < |g| ensures t[q + i] == g[i] {
        assert t[q..q + |g|][i] == t[q + i];
      }
    }
  }

  /** The operators a level's tail looks for. */
  function TailOperators(k: nat): seq<string> {
    if k == 1 then ASSIGNMENTS else if k == 13 then ["**"] else if k >= 5 then LevelOperators(k - 5) else []
  }

  /** A level's tail sees exactly the tokens of that level. */
  lemma OperatorHere(k: nat, t: string, q: nat, f: string)
    requires q <= |t| && (k == 1 || 5 <= k <= 13) && IsFollow(f) && FollowedBy(t, q, f) && TailOf(f) <= k
    ensures OperatorAt(t, q, TailOperators(k)) == if TailOf(f) == k then Some(f) else None
  {
    hide OperatorAt, StartsAt, SkipBlanks, IsFollow;
    FollowChars(t, q, f);
    assert |f| == 1 ==> f == [f[0]];
    assert |f| == 2 ==> f == [f[0], f[1]];
    assert |f| == 3 ==> f == [f[0], f[1], f[2]];
    if k == 1 { AssignmentOperator(t, q); }
    else if k == 5 { OneOperator(t, q, '|'); }
    else if k == 6 { OneOperator(t, q, '^'); }
    else if k == 7 { OneOperator(t, q, '&'); }
    else if k == 8 { EqualityOperator(t, q); }
    else if k == 9 { OrderOperator(t, q); }
    else if k == 10 { ShiftOperator(t, q); }
    else if k == 11 { SumOperator(t, q); }
    else if k == 12 { ProductOperator(t, q); }
    else { PowerOperator(t, q); }
  }

  // ----- Blanks -----

  lemma SkipTwice(t: string, p: nat)
    requires p <= |t|
    ensures SkipBlanks(t, SkipBlanks(t, p)) == SkipBlanks(t, p)
  {
  }

  lemma PrimarySkipsBlanks(t: string, depth: nat, s: State, skip: bool)
    requires depth <= MAX_RECURSION && s.pos <= |t|
    ensures Primary(t, depth, s, skip) == Primary(t, depth, s.(pos := SkipBlanks(t, s.pos)), skip)
  {
    hide Parse, Variable, Constant, SkipBlanks;
    SkipTwice(t, s.pos);
  }

  lemma PostfixSkipsBlanks(t: string, depth: nat, s: State, skip: bool)
    requires depth <= MAX_RECURSION && s.pos <= |t|
    ensures Postfix(t, depth, s, skip) == Postfix(t, depth, s.(pos := SkipBlanks(t, s.pos)), skip)
  {
    hide Primary, SkipBlanks;
    PrimarySkipsBlanks(t, depth, s, skip);
  }

  lemma UnarySkipsBlanks(t: string, depth: nat, s: State, skip: bool)
    requires depth <= MAX_RECURSION && s.pos <= |t|
    ensures Unary(t, depth, s, skip) == Unary(t, depth, s.(pos := SkipBlanks(t, s.pos)), skip)
  {
    hide Postfix, SkipBlanks, PrefixIncrement;
    SkipTwice(t, s.pos);
  }

  /** Parsing starts by skipping blanks. */
  lemma {:induction false} ParseSkipsBlanks(k: nat, t: string, depth: nat, s: State, skip: bool)
    requires k <= 15 && depth <= MAX_RECURSION && s.pos <= |t|
    ensures Parse(k, t, depth, s, skip) == Parse(k, t, depth, s.(pos := SkipBlanks(t, s.pos)), skip)
    decreases 15 - k
  {
    hide Tail, Unary, Postfix, SkipBlanks;
    if k == 15 {
      PostfixSkipsBlanks(t, depth, s, skip);
    } else if k == 14 {
      UnarySkipsBlanks(t, depth, s, skip);
    } else {
      ParseSkipsBlanks(k + 1, t, depth, s, skip);
    }
  }

  /** Equal results up to blanks the cursor has not passed yet. */
  predicate Same(t: string, a: Result, b: Result) {
    if a.Err? || b.Err? then a == b
    else
      && a.operand == b.operand && a.state.nesting == b.state.nesting && a.state.store == b.state.store
      && a.state.pos <= |t| && b.state.pos <= |t| && SkipBlanks(t, a.state.pos) == SkipBlanks(t, b.state.pos)
  }

  /** What level `k` makes of a finished operand. */
  function After(k: nat, t: string, depth: nat, r: Result, skip: bool): Result
    requires k <= 15 && depth <= MAX_RECURSION && (r.Ok? ==> r.state.pos <= |t|)
  {
    if r.Err? || k >= 14 then r else Tail(k, t, depth, r.operand, r.state, skip)
  }

  lemma TailSkipsBlanks(k: nat, t: string, depth: nat, left: Operand, s: State, skip: bool)
    requires k <= 13 && depth <= MAX_RECURSION && s.pos <= |t|
    ensures Tail(k, t, depth, left, s, skip) == Tail(k, t, depth, left, s.(pos := SkipBlanks(t, s.pos)), skip)
  {
    hide CommaTail, AssignTail, ConditionalTail, OrTail, AndTail, BinaryTail, PowerTail, SkipBlanks;
    SkipTwice(t, s.pos);
  }

  lemma AfterSame(k: nat, t: string, depth: nat, a: Result, b: Result, skip: bool)
    requires k <= 13 && depth <= MAX_RECURSION && Same(t, a, b)
    ensures After(k, t, depth, a, skip) == After(k, t, depth, b, skip)
  {
    hide Tail, SkipBlanks;
    if a.Ok? {
      TailSkipsBlanks(k, t, depth, a.operand, a.state, skip);
      TailSkipsBlanks(k, t, depth, b.operand, b.state, skip);
    }
  }

  /** A tail that does not take the next token leaves the operand as it is. */
  lemma TailStops(k: nat, t: string, depth: nat, left: Operand, s: State, skip: bool, f: string)
    requires k <= 13 && depth <= MAX_RECURSION && s.pos <= |t|
    requires IsFollow(f) && FollowedBy(t, s.pos, f) && TailOf(f) < k
    ensures Tail(k, t, depth, left, s, skip) == Ok(left, s)
  {
    hide Parse, OperatorAt, StartsAt, IsFollow, SkipBlanks;
    FollowChars(t, s.pos, f);
    if k == 1 || k >= 5 {
      OperatorHere(k, t, s.pos, f);
    } else {
      StartsByChars(t, s.pos, if k == 0 then "," else if k == 2 then "?" else if k == 3 then "||" else "&&");
    }
  }

  /** If level `k + 1` read an operand, level `k` applies its tail to it. */
  lemma Descend(k: nat, t: string, depth: nat, s: State, skip: bool, r: Result, f: string)
    requires k <= 13 && depth <= MAX_RECURSION && s.pos <= |t|
    requires r.Ok? ==> r.state.pos <= |t| && IsFollow(f) && FollowedBy(t, r.state.pos, f) && TailOf(f) <= k
    requires Same(t, Parse(k + 1, t, depth, s, skip), After(k + 1, t, depth, r, skip))
    ensures Same(t, Parse(k, t, depth, s, skip), After(k, t, depth, r, skip))
  {
    hide Tail, Unary, Postfix, SkipBlanks, IsFollow;
    var a := Parse(k + 1, t, depth, s, skip);
    if r.Ok? && k + 1 <= 13 {
      TailStops(k + 1, t, depth, r.operand, r.state, skip, f);
    }
    AfterSame(k, t, depth, a, r, skip);
    assert Parse(k, t, depth, s, skip) == After(k, t, depth, a, skip);
  }

  // ----- Splitting printed text -----

  lemma Split(t: string, p: nat, u: string, v: string)
    requires StartsAt(t, p, u + v)
    ensures StartsAt(t, p, u) && StartsAt(t, p + |u|, v)
  {
    var w := t[p..p + |u + v|];
    assert t[p..p + |u|] == w[..|u|] == u;
    assert t[p + |u|..p + |u| + |v|] == w[|u|..] == v;
  }

  /** A token with its blank: the cursor behind the token skips to the operand behind the blank. */
  lemma SplitToken(t: string, p: nat, token: string, v: string)
    requires StartsAt(t, p, token + " " + v) && v != "" && !IsBlank(v[0])
    ensures FollowedBy(t, p, token) || token == ""
    ensures StartsAt(t, p, token) && StartsAt(t, p + |token| + 1, v)
    ensures p + |token| + 1 <= |t| && SkipBlanks(t, p + |token|) == p + |token| + 1
  {
    Split(t, p, token + " ", v);
    Split(t, p, token, " ");
    assert t[p + |token|..p + |token| + 1][0] == t[p + |token|];
    assert t[p + |token| + 1..p + |token| + 1 + |v|][0] == v[0];
  }

  /** Printed text starts with a character that starts an operand. */
  predicate StartsOperand(c: char) {
    IsDigit(c) || IsNameStart(c) || c == '(' || IsUnary(c)
  }

  lemma {:induction false} PrintStarts(e: Expr, k: nat)
    requires Valid(e) && k <= 15
    ensures Print(e, k) != "" && StartsOperand(Print(e, k)[0]) && !IsBlank(Print(e, k)[0])
    ensures k == 15 || Level(e) == 15 ==> !IsUnary(Print(e, k)[0])
    decreases e, k > Level(e)
  {
    if k <= Level(e) {
      match e
      case Const(n) => DecimalRoundTrip(n); assert IsDigit(Decimal(n)[0]);
      case Power(left, _) => PrintStarts(left, 14);
      case Binary(level, _, left, _) => PrintStarts(left, 5 + level);
      case AndAlso(left, _) => PrintStarts(left, 4);
      case OrElse(left, _) => PrintStarts(left, 3);
      case Choose(cond, _, _) => PrintStarts(cond, 3);
      case Comma(left, _) => PrintStarts(left, 0);
      case _ =>
    }
  }

  // ----- Operands -----

  lemma {:induction false} NameEnds(t: string, p: nat, name: string, i: nat)
    requires StartsAt(t, p, name + " ") && (forall j :: 0 <= j < |name| ==> IsNameChar(name[j])) && i <= |name|
    ensures SkipName(t, p + i) == p + |name|
    decreases |name| - i
  {
    var w := name + " ";
    assert t[p..p + |w|][i] == t[p + i];
    if i < |name| {
      NameEnds(t, p, name, i + 1);
    }
  }

  lemma {:induction false} DigitsEnd(t: string, p: nat, digits: string, i: nat)
    requires StartsAt(t, p, digits + " ") && AllDigits(digits) && i <= |digits|
    ensures SkipConstant(t, p + i) == p + |digits|
    decreases |digits| - i
  {
    var w := digits + " ";
    assert t[p..p + |w|][i] == t[p + i];
    if i < |digits| {
      DigitsEnd(t, p, digits, i + 1);
    }
  }

  lemma ConstOperand(n: nat, t: string, depth: nat, s: State, skip: bool)
    requires n <= I64_MAX && depth <= MAX_RECURSION && s.pos <= |t| && StartsAt(t, s.pos, Decimal(n) + " ")
    ensures Postfix(t, depth, s, skip) == Ok(Rvalue(n), s.(pos := s.pos + |Decimal(n)|))
  {
    hide Parse, Variable, Constant, DecimalValue, Digits;
    var digits, p := Decimal(n), s.pos;
    DecimalRoundTrip(n);
    DecimalConstant(n);
    DigitsEnd(t, p, digits, 1);
    Split(t, p, digits, " ");
    assert t[p..p + |digits|][0] == t[p];
    assert IsDigit(t[p]) && SkipBlanks(t, p) == p;
  }

  /** A name read as an operand, not yet looking at what follows. */
  lemma NamePrimary(name: string, t: string, depth: nat, s: State, skip: bool)
    requires IsName(name) && depth <= MAX_RECURSION && s.pos <= |t| && StartsAt(t, s.pos, name + " ")
    ensures SkipBlanks(t, s.pos) == s.pos
    ensures Primary(t, depth, s, skip) == Fetch(depth, Scalar(name), s.(pos := s.pos + |name|), skip)
  {
    hide Parse, Fetch, Constant;
    var p := s.pos;
    NameEnds(t, p, name, 1);
    Split(t, p, name, " ");
    assert t[p..p + |name|][0] == t[p];
    assert t[p + |name|..p + |name| + 1][0] == t[p + |name|];
    assert !IsBlank(name[0]) && !IsDigit(name[0]) && name[0] != '(';
  }

  /** No increment operator stands where a follow token stands. */
  lemma NoIncrement(t: string, q: nat, f: string)
    requires q <= |t| && IsFollow(f) && FollowedBy(t, q, f)
    ensures Increment(t, q) == None
  {
    hide IsFollow, StartsAt, SkipBlanks;
    FollowChars(t, q, f);
    StartsByChars(t, q, "++");
    StartsByChars(t, q, "--");
  }

  lemma VarOperand(name: string, t: string, depth: nat, s: State, skip: bool, f: string)
    requires IsName(name) && depth <= MAX_RECURSION && s.pos <= |t| && StartsAt(t, s.pos, name + " ")
    requires IsFollow(f) && FollowedBy(t, s.pos + |name| + 1, f)
    ensures Postfix(t, depth, s, skip) == Outcome(Var(name), 15, depth, s.(pos := s.pos + |name| + 1), skip)
  {
    hide Primary, SkipBlanks, Increment, IsFollow, VariableValue;
    NamePrimary(name, t, depth, s, skip);
    Behind(t, s.pos, name, f);
    NoIncrement(t, s.pos + |name| + 1, f);
  }

  /** The cursor directly behind a token skips to the follow token. */
  lemma Behind(t: string, p: nat, token: string, f: string)
    requires StartsAt(t, p, token + " ") && IsFollow(f) && FollowedBy(t, p + |token| + 1, f)
    ensures p + |token| + 1 <= |t| && SkipBlanks(t, p + |token|) == p + |token| + 1
  {
    hide IsFollow;
    Split(t, p, token, " ");
    assert t[p + |token|..p + |token| + 1][0] == t[p + |token|];
    FollowChars(t, p + |token| + 1, f);
  }

  /** A postfix expression that is a variable followed by an increment operator. */
  lemma IncrementStep(t: string, depth: nat, s: State, name: string, up: bool, skip: bool, p: nat)
    requires depth <= MAX_RECURSION && s.pos + |name| <= |t| && SkipBlanks(t, s.pos + |name|) == p &&
             Increment(t, p) == Some(if up then 1 else -1)
    requires Primary(t, depth, s, skip) == Fetch(depth, Scalar(name), s.(pos := s.pos + |name|), skip) && IsName(name)
    ensures Postfix(t, depth, s, skip) == Outcome(PostStep(name, up), 15, depth, s.(pos := p + 2), skip)
  {
    hide Primary, SkipBlanks, VariableValue, Assigned, Increment, Wrap;
  }

  lemma PostStepOperand(name: string, up: bool, t: string, depth: nat, s: State, skip: bool, f: string)
    requires IsName(name) && depth <= MAX_RECURSION && s.pos <= |t|
    requires StartsAt(t, s.pos, name + " " + (StepText(up) + " "))
    requires IsFollow(f) && FollowedBy(t, s.pos + |name| + 4, f)
    ensures Same(t, Postfix(t, depth, s, skip),
                 Outcome(PostStep(name, up), 15, depth, s.(pos := s.pos + |name| + 4), skip))
  {
    hide Primary, SkipBlanks, IsFollow, StartsAt, Postfix, Eval, Increment, Fetch;
    var p := s.pos;
    SplitToken(t, p, name, StepText(up) + " ");
    Split(t, p, name + " ", StepText(up) + " ");
    NamePrimary(name, t, depth, s, skip);
    Split(t, p + |name| + 1, StepText(up), " ");
    IncrementHere(t, p + |name| + 1, up);
    IncrementStep(t, depth, s, name, up, skip, p + |name| + 1);
    StepBehind(t, depth, s.(pos := p + |name| + 3), name, up, skip, f);
  }

  lemma StepBehind(t: string, depth: nat, s: State, name: string, up: bool, skip: bool, f: string)
    requires IsName(name) && depth <= MAX_RECURSION && s.pos >= 2 && StartsAt(t, s.pos - 2, StepText(up) + " ")
    requires IsFollow(f) && FollowedBy(t, s.pos + 1, f)
    ensures Same(t, Outcome(PostStep(name, up), 15, depth, s, skip),
                 Outcome(PostStep(name, up), 15, depth, s.(pos := s.pos + 1), skip))
  {
    hide SkipBlanks, IsFollow, StartsAt, VariableValue, Assigned;
    Behind(t, s.pos - 2, StepText(up), f);
    SkipTwice(t, s.pos);
  }

  lemma IncrementHere(t: string, p: nat, up: bool)
    requires StartsAt(t, p, StepText(up))
    ensures Increment(t, p) == Some(if up then 1 else -1)
  {
    StartsByChars(t, p, "--");
    StartsByChars(t, p, "++");
  }

  lemma PreStepOperand(name: string, up: bool, t: string, depth: nat, s: State, skip: bool, f: string)
    requires IsName(name) && depth <= MAX_RECURSION && s.pos <= |t|
    requires StartsAt(t, s.pos, StepText(up) + " " + (name + " "))
    requires IsFollow(f) && FollowedBy(t, s.pos + |name| + 4, f)
    ensures Unary(t, depth, s, skip) == Outcome(PreStep(name, up), 14, depth, s.(pos := s.pos + |name| + 4), skip)
  {
    hide Postfix, SkipBlanks, IsFollow, VariableValue, StartsAt, Assigned;
    var p := s.pos;
    SplitToken(t, p, StepText(up), name + " ");
    StartsByChars(t, p, StepText(up));
    StartsByChars(t, p, "++");
    StepHere(t, p, name, up);
    PostfixSkipsBlanks(t, depth, s.(pos := p + 2), skip);
    VarOperand(name, t, depth, s.(pos := p + 3), skip, f);
  }

  lemma StepHere(t: string, p: nat, name: string, up: bool)
    requires IsName(name) && StartsAt(t, p, StepText(up)) && StartsAt(t, p + 3, name + " ")
    requires SkipBlanks(t, p + 2) == p + 3
    ensures SkipBlanks(t, p) == p && PrefixIncrement(t, p) == Some(if up then 1 else -1)
  {
    assert t[p + 3..p + 3 + |name + " "|][0] == t[p + 3];
    assert t[p..p + 2][0] == t[p];
  }

  // ----- The induction -----

  /** The situation in which a tree's text is parsed: its text at the cursor, an allowed token
      behind it, and room for its nesting. */
  predicate ReadyAt(e: Expr, k: nat, t: string, depth: nat, p: nat, nesting: nat, f: string) {
    && Valid(e) && k <= 15 && depth <= MAX_RECURSION && p + |Print(e, k)| <= |t|
    && StartsAt(t, p, Print(e, k)) && Allowed(k, f) && FollowedBy(t, p + |Print(e, k)|, f)
    && nesting + Nest(e, k) <= MAX_NESTING
  }

  predicate Ready(e: Expr, k: nat, t: string, depth: nat, s: State, f: string) {
    ReadyAt(e, k, t, depth, s.pos, s.nesting, f)
  }

  /** The state behind the text of `e`. */
  function Past(e: Expr, k: nat, s: State): State
    requires Valid(e) && k <= 15
  {
    s.(pos := s.pos + |Print(e, k)|)
  }

  /** Parsing the text of `e` at level `k` is applying that level's tail to the value of `e`. */
  ghost predicate Right(e: Expr, k: nat, t: string, depth: nat, s: State, skip: bool)
    requires Valid(e) && k <= 15 && depth <= MAX_RECURSION && s.pos + |Print(e, k)| <= |t|
  {
    Same(t, Parse(k, t, depth, s, skip), After(k, t, depth, Outcome(e, k, depth, Past(e, k, s), skip), skip))
  }

  lemma {:induction false} ParsesRight(e: Expr, k: nat, t: string, depth: nat, s: State, skip: bool, f: string)
    requires Ready(e, k, t, depth, s, f)
    ensures Right(e, k, t, depth, s, skip)
    decreases e, 60 + if k > Level(e) then 40 - k else 16 - k
  {
    hide Parse, Tail, Outcome, Same, StartsAt, IsFollow, Print, Nest, Right;
    ReadyValid(e, k, t, depth, s, f);
    if e.Var? {
      VarRight(e, k, t, depth, s, skip, f);
    } else if k < 14 && k != Level(e) {
      SamePrint(e, k);
      ParsesRight(e, k + 1, t, depth, s, skip, f);
      FromTighter(e, k, t, depth, s, skip, f);
    } else if k == 14 && Level(e) != 14 {
      SamePrint(e, 14);
      ParsesRight(e, 15, t, depth, s, skip, f);
      FromPostfix(e, t, depth, s, skip, f);
    } else if k > Level(e) {
      FromParentheses(e, t, depth, s, skip, f);
    } else {
      match e
      case Const(_) => AtomRight(e, t, depth, s, skip, f);
      case PostStep(_, _) => AtomRight(e, t, depth, s, skip, f);
      case PreStep(_, _) => AtomRight(e, t, depth, s, skip, f);
      case Comma(_, _) => CommaRight(e, t, depth, s, skip, f);
      case Prefix(_, _) => PrefixRight(e, t, depth, s, skip, f);
      case Power(_, _) => PowerRight(e, t, depth, s, skip, f);
      case Binary(_, _, _, _) => BinaryRight(e, t, depth, s, skip, f);
      case AndAlso(_, _) => LogicRight(4, e, t, depth, s, skip, f);
      case OrElse(_, _) => LogicRight(3, e, t, depth, s, skip, f);
      case Choose(_, _, _) => ChooseRight(e, t, depth, s, skip, f);
      case Assign(_, _, _) => AssignRight(e, t, depth, s, skip, f);
    }
  }

  /** Printing does not depend on the level as long as no parentheses are needed or all are. */
  lemma SamePrint(e: Expr, k: nat)
    requires Valid(e) && k < 15 && k != Level(e)
    ensures Print(e, k) == Print(e, k + 1) && Nest(e, k) == Nest(e, k + 1) && PlaceOf(e, k) == PlaceOf(e, k + 1)
  {
  }

  lemma FromTighter(e: Expr, k: nat, t: string, depth: nat, s: State, skip: bool, f: string)
    requires Ready(e, k, t, depth, s, f) && k < 14 && k != Level(e)
    requires s.pos + |Print(e, k + 1)| <= |t| && Right(e, k + 1, t, depth, s, skip)
    ensures Right(e, k, t, depth, s, skip)
  {
    hide Parse, Tail, Print, Nest, IsFollow, StartsAt, Same, Eval, SkipValue;
    SamePrint(e, k);
    Descend(k, t, depth, s, skip, Outcome(e, k, depth, Past(e, k, s), skip), f);
  }

  lemma FromPostfix(e: Expr, t: string, depth: nat, s: State, skip: bool, f: string)
    requires Ready(e, 14, t, depth, s, f) && Level(e) != 14
    requires s.pos + |Print(e, 15)| <= |t| && Right(e, 15, t, depth, s, skip)
    ensures Right(e, 14, t, depth, s, skip)
  {
    hide Print, Nest, IsFollow, StartsAt, Same, Postfix, Eval, SkipBlanks, SkipValue;
    SamePrint(e, 14);
    PrintStarts(e, 15);
    OperandHere(t, s.pos, Print(e, 15));
    assert Unary(t, depth, s, skip) == Postfix(t, depth, s, skip);
  }

  lemma {:induction false} VarRight(e: Expr, k: nat, t: string, depth: nat, s: State, skip: bool, f: string)
    requires e.Var? && Ready(e, k, t, depth, s, f)
    ensures Right(e, k, t, depth, s, skip)
    decreases 15 - k
  {
    hide Tail, IsFollow, StartsAt, Postfix, Unary, VariableValue, Nest, Eval, Print;
    VarText(e, k);
    if k == 15 {
      VarOperand(e.name, t, depth, s, skip, f);
    } else {
      SamePrint(e, k);
      VarRight(e, k + 1, t, depth, s, skip, f);
      if k == 14 {
        FromPostfix(e, t, depth, s, skip, f);
      } else {
        FromTighter(e, k, t, depth, s, skip, f);
      }
    }
  }

  lemma VarText(e: Expr, k: nat)
    requires e.Var? && Valid(e) && k <= 15
    ensures Print(e, k) == e.name + " " && Nest(e, k) == 0
  {
  }

  /** Text that starts an operand without a unary operator. */
  lemma OperandHere(t: string, p: nat, text: string)
    requires StartsAt(t, p, text) && text != "" && !IsBlank(text[0]) && !IsUnary(text[0])
    ensures p < |t| && SkipBlanks(t, p) == p && PrefixIncrement(t, p) == None && !IsUnary(t[p])
  {
    assert t[p..p + |text|][0] == t[p];
    if p + 2 <= |t| {
      assert t[p..p + 2][0] == t[p];
    }
  }

  /** A parenthesised text from `p` on: the open parenthesis, the inner text and the closing one. */
  predicate Enclosed(t: string, p: nat, inner: string) {
    var q := p + 2 + |inner|;
    && q + 2 <= |t| && t[p] == '(' && SkipBlanks(t, p) == p && SkipBlanks(t, p + 1) == p + 2
    && StartsAt(t, p + 2, inner) && FollowedBy(t, q, ")") && StartsAt(t, q, ")") && SkipBlanks(t, q) == q
  }

  lemma EnclosedText(t: string, p: nat, inner: string)
    requires StartsAt(t, p, "( " + inner + ") ") && inner != "" && !IsBlank(inner[0])
    ensures Enclosed(t, p, inner)
  {
    hide SkipBlanks, StartsAt, IsBlank;
    assert "( " + inner + ") " == "(" + " " + (inner + ") ");
    assert (inner + ") ")[0] == inner[0];
    SplitToken(t, p, "(", inner + ") ");
    Split(t, p + 2, inner, ")" + " ");
    Split(t, p + 2 + |inner|, ")", " ");
    StartsFits(t, p + 2 + |inner|, ")" + " ");
    ClosedHere(t, p + 2 + |inner|);
    OpenHere(t, p);
  }

  lemma ClosedHere(t: string, q: nat)
    requires StartsAt(t, q, ")")
    ensures SkipBlanks(t, q) == q
  {
    assert t[q..q + 1][0] == t[q];
  }

  /** The text of a parenthesised operand. */
  lemma ParenthesesText(e: Expr, t: string, depth: nat, s: State, f: string)
    requires Ready(e, 15, t, depth, s, f) && Level(e) < 15
    ensures Enclosed(t, s.pos, Print(e, 0)) && ReadyAt(e, 0, t, depth, s.pos + 2, s.nesting + 1, ")")
    ensures 4 + |Print(e, 0)| == |Print(e, 15)| && SkipBlanks(t, s.pos + 3 + |Print(e, 0)|) == s.pos + 4 + |Print(e, 0)|
  {
    hide Nest, IsFollow, StartsAt, SkipBlanks, IsBlank, Print, TailOf, Classified, StartsOperand, FollowedBy;
    var inner, p := Print(e, 0), s.pos;
    NestOfParentheses(e);
    PrintOfParentheses(e);
    PrintStarts(e, 0);
    EnclosedText(t, p, inner);
    ParenthesisFollows();
    ClosedBehind(t, p + 2 + |inner|, f);
  }

  lemma ClosedBehind(t: string, q: nat, f: string)
    requires FollowedBy(t, q, ")") && IsFollow(f) && FollowedBy(t, q + 2, f)
    ensures SkipBlanks(t, q + 1) == q + 2
  {
    hide IsFollow, SkipBlanks;
    Behind(t, q, ")", f);
  }

  function ParenthesesAfter(t: string, r: Result, nesting: nat): Result
    requires r.Ok? ==> r.state.pos <= |t|
  {
    match r
    case Err(error, store) => r
    case Ok(operand, st) =>
      if StartsAt(t, SkipBlanks(t, st.pos), ")") then
        Ok(Rvalue(operand.value), State(SkipBlanks(t, st.pos) + 1, nesting, st.store))
      else Err(MissingParenthesis, st.store)
  }

  lemma ParenthesesStep(t: string, depth: nat, s: State, skip: bool)
    requires depth <= MAX_RECURSION && s.pos < |t| && t[s.pos] == '(' && SkipBlanks(t, s.pos) == s.pos &&
             s.nesting + 1 <= MAX_NESTING
    ensures Parse(15, t, depth, s, skip) ==
            ParenthesesAfter(t, Parse(0, t, depth, State(s.pos + 1, s.nesting + 1, s.store), skip), s.nesting)
  {
    hide SkipBlanks, Variable, Constant, StartsAt, Tail;
    assert Primary(t, depth, s, skip) ==
           ParenthesesAfter(t, Parse(0, t, depth, State(s.pos + 1, s.nesting + 1, s.store), skip), s.nesting);
  }

  lemma ParenthesesOutcome(e: Expr, depth: nat, s: State, q: nat, skip: bool)
    requires Valid(e) && Level(e) < 15 && depth <= MAX_RECURSION
    ensures Outcome(e, 15, depth, s, skip) ==
            Closed(Outcome(e, 0, depth, State(q, s.nesting + 1, s.store), skip), s.pos, s.nesting)
  {
    hide Eval;
  }

  /** A finished inner operand, once its closing parenthesis is passed. */
  function Closed(r: Result, p: nat, nesting: nat): Result {
    match r
    case Err(_, _) => r
    case Ok(operand, st) => Ok(Rvalue(operand.value), State(p, nesting, st.store))
  }

  lemma ParenthesesClose(t: string, a: Result, b: Result, q: nat, nesting: nat)
    requires Same(t, a, b) && (b.Ok? ==> b.state.pos == q)
    requires q + 2 <= |t| && StartsAt(t, q, ")") && SkipBlanks(t, q) == q && SkipBlanks(t, q + 1) == q + 2
    ensures Same(t, ParenthesesAfter(t, a, nesting), Closed(b, q + 2, nesting))
  {
    hide SkipBlanks, StartsAt;
    SkipTwice(t, q + 1);
  }

  /** The inner text of a parenthesised operand, read from behind the open parenthesis. */
  lemma {:induction false} EnclosedRight(e: Expr, t: string, depth: nat, s: State, skip: bool)
    requires s.pos < |t| && SkipBlanks(t, s.pos) == s.pos + 1 && Ready(e, 0, t, depth, s.(pos := s.pos + 1), ")")
    ensures Same(t, Parse(0, t, depth, s, skip), Outcome(e, 0, depth, s.(pos := s.pos + 1 + |Print(e, 0)|), skip))
    decreases e, 79
  {
    hide Parse, Tail, Print, Nest, IsFollow, StartsAt, Eval, SkipValue, SkipBlanks, Same;
    var s1 := s.(pos := s.pos + 1);
    ParenthesisFollows();
    ParsesRight(e, 0, t, depth, s1, skip, ")");
    RightStops(e, 0, t, depth, s1, skip, ")");
    ParseSkipsBlanks(0, t, depth, s, skip);
  }

  lemma {:induction false} FromParentheses(e: Expr, t: string, depth: nat, s: State, skip: bool, f: string)
    requires Ready(e, 15, t, depth, s, f) && Level(e) < 15
    ensures Right(e, 15, t, depth, s, skip)
    decreases e, 80
  {
    hide Parse, Nest, IsFollow, StartsAt, SkipBlanks, Tail, Outcome, Print, TailOf, FollowedBy, Level, Valid, Same,
         ParenthesesAfter, Closed, Allowed;
    var q := s.pos + 2 + |Print(e, 0)|;
    var s1 := State(s.pos + 1, s.nesting + 1, s.store);
    NestOfParentheses(e);
    ParenthesesText(e, t, depth, s, f);
    EnclosedRight(e, t, depth, s1, skip);
    ParenthesesStep(t, depth, s, skip);
    ParenthesesOutcome(e, depth, Past(e, 15, s), q, skip);
    OutcomeState(e, 0, depth, s1.(pos := q), skip);
    ParenthesesClose(t, Parse(0, t, depth, s1, skip), Outcome(e, 0, depth, s1.(pos := q), skip), q, s.nesting);
  }

  lemma NestOfParentheses(e: Expr)
    requires Valid(e) && Level(e) < 15
    ensures Nest(e, 15) == 1 + Nest(e, 0)
  {
  }

  lemma PrintOfParentheses(e: Expr)
    requires Valid(e) && Level(e) < 15
    ensures Print(e, 15) == "( " + Print(e, 0) + ") "
  {
  }

  lemma ParenthesisFollows()
    ensures Allowed(0, ")") && TailOf(")") == -1
  {
  }

  lemma OpenHere(t: string, p: nat)
    requires StartsAt(t, p, "(")
    ensures p < |t| && t[p] == '(' && SkipBlanks(t, p) == p
  {
    assert t[p..p + 1][0] == t[p];
  }

  /** Constants and steps are read by the operand rules directly. */
  lemma AtomRight(e: Expr, t: string, depth: nat, s: State, skip: bool, f: string)
    requires (e.Const? || e.PostStep? || e.PreStep?) && Valid(e) && Ready(e, Level(e), t, depth, s, f)
    ensures Right(e, Level(e), t, depth, s, skip)
  {
    hide Postfix, Unary, IsFollow, StartsAt, Tail, VariableValue, SkipBlanks, Decimal;
    match e
    case Const(n) =>
      ConstOperand(n, t, depth, s, skip);
      Behind(t, s.pos, Decimal(n), f);
      SkipTwice(t, s.pos + |Decimal(n)|);
    case PostStep(name, up) =>
      PostStepOperand(name, up, t, depth, s, skip, f);
    case PreStep(name, up) =>
      PreStepOperand(name, up, t, depth, s, skip, f);
  }

  /** A left operand, a token with its blank, and a right operand. */
  function Joined(left: string, token: string, right: string): string {
    left + (token + " " + right)
  }

  /** A left operand, a token and a right operand laid out in the text from `p` on. */
  predicate Laid(t: string, p: nat, left: string, token: string, right: string) {
    var q := p + |left|;
    && |Joined(left, token, right)| == |left| + |token| + 1 + |right| && q + |token| + 1 + |right| <= |t|
    && StartsAt(t, p, left) && StartsAt(t, q, token) && StartsAt(t, q + |token| + 1, right)
    && FollowedBy(t, q, token) && SkipBlanks(t, q + |token|) == q + |token| + 1
  }

  /** The places of a left operand, a token and a right operand in the text. */
  lemma SplitOperator(t: string, p: nat, left: string, token: string, right: string)
    requires StartsAt(t, p, Joined(left, token, right)) && token != "" && right != "" && !IsBlank(right[0])
    ensures Laid(t, p, left, token, right)
  {
    hide SkipBlanks, StartsAt, IsBlank, FollowedBy;
    var rest := token + " " + right;
    StartsFits(t, p + |left| + |token| + 1, right);
    Split(t, p, left, rest);
    SplitToken(t, p + |left|, token, right);
  }

  lemma StartsFits(t: string, p: nat, token: string)
    ensures StartsAt(t, p, token) ==> p + |token| <= |t|
  {
  }

  /** An operand whose level takes nothing more is read exactly up to blanks. */
  lemma RightStops(e: Expr, k: nat, t: string, depth: nat, s: State, skip: bool, f: string)
    requires Ready(e, k, t, depth, s, f) && (k <= 13 ==> TailOf(f) < k) && Right(e, k, t, depth, s, skip)
    ensures Same(t, Parse(k, t, depth, s, skip), Outcome(e, k, depth, Past(e, k, s), skip))
  {
    hide Parse, Tail, Print, Nest, IsFollow, StartsAt, Eval, SkipValue, SkipBlanks;
    var r := Outcome(e, k, depth, Past(e, k, s), skip);
    if k <= 13 && r.Ok? {
      TailStops(k, t, depth, r.operand, r.state, skip, f);
    }
  }

  /** The same operand read from the blank in front of it. */
  lemma {:induction false} OperandRight(e: Expr, k: nat, t: string, depth: nat, s: State, skip: bool, f: string)
    requires s.pos < |t| && SkipBlanks(t, s.pos) == s.pos + 1 && Ready(e, k, t, depth, s.(pos := s.pos + 1), f)
    requires k <= 13 ==> TailOf(f) < k
    ensures Same(t, Parse(k, t, depth, s, skip), Outcome(e, k, depth, s.(pos := s.pos + 1 + |Print(e, k)|), skip))
    decreases e, 200
  {
    hide Parse, Tail, Print, Nest, IsFollow, StartsAt, Eval, SkipValue, SkipBlanks, Same;
    var s1 := s.(pos := s.pos + 1);
    ParsesRight(e, k, t, depth, s1, skip, f);
    RightStops(e, k, t, depth, s1, skip, f);
    ParseSkipsBlanks(k, t, depth, s, skip);
  }

  lemma CommaToken()
    ensures Allowed(0, ",") && TailOf(",") == 0
  {
  }

  lemma QuestionToken()
    ensures Allowed(3, "?") && TailOf("?") == 2
  {
  }

  lemma ColonToken()
    ensures Allowed(0, ":") && TailOf(":") == -1
  {
  }

  lemma PowerToken()
    ensures Allowed(14, "**") && TailOf("**") == 13 && IsFollow("**")
  {
  }

  lemma AllowedTighter(k: nat, f: string)
    requires Allowed(k, f) && k < 15
    ensures Allowed(k + 1, f) && (k != 1 && k != 2 && k != 13 ==> TailOf(f) < k + 1)
  {
  }

  /** The left operand, the token and the right operand of an operator expression's text. */
  ghost predicate Composed(e: Expr, m: nat, left: Expr, l: nat, token: string, right: Expr, r: nat)
    requires Valid(e) && m <= 15
  {
    && Valid(left) && Valid(right) && l <= 15 && r <= 15 && token != ""
    && Print(e, m) == Joined(Print(left, l), token, Print(right, r))
    && Nest(e, m) >= Nest(left, l)
  }

  lemma LeftPart(e: Expr, m: nat, t: string, depth: nat, s: State, f: string, left: Expr, l: nat, token: string,
                 right: Expr, r: nat)
    requires Ready(e, m, t, depth, s, f) && Composed(e, m, left, l, token, right, r) && Allowed(l, token)
    ensures Ready(left, l, t, depth, s, token)
  {
    hide Nest, StartsAt, SkipBlanks, Print, IsFollow, FollowedBy, TailOf, Joined, IsBlank, Classified, StartsOperand,
         Valid, Level;
    PrintStarts(right, r);
    SplitOperator(t, s.pos, Print(left, l), token, Print(right, r));
  }

  lemma TokenPart(e: Expr, m: nat, t: string, depth: nat, s: State, f: string, left: Expr, l: nat, token: string,
                  right: Expr, r: nat)
    requires Ready(e, m, t, depth, s, f) && Composed(e, m, left, l, token, right, r) && Allowed(l, token)
    ensures TokenAt(t, s.pos + |Print(left, l)|, token)
  {
    hide Nest, StartsAt, SkipBlanks, Print, IsFollow, FollowedBy, TailOf, Joined, IsBlank, Classified, StartsOperand,
         Valid, Level;
    PrintStarts(right, r);
    SplitOperator(t, s.pos, Print(left, l), token, Print(right, r));
    FollowChars(t, s.pos + |Print(left, l)|, token);
  }

  lemma RightPart(t: string, depth: nat, p: nat, f: string, left: string, token: string, right: Expr, r: nat,
                  nesting: nat)
    requires Valid(right) && r <= 15 && token != "" && depth <= MAX_RECURSION &&
             StartsAt(t, p, Joined(left, token, Print(right, r)))
    requires FollowedBy(t, p + |Joined(left, token, Print(right, r))|, f) && Allowed(r, f) &&
             nesting + Nest(right, r) <= MAX_NESTING
    ensures ReadyAt(right, r, t, depth, p + |left| + |token| + 1, nesting, f)
    ensures |Joined(left, token, Print(right, r))| == |left| + |token| + 1 + |Print(right, r)|
  {
    hide Nest, StartsAt, SkipBlanks, Print, IsFollow, FollowedBy, TailOf, Joined, Valid, Allowed;
    RightLaid(t, p, left, token, right, r);
  }

  lemma RightLaid(t: string, p: nat, left: string, token: string, right: Expr, r: nat)
    requires Valid(right) && r <= 15 && token != "" && StartsAt(t, p, Joined(left, token, Print(right, r)))
    ensures var q := p + |left| + |token| + 1;
            && q + |Print(right, r)| <= |t| && StartsAt(t, q, Print(right, r))
            && |Joined(left, token, Print(right, r))| == |left| + |token| + 1 + |Print(right, r)|
  {
    hide StartsAt, SkipBlanks, Print, FollowedBy, Joined, IsBlank, Classified, Valid;
    PrintStarts(right, r);
    SplitOperator(t, p, left, token, Print(right, r));
  }

  /** Both operands are ready, with the token between them and the whole text used up. */
  ghost predicate Arranged(e: Expr, m: nat, t: string, depth: nat, s: State, f: string,
                           left: Expr, l: nat, token: string, right: Expr, r: nat, nesting: nat)
    requires Valid(e) && m <= 15 && Valid(left) && Valid(right) && l <= 15 && r <= 15
  {
    var q := s.pos + |Print(left, l)|;
    && Ready(left, l, t, depth, s, token) && TokenAt(t, q, token)
    && ReadyAt(right, r, t, depth, q + |token| + 1, nesting, f)
    && q + |token| + 1 + |Print(right, r)| == s.pos + |Print(e, m)|
  }

  /** Where the operands and the token of an operator expression are. */
  lemma Parts(e: Expr, m: nat, t: string, depth: nat, s: State, f: string,
              left: Expr, l: nat, token: string, right: Expr, r: nat, nesting: nat)
    requires Valid(e) && m <= 15 && Ready(e, m, t, depth, s, f) && Composed(e, m, left, l, token, right, r)
    requires Allowed(l, token) && Allowed(r, f) && nesting + Nest(right, r) <= MAX_NESTING
    ensures Arranged(e, m, t, depth, s, f, left, l, token, right, r, nesting)
  {
    hide ReadyAt, TokenAt, Print, Nest, Allowed, Joined, FollowedBy, StartsAt, Valid;
    LeftPart(e, m, t, depth, s, f, left, l, token, right, r);
    TokenPart(e, m, t, depth, s, f, left, l, token, right, r);
    ReadyText(e, m, t, depth, s, f);
    RightPart(t, depth, s.pos, f, Print(left, l), token, right, r, nesting);
  }

  lemma ReadyText(e: Expr, m: nat, t: string, depth: nat, s: State, f: string)
    requires Ready(e, m, t, depth, s, f)
    ensures Valid(e) && m <= 15 && depth <= MAX_RECURSION && StartsAt(t, s.pos, Print(e, m)) &&
            FollowedBy(t, s.pos + |Print(e, m)|, f)
  {
  }

  lemma ReadyValid(e: Expr, m: nat, t: string, depth: nat, s: State, f: string)
    requires Ready(e, m, t, depth, s, f)
    ensures Valid(e) && m <= 15 && depth <= MAX_RECURSION && s.pos + |Print(e, m)| <= |t|
    ensures s.nesting + Nest(e, m) <= MAX_NESTING
    ensures Allowed(m, f) && FollowedBy(t, s.pos + |Print(e, m)|, f)
  {
  }

  /** The operands of a valid tree are valid. */
  lemma ValidParts(e: Expr)
    requires Valid(e)
    ensures e.Power? || e.Binary? || e.AndAlso? || e.OrElse? || e.Choose? || e.Comma? ==>
              Valid(e.left) && Valid(e.right)
    ensures e.Assign? ==> Valid(e.right) && Valid(Var(e.name))
    ensures e.Choose? ==> Valid(e.cond)
    ensures e.Prefix? ==> Valid(e.inner)
    ensures e.Binary? ==> e.level < 8
  {
  }

  /** A token stands at `q`, and the blank behind it leads to an operand. */
  predicate TokenAt(t: string, q: nat, token: string) {
    && q + |token| + 1 <= |t| && StartsAt(t, q, token) && FollowedBy(t, q, token)
    && SkipBlanks(t, q + |token|) == q + |token| + 1 && SkipBlanks(t, q) == q
  }

  // ----- Comma -----

  lemma CommaOutcome(e: Expr, depth: nat, s: State, q: nat, skip: bool)
    requires Valid(e) && e.Comma? && depth <= MAX_RECURSION
    ensures Outcome(e, 0, depth, s, skip) ==
            match Outcome(e.left, 0, depth, s.(pos := q), skip)
            case Err(error, store) => Err(error, store)
            case Ok(_, st) => Outcome(e.right, 1, depth, st.(pos := s.pos), skip)
  {
  }

  lemma CommaStep(t: string, depth: nat, left: Operand, s: State, skip: bool)
    requires depth <= MAX_RECURSION && TokenAt(t, s.pos, ",")
    ensures Tail(0, t, depth, left, s, skip) == After(0, t, depth, Parse(1, t, depth, s.(pos := s.pos + 1), skip), skip)
  {
    hide Parse, SkipBlanks;
  }

  lemma {:induction false} CommaRight(e: Expr, t: string, depth: nat, s: State, skip: bool, f: string)
    requires e.Comma? && Ready(e, 0, t, depth, s, f)
    ensures Right(e, 0, t, depth, s, skip)
    decreases e, 1
  {
    hide Parse, IsFollow, StartsAt, SkipBlanks, Tail, Outcome, Same, Print, Nest, Valid;
    ValidParts(e);
    PrintComma(e);
    CommaToken();
    AllowedTighter(0, f);
    var q := s.pos + |Print(e.left, 0)|;
    Parts(e, 0, t, depth, s, f, e.left, 0, ",", e.right, 1, s.nesting);
    ParsesRight(e.left, 0, t, depth, s, skip, ",");
    CommaOutcome(e, depth, Past(e, 0, s), q, skip);
    OutcomeState(e.left, 0, depth, Past(e.left, 0, s), skip);
    match Outcome(e.left, 0, depth, Past(e.left, 0, s), skip)
    case Err(_, _) =>
    case Ok(operand, st) =>
      CommaStep(t, depth, operand, st, skip);
      OperandRight(e.right, 1, t, depth, st.(pos := q + 1), skip, f);
      AfterSame(0, t, depth, Parse(1, t, depth, st.(pos := q + 1), skip), Outcome(e, 0, depth, Past(e, 0, s), skip),
                skip);
  }

  lemma PrintComma(e: Expr)
    requires Valid(e) && e.Comma?
    ensures Composed(e, 0, e.left, 0, ",", e.right, 1) && Nest(e, 0) >= Nest(e.right, 1)
  {
  }

  /** An outcome keeps the cursor and nesting it is given. */
  lemma OutcomeState(e: Expr, k: nat, depth: nat, s: State, skip: bool)
    requires Valid(e) && depth <= MAX_RECURSION
    ensures var r := Outcome(e, k, depth, s, skip); r.Ok? ==> r.state.pos == s.pos && r.state.nesting == s.nesting
  {
  }

  // ----- Logical operators -----

  /** `||` (level 3) and `&&` (level 4): whether the left operand decides, and the combined value. */
  function Decides(k: nat, value: i64): bool {
    if k == 3 then value != 0 else value == 0
  }

  function Logic(k: nat, left: i64, right: i64): i64 {
    if k == 3 then Truth(left != 0 || right != 0) else Truth(left != 0 && right != 0)
  }

  function LogicToken(k: nat): string {
    if k == 3 then "||" else "&&"
  }

  function LogicTree(k: nat, left: Expr, right: Expr): Expr {
    if k == 3 then OrElse(left, right) else AndAlso(left, right)
  }

  lemma LogicOutcome(k: nat, left: Expr, right: Expr, depth: nat, s: State, q: nat, skip: bool)
    requires (k == 3 || k == 4) && Valid(left) && Valid(right) && depth <= MAX_RECURSION
    ensures Outcome(LogicTree(k, left, right), k, depth, s, skip) ==
            match Outcome(left, k, depth, s.(pos := q), skip)
            case Err(error, store) => Err(error, store)
            case Ok(a, st) =>
              LogicCombined(k, a.value, Outcome(right, k + 1, depth, st.(pos := s.pos), skip || Decides(k, a.value)))
  {
  }

  function LogicAfter(k: nat, t: string, depth: nat, left: i64, r: Result, skip: bool): Result
    requires (k == 3 || k == 4) && depth <= MAX_RECURSION && (r.Ok? ==> r.state.pos <= |t|)
  {
    match r
    case Err(error, store) => r
    case Ok(right, st) => Tail(k, t, depth, Rvalue(Logic(k, left, right.value)), st, skip)
  }

  lemma LogicStep(k: nat, t: string, depth: nat, left: Operand, s: State, skip: bool)
    requires (k == 3 || k == 4) && depth <= MAX_RECURSION && TokenAt(t, s.pos, LogicToken(k))
    ensures Tail(k, t, depth, left, s, skip) ==
            LogicAfter(k, t, depth, left.value,
                       Parse(k + 1, t, depth, s.(pos := s.pos + 2), skip || Decides(k, left.value)), skip)
  {
    hide Parse, SkipBlanks;
  }

  lemma LogicText(k: nat, left: Expr, right: Expr)
    requires (k == 3 || k == 4) && Valid(left) && Valid(right)
    ensures var e := LogicTree(k, left, right);
            && Valid(e) && Composed(e, k, left, k, LogicToken(k), right, k + 1) && Nest(e, k) >= Nest(right, k + 1)
            && Allowed(k, LogicToken(k)) && |LogicToken(k)| == 2
  {
  }

  function LogicCombined(k: nat, left: i64, r: Result): Result {
    match r
    case Err(error, store) => r
    case Ok(right, st) => Ok(Rvalue(Logic(k, left, right.value)), st)
  }

  /** The right operand of a logical operator whose left operand has been read. */
  lemma {:induction false} LogicRest(k: nat, right: Expr, t: string, depth: nat, left: Operand, s: State, skip: bool,
                                     f: string)
    requires (k == 3 || k == 4) && depth <= MAX_RECURSION && TokenAt(t, s.pos, LogicToken(k)) && Valid(right)
    requires ReadyAt(right, k + 1, t, depth, s.pos + 3, s.nesting, f) && TailOf(f) <= k
    ensures var r := Outcome(right, k + 1, depth, s.(pos := s.pos + 3 + |Print(right, k + 1)|),
                             skip || Decides(k, left.value));
            && (r.Ok? ==> r.state.pos <= |t|)
            && Tail(k, t, depth, left, s, skip) == After(k, t, depth, LogicCombined(k, left.value, r), skip)
    decreases right, 210
  {
    hide Parse, SkipBlanks, Tail, Outcome, Print, TailOf, FollowedBy, ReadyAt, Valid, Decides, Logic;
    var s1, skip1 := s.(pos := s.pos + 2), skip || Decides(k, left.value);
    LogicStep(k, t, depth, left, s, skip);
    OperandRight(right, k + 1, t, depth, s1, skip1, f);
    var a := Parse(k + 1, t, depth, s1, skip1);
    var b := Outcome(right, k + 1, depth, s.(pos := s.pos + 3 + |Print(right, k + 1)|), skip1);
    AfterSame(k, t, depth, LogicCombined(k, left.value, a), LogicCombined(k, left.value, b), skip);
  }

  lemma {:induction false} LogicRight(k: nat, e: Expr, t: string, depth: nat, s: State, skip: bool, f: string)
    requires (k == 3 && e.OrElse?) || (k == 4 && e.AndAlso?)
    requires Ready(e, k, t, depth, s, f)
    ensures Right(e, k, t, depth, s, skip)
    decreases e, 1
  {
    hide Parse, StartsAt, SkipBlanks, Tail, Outcome, Print, Nest, Logic, TailOf, Composed, FollowedBy, Valid,
         LogicToken, Decides, LogicCombined, Same, Allowed;
    ValidParts(e);
    LogicText(k, e.left, e.right);
    AllowedTighter(k, f);
    var q := s.pos + |Print(e.left, k)|;
    Parts(e, k, t, depth, s, f, e.left, k, LogicToken(k), e.right, k + 1, s.nesting);
    ParsesRight(e.left, k, t, depth, s, skip, LogicToken(k));
    LogicOutcome(k, e.left, e.right, depth, Past(e, k, s), q, skip);
    OutcomeState(e.left, k, depth, Past(e.left, k, s), skip);
    match Outcome(e.left, k, depth, Past(e.left, k, s), skip)
    case Err(_, _) =>
    case Ok(a, st) =>
      LogicRest(k, e.right, t, depth, a, st, skip, f);
  }

  // ----- Binary operators -----

  function Computed(symbol: string, left: i64, right: i64, skip: bool): Parsed {
    if skip then Number(0) else Apply(symbol, left, right)
  }

  function Yield(value: Parsed, s: State): Result {
    match value
    case Number(v) => Ok(Rvalue(v), s)
    case Malformed(error) => Err(error, s.store)
  }

  lemma BinaryOutcome(e: Expr, depth: nat, s: State, q: nat, skip: bool)
    requires Valid(e) && e.Binary? && depth <= MAX_RECURSION
    ensures var k := 5 + e.level;
            Outcome(e, k, depth, s, skip) ==
            match Outcome(e.left, k, depth, s.(pos := q), skip)
            case Err(error, store) => Err(error, store)
            case Ok(a, st) => BinaryCombined(e.symbol, a.value, Outcome(e.right, k + 1, depth, st.(pos := s.pos), skip),
                                             skip)
  {
    hide Apply;
  }

  function BinaryAfter(k: nat, t: string, depth: nat, symbol: string, left: i64, r: Result, skip: bool): Result
    requires 5 <= k <= 12 && depth <= MAX_RECURSION && (r.Ok? ==> r.state.pos <= |t|)
  {
    match r
    case Err(error, store) => r
    case Ok(right, st) => After(k, t, depth, Yield(Computed(symbol, left, right.value, skip), st), skip)
  }

  lemma BinaryStep(k: nat, t: string, depth: nat, left: Operand, s: State, skip: bool, symbol: string)
    requires 5 <= k <= 12 && depth <= MAX_RECURSION && TokenAt(t, s.pos, symbol) && symbol != ""
    requires OperatorAt(t, s.pos, LevelOperators(k - 5)) == Some(symbol)
    ensures Tail(k, t, depth, left, s, skip) ==
            BinaryAfter(k, t, depth, symbol, left.value, Parse(k + 1, t, depth, s.(pos := s.pos + |symbol|), skip),
                        skip)
  {
    hide Parse, SkipBlanks, OperatorAt, Apply;
  }

  lemma BinaryText(e: Expr)
    requires Valid(e) && e.Binary?
    ensures var k := 5 + e.level;
            && e.symbol != "" && Composed(e, k, e.left, k, e.symbol, e.right, k + 1)
            && Nest(e, k) >= Nest(e.right, k + 1)
            && IsFollow(e.symbol) && TailOf(e.symbol) == k && Allowed(k, e.symbol)
  {
    LevelClassified(e.symbol, e.level);
  }

  function BinaryCombined(symbol: string, left: i64, r: Result, skip: bool): Result {
    match r
    case Err(error, store) => r
    case Ok(right, st) => Yield(Computed(symbol, left, right.value, skip), st)
  }

  /** The right operand of a binary operator whose left operand has been read. */
  lemma {:induction false} BinaryRest(k: nat, symbol: string, right: Expr, t: string, depth: nat, left: Operand,
                                      s: State,
                                      skip: bool, f: string)
    requires 5 <= k <= 12 && depth <= MAX_RECURSION && TokenAt(t, s.pos, symbol) && symbol != "" && Valid(right)
    requires OperatorAt(t, s.pos, LevelOperators(k - 5)) == Some(symbol)
    requires ReadyAt(right, k + 1, t, depth, s.pos + |symbol| + 1, s.nesting, f) && TailOf(f) <= k
    ensures var r := Outcome(right, k + 1, depth, s.(pos := s.pos + |symbol| + 1 + |Print(right, k + 1)|), skip);
            && (r.Ok? ==> r.state.pos <= |t|)
            && Tail(k, t, depth, left, s, skip) == After(k, t, depth, BinaryCombined(symbol, left.value, r, skip), skip)
    decreases right, 210
  {
    hide Parse, SkipBlanks, Tail, Outcome, Print, TailOf, FollowedBy, ReadyAt, Valid, Computed, OperatorAt;
    var s1 := s.(pos := s.pos + |symbol|);
    BinaryStep(k, t, depth, left, s, skip, symbol);
    OperandRight(right, k + 1, t, depth, s1, skip, f);
    var a := Parse(k + 1, t, depth, s1, skip);
    var b := Outcome(right, k + 1, depth, s1.(pos := s1.pos + 1 + |Print(right, k + 1)|), skip);
    AfterSame(k, t, depth, BinaryCombined(symbol, left.value, a, skip), BinaryCombined(symbol, left.value, b, skip),
              skip);
  }

  lemma {:induction false} BinaryRight(e: Expr, t: string, depth: nat, s: State, skip: bool, f: string)
    requires e.Binary? && Valid(e) && Ready(e, 5 + e.level, t, depth, s, f)
    ensures Right(e, 5 + e.level, t, depth, s, skip)
    decreases e, 1
  {
    hide Parse, IsFollow, StartsAt, SkipBlanks, Tail, Outcome, Print, Nest, Computed, OperatorAt, TailOf, Composed,
         Valid, FollowedBy, Same;
    var k := 5 + e.level;
    ValidParts(e);
    BinaryText(e);
    AllowedTighter(k, f);
    var q := s.pos + |Print(e.left, k)|;
    Parts(e, k, t, depth, s, f, e.left, k, e.symbol, e.right, k + 1, s.nesting);
    OperatorHere(k, t, q, e.symbol);
    ParsesRight(e.left, k, t, depth, s, skip, e.symbol);
    BinaryOutcome(e, depth, Past(e, k, s), q, skip);
    OutcomeState(e.left, k, depth, Past(e.left, k, s), skip);
    match Outcome(e.left, k, depth, Past(e.left, k, s), skip)
    case Err(_, _) =>
    case Ok(a, st) =>
      BinaryRest(k, e.symbol, e.right, t, depth, a, st, skip, f);
  }

  // ----- Power -----

  lemma PowerOutcome(e: Expr, depth: nat, s: State, q: nat, skip: bool)
    requires Valid(e) && e.Power? && depth <= MAX_RECURSION
    ensures Outcome(e, 13, depth, s, skip) ==
            match Outcome(e.left, 14, depth, s.(pos := q), skip)
            case Err(error, store) => Err(error, store)
            case Ok(a, st) =>
              match Outcome(e.right, 13, depth, State(s.pos, s.nesting + 1, st.store), skip)
              case Err(error, store) => Err(error, store)
              case Ok(b, st2) => Yield(Computed("**", a.value, b.value, skip), State(s.pos, s.nesting, st2.store))
  {
    hide Apply;
  }

  function PowerAfter(left: i64, r: Result, nesting: nat, skip: bool): Result {
    match r
    case Err(error, store) => r
    case Ok(right, st) => Yield(Computed("**", left, right.value, skip), st.(nesting := nesting))
  }

  lemma PowerStep(t: string, depth: nat, left: Operand, s: State, skip: bool)
    requires depth <= MAX_RECURSION && TokenAt(t, s.pos, "**") && s.nesting + 1 <= MAX_NESTING
    requires OperatorAt(t, s.pos, ["**"]) == Some("**")
    ensures Tail(13, t, depth, left, s, skip) ==
            PowerAfter(left.value, Parse(13, t, depth, State(s.pos + 2, s.nesting + 1, s.store), skip), s.nesting, skip)
  {
    hide Parse, SkipBlanks, OperatorAt, Apply;
  }

  lemma PowerText(e: Expr)
    requires Valid(e) && e.Power?
    ensures Composed(e, 13, e.left, 14, "**", e.right, 13) && Nest(e, 13) >= 1 + Nest(e.right, 13)
  {
  }

  /** One level of the grammar: its tail applied to the next level's operand. */
  lemma ParseIsTail(k: nat, t: string, depth: nat, s: State, skip: bool)
    requires k <= 13 && depth <= MAX_RECURSION && s.pos <= |t|
    ensures Parse(k, t, depth, s, skip) == After(k, t, depth, Parse(k + 1, t, depth, s, skip), skip)
  {
    hide Tail, Unary, Postfix;
  }

  lemma {:induction false} PowerRight(e: Expr, t: string, depth: nat, s: State, skip: bool, f: string)
    requires e.Power? && Ready(e, 13, t, depth, s, f)
    ensures Right(e, 13, t, depth, s, skip)
    decreases e, 1
  {
    hide Parse, IsFollow, StartsAt, SkipBlanks, Tail, Outcome, Print, Nest, Apply, OperatorAt, TailOf, Composed, Valid;
    ValidParts(e);
    PowerText(e);
    PowerToken();
    var q := s.pos + |Print(e.left, 14)|;
    Parts(e, 13, t, depth, s, f, e.left, 14, "**", e.right, 13, s.nesting + 1);
    OperatorHere(13, t, q, "**");
    ParsesRight(e.left, 14, t, depth, s, skip, "**");
    PowerOutcome(e, depth, Past(e, 13, s), q, skip);
    OutcomeState(e.left, 14, depth, Past(e.left, 14, s), skip);
    ParseIsTail(13, t, depth, s, skip);
    AfterSame(13, t, depth, Parse(14, t, depth, s, skip), Outcome(e.left, 14, depth, Past(e.left, 14, s), skip), skip);
    match Outcome(e.left, 14, depth, Past(e.left, 14, s), skip)
    case Err(_, _) =>
    case Ok(a, st) =>
      PowerStep(t, depth, a, st, skip);
      OperandRight(e.right, 13, t, depth, State(q + 2, s.nesting + 1, st.store), skip, f);
      OutcomeState(e.right, 13, depth, State(s.pos + |Print(e, 13)|, s.nesting + 1, st.store), skip);
      OutcomeStops(e, 13, t, depth, Past(e, 13, s), skip, f);
  }

  /** A tail with nothing to take leaves an outcome alone. */
  lemma OutcomeStops(e: Expr, k: nat, t: string, depth: nat, s: State, skip: bool, f: string)
    requires Valid(e) && k <= 13 && depth <= MAX_RECURSION && s.pos <= |t| && IsFollow(f) && FollowedBy(t, s.pos, f) &&
             TailOf(f) < k
    ensures var r := Outcome(e, k, depth, s, skip); (r.Ok? ==> r.state.pos <= |t|) && After(k, t, depth, r, skip) == r
  {
    hide Tail, Outcome, IsFollow, FollowedBy, TailOf;
    OutcomeState(e, k, depth, s, skip);
    var r := Outcome(e, k, depth, s, skip);
    if r.Ok? {
      TailStops(k, t, depth, r.operand, r.state, skip, f);
    }
  }

  // ----- Unary operators -----

  lemma PrefixText(e: Expr, t: string, depth: nat, s: State, f: string)
    requires e.Prefix? && Ready(e, 14, t, depth, s, f)
    ensures var s1 := State(s.pos + 2, s.nesting + 1, s.store);
            && Ready(e.inner, 14, t, depth, s1, f) && s1.pos + |Print(e.inner, 14)| == s.pos + |Print(e, 14)|
            && s.pos < |t| && t[s.pos] == e.operator && SkipBlanks(t, s.pos + 1) == s.pos + 2
            && SkipBlanks(t, s.pos) == s.pos && PrefixIncrement(t, s.pos) == None
  {
    hide IsFollow, SkipBlanks;
    var p, inner := s.pos, Print(e.inner, 14);
    PrintStarts(e.inner, 14);
    assert [e.operator, ' '] + inner == [e.operator] + " " + inner;
    SplitToken(t, p, [e.operator], inner);
    UnaryHere(t, p, e.operator);
  }

  lemma UnaryHere(t: string, p: nat, c: char)
    requires IsUnary(c) && StartsAt(t, p, [c]) && p + 1 < |t| && SkipBlanks(t, p + 1) == p + 2
    ensures t[p] == c && SkipBlanks(t, p) == p && PrefixIncrement(t, p) == None
  {
    assert t[p..p + 1][0] == t[p];
    StartsByChars(t, p, "++");
    StartsByChars(t, p, "--");
  }

  function PrefixAfter(operator: char, r: Result, nesting: nat): Result {
    match r
    case Err(error, store) => r
    case Ok(operand, st) => Ok(Rvalue(UnaryValue(operator, operand.value)), st.(nesting := nesting))
  }

  lemma PrefixStep(t: string, depth: nat, s: State, skip: bool)
    requires depth <= MAX_RECURSION && s.pos < |t| && IsUnary(t[s.pos]) && SkipBlanks(t, s.pos) == s.pos
    requires PrefixIncrement(t, s.pos) == None && s.nesting + 1 <= MAX_NESTING
    ensures Parse(14, t, depth, s, skip) ==
            PrefixAfter(t[s.pos], Parse(14, t, depth, State(s.pos + 1, s.nesting + 1, s.store), skip), s.nesting)
  {
    hide Postfix, SkipBlanks, PrefixIncrement, UnaryValue, Tail;
  }

  lemma PrefixOutcome(e: Expr, depth: nat, s: State, skip: bool)
    requires Valid(e) && e.Prefix? && depth <= MAX_RECURSION
    ensures Outcome(e, 14, depth, s, skip) ==
            PrefixAfter(e.operator, Outcome(e.inner, 14, depth, s.(nesting := s.nesting + 1), skip), s.nesting)
  {
    hide UnaryValue;
  }

  lemma {:induction false} PrefixRight(e: Expr, t: string, depth: nat, s: State, skip: bool, f: string)
    requires e.Prefix? && Ready(e, 14, t, depth, s, f)
    ensures Right(e, 14, t, depth, s, skip)
    decreases e, 1
  {
    hide Parse, IsFollow, StartsAt, SkipBlanks, Tail, Print, Nest, UnaryValue, PrefixIncrement, Outcome;
    PrefixText(e, t, depth, s, f);
    OperandRight(e.inner, 14, t, depth, State(s.pos + 1, s.nesting + 1, s.store), skip, f);
    PrefixStep(t, depth, s, skip);
    PrefixOutcome(e, depth, Past(e, 14, s), skip);
  }

  // ----- Assignment -----

  lemma AssignOutcome(e: Expr, depth: nat, s: State, q: nat, skip: bool)
    requires Valid(e) && e.Assign? && depth <= MAX_RECURSION
    ensures Outcome(e, 1, depth, s, skip) ==
            match Outcome(Var(e.name), 2, depth, s.(pos := q), skip)
            case Err(error, store) => Err(error, store)
            case Ok(a, st) =>
              StoredAfter(e.symbol, Scalar(e.name), a.value, Outcome(e.right, 1, depth, st.(pos := s.pos), skip), skip)
  {
    hide Apply, VariableValue, Assigned;
  }

  /** The end of an assignment: compute the new value and store it. */
  function Stored(symbol: string, place: Place, before: i64, right: i64, s: State, skip: bool): Result
    requires symbol != ""
  {
    if skip then Ok(Rvalue(0), s)
    else
      var value := if symbol == "=" then Number(right) else Apply(symbol[..|symbol| - 1], before, right);
      if value.Malformed? then Err(value.error, s.store)
      else Ok(Rvalue(value.value), s.(store := Assigned(s.store, place, value.value)))
  }

  function StoredAfter(symbol: string, place: Place, before: i64, r: Result, skip: bool): Result
    requires symbol != ""
  {
    match r
    case Err(error, store) => r
    case Ok(right, st) => Stored(symbol, place, before, right.value, st, skip)
  }

  lemma AssignStep(t: string, depth: nat, left: Operand, s: State, skip: bool, symbol: string)
    requires depth <= MAX_RECURSION && TokenAt(t, s.pos, symbol) && symbol != "" && left.place.Some?
    requires OperatorAt(t, s.pos, ASSIGNMENTS) == Some(symbol)
    ensures Tail(1, t, depth, left, s, skip) ==
            StoredAfter(symbol, left.place.value, left.value, Parse(1, t, depth, s.(pos := s.pos + |symbol|), skip),
                        skip)
  {
    hide Parse, SkipBlanks, OperatorAt, Apply, Assigned;
  }

  lemma StoredSame(t: string, symbol: string, place: Place, before: i64, a: Result, b: Result, skip: bool)
    requires symbol != "" && Same(t, a, b)
    ensures Same(t, StoredAfter(symbol, place, before, a, skip), StoredAfter(symbol, place, before, b, skip))
  {
    hide Apply, Assigned, SkipBlanks;
  }

  lemma SameError(t: string, error: ArithError, store: Store)
    ensures Same(t, Err(error, store), Err(error, store))
  {
  }

  lemma AssignText(e: Expr)
    requires Valid(e) && e.Assign?
    ensures && e.symbol != "" && Composed(e, 1, Var(e.name), 2, e.symbol, e.right, 1) && Nest(e, 1) >= Nest(e.right, 1)
            && IsFollow(e.symbol) && TailOf(e.symbol) == 1 && Allowed(2, e.symbol)
  {
    AssignmentClassified(e.symbol);
    VarText(Var(e.name), 2);
    AssignmentTail(e.symbol);
  }

  lemma AssignmentTail(symbol: string)
    requires symbol in ASSIGNMENTS
    ensures TailOf(symbol) == 1
  {
  }

  lemma {:induction false} AssignRight(e: Expr, t: string, depth: nat, s: State, skip: bool, f: string)
    requires e.Assign? && Ready(e, 1, t, depth, s, f)
    ensures Right(e, 1, t, depth, s, skip)
    decreases e, 1
  {
    hide Parse, IsFollow, StartsAt, SkipBlanks, Tail, Outcome, Print, Nest, Apply, OperatorAt, TailOf, Composed,
         Assigned, Valid, FollowedBy, Same;
    ValidParts(e);
    var name, n := Var(e.name), |e.symbol|;
    AssignText(e);
    var q := s.pos + |Print(name, 2)|;
    Parts(e, 1, t, depth, s, f, name, 2, e.symbol, e.right, 1, s.nesting);
    OperatorHere(1, t, q, e.symbol);
    VarRight(name, 2, t, depth, s, skip, e.symbol);
    RightStops(name, 2, t, depth, s, skip, e.symbol);
    AssignOutcome(e, depth, Past(e, 1, s), q, skip);
    OutcomeState(name, 2, depth, Past(name, 2, s), skip);
    NamePlace(name, depth, Past(name, 2, s), skip);
    ParseIsTail(1, t, depth, s, skip);
    AfterSame(1, t, depth, Parse(2, t, depth, s, skip), Outcome(name, 2, depth, Past(name, 2, s), skip), skip);
    match Outcome(name, 2, depth, Past(name, 2, s), skip)
    case Err(error, store) =>
      SameError(t, error, store);
    case Ok(a, st) =>
      AssignStep(t, depth, a, st, skip, e.symbol);
      OperandRight(e.right, 1, t, depth, st.(pos := q + n), skip, f);
      StoredSame(t, e.symbol, Scalar(e.name), a.value, Parse(1, t, depth, st.(pos := q + n), skip),
                 Outcome(e.right, 1, depth, st.(pos := q + n + 1 + |Print(e.right, 1)|), skip), skip);
      OutcomeStops(e, 1, t, depth, Past(e, 1, s), skip, f);
  }

  lemma NamePlace(e: Expr, depth: nat, s: State, skip: bool)
    requires e.Var? && Valid(e) && depth <= MAX_RECURSION
    ensures var r := Outcome(e, 2, depth, s, skip); r.Ok? ==> r.operand.place == Some(Scalar(e.name))
  {
  }

  // ----- Conditional -----

  /** The outcome of a conditional's two branches, one of which is skipped. */
  function BranchOutcome(e: Expr, depth: nat, s: State, q: nat, takeFirst: bool, skip: bool): Result
    requires Valid(e) && e.Choose? && depth <= MAX_RECURSION
  {
    match Outcome(e.left, 0, depth, State(q, s.nesting + 1, s.store), skip || !takeFirst)
    case Err(error, store) => Err(error, store)
    case Ok(a, st2) =>
      match Outcome(e.right, 2, depth, State(s.pos, s.nesting + 1, st2.store), skip || takeFirst)
      case Err(error, store) => Err(error, store)
      case Ok(b, st3) => Ok(Rvalue(if takeFirst then a.value else b.value), State(s.pos, s.nesting, st3.store))
  }

  lemma ChooseOutcome(e: Expr, depth: nat, s: State, q1: nat, q2: nat, skip: bool)
    requires Valid(e) && e.Choose? && depth <= MAX_RECURSION
    ensures Outcome(e, 2, depth, s, skip) ==
            match Outcome(e.cond, 3, depth, s.(pos := q1), skip)
            case Err(error, store) => Err(error, store)
            case Ok(c, st) => BranchOutcome(e, depth, State(s.pos, s.nesting, st.store), q2, c.value != 0, skip)
  {
  }

  lemma ChooseText(e: Expr)
    requires Valid(e) && e.Choose?
    ensures Print(e, 2) == Joined(Print(e.cond, 3), "?", Joined(Print(e.left, 0), ":", Print(e.right, 2)))
    ensures Nest(e, 2) >= Nest(e.cond, 3) && Nest(e, 2) >= 1 + Nest(e.left, 0) && Nest(e, 2) >= 1 + Nest(e.right, 2)
  {
  }

  /** The three operands of a conditional are ready and its tokens are in place. */
  ghost predicate ChooseArranged(e: Expr, t: string, depth: nat, s: State, f: string)
    requires Valid(e) && e.Choose?
  {
    var q1 := s.pos + |Print(e.cond, 3)|;
    var q2 := q1 + 2 + |Print(e.left, 0)|;
    && Ready(e.cond, 3, t, depth, s, "?") && TokenAt(t, q1, "?")
    && ReadyAt(e.left, 0, t, depth, q1 + 2, s.nesting + 1, ":") && TokenAt(t, q2, ":")
    && ReadyAt(e.right, 2, t, depth, q2 + 2, s.nesting + 1, f)
    && q2 + 2 + |Print(e.right, 2)| == s.pos + |Print(e, 2)|
  }

  /** Where the three operands of a conditional are. */
  lemma ChooseParts(e: Expr, t: string, depth: nat, s: State, f: string)
    requires Valid(e) && e.Choose? && Ready(e, 2, t, depth, s, f)
    ensures ChooseArranged(e, t, depth, s, f)
  {
    hide Nest, StartsAt, SkipBlanks, Print, IsFollow, TailOf, Joined, IsBlank, Classified, StartsOperand, FollowedBy;
    ChooseText(e);
    QuestionToken();
    ColonToken();
    PrintStarts(e.left, 0);
    PrintStarts(e.right, 2);
    var rest := Joined(Print(e.left, 0), ":", Print(e.right, 2));
    JoinedStarts(Print(e.left, 0), ":", Print(e.right, 2));
    SplitOperator(t, s.pos, Print(e.cond, 3), "?", rest);
    var q1 := s.pos + |Print(e.cond, 3)|;
    SplitOperator(t, q1 + 2, Print(e.left, 0), ":", Print(e.right, 2));
    FollowChars(t, q1, "?");
    FollowChars(t, q1 + 2 + |Print(e.left, 0)|, ":");
  }

  lemma JoinedStarts(left: string, token: string, right: string)
    requires left != ""
    ensures Joined(left, token, right) != "" && Joined(left, token, right)[0] == left[0]
  {
  }

  function FirstAfter(t: string, depth: nat, takeFirst: bool, r: Result, skip: bool): Result
    requires depth <= MAX_RECURSION && (r.Ok? ==> r.state.pos <= |t| && r.state.nesting > 0)
  {
    match r
    case Err(error, store) => r
    case Ok(a, st) => Alternative(t, depth, takeFirst, a.value, st.(pos := SkipBlanks(t, st.pos)), skip)
  }

  function SecondAfter(takeFirst: bool, first: i64, r: Result, nesting: nat): Result {
    match r
    case Err(error, store) => r
    case Ok(b, st) => Ok(Rvalue(if takeFirst then first else b.value), st.(nesting := nesting))
  }

  lemma ChooseStep(t: string, depth: nat, c: Operand, s: State, skip: bool)
    requires depth <= MAX_RECURSION && TokenAt(t, s.pos, "?") && s.nesting + 1 <= MAX_NESTING
    ensures Tail(2, t, depth, c, s, skip) ==
            FirstAfter(t, depth, c.value != 0,
                       Parse(0, t, depth, State(s.pos + 1, s.nesting + 1, s.store), skip || c.value == 0), skip)
  {
    hide Parse, SkipBlanks, Alternative;
  }

  lemma AlternativeStep(t: string, depth: nat, takeFirst: bool, first: i64, s: State, skip: bool)
    requires depth <= MAX_RECURSION && TokenAt(t, s.pos, ":") && s.nesting > 0
    ensures Alternative(t, depth, takeFirst, first, s, skip) ==
            SecondAfter(takeFirst, first, Parse(2, t, depth, s.(pos := s.pos + 1), skip || takeFirst), s.nesting - 1)
  {
    hide Parse, SkipBlanks;
  }

  /** The second branch of a conditional, once the first has been read. */
  lemma {:induction false} SecondRight(e: Expr, t: string, depth: nat, s: State, skip: bool, f: string, takeFirst: bool,
                                       first: i64)
    requires e.Choose? && Valid(e) && s.nesting > 0 && TokenAt(t, s.pos, ":") &&
             Ready(e.right, 2, t, depth, s.(pos := s.pos + 2), f)
    ensures Same(t, Alternative(t, depth, takeFirst, first, s, skip),
                 SecondAfter(takeFirst, first,
                             Outcome(e.right, 2, depth, s.(pos := s.pos + 2 + |Print(e.right, 2)|), skip || takeFirst),
                             s.nesting - 1))
    decreases e, 0
  {
    hide Parse, IsFollow, StartsAt, SkipBlanks, Tail, Outcome, Print, Nest, TailOf, Alternative, FollowedBy;
    AlternativeStep(t, depth, takeFirst, first, s, skip);
    OperandRight(e.right, 2, t, depth, s.(pos := s.pos + 1), skip || takeFirst, f);
  }

  /** The two branches of a conditional whose condition has been read. */
  lemma {:induction false} BranchesRight(e: Expr, t: string, depth: nat, s: State, skip: bool, f: string, c: Operand,
                                         store: Store)
    requires e.Choose? && Valid(e) && depth <= MAX_RECURSION && s.nesting + 1 <= MAX_NESTING
    requires ChooseArranged(e, t, depth, s, f)
    ensures var q1 := s.pos + |Print(e.cond, 3)|;
            && q1 <= |t|
            && Same(t, Tail(2, t, depth, c, State(q1, s.nesting, store), skip),
                    BranchOutcome(e, depth, State(s.pos + |Print(e, 2)|, s.nesting, store), q1 + 2 + |Print(e.left, 0)|,
                                  c.value != 0, skip))
    decreases e, 1
  {
    hide Parse, SkipBlanks, Tail, Outcome, Print, TailOf, Alternative, FollowedBy, ReadyAt, Valid, StartsAt, UpToBlanks,
         TokenAt;
    ValidParts(e);
    var q1 := s.pos + |Print(e.cond, 3)|;
    var q2 := q1 + 2 + |Print(e.left, 0)|;
    var s1, skip1 := State(q1 + 1, s.nesting + 1, store), skip || c.value == 0;
    ChooseStep(t, depth, c, State(q1, s.nesting, store), skip);
    FirstRight(e, t, depth, s, skip1, f, store);
    var r, o := Parse(0, t, depth, s1, skip1), Outcome(e.left, 0, depth, State(q2, s.nesting + 1, store), skip1);
    SameRead(t, depth, c.value != 0, r, o, skip);
    match o
    case Err(_, _) =>
    case Ok(a, st) =>
      OutcomeState(e.left, 0, depth, State(q2, s.nesting + 1, store), skip1);
      SecondRight(e, t, depth, st, skip, f, c.value != 0, a.value);
      OutcomeState(e.right, 2, depth, State(s.pos + |Print(e, 2)|, s.nesting + 1, st.store), skip || c.value != 0);
  }

  /** One result is the other, read up to the blanks behind it. */
  predicate UpToBlanks(t: string, r: Result, o: Result) {
    if r.Err? then o == r
    else o.Ok? && o.operand == r.operand && r.state.pos <= |t| && r.state.(pos := SkipBlanks(t, r.state.pos)) == o.state
  }

  lemma SameUpToBlanks(t: string, r: Result, o: Result, q: nat)
    requires Same(t, r, o) && (o.Ok? ==> o.state.pos == q) && q <= |t| && SkipBlanks(t, q) == q
    ensures UpToBlanks(t, r, o)
  {
    hide SkipBlanks;
  }

  /** The first branch of a conditional. */
  lemma {:induction false} FirstRight(e: Expr, t: string, depth: nat, s: State, skip: bool, f: string, store: Store)
    requires e.Choose? && Valid(e) && depth <= MAX_RECURSION && s.nesting + 1 <= MAX_NESTING
    requires ChooseArranged(e, t, depth, s, f)
    ensures var q1 := s.pos + |Print(e.cond, 3)|;
            var q2 := q1 + 2 + |Print(e.left, 0)|;
            && q1 < |t|
            && UpToBlanks(t, Parse(0, t, depth, State(q1 + 1, s.nesting + 1, store), skip),
                          Outcome(e.left, 0, depth, State(q2, s.nesting + 1, store), skip))
    decreases e, 0
  {
    hide Parse, SkipBlanks, Tail, Outcome, Print, TailOf, FollowedBy, ReadyAt, Valid, StartsAt, Same, UpToBlanks;
    ColonToken();
    ValidParts(e);
    var q1 := s.pos + |Print(e.cond, 3)|;
    var q2 := q1 + 2 + |Print(e.left, 0)|;
    var s1 := State(q1 + 1, s.nesting + 1, store);
    OperandRight(e.left, 0, t, depth, s1, skip, ":");
    OutcomeState(e.left, 0, depth, s1.(pos := q2), skip);
    SameUpToBlanks(t, Parse(0, t, depth, s1, skip), Outcome(e.left, 0, depth, s1.(pos := q2), skip), q2);
  }

  /** What follows the first branch depends on it only up to blanks. */
  lemma SameRead(t: string, depth: nat, takeFirst: bool, r: Result, o: Result, skip: bool)
    requires UpToBlanks(t, r, o) && depth <= MAX_RECURSION && (r.Ok? ==> r.state.nesting > 0)
    ensures FirstAfter(t, depth, takeFirst, r, skip) ==
            if o.Err? then o else Alternative(t, depth, takeFirst, o.operand.value, o.state, skip)
  {
    hide Alternative, SkipBlanks;
  }

  lemma {:induction false} ChooseRight(e: Expr, t: string, depth: nat, s: State, skip: bool, f: string)
    requires e.Choose? && Ready(e, 2, t, depth, s, f)
    ensures Right(e, 2, t, depth, s, skip)
    decreases e, 2
  {
    hide Parse, IsFollow, StartsAt, SkipBlanks, Tail, Outcome, Print, Nest, TailOf, ReadyAt, Valid;
    ReadyValid(e, 2, t, depth, s, f);
    ValidParts(e);
    var q1 := s.pos + |Print(e.cond, 3)|;
    var q2 := q1 + 2 + |Print(e.left, 0)|;
    QuestionToken();
    ChooseText(e);
    ChooseParts(e, t, depth, s, f);
    ParsesRight(e.cond, 3, t, depth, s, skip, "?");
    RightStops(e.cond, 3, t, depth, s, skip, "?");
    ChooseOutcome(e, depth, Past(e, 2, s), q1, q2, skip);
    OutcomeState(e.cond, 3, depth, Past(e.cond, 3, s), skip);
    ParseIsTail(2, t, depth, s, skip);
    AfterSame(2, t, depth, Parse(3, t, depth, s, skip), Outcome(e.cond, 3, depth, Past(e.cond, 3, s), skip), skip);
    OutcomeStops(e, 2, t, depth, Past(e, 2, s), skip, f);
    match Outcome(e.cond, 3, depth, Past(e.cond, 3, s), skip)
    case Err(_, _) =>
    case Ok(c, st) =>
      BranchesRight(e, t, depth, s, skip, f, c, st.store);
  }

  // ----- The theorem -----

  /** For every tree whose text nests within the limit, every store and every recursion depth:
      evaluating the text gives the value and the variables that evaluating the tree gives, and
      fails with the same error exactly when the tree fails. */
  lemma EvaluatePrinted(e: Expr, depth: nat, store: Store)
    requires Valid(e) && depth <= MAX_RECURSION && Nest(e, 0) <= MAX_NESTING
    ensures Evaluate(Print(e, 0), depth, store) ==
            match Eval(e, depth, store)
            case Val(v, after) => (Number(v), after)
            case Fail(error, after) => (Malformed(error), after)
  {
    hide Parse, IsFollow, SkipBlanks, Tail, Eval, Print, Nest, TailOf;
    var t := Print(e, 0);
    var s := State(0, 0, store);
    assert t[0..|t|] == t;
    EndAllowed();
    PrintStarts(e, 0);
    ParsesRight(e, 0, t, depth, s, false, "");
    RightEnds(e, t, depth, s);
    EndBlanks(t);
  }

  lemma EndAllowed()
    ensures Allowed(0, "") && TailOf("") == -1
  {
  }

  lemma EndBlanks(t: string)
    ensures SkipBlanks(t, |t|) == |t| && (t != "" && !IsBlank(t[0]) ==> SkipBlanks(t, 0) == 0)
  {
  }

  lemma RightEnds(e: Expr, t: string, depth: nat, s: State)
    requires Ready(e, 0, t, depth, s, "") && Right(e, 0, t, depth, s, false)
    ensures Same(t, Parse(0, t, depth, s, false), Outcome(e, 0, depth, Past(e, 0, s), false))
  {
    hide Parse, Eval, Print, Nest, Same, Tail;
    EndAllowed();
    RightStops(e, 0, t, depth, s, false, "");
  }
}
