// The shell's arithmetic grammar as one table-driven recursive function: level 0 is the comma
// operator, level 15 a postfix expression, and every level below 14 is an operand of the next
// level followed by a tail. Parsing and evaluation happen in one pass over the text; `skip` parses
// an operand that is not selected.

module ArithGrammar {
  import opened Basics
  import opened ArithNumbers

  const MAX_RECURSION: nat := 128
  const MAX_NESTING: nat := 256

  datatype Place = Scalar(name: string) | Element(name: string, index: i64)

  /** Variables by place; an absent place is unset. */
  type Store = map<Place, string>

  datatype Operand = Operand(value: i64, place: Option<Place>)

  /** The parser's moving part: cursor, syntactic nesting and the variables. */
  datatype State = State(pos: nat, nesting: nat, store: Store)

  /** An evaluation result. Assignments made before a failure stay made. */
  datatype Result = Ok(operand: Operand, state: State) | Err(error: ArithError, store: Store)

  function Rvalue(value: i64): Operand {
    Operand(value, None)
  }

  function Truth(b: bool): i64 {
    if b then 1 else 0
  }

  // ----- Operators -----

  const ASSIGNMENTS: seq<string> := ["<<=", ">>=", "*=", "/=", "%=", "+=", "-=", "&=", "^=", "|=", "="]
  const LONGER: seq<string> := ["<<=", ">>=", "**", "<<", ">>", "<=", ">=", "==", "!=", "&&", "||", "*=", "/=", "%=",
                                "+=", "-=", "&=", "^=", "|="]

  /** The left-associative binary operators, from `|` down to `* / %`. */
  function LevelOperators(level: nat): seq<string> {
    if level == 0 then ["|"]
    else if level == 1 then ["^"]
    else if level == 2 then ["&"]
    else if level == 3 then ["==", "!="]
    else if level == 4 then ["<=", ">=", "<", ">"]
    else if level == 5 then ["<<", ">>"]
    else if level == 6 then ["+", "-"]
    else if level == 7 then ["*", "/", "%"]
    else []
  }

  /** Bit `i` of an integer in two's complement. */
  predicate Bit(x: int, i: nat) {
    FloorShift(x, i) % 2 == 1
  }

  /** The integer with the given bits in two's complement, the sign last. */
  function FromBits(bits: seq<bool>): int
    requires bits != []
  {
    if |bits| == 1 then (if bits[0] then -1 else 0)
    else (if bits[0] then 1 else 0) + 2 * FromBits(bits[1..])
  }

  /** Division that truncates toward zero. */
  function Quotient(x: int, y: int): int
    requires y != 0
  {
    var q := (if x < 0 then -x else x) / (if y < 0 then -y else y);
    if (x < 0) == (y < 0) then q else -q
  }

  /** A binary operator on 64-bit integers. Shift counts are taken modulo 64. */
  function Apply(operator: string, left: i64, right: i64): Parsed {
    match operator
    case "|" => Number(Wrap(FromBits(seq(64, i requires i >= 0 => Bit(left, i) || Bit(right, i)))))
    case "^" => Number(Wrap(FromBits(seq(64, i requires i >= 0 => Bit(left, i) != Bit(right, i)))))
    case "&" => Number(Wrap(FromBits(seq(64, i requires i >= 0 => Bit(left, i) && Bit(right, i)))))
    case "==" => Number(Truth(left == right))
    case "!=" => Number(Truth(left != right))
    case "<=" => Number(Truth(left <= right))
    case ">=" => Number(Truth(left >= right))
    case "<" => Number(Truth(left < right))
    case ">" => Number(Truth(left > right))
    case "<<" => Number(Wrap(left * Pow(2, right % 64)))
    case ">>" => Number(Wrap(FloorShift(left, right % 64)))
    case "+" => Number(Wrap(left + right))
    case "-" => Number(Wrap(left - right))
    case "*" => Number(Wrap(left * right))
    case "/" => if right == 0 then Malformed(DivisionByZero) else Number(Wrap(Quotient(left, right)))
    case "%" => if right == 0 then Malformed(DivisionByZero) else Number(Wrap(left - right * Quotient(left, right)))
    case _ => if right < 0 then Malformed(NegativeExponent) else Number(Wrap(Pow(left, right)))
  }

  /** Arithmetic shift to the right. */
  function FloorShift(x: int, count: nat): int
    decreases count
  {
    if count == 0 then x else FloorShift(x / 2, count - 1)
  }

  // ----- Text -----

  /** The characters with the Unicode White_Space property. */
  predicate IsBlank(c: char) {
    || '\t' <= c <= '\r' || c == ' ' || c == '\U{85}' || c == '\U{A0}' || c == '\U{1680}'
    || '\U{2000}' <= c <= '\U{200A}'
    || c == '\U{2028}' || c == '\U{2029}' || c == '\U{202F}' || c == '\U{205F}' || c == '\U{3000}'
  }

  predicate IsNameStart(c: char) {
    'a' <= c <= 'z' || 'A' <= c <= 'Z' || c == '_'
  }

  predicate IsNameChar(c: char) {
    IsNameStart(c) || IsDigit(c)
  }

  predicate IsConstantChar(c: char) {
    IsNameChar(c) || c == '#' || c == '@'
  }

  function SkipBlanks(t: string, p: nat): (q: nat)
    requires p <= |t|
    ensures p <= q <= |t| && (q < |t| ==> !IsBlank(t[q]))
    ensures forall i :: p <= i < q ==> IsBlank(t[i])
    decreases |t| - p
  {
    if p < |t| && IsBlank(t[p]) then SkipBlanks(t, p + 1) else p
  }

  /** The end of the run of name characters at `p`. */
  function SkipName(t: string, p: nat): (q: nat)
    requires p <= |t|
    ensures p <= q <= |t|
    decreases |t| - p
  {
    if p < |t| && IsNameChar(t[p]) then SkipName(t, p + 1) else p
  }

  function SkipConstant(t: string, p: nat): (q: nat)
    requires p <= |t|
    ensures p <= q <= |t|
    decreases |t| - p
  {
    if p < |t| && IsConstantChar(t[p]) then SkipConstant(t, p + 1) else p
  }

  predicate StartsAt(t: string, p: nat, token: string) {
    p + |token| <= |t| && t[p..p + |token|] == token
  }

  /** A longer operator that is not a candidate itself stands at the cursor. */
  predicate Shadowed(t: string, p: nat, candidate: string, candidates: seq<string>) {
    exists i | 0 <= i < |LONGER| ::
      |LONGER[i]| > |candidate| && candidate <= LONGER[i] && LONGER[i] !in candidates && StartsAt(t, p, LONGER[i])
  }

  /** The first candidate from index `i` on that stands at `p` unshadowed. */
  function OperatorFrom(t: string, p: nat, candidates: seq<string>, i: nat): (r: Option<string>)
    requires i <= |candidates|
    ensures r.Some? ==> r.value in candidates && StartsAt(t, p, r.value)
    decreases |candidates| - i
  {
    if i == |candidates| then None
    else if StartsAt(t, p, candidates[i]) && !Shadowed(t, p, candidates[i], candidates) then Some(candidates[i])
    else OperatorFrom(t, p, candidates, i + 1)
  }

  /** The binary operator at a non-blank cursor, if it is a candidate. */
  function OperatorAt(t: string, p: nat, candidates: seq<string>): Option<string> {
    OperatorFrom(t, p, candidates, 0)
  }

  predicate NameAfter(t: string, p: nat)
    requires p <= |t|
  {
    var q := SkipBlanks(t, p);
    q < |t| && IsNameStart(t[q])
  }

  function TrimStart(s: string): string {
    s[SkipBlanks(s, 0)..]
  }

  function TrimEnd(s: string): string {
    if s != "" && IsBlank(s[|s| - 1]) then TrimEnd(s[..|s| - 1]) else s
  }

  function Trim(s: string): string {
    TrimEnd(TrimStart(s))
  }

  /** A signed decimal that fits 64 bits: optional sign, at least one digit, nothing else. */
  function ParseI64(s: string): Option<i64> {
    if s == "" then None
    else
      var body := if s[0] == '-' || s[0] == '+' then s[1..] else s;
      if body == "" || !AllDigits(body) then None
      else
        var value: int := if s[0] == '-' then 0 - DecimalValue(body) else DecimalValue(body);
        if I64_MIN <= value <= I64_MAX then Some(value) else None
  }

  function Printed(value: i64): string {
    if value < 0 then ['-'] + Decimal(0 - value) else Decimal(value)
  }

  function Assigned(store: Store, place: Place, value: i64): Store {
    store[place := Printed(value)]
  }

  // ----- The grammar -----

  /** Parse and evaluate one operand of grammar level `k`. */
  function Parse(k: nat, t: string, depth: nat, s: State, skip: bool): (r: Result)
    requires k <= 15 && depth <= MAX_RECURSION && s.pos <= |t|
    ensures r.Ok? ==> s.pos < r.state.pos <= |t| && r.state.nesting == s.nesting
    decreases MAX_RECURSION - depth, |t| - s.pos, 20 - k
  {
    if k == 15 then Postfix(t, depth, s, skip)
    else if k == 14 then Unary(t, depth, s, skip)
    else match Parse(k + 1, t, depth, s, skip)
      case Err(e, store) => Err(e, store)
      case Ok(operand, st) => Tail(k, t, depth, operand, st, skip)
  }

  /** What level `k` makes of an operand of level `k + 1` and the text after it. */
  function Tail(k: nat, t: string, depth: nat, left: Operand, s: State, skip: bool): (r: Result)
    requires k <= 13 && depth <= MAX_RECURSION && s.pos <= |t|
    ensures r.Ok? ==> s.pos <= r.state.pos <= |t| && r.state.nesting == s.nesting
    decreases MAX_RECURSION - depth, |t| - s.pos, 30
  {
    var s1 := s.(pos := SkipBlanks(t, s.pos));
    if k == 0 then CommaTail(t, depth, left, s1, skip)
    else if k == 1 then AssignTail(t, depth, left, s1, skip)
    else if k == 2 then ConditionalTail(t, depth, left, s1, skip)
    else if k == 3 then OrTail(t, depth, left, s1, skip)
    else if k == 4 then AndTail(t, depth, left, s1, skip)
    else if k == 13 then PowerTail(t, depth, left, s1, skip)
    else BinaryTail(k, t, depth, left, s1, skip)
  }

  function CommaTail(t: string, depth: nat, left: Operand, s: State, skip: bool): (r: Result)
    requires depth <= MAX_RECURSION && s.pos <= |t|
    ensures r.Ok? ==> s.pos <= r.state.pos <= |t| && r.state.nesting == s.nesting
    decreases MAX_RECURSION - depth, |t| - s.pos, 29
  {
    if !StartsAt(t, s.pos, ",") then Ok(left, s)
    else match Parse(1, t, depth, s.(pos := s.pos + 1), skip)
      case Err(e, store) => Err(e, store)
      case Ok(right, st) => Tail(0, t, depth, right, st, skip)
  }

  function AssignTail(t: string, depth: nat, left: Operand, s: State, skip: bool): (r: Result)
    requires depth <= MAX_RECURSION && s.pos <= |t|
    ensures r.Ok? ==> s.pos <= r.state.pos <= |t| && r.state.nesting == s.nesting
    decreases MAX_RECURSION - depth, |t| - s.pos, 29
  {
    match OperatorAt(t, s.pos, ASSIGNMENTS)
    case None => Ok(left, s)
    case Some(operator) =>
      if left.place.None? then Err(NotAVariable, s.store)
      else
        assert |operator| > 0;
        match Parse(1, t, depth, s.(pos := s.pos + |operator|), skip)
        case Err(e, store) => Err(e, store)
        case Ok(right, st) =>
          if skip then Ok(Rvalue(0), st)
          else
            var value := if operator == "=" then Number(right.value)
                         else Apply(operator[..|operator| - 1], left.value, right.value);
            if value.Malformed? then Err(value.error, st.store)
            else Ok(Rvalue(value.value), st.(store := Assigned(st.store, left.place.value, value.value)))
  }

  function ConditionalTail(t: string, depth: nat, left: Operand, s: State, skip: bool): (r: Result)
    requires depth <= MAX_RECURSION && s.pos <= |t|
    ensures r.Ok? ==> s.pos <= r.state.pos <= |t| && r.state.nesting == s.nesting
    decreases MAX_RECURSION - depth, |t| - s.pos, 29
  {
    if !StartsAt(t, s.pos, "?") then Ok(left, s)
    else if s.nesting + 1 > MAX_NESTING then Err(NestingTooDeep, s.store)
    else
      var takeFirst := left.value != 0;
      match Parse(0, t, depth, State(s.pos + 1, s.nesting + 1, s.store), skip || !takeFirst)
      case Err(e, store) => Err(e, store)
      case Ok(first, st) => Alternative(t, depth, takeFirst, first.value, st.(pos := SkipBlanks(t, st.pos)), skip)
  }

  /** The `: SECOND` part of a conditional, one level of nesting further in. */
  function Alternative(t: string, depth: nat, takeFirst: bool, first: i64, s: State, skip: bool): (r: Result)
    requires depth <= MAX_RECURSION && s.pos <= |t| && s.nesting > 0
    ensures r.Ok? ==> s.pos <= r.state.pos <= |t| && r.state.nesting == s.nesting - 1
    decreases MAX_RECURSION - depth, |t| - s.pos, 29
  {
    if !StartsAt(t, s.pos, ":") then Err(MissingColon, s.store)
    else match Parse(2, t, depth, s.(pos := s.pos + 1), skip || takeFirst)
      case Err(e, store) => Err(e, store)
      case Ok(second, st) => Ok(Rvalue(if takeFirst then first else second.value), st.(nesting := s.nesting - 1))
  }

  function OrTail(t: string, depth: nat, left: Operand, s: State, skip: bool): (r: Result)
    requires depth <= MAX_RECURSION && s.pos <= |t|
    ensures r.Ok? ==> s.pos <= r.state.pos <= |t| && r.state.nesting == s.nesting
    decreases MAX_RECURSION - depth, |t| - s.pos, 29
  {
    if !StartsAt(t, s.pos, "||") then Ok(left, s)
    else
      var decided := left.value != 0;
      match Parse(4, t, depth, s.(pos := s.pos + 2), skip || decided)
      case Err(e, store) => Err(e, store)
      case Ok(right, st) => Tail(3, t, depth, Rvalue(Truth(decided || right.value != 0)), st, skip)
  }

  function AndTail(t: string, depth: nat, left: Operand, s: State, skip: bool): (r: Result)
    requires depth <= MAX_RECURSION && s.pos <= |t|
    ensures r.Ok? ==> s.pos <= r.state.pos <= |t| && r.state.nesting == s.nesting
    decreases MAX_RECURSION - depth, |t| - s.pos, 29
  {
    if !StartsAt(t, s.pos, "&&") then Ok(left, s)
    else
      var decided := left.value == 0;
      match Parse(5, t, depth, s.(pos := s.pos + 2), skip || decided)
      case Err(e, store) => Err(e, store)
      case Ok(right, st) => Tail(4, t, depth, Rvalue(Truth(!decided && right.value != 0)), st, skip)
  }

  function BinaryTail(k: nat, t: string, depth: nat, left: Operand, s: State, skip: bool): (r: Result)
    requires 5 <= k <= 12 && depth <= MAX_RECURSION && s.pos <= |t|
    ensures r.Ok? ==> s.pos <= r.state.pos <= |t| && r.state.nesting == s.nesting
    decreases MAX_RECURSION - depth, |t| - s.pos, 29
  {
    match OperatorAt(t, s.pos, LevelOperators(k - 5))
    case None => Ok(left, s)
    case Some(operator) =>
      assert |operator| > 0;
      match Parse(k + 1, t, depth, s.(pos := s.pos + |operator|), skip)
      case Err(e, store) => Err(e, store)
      case Ok(right, st) =>
        var value := if skip then Number(0) else Apply(operator, left.value, right.value);
        if value.Malformed? then Err(value.error, st.store)
        else Tail(k, t, depth, Rvalue(value.value), st, skip)
  }

  function PowerTail(t: string, depth: nat, left: Operand, s: State, skip: bool): (r: Result)
    requires depth <= MAX_RECURSION && s.pos <= |t|
    ensures r.Ok? ==> s.pos <= r.state.pos <= |t| && r.state.nesting == s.nesting
    decreases MAX_RECURSION - depth, |t| - s.pos, 29
  {
    if OperatorAt(t, s.pos, ["**"]).None? then Ok(left, s)
    else if s.nesting + 1 > MAX_NESTING then Err(NestingTooDeep, s.store)
    else match Parse(13, t, depth, State(s.pos + 2, s.nesting + 1, s.store), skip)
      case Err(e, store) => Err(e, store)
      case Ok(right, st) =>
        if skip then Ok(Rvalue(0), st.(nesting := s.nesting))
        else
          var value := Apply("**", left.value, right.value);
          if value.Malformed? then Err(value.error, st.store)
          else Ok(Rvalue(value.value), st.(nesting := s.nesting))
  }

  /** The step of a prefix or postfix increment operator at `p`, if there is one. */
  function Increment(t: string, p: nat): (r: Option<int>)
    ensures r.Some? ==> p + 2 <= |t|
  {
    if StartsAt(t, p, "++") then Some(1) else if StartsAt(t, p, "--") then Some(-1) else None
  }

  /** The step of a prefix increment: the operator must be followed by a name. */
  function PrefixIncrement(t: string, p: nat): (r: Option<int>)
    ensures r.Some? ==> p + 2 <= |t|
  {
    if StartsAt(t, p, "++") && NameAfter(t, p + 2) then Some(1)
    else if StartsAt(t, p, "--") && NameAfter(t, p + 2) then Some(-1)
    else None
  }

  function UnaryValue(operator: char, value: i64): i64 {
    match operator
    case '-' => Wrap(0 - value)
    case '+' => value
    case '!' => Truth(value == 0)
    case _ => 0 - value - 1
  }

  predicate IsUnary(c: char) {
    c == '-' || c == '+' || c == '!' || c == '~'
  }

  function Unary(t: string, depth: nat, s: State, skip: bool): (r: Result)
    requires depth <= MAX_RECURSION && s.pos <= |t|
    ensures r.Ok? ==> s.pos < r.state.pos <= |t| && r.state.nesting == s.nesting
    decreases MAX_RECURSION - depth, |t| - s.pos, 5
  {
    var p := SkipBlanks(t, s.pos);
    var delta := PrefixIncrement(t, p);
    if delta.Some? then
      match Postfix(t, depth, s.(pos := p + 2), skip)
      case Err(e, store) => Err(e, store)
      case Ok(target, st) =>
        if target.place.None? then Err(NotAVariable, st.store)
        else if skip then Ok(Rvalue(0), st)
        else
          var value := Wrap(target.value + delta.value);
          Ok(Rvalue(value), st.(store := Assigned(st.store, target.place.value, value)))
    else if p < |t| && IsUnary(t[p]) then
      if s.nesting + 1 > MAX_NESTING then Err(NestingTooDeep, s.store)
      else match Unary(t, depth, State(p + 1, s.nesting + 1, s.store), skip)
        case Err(e, store) => Err(e, store)
        case Ok(operand, st) => Ok(Rvalue(UnaryValue(t[p], operand.value)), st.(nesting := s.nesting))
    else Postfix(t, depth, s.(pos := p), skip)
  }

  function Postfix(t: string, depth: nat, s: State, skip: bool): (r: Result)
    requires depth <= MAX_RECURSION && s.pos <= |t|
    ensures r.Ok? ==> s.pos < r.state.pos <= |t| && r.state.nesting == s.nesting
    decreases MAX_RECURSION - depth, |t| - s.pos, 4
  {
    match Primary(t, depth, s, skip)
    case Err(e, store) => Err(e, store)
    case Ok(operand, st) =>
      if operand.place.None? then Ok(operand, st)
      else
        var p := SkipBlanks(t, st.pos);
        var delta := Increment(t, p);
        if delta.None? then Ok(operand, st.(pos := p))
        else if skip then Ok(Rvalue(operand.value), st.(pos := p + 2))
        else Ok(Rvalue(operand.value),
                st.(pos := p + 2, store := Assigned(st.store, operand.place.value, Wrap(operand.value + delta.value))))
  }

  function Primary(t: string, depth: nat, s: State, skip: bool): (r: Result)
    requires depth <= MAX_RECURSION && s.pos <= |t|
    ensures r.Ok? ==> s.pos < r.state.pos <= |t| && r.state.nesting == s.nesting
    decreases MAX_RECURSION - depth, |t| - s.pos, 3
  {
    var p := SkipBlanks(t, s.pos);
    if p == |t| then Err(OperandExpected, s.store)
    else if t[p] == '(' then
      if s.nesting + 1 > MAX_NESTING then Err(NestingTooDeep, s.store)
      else match Parse(0, t, depth, State(p + 1, s.nesting + 1, s.store), skip)
        case Err(e, store) => Err(e, store)
        case Ok(operand, st) =>
          var q := SkipBlanks(t, st.pos);
          if StartsAt(t, q, ")") then Ok(Rvalue(operand.value), State(q + 1, s.nesting, st.store))
          else Err(MissingParenthesis, st.store)
    else if IsDigit(t[p]) then
      var q := SkipConstant(t, p + 1);
      (match Constant(t[p..q])
       case Malformed(e) => Err(e, s.store)
       case Number(value) => Ok(Rvalue(value), s.(pos := q)))
    else if IsNameStart(t[p]) then Variable(t, depth, s.(pos := p), skip)
    else Err(OperandExpected, s.store)
  }

  /** A name at the cursor, with its subscript if one follows directly, and its value. */
  function Variable(t: string, depth: nat, s: State, skip: bool): (r: Result)
    requires depth <= MAX_RECURSION && s.pos < |t| && IsNameStart(t[s.pos])
    ensures r.Ok? ==> s.pos < r.state.pos <= |t| && r.state.nesting == s.nesting
    decreases MAX_RECURSION - depth, |t| - s.pos, 2
  {
    var q := SkipName(t, s.pos + 1);
    var name := t[s.pos..q];
    if q < |t| && t[q] == '[' then
      if s.nesting + 1 > MAX_NESTING then Err(NestingTooDeep, s.store)
      else match Parse(0, t, depth, State(q + 1, s.nesting + 1, s.store), skip)
        case Err(e, store) => Err(e, store)
        case Ok(index, st) =>
          var p := SkipBlanks(t, st.pos);
          if !StartsAt(t, p, "]") then Err(MissingBracket, st.store)
          else Fetch(depth, Element(name, index.value), State(p + 1, s.nesting, st.store), skip)
    else Fetch(depth, Scalar(name), s.(pos := q), skip)
  }

  /** The operand a variable denotes: not looked up at all when skipped. */
  function Fetch(depth: nat, place: Place, s: State, skip: bool): (r: Result)
    requires depth <= MAX_RECURSION
    ensures r.Ok? ==> r.state.pos == s.pos && r.state.nesting == s.nesting
    decreases MAX_RECURSION - depth, 0, 1
  {
    if skip then Ok(Operand(0, Some(place)), s)
    else match VariableValue(depth, place, s.store)
      case (Malformed(e), store) => Err(e, store)
      case (Number(value), store) => Ok(Operand(value, Some(place)), s.(store := store))
  }

  /** The value of a variable: unset or blank is zero, a plain integer is itself, anything else is
      evaluated as an expression one level deeper. */
  function VariableValue(depth: nat, place: Place, store: Store): (Parsed, Store)
    requires depth <= MAX_RECURSION
    decreases MAX_RECURSION - depth, 0, 0
  {
    if place !in store then (Number(0), store)
    else
      var text := Trim(store[place]);
      if text == "" then (Number(0), store)
      else if ParseI64(text).Some? then (Number(ParseI64(text).value), store)
      else if depth >= MAX_RECURSION then (Malformed(RecursionTooDeep), store)
      else Evaluate(text, depth + 1, store)
  }

  /** Evaluate a complete expression; an empty or blank one is zero. */
  function Evaluate(t: string, depth: nat, store: Store): (Parsed, Store)
    requires depth <= MAX_RECURSION
    decreases MAX_RECURSION - depth, |t| + 1, 0
  {
    var p := SkipBlanks(t, 0);
    if p == |t| then (Number(0), store)
    else match Parse(0, t, depth, State(p, 0, store), false)
      case Err(e, st) => (Malformed(e), st)
      case Ok(operand, st) =>
        if SkipBlanks(t, st.pos) == |t| then (Number(operand.value), st.store) else (Malformed(TrailingText), st.store)
  }
}
