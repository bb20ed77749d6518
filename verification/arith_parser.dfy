// The arithmetic evaluator in its own form: an object with a cursor and a nesting count that reads
// the text, one method per grammar level, and writes the variables as it goes. Every method is
// proved against the grammar function of its level.

module ArithParser {
  import opened Basics
  import opened ArithNumbers
  import opened ArithGrammar
  import R = ArithRoundTrip

  /** The shell's variables as arithmetic sees them, shared by a parser and the parsers it starts. */
  class Variables {
    var store: Store

    constructor (initial: Store)
      ensures store == initial
    {
      store := initial;
    }
  }

  datatype Reply = Done(operand: Operand) | Failed(error: ArithError)

  /** A tail starts behind the blanks. */
  lemma TailStarts(k: nat, t: string, depth: nat, left: Operand, s: State, skip: bool)
    requires k <= 13 && depth <= MAX_RECURSION && s.pos <= |t|
    ensures Tail(k, t, depth, left, s, skip) == TailAt(k, t, depth, left, s.(pos := SkipBlanks(t, s.pos)), skip)
  {
    hide SkipBlanks, CommaTail, AssignTail, ConditionalTail, OrTail, AndTail, PowerTail, BinaryTail;
  }

  /** What follows the question mark of a conditional. */
  function Choice(t: string, depth: nat, takeFirst: bool, s: State, skip: bool): Result
    requires depth <= MAX_RECURSION && s.pos <= |t|
  {
    if s.nesting + 1 > MAX_NESTING then Err(NestingTooDeep, s.store)
    else
      match Parse(0, t, depth, s.(nesting := s.nesting + 1), skip || !takeFirst)
      case Err(e, store) => Err(e, store)
      case Ok(first, st) => Alternative(t, depth, takeFirst, first.value, st.(pos := SkipBlanks(t, st.pos)), skip)
  }

  lemma ConditionalSplits(t: string, depth: nat, left: Operand, s: State, skip: bool)
    requires depth <= MAX_RECURSION && s.pos <= |t|
    ensures var p := SkipBlanks(t, s.pos);
            ConditionalTail(t, depth, left, s.(pos := p), skip) ==
            if StartsAt(t, p, "?") then Choice(t, depth, left.value != 0, s.(pos := p + 1), skip)
            else Ok(left, s.(pos := p))
  {
    hide Parse, Alternative, SkipBlanks;
  }

  function TailAt(k: nat, t: string, depth: nat, left: Operand, s: State, skip: bool): Result
    requires k <= 13 && depth <= MAX_RECURSION && s.pos <= |t|
  {
    if k == 0 then CommaTail(t, depth, left, s, skip)
    else if k == 1 then AssignTail(t, depth, left, s, skip)
    else if k == 2 then ConditionalTail(t, depth, left, s, skip)
    else if k == 3 then OrTail(t, depth, left, s, skip)
    else if k == 4 then AndTail(t, depth, left, s, skip)
    else if k == 13 then PowerTail(t, depth, left, s, skip)
    else BinaryTail(k, t, depth, left, s, skip)
  }

  /** What a name followed by an open bracket denotes, from behind the bracket on. */
  function Subscripted(name: string, t: string, depth: nat, s: State, skip: bool): Result
    requires depth <= MAX_RECURSION && s.pos <= |t|
  {
    if s.nesting + 1 > MAX_NESTING then Err(NestingTooDeep, s.store)
    else match Parse(0, t, depth, s.(nesting := s.nesting + 1), skip)
      case Err(e, store) => Err(e, store)
      case Ok(index, st) =>
        var p := SkipBlanks(t, st.pos);
        if !StartsAt(t, p, "]") then Err(MissingBracket, st.store)
        else Fetch(depth, Element(name, index.value), State(p + 1, s.nesting, st.store), skip)
  }

  lemma VariableSubscripted(t: string, depth: nat, s: State, skip: bool)
    requires depth <= MAX_RECURSION && s.pos < |t| && IsNameStart(t[s.pos])
    ensures var q := SkipName(t, s.pos + 1);
            Variable(t, depth, s, skip) ==
            if q < |t| && t[q] == '[' then Subscripted(t[s.pos..q], t, depth, s.(pos := q + 1), skip)
            else Fetch(depth, Scalar(t[s.pos..q]), s.(pos := q), skip)
  {
    hide Parse, SkipBlanks, StartsAt, Fetch;
  }

  lemma SkipStops(t: string, p: nat)
    requires p <= |t| && (p == |t| || !IsBlank(t[p]))
    ensures SkipBlanks(t, p) == p
  {
  }

  class Parser {
    const text: string
    const depth: nat
    const vars: Variables
    var position: nat
    var nesting: nat

    constructor (text: string, depth: nat, vars: Variables)
      ensures this.text == text && this.depth == depth && this.vars == vars
      ensures position == 0 && nesting == 0
    {
      this.text, this.depth, this.vars, this.position, this.nesting := text, depth, vars, 0, 0;
    }

    ghost predicate Valid()
      reads this
    {
      position <= |text| && depth <= MAX_RECURSION
    }

    ghost function View(): State
      reads this, vars
    {
      State(position, nesting, vars.store)
    }

    /** The reply and the parser's state are what the grammar gives. */
    ghost predicate Agrees(reply: Reply, r: Result)
      reads this, vars
    {
      match r
      case Err(e, store) => reply == Failed(e) && vars.store == store
      case Ok(operand, st) => reply == Done(operand) && View() == st && Valid()
    }

    method SkipSpace()
      requires Valid()
      modifies this`position
      ensures position == SkipBlanks(text, old(position)) && Valid()
    {
      while position < |text| && IsBlank(text[position])
        invariant position <= |text| && SkipBlanks(text, position) == SkipBlanks(text, old(position))
      {
        position := position + 1;
      }
    }

    /** Skip blanks and consume `token` when it is next. */
    method Eat(token: string) returns (eaten: bool)
      requires Valid()
      modifies this`position
      ensures eaten == StartsAt(text, SkipBlanks(text, old(position)), token) && Valid()
      ensures position == SkipBlanks(text, old(position)) + if eaten then |token| else 0
    {
      SkipSpace();
      eaten := StartsAt(text, position, token);
      if eaten {
        position := position + |token|;
      }
    }

    /** Skip blanks and find the candidate that is next and is not the start of a longer operator. */
    method BinaryOperator(candidates: seq<string>) returns (found: Option<string>)
      requires Valid()
      modifies this`position
      ensures position == SkipBlanks(text, old(position)) && Valid()
      ensures found == OperatorAt(text, position, candidates)
    {
      SkipSpace();
      var i := 0;
      while i < |candidates|
        invariant i <= |candidates|
        invariant OperatorAt(text, position, candidates) == OperatorFrom(text, position, candidates, i)
      {
        hide Shadowed, StartsAt;
        if StartsAt(text, position, candidates[i]) && !Shadowed(text, position, candidates[i], candidates) {
          return Some(candidates[i]);
        }
        i := i + 1;
      }
      return None;
    }

    /** A loop of level `k` in progress: what is left to do is that level's tail. */
    ghost predicate Pending(k: nat, reply: Reply, r: Result, skip: bool)
      requires k <= 13
      reads this, vars
    {
      match reply
      case Done(operand) => Valid() && r == Tail(k, text, depth, operand, View(), skip)
      case Failed(e) => r == Err(e, vars.store)
    }

    method Comma(skip: bool) returns (reply: Reply)
      requires Valid()
      modifies this, vars
      ensures Agrees(reply, old(Parse(0, text, depth, View(), skip)))
      decreases MAX_RECURSION - depth, |text| - position, 20
    {
      hide Parse, Tail, SkipBlanks, StartsAt;
      R.ParseIsTail(0, text, depth, View(), skip);
      reply := Assignment(skip);
      while reply.Done?
        invariant Pending(0, reply, old(Parse(0, text, depth, View(), skip)), skip)
        invariant reply.Done? ==> position > old(position)
        decreases if reply.Done? then |text| - position + 1 else 0
      {
        TailStarts(0, text, depth, reply.operand, View(), skip);
        var more := Eat(",");
        if !more {
          return;
        }
        reply := Assignment(skip);
      }
    }

    method Assignment(skip: bool) returns (reply: Reply)
      requires Valid()
      modifies this, vars
      ensures Agrees(reply, old(Parse(1, text, depth, View(), skip)))
      decreases MAX_RECURSION - depth, |text| - position, 19
    {
      hide Parse, Tail, SkipBlanks, StartsAt, OperatorAt, Apply, Assigned;
      R.ParseIsTail(1, text, depth, View(), skip);
      reply := Conditional(skip);
      if reply.Failed? {
        return;
      }
      var target := reply.operand;
      TailStarts(1, text, depth, target, View(), skip);
      var operator := BinaryOperator(ASSIGNMENTS);
      if operator.None? {
        return;
      }
      OperatorStands(text, position, ASSIGNMENTS);
      reply := AssignTo(target, operator.value, skip);
    }

    /** The operator and the value of an assignment to a target that has been read. */
    method AssignTo(target: Operand, operator: string, skip: bool) returns (reply: Reply)
      requires Valid() && OperatorAt(text, position, ASSIGNMENTS) == Some(operator) && |operator| > 0 &&
               position + |operator| <= |text|
      modifies this, vars
      ensures Agrees(reply, old(AssignTail(text, depth, target, View(), skip)))
      decreases MAX_RECURSION - depth, |text| - position, 20
    {
      hide Parse, OperatorAt, Apply, Assigned;
      position := position + |operator|;
      if target.place.None? {
        return Failed(NotAVariable);
      }
      reply := Assignment(skip);
      if reply.Failed? {
        return;
      }
      if skip {
        return Done(Rvalue(0));
      }
      var value := if operator == "=" then Number(reply.operand.value)
                   else Apply(operator[..|operator| - 1], target.value, reply.operand.value);
      if value.Malformed? {
        return Failed(value.error);
      }
      vars.store := Assigned(vars.store, target.place.value, value.value);
      return Done(Rvalue(value.value));
    }

    method Conditional(skip: bool) returns (reply: Reply)
      requires Valid()
      modifies this, vars
      ensures Agrees(reply, old(Parse(2, text, depth, View(), skip)))
      decreases MAX_RECURSION - depth, |text| - position, 18
    {
      hide Parse, Tail, SkipBlanks, StartsAt, ConditionalTail, Choice;
      R.ParseIsTail(2, text, depth, View(), skip);
      reply := LogicalOr(skip);
      if reply.Failed? {
        return;
      }
      var takeFirst := reply.operand.value != 0;
      TailStarts(2, text, depth, reply.operand, View(), skip);
      ConditionalSplits(text, depth, reply.operand, View(), skip);
      var asked := Eat("?");
      if !asked {
        return;
      }
      reply := Choose(takeFirst, skip);
    }

    /** The `FIRST : SECOND` part of a conditional. */
    method Choose(takeFirst: bool, skip: bool) returns (reply: Reply)
      requires Valid()
      modifies this, vars
      ensures Agrees(reply, old(Choice(text, depth, takeFirst, View(), skip)))
      decreases MAX_RECURSION - depth, |text| - position, 21
    {
      hide Parse, Alternative, SkipBlanks;
      nesting := nesting + 1;
      if nesting > MAX_NESTING {
        return Failed(NestingTooDeep);
      }
      reply := Comma(skip || !takeFirst);
      if reply.Failed? {
        return;
      }
      SkipSpace();
      reply := Otherwise(takeFirst, reply.operand.value, skip);
    }

    /** The `: SECOND` part of a conditional. */
    method Otherwise(takeFirst: bool, first: i64, skip: bool) returns (reply: Reply)
      requires Valid() && nesting > 0 && SkipBlanks(text, position) == position
      modifies this, vars
      ensures Agrees(reply, old(Alternative(text, depth, takeFirst, first, View(), skip)))
      decreases MAX_RECURSION - depth, |text| - position, 19
    {
      hide Parse, SkipBlanks, StartsAt;
      var colon := Eat(":");
      if !colon {
        return Failed(MissingColon);
      }
      reply := Conditional(skip || takeFirst);
      if reply.Failed? {
        return;
      }
      nesting := nesting - 1;
      return Done(Rvalue(if takeFirst then first else reply.operand.value));
    }

    method LogicalOr(skip: bool) returns (reply: Reply)
      requires Valid()
      modifies this, vars
      ensures Agrees(reply, old(Parse(3, text, depth, View(), skip)))
      decreases MAX_RECURSION - depth, |text| - position, 17
    {
      hide Parse, Tail, SkipBlanks, StartsAt;
      R.ParseIsTail(3, text, depth, View(), skip);
      reply := LogicalAnd(skip);
      while reply.Done?
        invariant Pending(3, reply, old(Parse(3, text, depth, View(), skip)), skip)
        invariant reply.Done? ==> position > old(position)
        decreases if reply.Done? then |text| - position + 1 else 0
      {
        TailStarts(3, text, depth, reply.operand, View(), skip);
        var more := Eat("||");
        if !more {
          return;
        }
        var decided := reply.operand.value != 0;
        reply := LogicalAnd(skip || decided);
        if reply.Done? {
          reply := Done(Rvalue(Truth(decided || reply.operand.value != 0)));
        }
      }
    }

    method LogicalAnd(skip: bool) returns (reply: Reply)
      requires Valid()
      modifies this, vars
      ensures Agrees(reply, old(Parse(4, text, depth, View(), skip)))
      decreases MAX_RECURSION - depth, |text| - position, 16
    {
      hide Parse, Tail, SkipBlanks, StartsAt;
      R.ParseIsTail(4, text, depth, View(), skip);
      reply := BinaryLevel(0, skip);
      while reply.Done?
        invariant Pending(4, reply, old(Parse(4, text, depth, View(), skip)), skip)
        invariant reply.Done? ==> position > old(position)
        decreases if reply.Done? then |text| - position + 1 else 0
      {
        TailStarts(4, text, depth, reply.operand, View(), skip);
        var more := Eat("&&");
        if !more {
          return;
        }
        var decided := reply.operand.value == 0;
        reply := BinaryLevel(0, skip || decided);
        if reply.Done? {
          reply := Done(Rvalue(Truth(!decided && reply.operand.value != 0)));
        }
      }
    }

    /** The left-associative operators of `LevelOperators(level)`; level 8 is the power operator. */
    method BinaryLevel(level: nat, skip: bool) returns (reply: Reply)
      requires Valid() && level <= 8
      modifies this, vars
      ensures Agrees(reply, old(Parse(level + 5, text, depth, View(), skip)))
      decreases MAX_RECURSION - depth, |text| - position, 15 - level
    {
      hide Parse, Tail, SkipBlanks, StartsAt, OperatorAt, Apply, LevelOperators;
      if level == 8 {
        reply := Power(skip);
        return;
      }
      R.ParseIsTail(level + 5, text, depth, View(), skip);
      reply := BinaryLevel(level + 1, skip);
      while reply.Done?
        invariant Pending(level + 5, reply, old(Parse(level + 5, text, depth, View(), skip)), skip)
        invariant reply.Done? ==> position > old(position)
        decreases if reply.Done? then |text| - position + 1 else 0
      {
        TailStarts(level + 5, text, depth, reply.operand, View(), skip);
        var left := reply.operand.value;
        var operator := BinaryOperator(LevelOperators(level));
        if operator.None? {
          return;
        }
        LevelOperatorStands(text, position, level);
        position := position + |operator.value|;
        reply := BinaryLevel(level + 1, skip);
        if reply.Done? {
          var value := if skip then Number(0) else Apply(operator.value, left, reply.operand.value);
          reply := if value.Malformed? then Failed(value.error) else Done(Rvalue(value.value));
        }
      }
    }

    method Power(skip: bool) returns (reply: Reply)
      requires Valid()
      modifies this, vars
      ensures Agrees(reply, old(Parse(13, text, depth, View(), skip)))
      decreases MAX_RECURSION - depth, |text| - position, 6
    {
      hide Parse, Tail, SkipBlanks, StartsAt, OperatorAt, Apply;
      R.ParseIsTail(13, text, depth, View(), skip);
      ParseUnary(text, depth, View(), skip);
      reply := Unary(skip);
      if reply.Failed? {
        return;
      }
      TailStarts(13, text, depth, reply.operand, View(), skip);
      var operator := BinaryOperator(["**"]);
      if operator.Some? {
        OperatorStands(text, position, ["**"]);
        reply := Exponent(reply.operand, skip);
      }
    }

    /** The `** EXPONENT` part of a power, from its operator on. */
    method Exponent(base: Operand, skip: bool) returns (reply: Reply)
      requires Valid() && position + 2 <= |text| && OperatorAt(text, position, ["**"]).Some?
      modifies this, vars
      ensures Agrees(reply, old(PowerTail(text, depth, base, View(), skip)))
      decreases MAX_RECURSION - depth, |text| - position, 7
    {
      hide Parse, OperatorAt, Apply;
      position := position + 2;
      nesting := nesting + 1;
      if nesting > MAX_NESTING {
        return Failed(NestingTooDeep);
      }
      reply := Power(skip);
      if reply.Failed? {
        return;
      }
      nesting := nesting - 1;
      if skip {
        return Done(Rvalue(0));
      }
      var value := Apply("**", base.value, reply.operand.value);
      return if value.Malformed? then Failed(value.error) else Done(Rvalue(value.value));
    }

    /** A prefix increment: `++` or `--` in front of a name. */
    method Prefix(delta: int, skip: bool) returns (reply: Reply)
      requires Valid() && SkipBlanks(text, position) == position && PrefixIncrement(text, position) == Some(delta)
      modifies this, vars
      ensures Agrees(reply, old(ArithGrammar.Unary(text, depth, View(), skip)))
      decreases MAX_RECURSION - depth, |text| - position, 4
    {
      hide SkipBlanks, Assigned, PrefixIncrement, ArithGrammar.Postfix;
      position := position + 2;
      reply := Postfix(skip);
      if reply.Failed? {
        return;
      }
      var target := reply.operand;
      if target.place.None? {
        return Failed(NotAVariable);
      }
      if skip {
        return Done(Rvalue(0));
      }
      var value := Wrap(target.value + delta);
      vars.store := Assigned(vars.store, target.place.value, value);
      return Done(Rvalue(value));
    }

    method Unary(skip: bool) returns (reply: Reply)
      requires Valid()
      modifies this, vars
      ensures Agrees(reply, old(ArithGrammar.Unary(text, depth, View(), skip)))
      decreases MAX_RECURSION - depth, |text| - position, 5
    {
      hide SkipBlanks, PrefixIncrement, ArithGrammar.Postfix;
      R.UnarySkipsBlanks(text, depth, View(), skip);
      SkipSpace();
      SkipStops(text, position);
      var delta := PrefixIncrement(text, position);
      if delta.Some? {
        reply := Prefix(delta.value, skip);
        return;
      }
      if position == |text| || !IsUnary(text[position]) {
        reply := Postfix(skip);
        return;
      }
      var operator := text[position];
      position := position + 1;
      nesting := nesting + 1;
      if nesting > MAX_NESTING {
        return Failed(NestingTooDeep);
      }
      reply := Unary(skip);
      if reply.Failed? {
        return;
      }
      nesting := nesting - 1;
      return Done(Rvalue(UnaryValue(operator, reply.operand.value)));
    }

    method Postfix(skip: bool) returns (reply: Reply)
      requires Valid()
      modifies this, vars
      ensures Agrees(reply, old(ArithGrammar.Postfix(text, depth, View(), skip)))
      decreases MAX_RECURSION - depth, |text| - position, 3
    {
      hide SkipBlanks, StartsAt, ArithGrammar.Primary, Assigned;
      reply := Primary(skip);
      if reply.Failed? || reply.operand.place.None? {
        return;
      }
      var place, value := reply.operand.place.value, reply.operand.value;
      var up := Eat("++");
      var down := false;
      if !up {
        SkipStops(text, position);
        down := Eat("--");
      }
      if up || down {
        if !skip {
          var step: int := if up then 1 else -1;
          vars.store := Assigned(vars.store, place, Wrap(value + step));
        }
        return Done(Rvalue(value));
      }
    }

    /** A parenthesised expression, from its open parenthesis on. */
    method Parenthesised(skip: bool) returns (reply: Reply)
      requires Valid() && position < |text| && text[position] == '(' && SkipBlanks(text, position) == position
      modifies this, vars
      ensures Agrees(reply, old(ArithGrammar.Primary(text, depth, View(), skip)))
      decreases MAX_RECURSION - depth, |text| - position, 1
    {
      hide SkipBlanks, StartsAt, Parse, ArithGrammar.Variable, Constant;
      position := position + 1;
      nesting := nesting + 1;
      if nesting > MAX_NESTING {
        return Failed(NestingTooDeep);
      }
      reply := Comma(skip);
      if reply.Failed? {
        return;
      }
      var value := reply.operand.value;
      nesting := nesting - 1;
      var closed := Eat(")");
      return if closed then Done(Rvalue(value)) else Failed(MissingParenthesis);
    }

    /** The constant at the cursor. */
    method ReadConstant() returns (reply: Reply)
      requires Valid() && position < |text| && IsDigit(text[position])
      modifies this`position
      ensures position == SkipConstant(text, old(position) + 1)
      ensures var value := Constant(text[old(position)..position]);
              reply == if value.Malformed? then Failed(value.error) else Done(Rvalue(value.value))
    {
      hide SkipConstant, IsConstantChar, Constant;
      var start := position;
      position := position + 1;
      while position < |text| && IsConstantChar(text[position])
        invariant start < position <= |text| && SkipConstant(text, position) == SkipConstant(text, start + 1)
      {
        SkipConstantStep(text, position);
        position := position + 1;
      }
      SkipConstantStep(text, position);
      var value := ParseConstant(text[start..position]);
      reply := if value.Malformed? then Failed(value.error) else Done(Rvalue(value.value));
    }

    method Primary(skip: bool) returns (reply: Reply)
      requires Valid()
      modifies this, vars
      ensures Agrees(reply, old(ArithGrammar.Primary(text, depth, View(), skip)))
      decreases MAX_RECURSION - depth, |text| - position, 2
    {
      hide SkipBlanks, StartsAt, Parse, ArithGrammar.Variable, Constant, SkipConstant, IsBlank;
      R.PrimarySkipsBlanks(text, depth, View(), skip);
      SkipSpace();
      SkipStops(text, position);
      if position == |text| {
        return Failed(OperandExpected);
      }
      if text[position] == '(' {
        reply := Parenthesised(skip);
      } else if IsDigit(text[position]) {
        reply := ReadConstant();
      } else if IsNameStart(text[position]) {
        reply := Variable(skip);
      } else {
        reply := Failed(OperandExpected);
      }
    }

    method Variable(skip: bool) returns (reply: Reply)
      requires Valid() && position < |text| && IsNameStart(text[position])
      modifies this, vars
      ensures Agrees(reply, old(ArithGrammar.Variable(text, depth, View(), skip)))
      decreases MAX_RECURSION - depth, |text| - position, 1
    {
      hide ArithGrammar.Variable, Subscripted, Fetch, SkipName, IsNameChar, IsNameStart;
      VariableSubscripted(text, depth, View(), skip);
      var start := position;
      position := position + 1;
      while position < |text| && IsNameChar(text[position])
        invariant start < position <= |text| && SkipName(text, position) == SkipName(text, start + 1)
        invariant vars.store == old(vars.store) && nesting == old(nesting)
      {
        SkipNameStep(text, position);
        position := position + 1;
      }
      SkipNameStep(text, position);
      var name := text[start..position];
      if position < |text| && text[position] == '[' {
        position := position + 1;
        reply := Subscript(name, skip);
      } else {
        reply := Value(Scalar(name), skip);
      }
    }

    /** The subscript of an array element, from behind its open bracket on. */
    method Subscript(name: string, skip: bool) returns (reply: Reply)
      requires Valid()
      modifies this, vars
      ensures Agrees(reply, old(Subscripted(name, text, depth, View(), skip)))
      decreases MAX_RECURSION - depth, |text| - position, 21
    {
      hide SkipBlanks, StartsAt, Parse, Fetch;
      nesting := nesting + 1;
      if nesting > MAX_NESTING {
        return Failed(NestingTooDeep);
      }
      reply := Comma(skip);
      if reply.Failed? {
        return;
      }
      nesting := nesting - 1;
      var closed := Eat("]");
      if !closed {
        return Failed(MissingBracket);
      }
      reply := Value(Element(name, reply.operand.value), skip);
    }

    /** The operand a place denotes; a value that is not a plain integer is evaluated by a parser of
        its own, one recursion level deeper, over the same variables. */
    method Value(place: Place, skip: bool) returns (reply: Reply)
      requires Valid()
      modifies vars
      ensures Agrees(reply, old(Fetch(depth, place, View(), skip)))
      decreases MAX_RECURSION - depth, 0, 1
    {
      hide Evaluate, Trim, ParseI64;
      if skip {
        return Done(Operand(0, Some(place)));
      }
      var value := Number(0);
      if place in vars.store {
        var trimmed := Trim(vars.store[place]);
        if trimmed != "" {
          if ParseI64(trimmed).Some? {
            value := Number(ParseI64(trimmed).value);
          } else if depth >= MAX_RECURSION {
            value := Malformed(RecursionTooDeep);
          } else {
            value := EvaluateAtDepth(vars, trimmed, depth + 1);
          }
        }
      }
      return if value.Malformed? then Failed(value.error) else Done(Operand(value.value, Some(place)));
    }
  }

  method EvaluateAtDepth(vars: Variables, expression: string, depth: nat) returns (value: Parsed)
    requires depth <= MAX_RECURSION
    modifies vars
    ensures (value, vars.store) == Evaluate(expression, depth, old(vars.store))
    decreases MAX_RECURSION - depth, |expression| + 1, 0
  {
    hide SkipBlanks, Parse;
    var parser := new Parser(expression, depth, vars);
    parser.SkipSpace();
    if parser.position == |expression| {
      return Number(0);
    }
    var reply := parser.Comma(false);
    if reply.Failed? {
      return Malformed(reply.error);
    }
    parser.SkipSpace();
    return if parser.position == |expression| then Number(reply.operand.value) else Malformed(TrailingText);
  }

  // ----- Facts the methods use -----

  lemma OperatorStands(t: string, p: nat, candidates: seq<string>)
    ensures var r := OperatorAt(t, p, candidates); r.Some? ==>
              r.value in candidates && StartsAt(t, p, r.value) && p + |r.value| <= |t|
  {
  }

  lemma LevelOperatorStands(t: string, p: nat, level: nat)
    requires level < 8
    ensures var r := OperatorAt(t, p, LevelOperators(level)); r.Some? ==> |r.value| > 0 && p + |r.value| <= |t|
  {
    OperatorStands(t, p, LevelOperators(level));
  }

  lemma ParseUnary(t: string, depth: nat, s: State, skip: bool)
    requires depth <= MAX_RECURSION && s.pos <= |t|
    ensures Parse(14, t, depth, s, skip) == Unary(t, depth, s, skip)
  {
    hide Unary;
  }

  lemma SkipConstantStep(t: string, p: nat)
    requires p <= |t|
    ensures SkipConstant(t, p) == if p < |t| && IsConstantChar(t[p]) then SkipConstant(t, p + 1) else p
  {
  }

  lemma SkipNameStep(t: string, p: nat)
    requires p <= |t|
    ensures SkipName(t, p) == if p < |t| && IsNameChar(t[p]) then SkipName(t, p + 1) else p
  {
  }
}
