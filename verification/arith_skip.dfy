// Skipped operands. Parsing with `skip` depends on the text alone: it neither reads nor writes a
// variable. And whenever evaluating an operand succeeds, skipping it succeeds too and stops at the
// same place.

module ArithSkip {
  import opened Basics
  import opened ArithNumbers
  import opened ArithGrammar

  function WithStore(r: Result, store: Store): Result {
    match r
    case Ok(operand, state) => Ok(operand, state.(store := store))
    case Err(e, _) => Err(e, store)
  }

  // ----- Skipping is blind to the store -----

  /** Skipping the same text over another store gives the same answer, with that store untouched. */
  lemma {:induction false} SkipParse(k: nat, t: string, depth: nat, s: State, w: Store)
    requires k <= 15 && depth <= MAX_RECURSION && s.pos <= |t|
    ensures Parse(k, t, depth, s.(store := w), true) == WithStore(Parse(k, t, depth, s, true), w)
    decreases MAX_RECURSION - depth, |t| - s.pos, 20 - k
  {
    hide Tail, Unary, Postfix;
    if k == 15 {
      SkipPostfix(t, depth, s, w);
    } else if k == 14 {
      SkipUnary(t, depth, s, w);
    } else {
      SkipParse(k + 1, t, depth, s, w);
      match Parse(k + 1, t, depth, s, true)
      case Err(_, _) =>
      case Ok(operand, st) =>
        SkipTail(k, t, depth, operand, st, w);
    }
  }

  lemma {:induction false} SkipTail(k: nat, t: string, depth: nat, left: Operand, s: State, w: Store)
    requires k <= 13 && depth <= MAX_RECURSION && s.pos <= |t|
    ensures Tail(k, t, depth, left, s.(store := w), true) == WithStore(Tail(k, t, depth, left, s, true), w)
    decreases MAX_RECURSION - depth, |t| - s.pos, 30
  {
    hide CommaTail, AssignTail, ConditionalTail, OrTail, AndTail, BinaryTail, PowerTail;
    var s1 := s.(pos := SkipBlanks(t, s.pos));
    if k == 0 { SkipComma(t, depth, left, s1, w); }
    else if k == 1 { SkipAssign(t, depth, left, s1, w); }
    else if k == 2 { SkipConditional(t, depth, left, s1, w); }
    else if k == 3 { SkipOr(t, depth, left, s1, w); }
    else if k == 4 { SkipAnd(t, depth, left, s1, w); }
    else if k == 13 { SkipPower(t, depth, left, s1, w); }
    else { SkipBinary(k, t, depth, left, s1, w); }
  }

  lemma {:induction false} SkipComma(t: string, depth: nat, left: Operand, s: State, w: Store)
    requires depth <= MAX_RECURSION && s.pos <= |t|
    ensures CommaTail(t, depth, left, s.(store := w), true) == WithStore(CommaTail(t, depth, left, s, true), w)
    decreases MAX_RECURSION - depth, |t| - s.pos, 29
  {
    hide Parse, Tail;
    if StartsAt(t, s.pos, ",") {
      SkipParse(1, t, depth, s.(pos := s.pos + 1), w);
      match Parse(1, t, depth, s.(pos := s.pos + 1), true)
      case Err(_, _) =>
      case Ok(right, st) => SkipTail(0, t, depth, right, st, w);
    }
  }

  lemma {:induction false} SkipAssign(t: string, depth: nat, left: Operand, s: State, w: Store)
    requires depth <= MAX_RECURSION && s.pos <= |t|
    ensures AssignTail(t, depth, left, s.(store := w), true) == WithStore(AssignTail(t, depth, left, s, true), w)
    decreases MAX_RECURSION - depth, |t| - s.pos, 29
  {
    hide Parse, OperatorAt, Apply;
    match OperatorAt(t, s.pos, ASSIGNMENTS)
    case None =>
    case Some(operator) =>
      OperatorNonEmpty(t, s.pos, 1);
      SkipParse(1, t, depth, s.(pos := s.pos + |operator|), w);
  }

  /** Operators take up text: the progress the grammar's recursion rests on. */
  lemma OperatorNonEmpty(t: string, p: nat, k: nat)
    requires k == 1 || 5 <= k <= 12
    ensures var r := OperatorAt(t, p, if k == 1 then ASSIGNMENTS else LevelOperators(k - 5));
            r.Some? ==> |r.value| > 0 && p + |r.value| <= |t|
  {
  }

  lemma {:induction false} SkipConditional(t: string, depth: nat, left: Operand, s: State, w: Store)
    requires depth <= MAX_RECURSION && s.pos <= |t|
    ensures ConditionalTail(t, depth, left, s.(store := w), true) ==
            WithStore(ConditionalTail(t, depth, left, s, true), w)
    decreases MAX_RECURSION - depth, |t| - s.pos, 29
  {
    hide Alternative, SkipBlanks, SkipName, Parse;
    if StartsAt(t, s.pos, "?") && s.nesting + 1 <= MAX_NESTING {
      var s1 := State(s.pos + 1, s.nesting + 1, s.store);
      SkipParse(0, t, depth, s1, w);
      match Parse(0, t, depth, s1, true)
      case Err(_, _) =>
      case Ok(first, st) =>
        SkipAlternative(t, depth, left.value != 0, first.value, st.(pos := SkipBlanks(t, st.pos)), w);
    }
  }

  lemma {:induction false} SkipAlternative(t: string, depth: nat, takeFirst: bool, first: i64, s: State, w: Store)
    requires depth <= MAX_RECURSION && s.pos <= |t| && s.nesting > 0
    ensures Alternative(t, depth, takeFirst, first, s.(store := w), true) ==
            WithStore(Alternative(t, depth, takeFirst, first, s, true), w)
    decreases MAX_RECURSION - depth, |t| - s.pos, 29
  {
    hide Parse;
    if StartsAt(t, s.pos, ":") {
      SkipParse(2, t, depth, s.(pos := s.pos + 1), w);
    }
  }

  lemma {:induction false} SkipOr(t: string, depth: nat, left: Operand, s: State, w: Store)
    requires depth <= MAX_RECURSION && s.pos <= |t|
    ensures OrTail(t, depth, left, s.(store := w), true) == WithStore(OrTail(t, depth, left, s, true), w)
    decreases MAX_RECURSION - depth, |t| - s.pos, 29
  {
    hide Parse, Tail;
    if StartsAt(t, s.pos, "||") {
      SkipParse(4, t, depth, s.(pos := s.pos + 2), w);
      match Parse(4, t, depth, s.(pos := s.pos + 2), true)
      case Err(_, _) =>
      case Ok(right, st) => SkipTail(3, t, depth, Rvalue(Truth(left.value != 0 || right.value != 0)), st, w);
    }
  }

  lemma {:induction false} SkipAnd(t: string, depth: nat, left: Operand, s: State, w: Store)
    requires depth <= MAX_RECURSION && s.pos <= |t|
    ensures AndTail(t, depth, left, s.(store := w), true) == WithStore(AndTail(t, depth, left, s, true), w)
    decreases MAX_RECURSION - depth, |t| - s.pos, 29
  {
    hide Parse, Tail;
    if StartsAt(t, s.pos, "&&") {
      SkipParse(5, t, depth, s.(pos := s.pos + 2), w);
      match Parse(5, t, depth, s.(pos := s.pos + 2), true)
      case Err(_, _) =>
      case Ok(right, st) => SkipTail(4, t, depth, Rvalue(Truth(left.value != 0 && right.value != 0)), st, w);
    }
  }

  lemma {:induction false} SkipBinary(k: nat, t: string, depth: nat, left: Operand, s: State, w: Store)
    requires 5 <= k <= 12 && depth <= MAX_RECURSION && s.pos <= |t|
    ensures BinaryTail(k, t, depth, left, s.(store := w), true) == WithStore(BinaryTail(k, t, depth, left, s, true), w)
    decreases MAX_RECURSION - depth, |t| - s.pos, 29
  {
    hide Parse, Tail, OperatorAt, Apply;
    match OperatorAt(t, s.pos, LevelOperators(k - 5))
    case None =>
    case Some(operator) =>
      OperatorNonEmpty(t, s.pos, k);
      SkipParse(k + 1, t, depth, s.(pos := s.pos + |operator|), w);
      match Parse(k + 1, t, depth, s.(pos := s.pos + |operator|), true)
      case Err(_, _) =>
      case Ok(right, st) => SkipTail(k, t, depth, Rvalue(0), st, w);
  }

  lemma {:induction false} SkipPower(t: string, depth: nat, left: Operand, s: State, w: Store)
    requires depth <= MAX_RECURSION && s.pos <= |t|
    ensures PowerTail(t, depth, left, s.(store := w), true) == WithStore(PowerTail(t, depth, left, s, true), w)
    decreases MAX_RECURSION - depth, |t| - s.pos, 29
  {
    hide Parse, Apply;
    if OperatorAt(t, s.pos, ["**"]).Some? && s.nesting + 1 <= MAX_NESTING {
      SkipParse(13, t, depth, State(s.pos + 2, s.nesting + 1, s.store), w);
    }
  }

  lemma {:induction false} SkipUnary(t: string, depth: nat, s: State, w: Store)
    requires depth <= MAX_RECURSION && s.pos <= |t|
    ensures Unary(t, depth, s.(store := w), true) == WithStore(Unary(t, depth, s, true), w)
    decreases MAX_RECURSION - depth, |t| - s.pos, 5
  {
    hide SkipBlanks, PrefixIncrement, Postfix, UnaryValue, Assigned, Wrap, IsUnary;
    var p := SkipBlanks(t, s.pos);
    if PrefixIncrement(t, p).Some? {
      SkipPostfix(t, depth, s.(pos := p + 2), w);
    } else if p < |t| && IsUnary(t[p]) {
      if s.nesting + 1 <= MAX_NESTING {
        SkipUnary(t, depth, State(p + 1, s.nesting + 1, s.store), w);
      }
    } else {
      SkipPostfix(t, depth, s.(pos := p), w);
    }
  }

  lemma {:induction false} SkipPostfix(t: string, depth: nat, s: State, w: Store)
    requires depth <= MAX_RECURSION && s.pos <= |t|
    ensures Postfix(t, depth, s.(store := w), true) == WithStore(Postfix(t, depth, s, true), w)
    decreases MAX_RECURSION - depth, |t| - s.pos, 4
  {
    hide Primary;
    SkipPrimary(t, depth, s, w);
  }

  lemma {:induction false} SkipPrimary(t: string, depth: nat, s: State, w: Store)
    requires depth <= MAX_RECURSION && s.pos <= |t|
    ensures Primary(t, depth, s.(store := w), true) == WithStore(Primary(t, depth, s, true), w)
    decreases MAX_RECURSION - depth, |t| - s.pos, 3
  {
    hide SkipBlanks, SkipName, Parse, Variable, Constant;
    var p := SkipBlanks(t, s.pos);
    if p == |t| {
    } else if t[p] == '(' {
      if s.nesting + 1 <= MAX_NESTING {
        SkipParse(0, t, depth, State(p + 1, s.nesting + 1, s.store), w);
      }
    } else if IsNameStart(t[p]) {
      SkipVariable(t, depth, s.(pos := p), w);
    }
  }

  lemma {:induction false} SkipVariable(t: string, depth: nat, s: State, w: Store)
    requires depth <= MAX_RECURSION && s.pos < |t| && IsNameStart(t[s.pos])
    ensures Variable(t, depth, s.(store := w), true) == WithStore(Variable(t, depth, s, true), w)
    decreases MAX_RECURSION - depth, |t| - s.pos, 2
  {
    hide SkipBlanks, SkipName, Parse;
    var q := SkipName(t, s.pos + 1);
    if q < |t| && t[q] == '[' && s.nesting + 1 <= MAX_NESTING {
      SkipParse(0, t, depth, State(q + 1, s.nesting + 1, s.store), w);
    }
  }

  // ----- Skipping follows every successful evaluation -----

  /** If `live` succeeded then `skipped` succeeded at the same cursor and nesting, and agrees on
      whether the operand can be assigned to. */
  ghost predicate Follows(live: Result, skipped: Result) {
    live.Ok? ==>
      && skipped.Ok?
      && skipped.state.pos == live.state.pos
      && skipped.state.nesting == live.state.nesting
      && skipped.operand.place.Some? == live.operand.place.Some?
  }

  /** Evaluating or skipping from a cursor, against skipping from that cursor over any store. */
  lemma {:induction false} FollowParse(k: nat, t: string, depth: nat, s: State, skip: bool, w: Store)
    requires k <= 15 && depth <= MAX_RECURSION && s.pos <= |t|
    ensures Follows(Parse(k, t, depth, s, skip), Parse(k, t, depth, s.(store := w), true))
    decreases MAX_RECURSION - depth, |t| - s.pos, 20 - k
  {
    hide Tail, Unary, Postfix;
    if k == 15 {
      FollowPostfix(t, depth, s, skip, w);
    } else if k == 14 {
      FollowUnary(t, depth, s, skip, w);
    } else {
      FollowParse(k + 1, t, depth, s, skip, w);
      SkipParse(k + 1, t, depth, s, w);
      match Parse(k + 1, t, depth, s, skip)
      case Err(_, _) =>
      case Ok(operand, st) =>
        FollowTail(k, t, depth, operand, Parse(k + 1, t, depth, s.(store := w), true).operand, st, skip, w);
    }
  }

  lemma {:induction false} FollowTail(k: nat, t: string, depth: nat, left: Operand, left2: Operand, s: State,
                                      skip: bool, w: Store)
    requires k <= 13 && depth <= MAX_RECURSION && s.pos <= |t| && left.place.Some? == left2.place.Some?
    ensures Follows(Tail(k, t, depth, left, s, skip), Tail(k, t, depth, left2, s.(store := w), true))
    decreases MAX_RECURSION - depth, |t| - s.pos, 30
  {
    hide CommaTail, AssignTail, ConditionalTail, OrTail, AndTail, BinaryTail, PowerTail;
    var s1 := s.(pos := SkipBlanks(t, s.pos));
    if k == 0 { FollowComma(t, depth, left, left2, s1, skip, w); }
    else if k == 1 { FollowAssign(t, depth, left, left2, s1, skip, w); }
    else if k == 2 { FollowConditional(t, depth, left, left2, s1, skip, w); }
    else if k == 3 { FollowOr(t, depth, left, left2, s1, skip, w); }
    else if k == 4 { FollowAnd(t, depth, left, left2, s1, skip, w); }
    else if k == 13 { FollowPower(t, depth, left, left2, s1, skip, w); }
    else { FollowBinary(k, t, depth, left, left2, s1, skip, w); }
  }

  lemma {:induction false} FollowComma(t: string, depth: nat, left: Operand, left2: Operand, s: State, skip: bool,
                                       w: Store)
    requires depth <= MAX_RECURSION && s.pos <= |t| && left.place.Some? == left2.place.Some?
    ensures Follows(CommaTail(t, depth, left, s, skip), CommaTail(t, depth, left2, s.(store := w), true))
    decreases MAX_RECURSION - depth, |t| - s.pos, 29
  {
    hide Parse, Tail;
    if StartsAt(t, s.pos, ",") {
      var s1 := s.(pos := s.pos + 1);
      FollowParse(1, t, depth, s1, skip, w);
      SkipParse(1, t, depth, s1, w);
      match Parse(1, t, depth, s1, skip)
      case Err(_, _) =>
      case Ok(right, st) =>
        FollowTail(0, t, depth, right, Parse(1, t, depth, s1.(store := w), true).operand, st, skip, w);
    }
  }

  lemma {:induction false} FollowAssign(t: string, depth: nat, left: Operand, left2: Operand, s: State, skip: bool,
                                        w: Store)
    requires depth <= MAX_RECURSION && s.pos <= |t| && left.place.Some? == left2.place.Some?
    ensures Follows(AssignTail(t, depth, left, s, skip), AssignTail(t, depth, left2, s.(store := w), true))
    decreases MAX_RECURSION - depth, |t| - s.pos, 29
  {
    hide Parse, OperatorAt, Apply, Assigned;
    match OperatorAt(t, s.pos, ASSIGNMENTS)
    case None =>
    case Some(operator) =>
      OperatorNonEmpty(t, s.pos, 1);
      FollowParse(1, t, depth, s.(pos := s.pos + |operator|), skip, w);
  }

  lemma {:induction false} FollowConditional(t: string, depth: nat, left: Operand, left2: Operand, s: State, skip: bool,
                                             w: Store)
    requires depth <= MAX_RECURSION && s.pos <= |t| && left.place.Some? == left2.place.Some?
    ensures Follows(ConditionalTail(t, depth, left, s, skip), ConditionalTail(t, depth, left2, s.(store := w), true))
    decreases MAX_RECURSION - depth, |t| - s.pos, 29
  {
    hide Alternative, SkipBlanks, SkipName, Parse;
    if StartsAt(t, s.pos, "?") && s.nesting + 1 <= MAX_NESTING {
      var takeFirst := left.value != 0;
      var s1 := State(s.pos + 1, s.nesting + 1, s.store);
      FollowParse(0, t, depth, s1, skip || !takeFirst, w);
      SkipParse(0, t, depth, s1, w);
      match Parse(0, t, depth, s1, skip || !takeFirst)
      case Err(_, _) =>
      case Ok(first, st) =>
        var first2 := Parse(0, t, depth, s1.(store := w), true).operand;
        FollowAlternative(t, depth, takeFirst, left2.value != 0, first.value, first2.value,
                          st.(pos := SkipBlanks(t, st.pos)), skip, w);
    }
  }

  lemma {:induction false} FollowAlternative(t: string, depth: nat, takeFirst: bool, takeFirst2: bool, first: i64,
                                             first2: i64,
                                             s: State, skip: bool, w: Store)
    requires depth <= MAX_RECURSION && s.pos <= |t| && s.nesting > 0
    ensures Follows(Alternative(t, depth, takeFirst, first, s, skip),
                    Alternative(t, depth, takeFirst2, first2, s.(store := w), true))
    decreases MAX_RECURSION - depth, |t| - s.pos, 29
  {
    hide Parse;
    if StartsAt(t, s.pos, ":") {
      FollowParse(2, t, depth, s.(pos := s.pos + 1), skip || takeFirst, w);
    }
  }

  lemma {:induction false} FollowOr(t: string, depth: nat, left: Operand, left2: Operand, s: State, skip: bool,
                                    w: Store)
    requires depth <= MAX_RECURSION && s.pos <= |t| && left.place.Some? == left2.place.Some?
    ensures Follows(OrTail(t, depth, left, s, skip), OrTail(t, depth, left2, s.(store := w), true))
    decreases MAX_RECURSION - depth, |t| - s.pos, 29
  {
    hide Parse, Tail;
    if StartsAt(t, s.pos, "||") {
      var s1 := s.(pos := s.pos + 2);
      var decided := left.value != 0;
      FollowParse(4, t, depth, s1, skip || decided, w);
      SkipParse(4, t, depth, s1, w);
      match Parse(4, t, depth, s1, skip || decided)
      case Err(_, _) =>
      case Ok(right, st) =>
        var right2 := Parse(4, t, depth, s1.(store := w), true).operand;
        FollowTail(3, t, depth, Rvalue(Truth(decided || right.value != 0)),
                   Rvalue(Truth(left2.value != 0 || right2.value != 0)), st, skip, w);
    }
  }

  lemma {:induction false} FollowAnd(t: string, depth: nat, left: Operand, left2: Operand, s: State, skip: bool,
                                     w: Store)
    requires depth <= MAX_RECURSION && s.pos <= |t| && left.place.Some? == left2.place.Some?
    ensures Follows(AndTail(t, depth, left, s, skip), AndTail(t, depth, left2, s.(store := w), true))
    decreases MAX_RECURSION - depth, |t| - s.pos, 29
  {
    hide Parse, Tail;
    if StartsAt(t, s.pos, "&&") {
      var s1 := s.(pos := s.pos + 2);
      var decided := left.value == 0;
      FollowParse(5, t, depth, s1, skip || decided, w);
      SkipParse(5, t, depth, s1, w);
      match Parse(5, t, depth, s1, skip || decided)
      case Err(_, _) =>
      case Ok(right, st) =>
        var right2 := Parse(5, t, depth, s1.(store := w), true).operand;
        FollowTail(4, t, depth, Rvalue(Truth(!decided && right.value != 0)),
                   Rvalue(Truth(left2.value != 0 && right2.value != 0)), st, skip, w);
    }
  }

  lemma {:induction false} FollowBinary(k: nat, t: string, depth: nat, left: Operand, left2: Operand, s: State,
                                        skip: bool, w: Store)
    requires 5 <= k <= 12 && depth <= MAX_RECURSION && s.pos <= |t| && left.place.Some? == left2.place.Some?
    ensures Follows(BinaryTail(k, t, depth, left, s, skip), BinaryTail(k, t, depth, left2, s.(store := w), true))
    decreases MAX_RECURSION - depth, |t| - s.pos, 29
  {
    hide Parse, Tail, OperatorAt, Apply;
    match OperatorAt(t, s.pos, LevelOperators(k - 5))
    case None =>
    case Some(operator) =>
      OperatorNonEmpty(t, s.pos, k);
      var s1 := s.(pos := s.pos + |operator|);
      FollowParse(k + 1, t, depth, s1, skip, w);
      SkipParse(k + 1, t, depth, s1, w);
      match Parse(k + 1, t, depth, s1, skip)
      case Err(_, _) =>
      case Ok(right, st) =>
        var value := if skip then Number(0) else Apply(operator, left.value, right.value);
        if value.Number? {
          FollowTail(k, t, depth, Rvalue(value.value), Rvalue(0), st, skip, w);
        }
  }

  lemma {:induction false} FollowPower(t: string, depth: nat, left: Operand, left2: Operand, s: State, skip: bool,
                                       w: Store)
    requires depth <= MAX_RECURSION && s.pos <= |t| && left.place.Some? == left2.place.Some?
    ensures Follows(PowerTail(t, depth, left, s, skip), PowerTail(t, depth, left2, s.(store := w), true))
    decreases MAX_RECURSION - depth, |t| - s.pos, 29
  {
    hide Parse, Apply;
    if OperatorAt(t, s.pos, ["**"]).Some? && s.nesting + 1 <= MAX_NESTING {
      FollowParse(13, t, depth, State(s.pos + 2, s.nesting + 1, s.store), skip, w);
    }
  }

  lemma {:induction false} FollowUnary(t: string, depth: nat, s: State, skip: bool, w: Store)
    requires depth <= MAX_RECURSION && s.pos <= |t|
    ensures Follows(Unary(t, depth, s, skip), Unary(t, depth, s.(store := w), true))
    decreases MAX_RECURSION - depth, |t| - s.pos, 5
  {
    hide SkipBlanks, PrefixIncrement, Postfix, UnaryValue, Assigned, Wrap, IsUnary;
    var p := SkipBlanks(t, s.pos);
    if PrefixIncrement(t, p).Some? {
      FollowPostfix(t, depth, s.(pos := p + 2), skip, w);
    } else if p < |t| && IsUnary(t[p]) {
      if s.nesting + 1 <= MAX_NESTING {
        FollowUnary(t, depth, State(p + 1, s.nesting + 1, s.store), skip, w);
      }
    } else {
      FollowPostfix(t, depth, s.(pos := p), skip, w);
    }
  }

  lemma {:induction false} FollowPostfix(t: string, depth: nat, s: State, skip: bool, w: Store)
    requires depth <= MAX_RECURSION && s.pos <= |t|
    ensures Follows(Postfix(t, depth, s, skip), Postfix(t, depth, s.(store := w), true))
    decreases MAX_RECURSION - depth, |t| - s.pos, 4
  {
    hide Primary, Assigned;
    FollowPrimary(t, depth, s, skip, w);
  }

  lemma {:induction false} FollowPrimary(t: string, depth: nat, s: State, skip: bool, w: Store)
    requires depth <= MAX_RECURSION && s.pos <= |t|
    ensures Follows(Primary(t, depth, s, skip), Primary(t, depth, s.(store := w), true))
    decreases MAX_RECURSION - depth, |t| - s.pos, 3
  {
    hide SkipBlanks, SkipName, SkipConstant, Parse, Variable, Constant, StartsAt, IsNameStart;
    var p := SkipBlanks(t, s.pos);
    if p == |t| {
    } else if t[p] == '(' {
      if s.nesting + 1 <= MAX_NESTING {
        FollowParse(0, t, depth, State(p + 1, s.nesting + 1, s.store), skip, w);
      }
    } else if IsNameStart(t[p]) {
      FollowVariable(t, depth, s.(pos := p), skip, w);
    }
  }

  lemma {:induction false} FollowVariable(t: string, depth: nat, s: State, skip: bool, w: Store)
    requires depth <= MAX_RECURSION && s.pos < |t| && IsNameStart(t[s.pos])
    ensures Follows(Variable(t, depth, s, skip), Variable(t, depth, s.(store := w), true))
    decreases MAX_RECURSION - depth, |t| - s.pos, 2
  {
    hide SkipBlanks, SkipName, Parse, Fetch, StartsAt;
    var q := SkipName(t, s.pos + 1);
    var name := t[s.pos..q];
    if q < |t| && t[q] == '[' {
      if s.nesting + 1 <= MAX_NESTING {
        var s1 := State(q + 1, s.nesting + 1, s.store);
        FollowParse(0, t, depth, s1, skip, w);
        match Parse(0, t, depth, s1, skip)
        case Err(_, _) =>
        case Ok(index, st) =>
          var r := Parse(0, t, depth, s1.(store := w), true);
          var p := SkipBlanks(t, st.pos);
          FollowFetch(depth, Element(name, index.value), Element(name, r.operand.value),
                      State(p + 1, s.nesting, st.store), State(p + 1, s.nesting, r.state.store), skip);
      }
    } else {
      FollowFetch(depth, Scalar(name), Scalar(name), s.(pos := q), s.(pos := q, store := w), skip);
    }
  }

  lemma FollowFetch(depth: nat, place: Place, place2: Place, s: State, s2: State, skip: bool)
    requires depth <= MAX_RECURSION && s2.pos == s.pos && s2.nesting == s.nesting
    ensures Follows(Fetch(depth, place, s, skip), Fetch(depth, place2, s2, true))
  {
    hide VariableValue;
  }

  // ----- The theorems -----

  /** Skipping never writes a variable, and never reads one: over any other store it gives the same
      operand, cursor and nesting, or the same error. */
  lemma SkippingIgnoresVariables(k: nat, t: string, depth: nat, s: State, w: Store)
    requires k <= 15 && depth <= MAX_RECURSION && s.pos <= |t|
    ensures var r := Parse(k, t, depth, s, true);
            (if r.Ok? then r.state.store else r.store) == s.store &&
            Parse(k, t, depth, s.(store := w), true) == WithStore(r, w)
  {
    hide Parse;
    SkipParse(k, t, depth, s, s.store);
    SkipParse(k, t, depth, s, w);
  }

  /** Whenever evaluating from a cursor succeeds, skipping from it succeeds with the same final
      cursor, nesting and assignability, and leaves the variables alone. */
  lemma SkippingFollowsEvaluation(k: nat, t: string, depth: nat, s: State)
    requires k <= 15 && depth <= MAX_RECURSION && s.pos <= |t|
    ensures Follows(Parse(k, t, depth, s, false), Parse(k, t, depth, s, true))
    ensures Parse(k, t, depth, s, false).Ok? ==> Parse(k, t, depth, s, true).state.store == s.store
  {
    hide Parse;
    FollowParse(k, t, depth, s, false, s.store);
    SkippingIgnoresVariables(k, t, depth, s, s.store);
  }
}
