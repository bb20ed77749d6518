// Which operator the scanner sees. The source tries each candidate of a level in turn and rejects
// those that a longer operator shadows; this is maximal munch, decided by at most three characters.

module ArithOperators {
  import opened Basics
  import opened ArithGrammar

  /** The character at `p`, or NUL past the end. */
  function CharAt(t: string, p: nat): char {
    if p < |t| then t[p] else '\0'
  }

  lemma StartsByChars(t: string, p: nat, token: string)
    requires 1 <= |token| <= 3 && p <= |t| && forall i :: 0 <= i < |token| ==> token[i] != '\0'
    ensures StartsAt(t, p, token) <==>
              && CharAt(t, p) == token[0]
              && (|token| > 1 ==> CharAt(t, p + 1) == token[1])
              && (|token| > 2 ==> CharAt(t, p + 2) == token[2])
  {
    if StartsAt(t, p, token) {
      assert t[p..p + |token|][0] == t[p];
      if |token| > 1 { assert t[p..p + |token|][1] == t[p + 1]; }
      if |token| > 2 { assert t[p..p + |token|][2] == t[p + 2]; }
    } else if p + |token| <= |t| {
      assert t[p..p + |token|] != token;
      assert exists i :: 0 <= i < |token| && t[p..p + |token|][i] != token[i];
    }
  }

  /** The character that makes a longer operator of `c`, besides `=`. */
  function Doubling(c: char): char {
    if c == '|' || c == '&' || c == '*' then c else '='
  }

  lemma LongerIndex(c: char) returns (i: nat, j: nat)
    requires c in "|^&+-*/%="
    ensures i < |LONGER| && LONGER[i] == [c, Doubling(c)] && j < |LONGER| && LONGER[j] == [c, '=']
  {
    if c == '|' { i, j := 10, 18; }
    else if c == '^' { i, j := 17, 17; }
    else if c == '&' { i, j := 9, 16; }
    else if c == '+' { i, j := 14, 14; }
    else if c == '-' { i, j := 15, 15; }
    else if c == '*' { i, j := 2, 11; }
    else if c == '/' { i, j := 12, 12; }
    else if c == '%' { i, j := 13, 13; }
    else { i, j := 7, 7; }
  }

  lemma LongerOnly(c: char, i: nat)
    requires c in "|^&+-*/%=" && i < |LONGER| && LONGER[i][0] == c
    ensures LONGER[i] == [c, Doubling(c)] || LONGER[i] == [c, '=']
  {
  }

  /** A one-character candidate is shadowed exactly when the next character makes a longer operator
      of it, as long as those longer operators are no candidates themselves. */
  lemma ShadowOfOne(t: string, p: nat, c: char, candidates: seq<string>)
    requires p <= |t| && c in "|^&+-*/%=" && [c, Doubling(c)] !in candidates && [c, '='] !in candidates
    requires CharAt(t, p) == c
    ensures Shadowed(t, p, [c], candidates) <==> CharAt(t, p + 1) == Doubling(c) || CharAt(t, p + 1) == '='
  {
    StartsByChars(t, p, [c, Doubling(c)]);
    StartsByChars(t, p, [c, '=']);
    var a, b := LongerIndex(c);
    assert [c] <= LONGER[a] && [c] <= LONGER[b];
    if Shadowed(t, p, [c], candidates) {
      var i :| 0 <= i < |LONGER| && |LONGER[i]| > 1 && [c] <= LONGER[i] && LONGER[i] !in candidates &&
                 StartsAt(t, p, LONGER[i]);
      assert LONGER[i][0] == [c][0];
      LongerOnly(c, i);
    }
  }

  /** Of the two-character candidates only the shifts can be shadowed, by their assignments. */
  lemma ShadowOfTwo(t: string, p: nat, candidate: string, candidates: seq<string>)
    requires |candidate| == 2 && candidate != "<<" && candidate != ">>"
    ensures !Shadowed(t, p, candidate, candidates)
  {
    assert forall i | 0 <= i < |LONGER| :: |LONGER[i]| > 2 ==> LONGER[i] == "<<=" || LONGER[i] == ">>=";
    assert "<<="[..2] == "<<" && ">>="[..2] == ">>";
  }

  lemma ShadowOfThree(t: string, p: nat)
    ensures !Shadowed(t, p, "<<=", ASSIGNMENTS) && !Shadowed(t, p, ">>=", ASSIGNMENTS)
  {
  }

  lemma ShadowOfShift(t: string, p: nat, candidate: string, candidates: seq<string>)
    requires p <= |t| && (candidate == "<<" || candidate == ">>") && "<<=" !in candidates && ">>=" !in candidates
    ensures Shadowed(t, p, candidate, candidates) <==> StartsAt(t, p, candidate + "=")
  {
    assert LONGER[0] == "<<=" && LONGER[1] == ">>=";
    assert "<<" + "=" == "<<=" && ">>" + "=" == ">>=";
    assert forall i | 0 <= i < |LONGER| :: |LONGER[i]| > 2 ==> i == 0 || i == 1;
    assert !("<<" <= ">>=") by { assert "<<"[0] != ">>="[0]; }
    assert !(">>" <= "<<=") by { assert ">>"[0] != "<<="[0]; }
  }

  /** The operator of a one-operator level, by the characters that make a longer operator of it. */
  lemma OneOperator(t: string, p: nat, c: char)
    requires p <= |t| && (c == '|' || c == '^' || c == '&')
    ensures OperatorAt(t, p, [[c]]) ==
            if CharAt(t, p) == c && CharAt(t, p + 1) != Doubling(c) && CharAt(t, p + 1) != '=' then Some([c]) else None
  {
    hide Shadowed;
    StartsByChars(t, p, [c]);
    if CharAt(t, p) == c { ShadowOfOne(t, p, c, [[c]]); }
    assert OperatorFrom(t, p, [[c]], 1) == None;
  }

  lemma EqualityOperator(t: string, p: nat)
    requires p <= |t|
    ensures OperatorAt(t, p, ["==", "!="]) ==
            if CharAt(t, p) == '=' && CharAt(t, p + 1) == '=' then Some("==")
            else if CharAt(t, p) == '!' && CharAt(t, p + 1) == '=' then Some("!=") else None
  {
    var cs := ["==", "!="];
    StartsByChars(t, p, "==");
    StartsByChars(t, p, "!=");
    ShadowOfTwo(t, p, "==", cs);
    ShadowOfTwo(t, p, "!=", cs);
    assert OperatorFrom(t, p, cs, 2) == None;
    assert OperatorFrom(t, p, cs, 1) == if StartsAt(t, p, "!=") then Some("!=") else None;
  }

  lemma ShadowOfAngle(t: string, p: nat, c: char)
    requires p <= |t| && (c == '<' || c == '>') && CharAt(t, p) == c && CharAt(t, p + 1) != '='
    ensures Shadowed(t, p, [c], ["<=", ">=", "<", ">"]) <==> CharAt(t, p + 1) == c
  {
    var cs := ["<=", ">=", "<", ">"];
    StartsByChars(t, p, [c, c]);
    StartsByChars(t, p, [c, '=']);
    StartsByChars(t, p, [c, c, '=']);
    var a := if c == '<' then 3 else 4;
    assert LONGER[a] == [c, c] && [c] <= LONGER[a];
    if Shadowed(t, p, [c], cs) {
      var i :| 0 <= i < |LONGER| && |LONGER[i]| > 1 && [c] <= LONGER[i] && LONGER[i] !in cs &&
               StartsAt(t, p, LONGER[i]);
      assert LONGER[i][0] == [c][0];
      assert LONGER[i] == [c, c] || LONGER[i] == [c, '='] || LONGER[i] == [c, c, '='];
    }
  }

  lemma OrderOperator(t: string, p: nat)
    requires p <= |t|
    ensures var c := CharAt(t, p);
            OperatorAt(t, p, ["<=", ">=", "<", ">"]) ==
            if c != '<' && c != '>' then None
            else if CharAt(t, p + 1) == '=' then Some([c, '=']) else if CharAt(t, p + 1) == c then None else Some([c])
  {
    hide Shadowed;
    var cs := ["<=", ">=", "<", ">"];
    StartsByChars(t, p, "<=");
    StartsByChars(t, p, ">=");
    StartsByChars(t, p, "<");
    StartsByChars(t, p, ">");
    ShadowOfTwo(t, p, "<=", cs);
    ShadowOfTwo(t, p, ">=", cs);
    if CharAt(t, p + 1) != '=' && (CharAt(t, p) == '<' || CharAt(t, p) == '>') { ShadowOfAngle(t, p, CharAt(t, p)); }
    assert OperatorFrom(t, p, cs, 4) == None;
    assert OperatorFrom(t, p, cs, 3) == if StartsAt(t, p, ">") && !Shadowed(t, p, ">", cs) then Some(">") else None;
    assert OperatorFrom(t, p, cs, 2) ==
           if StartsAt(t, p, "<") && !Shadowed(t, p, "<", cs) then Some("<") else OperatorFrom(t, p, cs, 3);
    assert OperatorFrom(t, p, cs, 1) == if StartsAt(t, p, ">=") then Some(">=") else OperatorFrom(t, p, cs, 2);
  }

  lemma ShiftOperator(t: string, p: nat)
    requires p <= |t|
    ensures var c := CharAt(t, p);
            OperatorAt(t, p, ["<<", ">>"]) ==
            if (c == '<' || c == '>') && CharAt(t, p + 1) == c && CharAt(t, p + 2) != '=' then Some([c, c]) else None
  {
    hide Shadowed;
    var cs := ["<<", ">>"];
    assert "<<" + "=" == "<<=" && ">>" + "=" == ">>=";
    StartsByChars(t, p, "<<");
    StartsByChars(t, p, ">>");
    StartsByChars(t, p, "<<=");
    StartsByChars(t, p, ">>=");
    ShadowOfShift(t, p, "<<", cs);
    ShadowOfShift(t, p, ">>", cs);
    assert OperatorFrom(t, p, cs, 2) == None;
    assert OperatorFrom(t, p, cs, 1) == if StartsAt(t, p, ">>") && !Shadowed(t, p, ">>", cs) then Some(">>") else None;
  }

  lemma SumOperator(t: string, p: nat)
    requires p <= |t|
    ensures var c := CharAt(t, p);
            OperatorAt(t, p, ["+", "-"]) ==
            if (c == '+' || c == '-') && CharAt(t, p + 1) != '=' then Some([c]) else None
  {
    hide Shadowed;
    var cs := ["+", "-"];
    StartsByChars(t, p, "+");
    StartsByChars(t, p, "-");
    if StartsAt(t, p, "+") || StartsAt(t, p, "-") { ShadowOfOne(t, p, CharAt(t, p), cs); }
    assert OperatorFrom(t, p, cs, 2) == None;
    assert OperatorFrom(t, p, cs, 1) == if StartsAt(t, p, "-") && !Shadowed(t, p, "-", cs) then Some("-") else None;
  }

  lemma ProductOperator(t: string, p: nat)
    requires p <= |t|
    ensures var c := CharAt(t, p);
            OperatorAt(t, p, ["*", "/", "%"]) ==
            if (c == '*' || c == '/' || c == '%') && CharAt(t, p + 1) != '=' &&
               !(c == '*' && CharAt(t, p + 1) == '*') then
              Some([c])
            else None
  {
    hide Shadowed;
    var cs := ["*", "/", "%"];
    StartsByChars(t, p, "*");
    StartsByChars(t, p, "/");
    StartsByChars(t, p, "%");
    if StartsAt(t, p, "*") || StartsAt(t, p, "/") || StartsAt(t, p, "%") { ShadowOfOne(t, p, CharAt(t, p), cs); }
    assert OperatorFrom(t, p, cs, 3) == None;
    assert OperatorFrom(t, p, cs, 2) == if StartsAt(t, p, "%") && !Shadowed(t, p, "%", cs) then Some("%") else None;
    assert OperatorFrom(t, p, cs, 1) == if StartsAt(t, p, "/") &&
           !Shadowed(t, p, "/", cs) then Some("/") else OperatorFrom(t, p, cs, 2);
  }

  lemma PowerOperator(t: string, p: nat)
    requires p <= |t|
    ensures OperatorAt(t, p, ["**"]) == if CharAt(t, p) == '*' && CharAt(t, p + 1) == '*' then Some("**") else None
  {
    hide Shadowed;
    StartsByChars(t, p, "**");
    ShadowOfTwo(t, p, "**", ["**"]);
    assert OperatorFrom(t, p, ["**"], 1) == None;
  }

  const COMPOUND: string := "*/%+-&^|"

  /** The assignment operators from index `i` on: an operator directly followed by `=`, or a lone
      `=` that is not the start of `==`. */
  lemma {:induction false} CompoundFrom(t: string, p: nat, i: nat)
    requires p <= |t| && 2 <= i <= 10
    ensures var c, d := CharAt(t, p), CharAt(t, p + 1);
            OperatorFrom(t, p, ASSIGNMENTS, i) ==
            if d == '=' && c in COMPOUND[i - 2..] then Some([c, '='])
            else if c == '=' && d != '=' then Some("=")
            else None
    decreases 10 - i
  {
    hide Shadowed, StartsAt;
    if i == 10 {
      LoneAssignment(t, p);
      assert COMPOUND[8..] == "";
    } else {
      CompoundFrom(t, p, i + 1);
      CompoundAt(i);
      StartsByChars(t, p, ASSIGNMENTS[i]);
      ShadowOfTwo(t, p, ASSIGNMENTS[i], ASSIGNMENTS);
      assert COMPOUND[i - 2..] == [COMPOUND[i - 2]] + COMPOUND[i - 1..];
    }
  }

  lemma CompoundAt(i: nat)
    requires 2 <= i < 10
    ensures ASSIGNMENTS[i] == [COMPOUND[i - 2], '='] && COMPOUND[i - 2] != '\0' && COMPOUND[i - 2] != '<' &&
            COMPOUND[i - 2] != '>'
  {
  }

  lemma LoneAssignment(t: string, p: nat)
    requires p <= |t|
    ensures OperatorFrom(t, p, ASSIGNMENTS, 10) ==
            if CharAt(t, p) == '=' && CharAt(t, p + 1) != '=' then Some("=") else None
  {
    hide Shadowed, StartsAt;
    assert ASSIGNMENTS[10] == "=";
    StartsByChars(t, p, "=");
    if CharAt(t, p) == '=' { ShadowOfOne(t, p, '=', ASSIGNMENTS); }
    assert OperatorFrom(t, p, ASSIGNMENTS, 11) == None;
  }

  /** The assignment operators: a shift assignment, an operator directly followed by `=`, or a
      lone `=`. */
  lemma AssignmentOperator(t: string, p: nat)
    requires p <= |t|
    ensures var c, d := CharAt(t, p), CharAt(t, p + 1);
            OperatorAt(t, p, ASSIGNMENTS) ==
            if (c == '<' || c == '>') && d == c && CharAt(t, p + 2) == '=' then Some([c, c, '='])
            else if c in COMPOUND && d == '=' then Some([c, '='])
            else if c == '=' && d != '=' then Some("=") else None
  {
    hide Shadowed, StartsAt;
    CompoundFrom(t, p, 2);
    assert COMPOUND[0..] == COMPOUND;
    assert ASSIGNMENTS[0] == "<<=" && ASSIGNMENTS[1] == ">>=";
    StartsByChars(t, p, "<<=");
    StartsByChars(t, p, ">>=");
    ShadowOfThree(t, p);
    assert OperatorFrom(t, p, ASSIGNMENTS, 1) ==
           if StartsAt(t, p, ">>=") then Some(">>=") else OperatorFrom(t, p, ASSIGNMENTS, 2);
  }
}
