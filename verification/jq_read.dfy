// Reading JSON back: a reader by the grammar of RFC 8259 recovers every value from its text, compact or pretty.

module JsonRead {
  import opened Basics
  import opened JsonRender

  // ----- The reader -----

  predicate IsSpace(b: Byte) {
    b == BLANK || b == 9 || b == NEWLINE || b == 13
  }

  /** The bytes of a number: digits, signs, point and exponent mark. */
  predicate IsNumeric(b: Byte) {
    48 <= b <= 57 || b == 43 || b == 45 || b == 46 || b == 69 || b == 101
  }

  /** A text behind its leading white space. */
  function Skip(s: seq<Byte>): (r: seq<Byte>)
    ensures |r| <= |s|
  {
    if s != [] && IsSpace(s[0]) then Skip(s[1..]) else s
  }

  function Numeric(s: seq<Byte>): (n: nat)
    ensures n <= |s|
  {
    if s != [] && IsNumeric(s[0]) then 1 + Numeric(s[1..]) else 0
  }

  function HexValue(b: Byte): Option<nat> {
    if 48 <= b <= 57 then Some(b - 48) else if 97 <= b <= 102 then Some(b - 87) else None
  }

  /** The byte that an escape of section 7 stands for, and the text behind it; escapes of four digits are read up
      to 001f, beyond which none are written. */
  function Unescaped(s: seq<Byte>): (r: Option<(Byte, seq<Byte>)>)
    ensures r.Some? ==> |r.value.1| < |s|
  {
    if s == [] then None
    else if s[0] == QUOTE || s[0] == BACKSLASH || s[0] == 47 then Some((s[0], s[1..]))
    else if s[0] == 98 then Some((8, s[1..]))
    else if s[0] == 102 then Some((12, s[1..]))
    else if s[0] == 110 then Some((10, s[1..]))
    else if s[0] == 114 then Some((13, s[1..]))
    else if s[0] == 116 then Some((9, s[1..]))
    else if s[0] == 117 && |s| >= 5 && s[1] == 48 && s[2] == 48 && 48 <= s[3] <= 49 && HexValue(s[4]).Some? then
      Some(((s[3] - 48) * 16 + HexValue(s[4]).value, s[5..]))
    else None
  }

  /** A string behind its opening quote. */
  function ReadString(s: seq<Byte>): (r: Option<(seq<Byte>, seq<Byte>)>)
    ensures r.Some? ==> |r.value.1| < |s|
    decreases |s|
  {
    if s == [] || s[0] < 32 then None
    else if s[0] == QUOTE then Some(([], s[1..]))
    else
      var one := if s[0] == BACKSLASH then Unescaped(s[1..]) else Some((s[0], s[1..]));
      if one.None? then None
      else
        match ReadString(one.value.1)
        case None => None
        case Some((text, rest)) => Some(([one.value.0] + text, rest))
  }

  function ReadValue(s0: seq<Byte>): (r: Option<(Value, seq<Byte>)>)
    ensures r.Some? ==> |r.value.1| < |s0|
    decreases |s0|, 1
  {
    var s := Skip(s0);
    if s == [] then None
    else if s[0] == QUOTE then
      (match ReadString(s[1..])
       case None => None
       case Some((text, rest)) => Some((String(text), rest)))
    else if s[0] == 91 then
      (match ReadItems(s[1..])
       case None => None
       case Some((items, rest)) => Some((Array(items), rest)))
    else if s[0] == 123 then
      (match ReadMembers(s[1..])
       case None => None
       case Some((members, rest)) => Some((Object(members), rest)))
    else if NULL <= s then Some((Null, s[4..]))
    else if TRUE <= s then Some((Bool(true), s[4..]))
    else if FALSE <= s then Some((Bool(false), s[5..]))
    else if Numeric(s) > 0 then Some((Number(s[..Numeric(s)]), s[Numeric(s)..]))
    else None
  }

  /** The items of an array behind its bracket. */
  function ReadItems(s: seq<Byte>): (r: Option<(seq<Value>, seq<Byte>)>)
    ensures r.Some? ==> |r.value.1| < |s|
    decreases |s|, 3
  {
    if Skip(s) != [] && Skip(s)[0] == 93 then Some(([], Skip(s)[1..])) else MoreItems(s)
  }

  function MoreItems(s: seq<Byte>): (r: Option<(seq<Value>, seq<Byte>)>)
    ensures r.Some? ==> |r.value.1| < |s|
    decreases |s|, 2
  {
    match ReadValue(s)
    case None => None
    case Some((item, rest)) =>
      var t := Skip(rest);
      if t != [] && t[0] == 93 then Some(([item], t[1..]))
      else if t != [] && t[0] == COMMA then
        (match MoreItems(t[1..])
         case None => None
         case Some((items, end)) => Some(([item] + items, end)))
      else None
  }

  /** The members of an object behind its brace. */
  function ReadMembers(s: seq<Byte>): (r: Option<(seq<Member>, seq<Byte>)>)
    ensures r.Some? ==> |r.value.1| < |s|
    decreases |s|, 3
  {
    if Skip(s) != [] && Skip(s)[0] == 125 then Some(([], Skip(s)[1..])) else MoreMembers(s)
  }

  /** A key and its colon. */
  function ReadKey(s: seq<Byte>): (r: Option<(seq<Byte>, seq<Byte>)>)
    ensures r.Some? ==> |r.value.1| < |s|
  {
    var t := Skip(s);
    if t == [] || t[0] != QUOTE then None
    else
      match ReadString(t[1..])
      case None => None
      case Some((key, rest)) =>
        var u := Skip(rest);
        if u != [] && u[0] == COLON then Some((key, u[1..])) else None
  }

  function MoreMembers(s: seq<Byte>): (r: Option<(seq<Member>, seq<Byte>)>)
    ensures r.Some? ==> |r.value.1| < |s|
    decreases |s|, 2
  {
    match ReadKey(s)
    case None => None
    case Some((key, behind)) =>
      match ReadValue(behind)
      case None => None
      case Some((value, rest)) =>
        var t := Skip(rest);
        if t != [] && t[0] == 125 then Some(([Member(key, value)], t[1..]))
        else if t != [] && t[0] == COMMA then
          (match MoreMembers(t[1..])
           case None => None
           case Some((members, end)) => Some(([Member(key, value)] + members, end)))
        else None
  }

  // ----- What is read back -----

  /** Every number in a value is one or more number bytes. */
  predicate Proper(v: Value) {
    match v
    case Number(text) => text != [] && forall b :: b in text ==> IsNumeric(b)
    case Array(items) => forall i :: 0 <= i < |items| ==> Proper(items[i])
    case Object(members) => forall i :: 0 <= i < |members| ==> Proper(members[i].value)
    case _ => true
  }

  predicate AllSpace(s: seq<Byte>) {
    forall b :: b in s ==> IsSpace(b)
  }

  /** A text does not go on with white space. */
  predicate Solid(s: seq<Byte>) {
    s == [] || !IsSpace(s[0])
  }

  predicate EndsNumber(s: seq<Byte>) {
    s == [] || !IsNumeric(s[0])
  }

  lemma {:induction false} SkipSpace(space: seq<Byte>, s: seq<Byte>)
    requires AllSpace(space) && Solid(s)
    ensures Skip(space + s) == s
    decreases |space|
  {
    if space == [] {
      assert space + s == s;
    } else {
      assert (space + s)[0] == space[0] && space[0] in space && (space + s)[1..] == space[1..] + s;
      SkipSpace(space[1..], s);
    }
  }

  lemma GapIsSpace(indent: nat, depth: nat)
    ensures AllSpace(Lead(true, indent, depth)) && AllSpace(Trail(false, indent, depth))
    ensures Lead(false, indent, depth) == [COMMA] + Lead(true, indent, depth)
    ensures Trail(true, indent, depth) == []
  {
  }

  // ----- Strings -----

  lemma EscapeRead(b: Byte, s: seq<Byte>)
    requires b < 32 || b == QUOTE || b == BACKSLASH
    ensures |Escaped(b)| >= 2 && Escaped(b)[0] == BACKSLASH && Unescaped(Escaped(b)[1..] + s) == Some((b, s))
  {
    var e := Escaped(b)[1..] + s;
    if |Escaped(b)| == 2 {
      assert e[1..] == s;
    } else {
      assert e[5..] == s && b == (b / 16) * 16 + b % 16;
    }
  }

  lemma OneRead(b: Byte, s: seq<Byte>, text: seq<Byte>, rest: seq<Byte>)
    requires ReadString(s) == Some((text, rest))
    ensures ReadString(Escaped(b) + s) == Some(([b] + text, rest))
  {
    hide Unescaped;
    var e := Escaped(b) + s;
    if b < 32 || b == QUOTE || b == BACKSLASH {
      EscapeRead(b, s);
      assert e[0] == BACKSLASH && e[1..] == Escaped(b)[1..] + s;
    } else {
      assert e[0] == b && e[1..] == s;
    }
  }

  lemma {:induction false} TextRead(text: seq<Byte>, rest: seq<Byte>)
    ensures ReadString(EscapedText(text) + ([QUOTE] + rest)) == Some((text, rest))
  {
    hide Escaped;
    var end := [QUOTE] + rest;
    if text == [] {
      assert EscapedText(text) + end == end && end[1..] == rest;
    } else {
      TextRead(text[1..], rest);
      OneRead(text[0], EscapedText(text[1..]) + end, text[1..], rest);
      assert EscapedText(text) + end == Escaped(text[0]) + (EscapedText(text[1..]) + end);
      assert [text[0]] + text[1..] == text;
    }
  }

  /** Behind its opening quote a quoted text is read back. */
  lemma QuotedRead(text: seq<Byte>, rest: seq<Byte>)
    ensures var q := Quoted(text) + rest; q != [] && q[0] == QUOTE && ReadString(q[1..]) == Some((text, rest))
  {
    hide ReadString, EscapedText;
    TextRead(text, rest);
    assert (Quoted(text) + rest)[1..] == EscapedText(text) + ([QUOTE] + rest);
  }

  // ----- Values -----

  lemma {:induction false} NumericRun(text: seq<Byte>, rest: seq<Byte>)
    requires (forall b :: b in text ==> IsNumeric(b)) && EndsNumber(rest)
    ensures Numeric(text + rest) == |text|
    decreases |text|
  {
    if text == [] {
      assert text + rest == rest;
    } else {
      assert (text + rest)[0] == text[0] && text[0] in text && (text + rest)[1..] == text[1..] + rest;
      NumericRun(text[1..], rest);
    }
  }

  /** A rendering begins with a byte that is no white space. */
  lemma RenderStarts(v: Value, indent: nat, depth: nat)
    requires Proper(v)
    ensures var text := Render(v, indent, depth);
            text != [] && !IsSpace(text[0]) && text[0] != 93 && text[0] != 125 && text[0] != COMMA
  {
    hide RenderItems, RenderMembers, EscapedText;
    if v.Number? {
      assert v.text[0] in v.text;
    }
  }

  /** White space before a value is passed over. */
  lemma ReadBehind(space: seq<Byte>, s: seq<Byte>)
    requires AllSpace(space) && Solid(s)
    ensures ReadValue(space + s) == ReadValue(s) && ReadKey(space + s) == ReadKey(s)
  {
    hide ReadString, ReadItems, ReadMembers, Numeric;
    SkipSpace(space, s);
    SkipSpace([], s);
    assert [] + s == s;
  }

  lemma SolidSkips(s: seq<Byte>)
    requires Solid(s)
    ensures Skip(s) == s
  {
  }

  lemma WordRead(v: Value, rest: seq<Byte>)
    requires v.Null? || v.Bool?
    ensures ReadValue(Render(v, 0, 0) + rest) == Some((v, rest))
  {
    hide ReadString, Numeric, Skip, ReadItems, ReadMembers;
    var word := Render(v, 0, 0);
    var s := word + rest;
    assert s[0] == word[0];
    SolidSkips(s);
    assert s[..|word|] == word && s[|word|..] == rest;
  }

  lemma NumberRead(text: seq<Byte>, rest: seq<Byte>)
    requires Proper(Number(text)) && EndsNumber(rest)
    ensures ReadValue(text + rest) == Some((Number(text), rest))
  {
    hide ReadString, Numeric, Skip, ReadItems, ReadMembers;
    var s := text + rest;
    assert text[0] in text && s[0] == text[0];
    SolidSkips(s);
    NumericRun(text, rest);
    assert s[..|text|] == text && s[|text|..] == rest;
  }

  lemma StringRead(text: seq<Byte>, rest: seq<Byte>)
    ensures ReadValue(Quoted(text) + rest) == Some((String(text), rest))
  {
    hide ReadString, Numeric, Skip, ReadItems, ReadMembers, Quoted;
    QuotedRead(text, rest);
    SolidSkips(Quoted(text) + rest);
  }

  /** The items of an array and its end, behind the bracket. */
  function ItemsText(items: seq<Value>, indent: nat, depth: nat, rest: seq<Byte>): seq<Byte> {
    RenderItems(items, true, indent, depth + 1) + (Trail(items == [], indent, depth) + ([93] + rest))
  }

  function MembersText(members: seq<Member>, indent: nat, depth: nat, rest: seq<Byte>): seq<Byte> {
    RenderMembers(members, true, indent, depth + 1) + (Trail(members == [], indent, depth) + ([125] + rest))
  }

  /** Every value is read back from its rendering, compact or indented, whatever follows it. */
  lemma {:induction false} ReadUndoesRender(v: Value, indent: nat, depth: nat, rest: seq<Byte>)
    requires Proper(v) && EndsNumber(rest)
    ensures ReadValue(Render(v, indent, depth) + rest) == Some((v, rest))
    decreases v
  {
    hide Render, RenderItems, RenderMembers, ReadItems, ReadMembers, ReadValue, ItemsText, MembersText;
    RenderPlain(v, indent, depth);
    match v
    case Array(items) =>
      ArrayText(items, indent, depth, rest);
      if items == [] {
        NoItems(indent, depth, rest);
      } else {
        ItemsRead(items, indent, depth, rest);
        ItemsStart(items, indent, depth, rest);
      }
    case Object(members) =>
      ObjectText(members, indent, depth, rest);
      if members == [] {
        NoMembers(indent, depth, rest);
      } else {
        MembersRead(members, indent, depth, rest);
        MembersStart(members, indent, depth, rest);
      }
    case Number(text) => NumberRead(text, rest);
    case String(text) => StringRead(text, rest);
    case _ => WordRead(v, rest);
  }

  lemma RenderPlain(v: Value, indent: nat, depth: nat)
    ensures !v.Array? && !v.Object? ==> Render(v, indent, depth) == Render(v, 0, 0)
    ensures v.Number? ==> Render(v, indent, depth) == v.text
    ensures v.String? ==> Render(v, indent, depth) == Quoted(v.text)
  {
  }

  lemma ArrayText(items: seq<Value>, indent: nat, depth: nat, rest: seq<Byte>)
    ensures var s := Render(Array(items), indent, depth) + rest;
            && ReadValue(s) == match ReadItems(ItemsText(items, indent, depth, rest))
                               case None => None
                               case Some((read, end)) => Some((Array(read), end))
  {
    hide RenderItems, Render, Trail;
    var s := Render(Array(items), indent, depth) + rest;
    ArrayWritten(items, indent, depth, rest);
    ArrayRead(s);
  }

  lemma ArrayWritten(items: seq<Value>, indent: nat, depth: nat, rest: seq<Byte>)
    ensures Render(Array(items), indent, depth) + rest == [91] + ItemsText(items, indent, depth, rest)
  {
    hide RenderItems, Trail;
    var body, trail := RenderItems(items, true, indent, depth + 1), Trail(items == [], indent, depth);
    assert [91] + body + trail + [93] + rest == [91] + (body + (trail + ([93] + rest)));
  }

  lemma ArrayRead(s: seq<Byte>)
    requires s != [] && s[0] == 91
    ensures ReadValue(s) == match ReadItems(s[1..])
                            case None => None
                            case Some((read, end)) => Some((Array(read), end))
  {
    hide ReadItems, ReadMembers, ReadString, Numeric;
  }

  lemma ObjectText(members: seq<Member>, indent: nat, depth: nat, rest: seq<Byte>)
    ensures var s := Render(Object(members), indent, depth) + rest;
            && ReadValue(s) == match ReadMembers(MembersText(members, indent, depth, rest))
                               case None => None
                               case Some((read, end)) => Some((Object(read), end))
  {
    hide RenderMembers, Render, Trail;
    var s := Render(Object(members), indent, depth) + rest;
    ObjectWritten(members, indent, depth, rest);
    ObjectRead(s);
  }

  lemma ObjectWritten(members: seq<Member>, indent: nat, depth: nat, rest: seq<Byte>)
    ensures Render(Object(members), indent, depth) + rest == [123] + MembersText(members, indent, depth, rest)
  {
    hide RenderMembers, Trail;
    var body, trail := RenderMembers(members, true, indent, depth + 1), Trail(members == [], indent, depth);
    assert [123] + body + trail + [125] + rest == [123] + (body + (trail + ([125] + rest)));
  }

  lemma ObjectRead(s: seq<Byte>)
    requires s != [] && s[0] == 123
    ensures ReadValue(s) == match ReadMembers(s[1..])
                            case None => None
                            case Some((read, end)) => Some((Object(read), end))
  {
    hide ReadItems, ReadMembers, ReadString, Numeric;
  }

  lemma NoItems(indent: nat, depth: nat, rest: seq<Byte>)
    ensures ReadItems(ItemsText([], indent, depth, rest)) == Some(([], rest))
  {
    assert ItemsText([], indent, depth, rest) == [93] + rest;
    assert ([93] + rest)[1..] == rest;
  }

  lemma NoMembers(indent: nat, depth: nat, rest: seq<Byte>)
    ensures ReadMembers(MembersText([], indent, depth, rest)) == Some(([], rest))
  {
    assert MembersText([], indent, depth, rest) == [125] + rest;
    assert ([125] + rest)[1..] == rest;
  }

  /** A non-empty array: white space, its first item, and the others behind a comma or the end. */
  lemma ItemsUnfold(items: seq<Value>, indent: nat, depth: nat, rest: seq<Byte>)
    requires items != []
    ensures ItemsText(items, indent, depth, rest) ==
            Lead(true, indent, depth + 1) +
            (Render(items[0], indent, depth + 1) + AfterItem(items, indent, depth, rest))
  {
    hide Render, Lead, Trail, RenderItems;
    var lead, item := Lead(true, indent, depth + 1), Render(items[0], indent, depth + 1);
    var more := RenderItems(items[1..], false, indent, depth + 1);
    var end := Trail(false, indent, depth) + ([93] + rest);
    FirstItem(items, indent, depth + 1);
    Regrouped(lead, item, more, end);
    assert more + end == AfterItem(items, indent, depth, rest) by {
      if |items| > 1 {
        CommaFirst(items[1..], indent, depth + 1);
        assert [COMMA] + RenderItems(items[1..], true, indent, depth + 1) + end ==
               [COMMA] + (RenderItems(items[1..], true, indent, depth + 1) + end);
      } else {
        NoMoreItems(indent, depth + 1);
        assert items[1..] == [] && [] + end == end;
      }
    }
  }

  lemma FirstItem(items: seq<Value>, indent: nat, depth: nat)
    requires items != []
    ensures RenderItems(items, true, indent, depth) ==
            Lead(true, indent, depth) + Render(items[0], indent, depth) + RenderItems(items[1..], false, indent, depth)
  {
  }

  lemma NoMoreItems(indent: nat, depth: nat)
    ensures RenderItems([], false, indent, depth) == []
  {
  }

  lemma Regrouped(a: seq<Byte>, b: seq<Byte>, c: seq<Byte>, d: seq<Byte>)
    ensures a + b + c + d == a + (b + (c + d))
  {
  }

  lemma CommaFirst(items: seq<Value>, indent: nat, depth: nat)
    requires items != []
    ensures RenderItems(items, false, indent, depth) == [COMMA] + RenderItems(items, true, indent, depth)
  {
    hide Render, Blanks;
    GapIsSpace(indent, depth);
    var lead := Lead(true, indent, depth);
    var more := Render(items[0], indent, depth) + RenderItems(items[1..], false, indent, depth);
    assert RenderItems(items, false, indent, depth) == [COMMA] + lead + more;
    assert RenderItems(items, true, indent, depth) == lead + more;
  }

  function AfterItem(items: seq<Value>, indent: nat, depth: nat, rest: seq<Byte>): seq<Byte>
    requires items != []
  {
    if |items| > 1 then [COMMA] + ItemsText(items[1..], indent, depth, rest)
    else Trail(false, indent, depth) + ([93] + rest)
  }

  lemma ItemsStart(items: seq<Value>, indent: nat, depth: nat, rest: seq<Byte>)
    requires items != [] && Proper(items[0])
    ensures ReadItems(ItemsText(items, indent, depth, rest)) == MoreItems(ItemsText(items, indent, depth, rest))
  {
    hide ItemsText, Render, Lead, MoreItems;
    ItemsUnfold(items, indent, depth, rest);
    RenderStarts(items[0], indent, depth + 1);
    GapIsSpace(indent, depth + 1);
    SkipSpace(Lead(true, indent, depth + 1),
              Render(items[0], indent, depth + 1) + AfterItem(items, indent, depth, rest));
  }

  lemma AfterItemEnds(items: seq<Value>, indent: nat, depth: nat, rest: seq<Byte>)
    requires items != []
    ensures var after := AfterItem(items, indent, depth, rest);
            && EndsNumber(after)
            && (if |items| > 1 then
                  after == [COMMA] + ItemsText(items[1..], indent, depth, rest) && Skip(after) == after
                else Skip(after) == [93] + rest)
  {
    hide ItemsText;
    GapIsSpace(indent, depth);
    SkipSpace(Trail(false, indent, depth), [93] + rest);
  }

  lemma {:induction false} ItemsRead(items: seq<Value>, indent: nat, depth: nat, rest: seq<Byte>)
    requires items != [] && forall i :: 0 <= i < |items| ==> Proper(items[i])
    ensures MoreItems(ItemsText(items, indent, depth, rest)) == Some((items, rest))
    decreases items
  {
    hide ItemsText, Render, Lead, ReadValue, Skip, AfterItem;
    var after := AfterItem(items, indent, depth, rest);
    AfterItemEnds(items, indent, depth, rest);
    ReadUndoesRender(items[0], indent, depth + 1, after);
    RenderStarts(items[0], indent, depth + 1);
    GapIsSpace(indent, depth + 1);
    ReadBehind(Lead(true, indent, depth + 1), Render(items[0], indent, depth + 1) + after);
    ItemsUnfold(items, indent, depth, rest);
    assert items == [items[0]] + items[1..];
    if |items| > 1 {
      ItemsRead(items[1..], indent, depth, rest);
      assert after[0] == COMMA && after[1..] == ItemsText(items[1..], indent, depth, rest);
    } else {
      assert ([93] + rest)[1..] == rest && items == [items[0]];
    }
  }

  // ----- Members -----

  function AfterMember(members: seq<Member>, indent: nat, depth: nat, rest: seq<Byte>): seq<Byte>
    requires members != []
  {
    if |members| > 1 then [COMMA] + MembersText(members[1..], indent, depth, rest)
    else Trail(false, indent, depth) + ([125] + rest)
  }

  function Colon(indent: nat): seq<Byte> {
    if indent == 0 then [COLON] else [COLON, BLANK]
  }

  lemma MembersUnfold(members: seq<Member>, indent: nat, depth: nat, rest: seq<Byte>)
    requires members != []
    ensures MembersText(members, indent, depth, rest) ==
            Lead(true, indent, depth + 1) +
            (Quoted(members[0].key) +
             (Colon(indent) +
              (Render(members[0].value, indent, depth + 1) + AfterMember(members, indent, depth, rest))))
  {
    hide Render, Lead, Trail, Quoted, RenderMembers, Colon;
    var lead, key := Lead(true, indent, depth + 1), Quoted(members[0].key);
    var value := Render(members[0].value, indent, depth + 1);
    var more := RenderMembers(members[1..], false, indent, depth + 1);
    var end := Trail(false, indent, depth) + ([125] + rest);
    FirstMember(members, true, indent, depth + 1);
    RegroupedMore(lead, key, Colon(indent), value, more, end);
    assert more + end == AfterMember(members, indent, depth, rest) by {
      if |members| > 1 {
        CommaBefore(members[1..], indent, depth + 1);
        assert [COMMA] + RenderMembers(members[1..], true, indent, depth + 1) + end ==
               [COMMA] + (RenderMembers(members[1..], true, indent, depth + 1) + end);
      } else {
        NoMoreMembers(indent, depth + 1);
        assert members[1..] == [] && [] + end == end;
      }
    }
  }

  lemma NoMoreMembers(indent: nat, depth: nat)
    ensures RenderMembers([], false, indent, depth) == []
  {
  }

  lemma FirstMember(members: seq<Member>, first: bool, indent: nat, depth: nat)
    requires members != []
    ensures RenderMembers(members, first, indent, depth) ==
            Lead(first, indent, depth) + Quoted(members[0].key) + Colon(indent)
            + Render(members[0].value, indent, depth) + RenderMembers(members[1..], false, indent, depth)
  {
    hide Lead, Quoted, Render;
  }

  lemma RegroupedMore(a: seq<Byte>, b: seq<Byte>, c: seq<Byte>, d: seq<Byte>, e: seq<Byte>, f: seq<Byte>)
    ensures a + b + c + d + e + f == a + (b + (c + (d + (e + f))))
  {
    Regrouped(a, b, c, d + e + f);
    Regrouped(c, d, e, f);
    Regrouped(a + b + c, d, e, f);
  }

  lemma CommaBefore(members: seq<Member>, indent: nat, depth: nat)
    requires members != []
    ensures RenderMembers(members, false, indent, depth) == [COMMA] + RenderMembers(members, true, indent, depth)
  {
    hide Render, Blanks, Quoted, RenderMembers, Lead, Colon;
    GapIsSpace(indent, depth);
    var lead, key, value := Lead(true, indent, depth), Quoted(members[0].key), Render(members[0].value, indent, depth);
    var more := RenderMembers(members[1..], false, indent, depth);
    FirstMember(members, true, indent, depth);
    FirstMember(members, false, indent, depth);
    RegroupedMore([COMMA], lead, key, Colon(indent), value, more);
    RegroupedMore([], lead, key, Colon(indent), value, more);
    assert [] + lead == lead;
  }

  lemma MembersStart(members: seq<Member>, indent: nat, depth: nat, rest: seq<Byte>)
    requires members != []
    ensures ReadMembers(MembersText(members, indent, depth, rest)) ==
            MoreMembers(MembersText(members, indent, depth, rest))
  {
    hide MembersText, Render, Lead, MoreMembers, EscapedText, AfterMember;
    MembersUnfold(members, indent, depth, rest);
    GapIsSpace(indent, depth + 1);
    SkipSpace(Lead(true, indent, depth + 1),
              Quoted(members[0].key) +
              (Colon(indent) +
              (Render(members[0].value, indent, depth + 1) + AfterMember(members, indent, depth, rest))));
  }

  lemma AfterMemberEnds(members: seq<Member>, indent: nat, depth: nat, rest: seq<Byte>)
    requires members != []
    ensures var after := AfterMember(members, indent, depth, rest);
            && EndsNumber(after)
            && (if |members| > 1 then
                  after == [COMMA] + MembersText(members[1..], indent, depth, rest) && Skip(after) == after
                else Skip(after) == [125] + rest)
  {
    hide MembersText;
    GapIsSpace(indent, depth);
    SkipSpace(Trail(false, indent, depth), [125] + rest);
  }

  /** A key is read back, and then the value behind its colon. */
  lemma KeyRead(key: seq<Byte>, indent: nat, s: seq<Byte>)
    requires Solid(s)
    ensures ReadKey(Quoted(key) + (Colon(indent) + s)).Some?
    ensures var read := ReadKey(Quoted(key) + (Colon(indent) + s)).value;
            read.0 == key && ReadValue(read.1) == ReadValue(s)
  {
    hide Quoted, ReadString, ReadValue;
    var q := Quoted(key) + (Colon(indent) + s);
    QuotedRead(key, Colon(indent) + s);
    var u := Colon(indent) + s;
    assert u[0] == COLON && Skip(q) == q && Skip(u) == u;
    var space := if indent == 0 then [] else [BLANK];
    assert u[1..] == space + s;
    ReadBehind(space, s);
  }

  lemma {:induction false} MembersRead(members: seq<Member>, indent: nat, depth: nat, rest: seq<Byte>)
    requires members != [] && forall i :: 0 <= i < |members| ==> Proper(members[i].value)
    ensures MoreMembers(MembersText(members, indent, depth, rest)) == Some((members, rest))
    decreases members
  {
    hide MembersText, Render, Lead, ReadValue, ReadKey, Skip, AfterMember, Quoted, Colon;
    var after := AfterMember(members, indent, depth, rest);
    var value := Render(members[0].value, indent, depth + 1) + after;
    AfterMemberEnds(members, indent, depth, rest);
    ReadUndoesRender(members[0].value, indent, depth + 1, after);
    RenderStarts(members[0].value, indent, depth + 1);
    GapIsSpace(indent, depth + 1);
    KeyRead(members[0].key, indent, value);
    QuotedSolid(members[0].key, Colon(indent) + value);
    ReadBehind(Lead(true, indent, depth + 1), Quoted(members[0].key) + (Colon(indent) + value));
    MembersUnfold(members, indent, depth, rest);
    assert members == [members[0]] + members[1..];
    if |members| > 1 {
      MembersRead(members[1..], indent, depth, rest);
      assert after[0] == COMMA && after[1..] == MembersText(members[1..], indent, depth, rest);
    } else {
      assert ([125] + rest)[1..] == rest && members == [members[0]];
    }
  }

  lemma QuotedSolid(key: seq<Byte>, s: seq<Byte>)
    ensures Solid(Quoted(key) + s)
  {
  }
}
