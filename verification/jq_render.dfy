// Rendering JSON values, compact or pretty, and the bound charged before rendering.

module JsonRender {
  import opened Basics

  /** A JSON value; text is UTF-8 bytes and a number is kept as its own text. */
  datatype Value =
    | Null
    | Bool(value: bool)
    | Number(text: seq<Byte>)
    | String(text: seq<Byte>)
    | Array(items: seq<Value>)
    | Object(members: seq<Member>)

  datatype Member = Member(key: seq<Byte>, value: Value)

  // ----- Rendering -----

  /** `false`, `true` and `null`. */
  const FALSE: seq<Byte> := [102, 97, 108, 115, 101]
  const TRUE: seq<Byte> := [116, 114, 117, 101]
  const NULL: seq<Byte> := [110, 117, 108, 108]

  const QUOTE: Byte := 34
  const BACKSLASH: Byte := 92
  const COMMA: Byte := 44
  const COLON: Byte := 58
  const NEWLINE: Byte := 10
  const BLANK: Byte := 32

  function HexDigit(n: int): Byte
    requires 0 <= n < 16
  {
    if n < 10 then 48 + n else 87 + n
  }

  /** One byte of a string as section 7 of RFC 8259 escapes it. */
  function Escaped(b: Byte): (r: seq<Byte>)
    ensures 1 <= |r| <= 6
  {
    if b == QUOTE || b == BACKSLASH then [BACKSLASH, b]
    else if b == 8 then [BACKSLASH, 98]
    else if b == 9 then [BACKSLASH, 116]
    else if b == 10 then [BACKSLASH, 110]
    else if b == 12 then [BACKSLASH, 102]
    else if b == 13 then [BACKSLASH, 114]
    else if b < 32 then [BACKSLASH, 117, 48, 48, HexDigit(b / 16), HexDigit(b % 16)]
    else [b]
  }

  function EscapedText(text: seq<Byte>): seq<Byte> {
    if text == [] then [] else Escaped(text[0]) + EscapedText(text[1..])
  }

  function Quoted(text: seq<Byte>): seq<Byte> {
    [QUOTE] + EscapedText(text) + [QUOTE]
  }

  function Blanks(n: nat): (r: seq<Byte>)
    ensures |r| == n
  {
    seq(n, _ => BLANK)
  }

  /** What separates an item from the one before: a comma except for the first, and on a line of its
      own when pretty. */
  function Lead(first: bool, indent: nat, depth: nat): seq<Byte> {
    (if first then [] else [COMMA]) + if indent == 0 then [] else [NEWLINE] + Blanks(indent * depth)
  }

  /** What stands before the closing bracket. */
  function Trail(empty: bool, indent: nat, depth: nat): seq<Byte> {
    if indent == 0 || empty then [] else [NEWLINE] + Blanks(indent * depth)
  }

  /** The text of a value at a nesting depth; an indent of zero is compact. */
  function Render(v: Value, indent: nat, depth: nat): seq<Byte> {
    match v
    case Null => NULL
    case Bool(b) => if b then TRUE else FALSE
    case Number(text) => text
    case String(text) => Quoted(text)
    case Array(items) => [91] + RenderItems(items, true, indent, depth + 1) + Trail(items == [], indent, depth) + [93]
    case Object(members) =>
      [123] + RenderMembers(members, true, indent, depth + 1) + Trail(members == [], indent, depth) + [125]
  }

  function RenderItems(items: seq<Value>, first: bool, indent: nat, depth: nat): seq<Byte> {
    if items == [] then []
    else Lead(first, indent, depth) + Render(items[0], indent, depth) + RenderItems(items[1..], false, indent, depth)
  }

  function RenderMembers(members: seq<Member>, first: bool, indent: nat, depth: nat): seq<Byte> {
    if members == [] then []
    else
      Lead(first, indent, depth) + Quoted(members[0].key) + (if indent == 0 then [COLON] else [COLON, BLANK])
      + Render(members[0].value, indent, depth) + RenderMembers(members[1..], false, indent, depth)
  }

  // ----- The bound -----

  function Sat(n: nat): nat {
    if n > U64_MAX then U64_MAX else n
  }

  function Plus(x: nat, y: nat): nat {
    Sat(x + y)
  }

  function Times(x: nat, y: nat): nat {
    Sat(x * y)
  }

  function PrettyWhitespace(compact: nat, items: nat, indent: nat, depth: nat): nat {
    if indent == 0 || items == 0 then compact
    else
      var count := Sat(items);
      Plus(Plus(compact, Plus(count, 1)), Times(Plus(Times(count, Plus(depth, 1)), depth), indent))
  }

  function RenderBound(v: Value, indent: nat, depth: nat): nat {
    match v
    case Null => 4
    case Bool(_) => 5
    case Number(text) => Sat(|text|)
    case String(text) => Plus(Times(Sat(|text|), 6), 2)
    case Array(items) => PrettyWhitespace(ItemsBound(items, 2, indent, Plus(depth, 1)), |items|, indent, depth)
    case Object(members) => PrettyWhitespace(MembersBound(members, 2, indent, Plus(depth, 1)), |members|, indent, depth)
  }

  function ItemsBound(items: seq<Value>, size: nat, indent: nat, depth: nat): nat
    decreases items
  {
    if items == [] then size else ItemsBound(items[1..], Plus(Plus(size, RenderBound(items[0], indent, depth)), 1),
                                             indent, depth)
  }

  function MembersBound(members: seq<Member>, size: nat, indent: nat, depth: nat): nat
    decreases members
  {
    if members == [] then size
    else
      var withKey := Plus(size, Times(Sat(|members[0].key|), 6));
      MembersBound(members[1..], Plus(Plus(withKey, RenderBound(members[0].value, indent, depth)), 5), indent, depth)
  }

  // ----- The same bound without saturation -----

  function Whitespace(items: nat, indent: nat, depth: nat): nat {
    if indent == 0 || items == 0 then 0 else items + 1 + (items * (depth + 1) + depth) * indent
  }

  function Exact(v: Value, indent: nat, depth: nat): nat {
    match v
    case Null => 4
    case Bool(_) => 5
    case Number(text) => |text|
    case String(text) => |text| * 6 + 2
    case Array(items) => 2 + ExactItems(items, indent, depth + 1) + Whitespace(|items|, indent, depth)
    case Object(members) => 2 + ExactMembers(members, indent, depth + 1) + Whitespace(|members|, indent, depth)
  }

  function ExactItems(items: seq<Value>, indent: nat, depth: nat): nat {
    if items == [] then 0 else Exact(items[0], indent, depth) + 1 + ExactItems(items[1..], indent, depth)
  }

  function ExactMembers(members: seq<Member>, indent: nat, depth: nat): nat {
    if members == [] then 0
    else |members[0].key| * 6 + Exact(members[0].value, indent, depth) + 5 + ExactMembers(members[1..], indent, depth)
  }

  lemma PlusSat(x: nat, y: nat)
    ensures Plus(Sat(x), y) == Sat(x + y) && Plus(x, Sat(y)) == Sat(x + y) && Plus(Sat(x), Sat(y)) == Sat(x + y)
  {
  }

  lemma TimesSat(x: nat, y: nat)
    ensures Times(Sat(x), y) == Sat(x * y)
  {
    if x > U64_MAX && y > 0 {
      assert U64_MAX * y >= U64_MAX && x * y >= x;
    }
  }

  lemma WhitespaceSat(compact: nat, items: nat, indent: nat, depth: nat)
    ensures PrettyWhitespace(Sat(compact), items, indent, Sat(depth)) == Sat(compact + Whitespace(items, indent, depth))
  {
    hide Sat, Times, Plus;
    if indent != 0 && items != 0 {
      PlusSat(items, 1);
      PlusSat(depth, 1);
      ProductSat(items, depth + 1);
      PlusSat(items * (depth + 1), depth);
      TimesSat(items * (depth + 1) + depth, indent);
      PlusSat(compact, items + 1);
      PlusSat(compact + (items + 1), (items * (depth + 1) + depth) * indent);
    }
  }

  lemma ProductSat(x: nat, y: nat)
    ensures Times(Sat(x), Sat(y)) == Sat(x * y)
  {
    TimesSat(x, Sat(y));
    TimesSat(y, x);
    assert x * Sat(y) == Sat(y) * x && x * y == y * x;
  }

  /** The saturating bound is the exact one, cut off at the largest 64-bit number. */
  lemma {:induction false} BoundIsExact(v: Value, indent: nat, depth: nat)
    ensures RenderBound(v, indent, Sat(depth)) == Sat(Exact(v, indent, depth))
    decreases v
  {
    hide Sat, PrettyWhitespace, Whitespace, Times, Plus;
    PlusSat(depth, 1);
    match v
    case Null => SmallSat();
    case Bool(_) => SmallSat();
    case Number(text) =>
    case String(text) =>
      TimesSat(|text|, 6);
      PlusSat(|text| * 6, 2);
    case Array(items) =>
      SmallSat();
      ItemsExact(items, 2, indent, depth + 1);
      WhitespaceSat(2 + ExactItems(items, indent, depth + 1), |items|, indent, depth);
    case Object(members) =>
      SmallSat();
      MembersExact(members, 2, indent, depth + 1);
      WhitespaceSat(2 + ExactMembers(members, indent, depth + 1), |members|, indent, depth);
  }

  lemma SmallSat()
    ensures Sat(2) == 2 && Sat(4) == 4 && Sat(5) == 5
  {
  }

  lemma {:induction false} ItemsExact(items: seq<Value>, size: nat, indent: nat, depth: nat)
    ensures ItemsBound(items, Sat(size), indent, Sat(depth)) == Sat(size + ExactItems(items, indent, depth))
    decreases items
  {
    hide Sat, Plus;
    if items != [] {
      var item := Exact(items[0], indent, depth);
      BoundIsExact(items[0], indent, depth);
      PlusSat(size, item);
      PlusSat(size + item, 1);
      ItemsExact(items[1..], size + item + 1, indent, depth);
    }
  }

  lemma {:induction false} MembersExact(members: seq<Member>, size: nat, indent: nat, depth: nat)
    ensures MembersBound(members, Sat(size), indent, Sat(depth)) == Sat(size + ExactMembers(members, indent, depth))
    decreases members
  {
    hide Sat, Plus, Times;
    if members != [] {
      var key, item := |members[0].key|, Exact(members[0].value, indent, depth);
      BoundIsExact(members[0].value, indent, depth);
      TimesSat(key, 6);
      PlusSat(size, key * 6);
      PlusSat(size + key * 6, item);
      PlusSat(size + key * 6 + item, 5);
      MembersExact(members[1..], size + key * 6 + item + 5, indent, depth);
    }
  }

  // ----- The bound covers the rendering -----

  lemma {:induction false} EscapesFit(text: seq<Byte>)
    ensures |text| <= |EscapedText(text)| <= |text| * 6
  {
    if text != [] {
      EscapesFit(text[1..]);
    }
  }

  lemma {:induction false} RenderFits(v: Value, indent: nat, depth: nat)
    ensures |Render(v, indent, depth)| <= Exact(v, indent, depth)
    decreases v
  {
    match v
    case Null =>
    case Bool(_) =>
    case Number(text) =>
    case String(text) => EscapesFit(text);
    case Array(items) =>
      ItemsFit(items, true, indent, depth + 1);
      WhitespaceSplits(|items|, indent, depth);
    case Object(members) =>
      MembersFit(members, true, indent, depth + 1);
      WhitespaceSplits(|members|, indent, depth);
  }

  /** The line breaks and blanks in front of `items` items. */
  function Leading(items: nat, indent: nat, depth: nat): nat {
    if indent == 0 then 0 else items * (1 + indent * depth)
  }

  lemma WhitespaceSplits(items: nat, indent: nat, depth: nat)
    ensures Whitespace(items, indent, depth) == Leading(items, indent, depth + 1) + |Trail(items == 0, indent, depth)|
  {
    if indent != 0 && items != 0 {
      assert (items * (depth + 1) + depth) * indent == items * (depth + 1) * indent + depth * indent;
      assert items * (1 + indent * (depth + 1)) == items + items * (indent * (depth + 1));
      assert items * (indent * (depth + 1)) == items * (depth + 1) * indent;
    }
  }

  lemma LeadingOneMore(items: nat, indent: nat, depth: nat)
    ensures Leading(items + 1, indent, depth) == Leading(items, indent, depth) + Leading(1, indent, depth)
    ensures |Lead(false, indent, depth)| == 1 + Leading(1, indent, depth) &&
            |Lead(true, indent, depth)| == Leading(1, indent, depth)
  {
  }

  lemma {:induction false} ItemsFit(items: seq<Value>, first: bool, indent: nat, depth: nat)
    ensures |RenderItems(items, first, indent, depth)| <=
            ExactItems(items, indent, depth) + Leading(|items|, indent, depth)
    decreases items
  {
    hide Lead, Leading;
    LeadingNone(indent, depth);
    if items != [] {
      RenderFits(items[0], indent, depth);
      ItemsFit(items[1..], false, indent, depth);
      LeadingOneMore(|items| - 1, indent, depth);
    }
  }

  lemma LeadingNone(indent: nat, depth: nat)
    ensures Leading(0, indent, depth) == 0
  {
  }

  lemma {:induction false} MembersFit(members: seq<Member>, first: bool, indent: nat, depth: nat)
    ensures |RenderMembers(members, first, indent, depth)| <=
            ExactMembers(members, indent, depth) + Leading(|members|, indent, depth)
    decreases members
  {
    hide Lead, Leading, Render;
    LeadingNone(indent, depth);
    if members != [] {
      EscapesFit(members[0].key);
      RenderFits(members[0].value, indent, depth);
      MembersFit(members[1..], false, indent, depth);
      LeadingOneMore(|members| - 1, indent, depth);
    }
  }

  /** For every value, indent and depth the bound is at least the length of the rendering, or it has
      saturated. */
  lemma BoundCovers(v: Value, indent: nat, depth: nat)
    ensures |Render(v, indent, depth)| <= RenderBound(v, indent, Sat(depth)) ||
            RenderBound(v, indent, Sat(depth)) == U64_MAX
  {
    hide Render, RenderBound, Exact;
    BoundIsExact(v, indent, depth);
    RenderFits(v, indent, depth);
  }
}
