// Nested comma lists in braces: the expansion of such a pattern is the product of its alternatives, in the order
// in which they are written, cut off at the word limit.

module BracePatterns {
  import opened Basics
  import opened BraceExpansion

  /** Characters and brace lists, one behind the other. */
  datatype Pattern = Done | Literal(c: char, rest: Pattern) | Choice(alternatives: seq<Pattern>, rest: Pattern)

  // ----- What a pattern means -----

  /** A text before every word. */
  function Each(prefix: string, words: seq<string>): (r: seq<string>)
    ensures |r| == |words|
  {
    if words == [] then [] else [prefix + words[0]] + Each(prefix, words[1..])
  }

  /** Every first word with every second one. */
  function Product(first: seq<string>, second: seq<string>): seq<string> {
    if first == [] then [] else Each(first[0], second) + Product(first[1..], second)
  }

  function Words(p: Pattern): seq<string>
    decreases p
  {
    match p
    case Done => [""]
    case Literal(c, rest) => Each([c], Words(rest))
    case Choice(alternatives, rest) => Product(AllWords(alternatives), Words(rest))
  }

  /** The words of one alternative after the other. */
  function AllWords(ps: seq<Pattern>): seq<string>
    decreases ps
  {
    if ps == [] then [] else Words(ps[0]) + AllWords(ps[1..])
  }

  // ----- How it is written -----

  function Written(p: Pattern): string
    decreases p
  {
    match p
    case Done => ""
    case Literal(c, rest) => [c] + Written(rest)
    case Choice(alternatives, rest) => "{" + (AllWritten(alternatives) + ("}" + Written(rest)))
  }

  function AllWritten(ps: seq<Pattern>): string
    decreases ps
  {
    if ps == [] then "" else if |ps| == 1 then Written(ps[0]) else Written(ps[0]) + ("," + AllWritten(ps[1..]))
  }

  /** Characters that mean only themselves in a pattern. */
  predicate IsPlain(c: char) {
    c != '{' && c != '}' && c != ',' && c != '\\' && c != '\'' && c != '"' && c != '$'
  }

  predicate AllPlain(s: string) {
    forall c :: c in s ==> IsPlain(c)
  }

  /** Every literal is plain and every list has at least two alternatives. */
  predicate Proper(p: Pattern)
    decreases p
  {
    match p
    case Done => true
    case Literal(c, rest) => IsPlain(c) && Proper(rest)
    case Choice(alternatives, rest) =>
      |alternatives| >= 2 && AllProper(alternatives) && Proper(rest)
  }

  predicate AllProper(ps: seq<Pattern>)
    decreases ps
  {
    ps != [] ==> Proper(ps[0]) && AllProper(ps[1..])
  }

  /** How many lists are open one behind or inside another at most. */
  function Need(p: Pattern): nat
    decreases p
  {
    match p
    case Done => 0
    case Literal(_, rest) => Need(rest)
    case Choice(alternatives, rest) => 1 + MostNeeded(alternatives) + Need(rest)
  }

  function MostNeeded(ps: seq<Pattern>): nat
    decreases ps
  {
    if ps == [] then 0 else var more := MostNeeded(ps[1..]); if Need(ps[0]) >= more then Need(ps[0]) else more
  }

  function Size(p: Pattern): nat
    decreases p
  {
    match p
    case Done => 0
    case Literal(_, rest) => 1 + Size(rest)
    case Choice(alternatives, rest) => 1 + AllSizes(alternatives) + Size(rest)
  }

  function AllSizes(ps: seq<Pattern>): nat
    decreases ps
  {
    if ps == [] then 0 else Size(ps[0]) + AllSizes(ps[1..])
  }

  // ----- One pattern behind another -----

  function Joined(p: Pattern, q: Pattern): Pattern
    decreases p
  {
    match p
    case Done => q
    case Literal(c, rest) => Literal(c, Joined(rest, q))
    case Choice(alternatives, rest) => Choice(alternatives, Joined(rest, q))
  }

  lemma {:induction false} JoinedParts(p: Pattern, q: Pattern)
    ensures Written(Joined(p, q)) == Written(p) + Written(q) && Need(Joined(p, q)) == Need(p) + Need(q)
    ensures Size(Joined(p, q)) == Size(p) + Size(q) && (Proper(p) && Proper(q) ==> Proper(Joined(p, q)))
    decreases p
  {
    match p
    case Done => assert "" + Written(q) == Written(q);
    case Literal(c, rest) =>
      JoinedParts(rest, q);
      assert [c] + (Written(rest) + Written(q)) == [c] + Written(rest) + Written(q);
    case Choice(alternatives, rest) =>
      JoinedParts(rest, q);
      Grouped(AllWritten(alternatives), Written(rest), Written(q));
  }

  lemma Grouped(a: string, r: string, s: string)
    ensures "{" + (a + ("}" + (r + s))) == "{" + (a + ("}" + r)) + s
  {
    assert "{" + (a + ("}" + (r + s))) == "{" + a + "}" + r + s;
  }

  lemma {:induction false} EachBoth(prefix: string, x: seq<string>, y: seq<string>)
    ensures Each(prefix, x + y) == Each(prefix, x) + Each(prefix, y)
    decreases |x|
  {
    if x == [] {
      assert x + y == y;
    } else {
      assert (x + y)[1..] == x[1..] + y;
      EachBoth(prefix, x[1..], y);
    }
  }

  lemma {:induction false} EachTwice(x: string, y: string, words: seq<string>)
    ensures Each(x, Each(y, words)) == Each(x + y, words)
    decreases |words|
  {
    if words != [] {
      EachTwice(x, y, words[1..]);
      assert Each(y, words)[1..] == Each(y, words[1..]);
      assert x + (y + words[0]) == x + y + words[0];
    }
  }

  lemma {:induction false} EachNothing(words: seq<string>)
    ensures Each("", words) == words
  {
    if words != [] {
      EachNothing(words[1..]);
      assert "" + words[0] == words[0];
    }
  }

  lemma {:induction false} ProductBoth(x: seq<string>, y: seq<string>, z: seq<string>)
    ensures Product(x + y, z) == Product(x, z) + Product(y, z)
    decreases |x|
  {
    if x == [] {
      assert x + y == y;
    } else {
      assert (x + y)[1..] == x[1..] + y;
      ProductBoth(x[1..], y, z);
    }
  }

  lemma {:induction false} EachProduct(prefix: string, x: seq<string>, y: seq<string>)
    ensures Each(prefix, Product(x, y)) == Product(Each(prefix, x), y)
    decreases |x|
  {
    if x != [] {
      EachProduct(prefix, x[1..], y);
      EachBoth(prefix, Each(x[0], y), Product(x[1..], y));
      EachTwice(prefix, x[0], y);
      assert Each(prefix, x)[1..] == Each(prefix, x[1..]);
    }
  }

  lemma {:induction false} ProductTwice(x: seq<string>, y: seq<string>, z: seq<string>)
    ensures Product(x, Product(y, z)) == Product(Product(x, y), z)
    decreases |x|
  {
    if x != [] {
      ProductTwice(x[1..], y, z);
      EachProduct(x[0], y, z);
      ProductBoth(Each(x[0], y), Product(x[1..], y), z);
    }
  }

  lemma {:induction false} JoinedWords(p: Pattern, q: Pattern)
    ensures Words(Joined(p, q)) == Product(Words(p), Words(q))
    decreases p
  {
    match p
    case Done =>
      EachNothing(Words(q));
      assert [""][1..] == [];
      assert Product([], Words(q)) == [];
      assert Product([""], Words(q)) == Each("", Words(q)) + [];
    case Literal(c, rest) =>
      JoinedWords(rest, q);
      EachProduct([c], Words(rest), Words(q));
    case Choice(alternatives, rest) =>
      JoinedWords(rest, q);
      ProductTwice(AllWords(alternatives), Words(rest), Words(q));
  }

  // ----- The scan of a written pattern -----

  /** From a place on, a text reads one thing and then another. */
  predicate At(word: string, i: nat, here: string, rest: string) {
    i <= |word| && word[i..] == here + rest
  }

  lemma AtSplit(word: string, i: nat, x: string, y: string, rest: string)
    requires At(word, i, x + y, rest)
    ensures At(word, i, x, y + rest) && At(word, i + |x|, y, rest)
  {
    assert x + y + rest == x + (y + rest);
    assert word[i + |x|..] == word[i..][|x|..];
  }

  lemma AtFirst(word: string, i: nat, c: char, y: string, rest: string)
    requires At(word, i, [c] + y, rest)
    ensures i < |word| && word[i] == c && At(word, i + 1, y, rest)
  {
    assert word[i..][0] == c;
    AtSplit(word, i, [c], y, rest);
  }

  lemma AtEnd(word: string, i: nat, x: string, rest: string)
    requires At(word, i, x, rest)
    ensures i + |x| <= |word| && word[i..i + |x|] == x && word[i + |x|..] == rest
  {
    assert word[i..][..|x|] == x && word[i..][|x|..] == rest;
  }

  lemma {:induction false} OpenBehind(word: string, i: nat, prefix: string, rest: string)
    requires AllPlain(prefix) && At(word, i, prefix, rest)
    ensures i + |prefix| <= |word| && OpenBrace(word, i, None, false) == OpenBrace(word, i + |prefix|, None, false)
    decreases |prefix|
  {
    if prefix != "" {
      assert prefix == [prefix[0]] + prefix[1..] && prefix[0] in prefix;
      AtFirst(word, i, prefix[0], prefix[1..], rest);
      OpenBehind(word, i + 1, prefix[1..], rest);
    }
  }

  /** A scan for the closing brace passes whole patterns. */
  lemma {:induction false} CloseBehind(word: string, i: nat, p: Pattern, rest: string, nested: nat)
    requires Proper(p) && At(word, i, Written(p), rest)
    ensures i + |Written(p)| <= |word|
    ensures CloseBrace(word, i, nested) == CloseBrace(word, i + |Written(p)|, nested)
    decreases p
  {
    hide At;
    match p
    case Done => AtEnd(word, i, "", rest);
    case Literal(c, more) =>
      AtFirst(word, i, c, Written(more), rest);
      CloseBehind(word, i + 1, more, rest, nested);
    case Choice(alternatives, more) =>
      var inner := AllWritten(alternatives);
      ChoiceAt(word, i, alternatives, more, rest);
      CloseBehindAll(word, i + 1, alternatives, "}" + (Written(more) + rest), nested + 1);
      CloseBehind(word, i + 1 + |inner| + 1, more, rest, nested);
  }

  /** Where the parts of a brace list stand. */
  lemma ChoiceAt(word: string, i: nat, alternatives: seq<Pattern>, more: Pattern, rest: string)
    requires At(word, i, Written(Choice(alternatives, more)), rest)
    ensures var inner := AllWritten(alternatives);
            && i < |word| && word[i] == '{' && At(word, i + 1, inner, "}" + (Written(more) + rest))
            && i + 1 + |inner| < |word| && word[i + 1 + |inner|] == '}'
            && At(word, i + 1 + |inner| + 1, Written(more), rest)
            && |Written(Choice(alternatives, more))| == 1 + |inner| + 1 + |Written(more)|
  {
    hide At, Written, AllWritten;
    var inner := AllWritten(alternatives);
    ChoiceWritten(alternatives, more);
    AtFirst(word, i, '{', inner + ("}" + Written(more)), rest);
    AtSplit(word, i + 1, inner, "}" + Written(more), rest);
    AtFirst(word, i + 1 + |inner|, '}', Written(more), rest);
    Reassociated("}", Written(more), rest);
  }

  lemma ChoiceWritten(alternatives: seq<Pattern>, more: Pattern)
    ensures Written(Choice(alternatives, more)) == "{" + (AllWritten(alternatives) + ("}" + Written(more)))
  {
  }

  lemma Reassociated(x: string, y: string, z: string)
    ensures x + y + z == x + (y + z)
  {
  }

  lemma {:induction false} CloseBehindAll(word: string, i: nat, ps: seq<Pattern>, rest: string, nested: nat)
    requires AllProper(ps) && At(word, i, AllWritten(ps), rest)
    ensures i + |AllWritten(ps)| <= |word|
    ensures CloseBrace(word, i, nested) == CloseBrace(word, i + |AllWritten(ps)|, nested)
    decreases ps
  {
    hide At;
    if ps == [] {
      AtEnd(word, i, "", rest);
    } else if |ps| == 1 {
      CloseBehind(word, i, ps[0], rest, nested);
    } else {
      AllAt(word, i, ps, rest);
      CloseBehind(word, i, ps[0], "," + (AllWritten(ps[1..]) + rest), nested);
      CloseBehindAll(word, i + |Written(ps[0])| + 1, ps[1..], rest, nested);
    }
  }

  /** Where the first alternative, its comma and the others stand. */
  lemma AllAt(word: string, i: nat, ps: seq<Pattern>, rest: string)
    requires |ps| > 1 && At(word, i, AllWritten(ps), rest)
    ensures var j := i + |Written(ps[0])|;
            && At(word, i, Written(ps[0]), "," + (AllWritten(ps[1..]) + rest))
            && j < |word| && word[j] == ',' && At(word, j + 1, AllWritten(ps[1..]), rest)
            && |AllWritten(ps)| == |Written(ps[0])| + 1 + |AllWritten(ps[1..])|
  {
    hide At, Written, AllWritten;
    MoreWritten(ps);
    AtSplit(word, i, Written(ps[0]), "," + AllWritten(ps[1..]), rest);
    AtFirst(word, i + |Written(ps[0])|, ',', AllWritten(ps[1..]), rest);
    Reassociated(",", AllWritten(ps[1..]), rest);
  }

  lemma MoreWritten(ps: seq<Pattern>)
    requires |ps| > 1
    ensures AllWritten(ps) == Written(ps[0]) + ("," + AllWritten(ps[1..]))
  {
  }

  /** The state of a scan for outer commas. */
  datatype Cursor = Cursor(start: nat, depth: nat, parts: seq<string>)

  function CommasAt(inner: string, i: nat, at: Cursor): seq<string>
    requires at.start <= i <= |inner|
  {
    Commas(inner, i, at.start, at.depth, at.parts)
  }

  lemma {:induction false} CommasBehind(inner: string, i: nat, p: Pattern, rest: string, at: Cursor)
    requires Proper(p) && At(inner, i, Written(p), rest) && at.start <= i
    ensures i + |Written(p)| <= |inner|
    ensures i <= |inner| && CommasAt(inner, i, at) == CommasAt(inner, i + |Written(p)|, at)
    decreases p
  {
    hide At;
    match p
    case Done => AtEnd(inner, i, "", rest);
    case Literal(c, more) =>
      AtFirst(inner, i, c, Written(more), rest);
      CommasBehind(inner, i + 1, more, rest, at);
    case Choice(alternatives, more) =>
      var body := AllWritten(alternatives);
      ChoiceAt(inner, i, alternatives, more, rest);
      CommasBehindAll(inner, i + 1, alternatives, "}" + (Written(more) + rest), at.(depth := at.depth + 1));
      CommasBehind(inner, i + 1 + |body| + 1, more, rest, at);
  }

  lemma {:induction false} CommasBehindAll(inner: string, i: nat, ps: seq<Pattern>, rest: string, at: Cursor)
    requires AllProper(ps) && At(inner, i, AllWritten(ps), rest) && at.start <= i && at.depth > 0
    ensures i + |AllWritten(ps)| <= |inner|
    ensures i <= |inner| && CommasAt(inner, i, at) == CommasAt(inner, i + |AllWritten(ps)|, at)
    decreases ps
  {
    hide At;
    if ps == [] {
      AtEnd(inner, i, "", rest);
    } else if |ps| == 1 {
      CommasBehind(inner, i, ps[0], rest, at);
    } else {
      AllAt(inner, i, ps, rest);
      CommasBehind(inner, i, ps[0], "," + (AllWritten(ps[1..]) + rest), at);
      CommasBehindAll(inner, i + |Written(ps[0])| + 1, ps[1..], rest, at);
    }
  }

  /** The texts of some patterns. */
  function Texts(ps: seq<Pattern>): (r: seq<string>)
    ensures |r| == |ps|
  {
    if ps == [] then [] else [Written(ps[0])] + Texts(ps[1..])
  }

  lemma CommasEnd(inner: string, i: nat, last: string, parts: seq<string>)
    requires i <= |inner| && inner[i..] == last && parts != []
    ensures CommasAt(inner, |inner|, Cursor(i, 0, parts)) == parts + [last]
  {
  }

  lemma CommasNext(inner: string, i: nat, j: nat, part: string, parts: seq<string>)
    requires i <= j < |inner| && inner[j] == ',' && inner[i..j] == part
    ensures CommasAt(inner, j, Cursor(i, 0, parts)) == CommasAt(inner, j + 1, Cursor(j + 1, 0, parts + [part]))
  {
  }

  lemma TextsFirst(ps: seq<Pattern>, parts: seq<string>)
    requires ps != []
    ensures parts + [Written(ps[0])] + Texts(ps[1..]) == parts + Texts(ps)
    ensures |ps| == 1 ==> Texts(ps) == [Written(ps[0])]
  {
    hide Written;
    TextsGrouped(parts, [Written(ps[0])], Texts(ps[1..]));
    if |ps| == 1 {
      assert ps[1..] == [];
    }
  }

  lemma TextsGrouped(x: seq<string>, y: seq<string>, z: seq<string>)
    ensures x + y + z == x + (y + z)
  {
  }

  lemma {:induction false} CommasSplit(inner: string, i: nat, ps: seq<Pattern>, parts: seq<string>)
    requires AllProper(ps) && ps != [] && At(inner, i, AllWritten(ps), "") && (|ps| > 1 || parts != [])
    ensures i <= |inner| && CommasAt(inner, i, Cursor(i, 0, parts)) == parts + Texts(ps)
    decreases ps
  {
    hide At, Written, CommasAt, Texts, Proper;
    var j := i + |Written(ps[0])|;
    TextsFirst(ps, parts);
    if |ps| == 1 {
      CommasBehind(inner, i, ps[0], "", Cursor(i, 0, parts));
      AtEnd(inner, i, Written(ps[0]), "");
      assert inner[i..] == inner[i..j];
      CommasEnd(inner, i, Written(ps[0]), parts);
    } else {
      AllAt(inner, i, ps, "");
      CommasBehind(inner, i, ps[0], "," + (AllWritten(ps[1..]) + ""), Cursor(i, 0, parts));
      AtEnd(inner, i, Written(ps[0]), "," + (AllWritten(ps[1..]) + ""));
      CommasNext(inner, i, j, Written(ps[0]), parts);
      CommasSplit(inner, j + 1, ps[1..], parts + [Written(ps[0])]);
    }
  }

  /** The alternatives of a written list are the texts of its patterns. */
  lemma AlternativesAre(ps: seq<Pattern>)
    requires |ps| >= 2 && AllProper(ps)
    ensures Alternatives(AllWritten(ps)) == Texts(ps)
  {
    hide AllWritten, Texts, Commas, Range;
    var inner := AllWritten(ps);
    assert inner[0..] == inner + "";
    CommasSplit(inner, 0, ps, []);
    assert [] + Texts(ps) == Texts(ps);
  }

  // ----- Cutting off -----

  /** The words of several lists in turn. */
  function Flat(lists: seq<seq<string>>): seq<string> {
    if lists == [] then [] else lists[0] + Flat(lists[1..])
  }

  lemma FirstBoth(x: seq<string>, y: seq<string>, z: seq<string>)
    ensures |x + First(y)| >= MAX_WORDS ==> First(x + First(y)) == First(x + y + z)
    ensures |x + First(y)| < MAX_WORDS ==> First(y) == y
  {
  }

  /** What a list of choices expands to, when each expands to the first words of a list. */
  ghost predicate Expands(prefix: string, choices: seq<string>, suffix: string, depth: nat, lists: seq<seq<string>>) {
    && depth < MAX_BRACES && |lists| == |choices|
    && (forall i :: 0 <= i < |choices| ==>
          lists[i] != [] && BraceExpand(prefix + choices[i] + suffix, depth + 1) == First(lists[i]))
  }

  lemma {:induction false} CombineFlat(prefix: string, choices: seq<string>, suffix: string, depth: nat,
                                       lists: seq<seq<string>>, out: seq<string>)
    requires Expands(prefix, choices, suffix, depth, lists) && |out| < MAX_WORDS
    ensures Combine(prefix, choices, suffix, depth, out) == First(out + Flat(lists))
    decreases |choices|
  {
    hide BraceExpand, First;
    if choices == [] {
      assert out + Flat(lists) == out;
      FirstShort(out);
    } else {
      var more := out + First(lists[0]);
      FirstBoth(out, lists[0], Flat(lists[1..]));
      assert out + lists[0] + Flat(lists[1..]) == out + Flat(lists);
      if |more| < MAX_WORDS {
        CombineFlat(prefix, choices[1..], suffix, depth, lists[1..], more);
      }
    }
  }

  lemma FirstShort(words: seq<string>)
    ensures |words| <= MAX_WORDS ==> First(words) == words
  {
  }

  /** Lists that are not empty fill the limit with as many lists. */
  lemma {:induction false} FlatLong(lists: seq<seq<string>>)
    requires forall i :: 0 <= i < |lists| ==> lists[i] != []
    ensures |Flat(lists)| >= |lists|
    decreases |lists|
  {
    if lists != [] {
      FlatLong(lists[1..]);
    }
  }

  lemma {:induction false} FlatBoth(x: seq<seq<string>>, y: seq<seq<string>>)
    ensures Flat(x + y) == Flat(x) + Flat(y)
    decreases |x|
  {
    if x == [] {
      assert x + y == y;
    } else {
      assert (x + y)[1..] == x[1..] + y;
      FlatBoth(x[1..], y);
    }
  }

  /** Cutting off the choices does not change the first words. */
  lemma CombineFirst(prefix: string, choices: seq<string>, suffix: string, depth: nat, lists: seq<seq<string>>)
    requires Expands(prefix, choices, suffix, depth, lists)
    ensures Combine(prefix, First(choices), suffix, depth, []) == First(Flat(lists))
  {
    hide Combine, Flat, BraceExpand;
    var n := if |choices| > MAX_WORDS then MAX_WORDS else |choices|;
    CombineFlat(prefix, First(choices), suffix, depth, lists[..n], []);
    assert [] + Flat(lists[..n]) == Flat(lists[..n]);
    assert lists == lists[..n] + lists[n..];
    FlatBoth(lists[..n], lists[n..]);
    FlatLong(lists[..n]);
    if |choices| <= MAX_WORDS {
      assert lists[..n] == lists;
    }
  }

  // ----- The law -----

  /** The lists of words that a text, each alternative and the rest give. */
  function Lists(prefix: string, ps: seq<Pattern>, rest: Pattern): (r: seq<seq<string>>)
    ensures |r| == |ps|
  {
    if ps == [] then [] else [Each(prefix, Words(Joined(ps[0], rest)))] + Lists(prefix, ps[1..], rest)
  }

  lemma {:induction false} ListsAre(prefix: string, ps: seq<Pattern>, rest: Pattern)
    ensures Flat(Lists(prefix, ps, rest)) == Each(prefix, Product(AllWords(ps), Words(rest)))
    decreases |ps|
  {
    hide Words, Each, Product, Joined;
    if ps == [] {
      NoProduct(prefix, Words(rest));
    } else {
      ListsAre(prefix, ps[1..], rest);
      JoinedWords(ps[0], rest);
      ProductBoth(Words(ps[0]), AllWords(ps[1..]), Words(rest));
      EachBoth(prefix, Product(Words(ps[0]), Words(rest)), Product(AllWords(ps[1..]), Words(rest)));
    }
  }

  lemma NoProduct(prefix: string, words: seq<string>)
    ensures Each(prefix, Product([], words)) == []
  {
  }

  lemma {:induction false} ListsAt(prefix: string, ps: seq<Pattern>, rest: Pattern, i: nat)
    requires i < |ps|
    ensures Lists(prefix, ps, rest)[i] == Each(prefix, Words(Joined(ps[i], rest))) && Texts(ps)[i] == Written(ps[i])
  {
    if i > 0 {
      ListsAt(prefix, ps[1..], rest, i - 1);
    }
  }

  lemma {:induction false} ProductSome(x: seq<string>, y: seq<string>)
    requires x != [] && y != []
    ensures Product(x, y) != []
  {
  }

  lemma {:induction false} WordsSome(p: Pattern)
    requires Proper(p)
    ensures Words(p) != []
    decreases p
  {
    match p
    case Done =>
    case Literal(_, rest) => WordsSome(rest);
    case Choice(alternatives, rest) =>
      WordsSome(alternatives[0]);
      WordsSome(rest);
      ProductSome(AllWords(alternatives), Words(rest));
  }

  /** What every alternative satisfies. */
  lemma {:induction false} OneOf(ps: seq<Pattern>, i: nat)
    requires AllProper(ps) && i < |ps|
    ensures Proper(ps[i]) && Need(ps[i]) <= MostNeeded(ps) && Size(ps[i]) <= AllSizes(ps)
    decreases ps
  {
    hide Proper, Need, Size;
    if i > 0 {
      OneOf(ps[1..], i - 1);
    }
  }

  /** The first 1024 words. */
  function Limited(words: seq<string>): seq<string> {
    if |words| > 1024 then words[..1024] else words
  }

  /** Every pattern of at most eight lists inside or behind one another expands to the product of its alternatives in
      written order, or to the first 1024 words of it; at the eighth level nothing is expanded any more. */
  lemma PatternExactly(p: Pattern, word: string)
    requires Proper(p) && Need(p) <= 8
    ensures BraceExpand(Written(p), 0) == Limited(Words(p)) && BraceExpand(word, 8) == [word]
  {
    hide BraceExpand, Words, Written;
    PatternsExpand("", p, 0);
    assert "" + Written(p) == Written(p);
    EachNothing(Words(p));
    Deepest(word);
  }

  lemma Deepest(word: string)
    ensures BraceExpand(word, 8) == [word]
  {
  }

  /** The same behind plain text and at any depth. */
  lemma {:induction false} PatternsExpand(prefix: string, p: Pattern, depth: nat)
    requires AllPlain(prefix) && Proper(p) && depth + Need(p) <= MAX_BRACES
    ensures BraceExpand(prefix + Written(p), depth) == First(Each(prefix, Words(p)))
    decreases Size(p)
  {
    hide BraceExpand, First, Words;
    match p
    case Done => PlainExpands(prefix, depth);
    case Literal(c, rest) =>
      PatternsExpand(prefix + [c], rest, depth);
      assert prefix + [c] + Written(rest) == prefix + Written(p);
      LiteralWords(prefix, c, rest);
    case Choice(alternatives, rest) =>
      forall i | 0 <= i < |alternatives|
        ensures ExpandsAt(prefix, alternatives, rest, depth, i)
      {
        OneOf(alternatives, i);
        JoinedParts(alternatives[i], rest);
        PatternsExpand(prefix, Joined(alternatives[i], rest), depth + 1);
        AlternativeExpands(prefix, alternatives, rest, depth, i);
      }
      ChoiceExpands(prefix, alternatives, rest, depth);
  }

  lemma LiteralWords(prefix: string, c: char, rest: Pattern)
    ensures Each(prefix, Words(Literal(c, rest))) == Each(prefix + [c], Words(rest))
  {
    EachTwice(prefix, [c], Words(rest));
  }

  lemma PlainExpands(prefix: string, depth: nat)
    requires AllPlain(prefix)
    ensures BraceExpand(prefix + Written(Done), depth) == First(Each(prefix, Words(Done)))
  {
    var word := prefix + "";
    assert word == prefix && word[0..] == prefix + "";
    OpenBehind(word, 0, prefix, "");
    assert Each(prefix, [""]) == [prefix + ""] + Each(prefix, [""][1..]);
  }

  /** One alternative expands as the law says. */
  ghost predicate ExpandsAt(prefix: string, ps: seq<Pattern>, rest: Pattern, depth: nat, i: nat)
    requires i < |ps|
  {
    && Lists(prefix, ps, rest)[i] != []
    && BraceExpand(prefix + Texts(ps)[i] + Written(rest), depth + 1) == First(Lists(prefix, ps, rest)[i])
  }

  lemma AlternativeExpands(prefix: string, ps: seq<Pattern>, rest: Pattern, depth: nat, i: nat)
    requires i < |ps| && Proper(Joined(ps[i], rest)) && Written(Joined(ps[i], rest)) == Written(ps[i]) + Written(rest)
    requires BraceExpand(prefix + Written(Joined(ps[i], rest)), depth + 1) ==
             First(Each(prefix, Words(Joined(ps[i], rest))))
    ensures ExpandsAt(prefix, ps, rest, depth, i)
  {
    hide BraceExpand, First, Lists, Texts, Joined, Written, Proper;
    ListsAt(prefix, ps, rest, i);
    WordsSome(Joined(ps[i], rest));
    assert prefix + (Written(ps[i]) + Written(rest)) == prefix + Written(ps[i]) + Written(rest);
  }

  lemma ChoiceExpands(prefix: string, ps: seq<Pattern>, rest: Pattern, depth: nat)
    requires AllPlain(prefix) && Proper(Choice(ps, rest)) && depth < MAX_BRACES
    requires forall i :: 0 <= i < |ps| ==> ExpandsAt(prefix, ps, rest, depth, i)
    ensures BraceExpand(prefix + Written(Choice(ps, rest)), depth) ==
            First(Each(prefix, Words(Choice(ps, rest))))
  {
    hide BraceExpand, First, Lists, Texts, Written, Flat, Each, Product, AllWords;
    var lists := Lists(prefix, ps, rest);
    forall i | 0 <= i < |ps|
      ensures lists[i] != [] && BraceExpand(prefix + Texts(ps)[i] + Written(rest), depth + 1) == First(lists[i])
    {
      assert ExpandsAt(prefix, ps, rest, depth, i);
    }
    ChoiceCombines(prefix, ps, rest, depth);
    CombineFirst(prefix, Texts(ps), Written(rest), depth, lists);
    ListsAre(prefix, ps, rest);
  }

  /** How a word with a brace list is taken apart. */
  lemma ChoiceCombines(prefix: string, ps: seq<Pattern>, rest: Pattern, depth: nat)
    requires AllPlain(prefix) && Proper(Choice(ps, rest)) && depth < MAX_BRACES
    ensures BraceExpand(prefix + Written(Choice(ps, rest)), depth) ==
            Combine(prefix, First(Texts(ps)), Written(rest), depth, [])
  {
    hide Combine, First, Alternatives, Texts, OpenBrace, CloseBrace, AllWritten, Written, At;
    var written := Written(Choice(ps, rest));
    var word := prefix + written;
    var n, inner := |prefix|, AllWritten(ps);
    PrefixAt(prefix, written);
    OpenBehind(word, 0, prefix, written);
    ChoiceAt(word, n, ps, rest, "");
    OpenHere(word, n, prefix);
    CloseBehindAll(word, n + 1, ps, "}" + (Written(rest) + ""), 0);
    CloseHere(word, n + 1 + |inner|);
    AtEnd(word, n + 1, inner, "}" + (Written(rest) + ""));
    AtEnd(word, n + 1 + |inner| + 1, Written(rest), "");
    AlternativesAre(ps);
    assert word[n + 1 + |inner| + 1..] == Written(rest);
  }

  lemma PrefixAt(prefix: string, written: string)
    ensures var word := prefix + written;
            At(word, 0, prefix, written) && At(word, |prefix|, written, "") && word[..|prefix|] == prefix
  {
    var word := prefix + written;
    assert word[0..] == word && word[|prefix|..] == written + "";
  }

  lemma OpenHere(word: string, i: nat, prefix: string)
    requires AllPlain(prefix) && i < |word| && word[i] == '{' && i == |prefix| && word[..i] == prefix
    ensures OpenBrace(word, i, None, false) == Some(i)
  {
    if i > 0 {
      assert word[i - 1] == prefix[i - 1] && prefix[i - 1] in prefix;
    }
  }

  lemma CloseHere(word: string, i: nat)
    requires i < |word| && word[i] == '}'
    ensures CloseBrace(word, i, 0) == Some(i)
  {
  }
}
