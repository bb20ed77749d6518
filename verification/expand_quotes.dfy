// Expanding a shell-quoted text gives the text back, and exactly when it does.
//
// Unquoting reads a backslash inside single quotes as itself, the brace scan reads it as an escape, so
// the scan can take a brace of the quoted text for one of the shell.

module QuoteRoundTrip {
  import opened Basics
  import opened ArithNumbers
  import opened ArithGrammar
  import opened BraceExpansion
  import opened WordExpansion
  import opened ExpansionLaws

  /** A text with its single quotes written the way they are inside a quoted text. */
  function Marked(s: string): string {
    Replace(s, '\'', "'\\''")
  }

  /** The scan finds a brace in the quoted text, its end, and something to put in its place. */
  predicate Misread(value: string) {
    var word := QuoteShell(value);
    var open := OpenBrace(word, 0, None, false);
    open.Some? &&
    var close := CloseBrace(word, open.value + 1, 0);
    close.Some? && Alternatives(word[open.value + 1..close.value]) != []
  }

  // ----- Where a character of a quoted text comes from -----

  /** A character other than a single quote or a backslash stands for itself: what is before it and what
      is behind it are quoted texts of their own. */
  lemma {:induction false} Origin(s: string, i: nat) returns (a: nat)
    requires i < |Marked(s)| && Marked(s)[i] != '\'' && Marked(s)[i] != '\\'
    ensures a < |s| && s[a] == Marked(s)[i]
    ensures Marked(s)[..i] == Marked(s[..a]) && Marked(s)[i + 1..] == Marked(s[a + 1..])
    decreases |s|
  {
    var head := if s[0] == '\'' then "'\\''" else [s[0]];
    var rest := Marked(s[1..]);
    assert Marked(s) == head + rest;
    if i < |head| {
      a := 0;
      assert Marked(s)[i] == head[i];
      assert Marked(s)[1..] == rest;
    } else {
      var b := Origin(s[1..], i - |head|);
      a := b + 1;
      assert s[..a][1..] == s[1..][..b] && s[a + 1..] == s[1..][b + 1..];
      assert Marked(s)[..i] == head + rest[..i - |head|];
      assert Marked(s)[i + 1..] == rest[i - |head| + 1..];
    }
  }

  // ----- The first alternative -----

  function Braces(s: string): nat {
    multiset(s)['{']
  }

  lemma BracesAdd(x: string, y: string)
    ensures Braces(x + y) == Braces(x) + Braces(y)
  {
  }

  lemma BracesOfPrefix(s: string, n: nat)
    requires n <= |s|
    ensures Braces(s[..n]) <= Braces(s)
  {
    assert s == s[..n] + s[n..];
    BracesAdd(s[..n], s[n..]);
  }

  lemma {:induction false} CommasFirst(inner: string, i: nat, start: nat, depth: nat, parts: seq<string>)
    returns (c: nat)
    requires start <= i <= |inner| && (parts == [] ==> start == 0)
    ensures parts != [] ==>
              Commas(inner, i, start, depth, parts) != [] && Commas(inner, i, start, depth, parts)[0] == parts[0]
    ensures parts == [] && Commas(inner, i, start, depth, parts) != [] ==>
              c < |inner| && inner[c] == ',' && Commas(inner, i, start, depth, parts)[0] == inner[..c]
    decreases |inner| - i
  {
    c := i;
    if i < |inner| {
      if inner[i] == '{' {
        c := CommasFirst(inner, i + 1, start, depth + 1, parts);
      } else if inner[i] == '}' {
        c := CommasFirst(inner, i + 1, start, if depth == 0 then 0 else depth - 1, parts);
      } else if inner[i] == ',' && depth == 0 {
        var _ := CommasFirst(inner, i + 1, i + 1, depth, parts + [inner[start..i]]);
      } else {
        c := CommasFirst(inner, i + 1, start, depth, parts);
      }
    }
  }

  lemma {:induction false} DotsFirst(s: string, i: nat) returns (k: nat)
    requires i <= |s| && |DotSplit(s, 0, i)| > 1
    ensures k < |s| && s[k] == '.' && DotSplit(s, 0, i)[0] == s[..k]
    decreases |s| - i
  {
    if s[i] == '.' && s[i + 1] == '.' {
      k := i;
    } else {
      k := DotsFirst(s, i + 1);
    }
  }

  lemma PlainLabel(value: i64, width: nat)
    ensures '\'' !in Label(value, width) && '{' !in Label(value, width)
  {
    DecimalRoundTrip(Abs(value));
  }

  lemma NoBraces(s: string)
    requires '{' !in s
    ensures Braces(s) == 0
  {
  }

  /** The first alternative of a brace body that is a quoted text is a quoted text with no more braces. */
  lemma FirstAlternative(w: string) returns (u: string)
    requires Alternatives(Marked(w)) != []
    ensures Alternatives(Marked(w))[0] == Marked(u) && Braces(u) <= Braces(w)
  {
    hide Marked, Commas, Range, Braces;
    var inner := Marked(w);
    var c := CommasFirst(inner, 0, 0, 0, []);
    if |Commas(inner, 0, 0, 0, [])| > 1 {
      var a := Origin(w, c);
      BracesOfPrefix(w, a);
      u := w[..a];
    } else {
      u := FirstOfRange(w);
    }
  }

  lemma FirstOfRange(w: string) returns (u: string)
    requires Range(Marked(w)) != []
    ensures Range(Marked(w))[0] == Marked(u) && Braces(u) <= Braces(w)
  {
    hide Marked, DotSplit, Letters, NumberRange, Braces, ParseI64, Label;
    var inner := Marked(w);
    var pieces := DotSplit(inner, 0, 0);
    var k := DotsFirst(inner, 0);
    var step := GivenStep(pieces);
    var start, end := ParseI64(pieces[0]), ParseI64(pieces[1]);
    if start.Some? && end.Some? {
      var width := Wider(WithoutDashes(pieces[0]), WithoutDashes(pieces[1]));
      u := Label(start.value, width);
      FirstNumber(start.value, end.value, StepOr(step, start.value, end.value), width);
      PlainLabel(start.value, width);
      NoBraces(u);
      NothingMarked(u);
    } else {
      var a := Origin(w, k);
      BracesOfPrefix(w, a);
      u := w[..a];
      var from, to := pieces[0][0], pieces[1][0] as int;
      FirstLetter(from, to, StepOr(step, from as int, to));
      assert pieces[0] == [from];
    }
  }

  lemma FirstNumber(start: i64, end: i64, step: i64, width: nat)
    requires NumberRange(start, end, step, width) != []
    ensures NumberRange(start, end, step, width)[0] == Label(start, width)
  {
    hide Label;
  }

  lemma FirstLetter(from: char, to: int, step: i64)
    requires step != 0 && 0 <= to < 0x11_0000 && Letters(from as int, to, step, MAX_WORDS) != []
    ensures Letters(from as int, to, step, MAX_WORDS)[0] == [from]
  {
  }

  lemma NothingMarked(s: string)
    requires '\'' !in s
    ensures Marked(s) == s
  {
    NothingReplaced(s);
  }

  // ----- The first word -----

  /** A misread text: the text before the brace, the body, the text behind it, and the first word that
      comes of it. */
  lemma MisreadParts(value: string) returns (x: string, w: string, z: string)
    requires Misread(value)
    ensures value == x + "{" + w + "}" + z
    ensures var word := QuoteShell(value);
            var open := OpenBrace(word, 0, None, false).value;
            var close := CloseBrace(word, open + 1, 0).value;
            && word[..open] == "'" + Marked(x)
            && word[open + 1..close] == Marked(w)
            && word[close + 1..] == Marked(z) + "'"
  {
    hide Marked, Alternatives, Replace;
    var word := QuoteShell(value);
    var open := OpenBrace(word, 0, None, false).value;
    var close := CloseBrace(word, open + 1, 0).value;
    OpenAt(word, 0, None, false);
    CloseAt(word, open + 1, 0);
    assert Marked(value) == Replace(value, '\'', "'\\''") by { MarkedIs(value); }
    var inside := Marked(value);
    assert word == "'" + inside + "'";
    assert word[open] == inside[open - 1] && word[close] == inside[close - 1];
    var a := Origin(value, open - 1);
    var behind := value[a + 1..];
    assert Marked(behind) == inside[open..];
    assert Marked(behind)[close - 1 - open] == inside[close - 1];
    var b := Origin(behind, close - 1 - open);
    x, w, z := value[..a], behind[..b], behind[b + 1..];
    assert word[..open] == "'" + inside[..open - 1];
    assert word[open + 1..close] == inside[open..][..close - 1 - open];
    assert word[close + 1..] == inside[open..][close - open..] + "'";
  }

  lemma MarkedIs(s: string)
    ensures Marked(s) == Replace(s, '\'', "'\\''")
  {
  }

  lemma {:induction false} OpenAt(word: string, i: nat, quote: Option<char>, escaped: bool)
    requires i <= |word|
    ensures OpenBrace(word, i, quote, escaped).Some? ==> word[OpenBrace(word, i, quote, escaped).value] == '{'
    decreases |word| - i
  {
    if i < |word| {
      var c := word[i];
      if escaped {
        OpenAt(word, i + 1, quote, false);
      } else if c == '\\' {
        OpenAt(word, i + 1, quote, true);
      } else if c == '\'' || c == '"' {
        OpenAt(word, i + 1, Quoting(quote, c), false);
      } else {
        OpenAt(word, i + 1, quote, false);
      }
    }
  }

  lemma {:induction false} CloseAt(word: string, i: nat, nested: nat)
    requires i <= |word|
    ensures CloseBrace(word, i, nested).Some? ==> word[CloseBrace(word, i, nested).value] == '}'
    decreases |word| - i
  {
    if i < |word| {
      var within := if word[i] == '{' then nested + 1 else if word[i] == '}' && nested > 0 then nested - 1 else nested;
      CloseAt(word, i + 1, within);
    }
  }

  /** The first word of a quoted text is a quoted text, and one with fewer braces when it was misread. */
  lemma {:induction false} FirstWord(value: string, depth: nat) returns (u: string)
    ensures BraceExpand(QuoteShell(value), depth) != [] && BraceExpand(QuoteShell(value), depth)[0] == QuoteShell(u)
    ensures Braces(u) <= Braces(value)
    ensures Misread(value) && depth < MAX_BRACES ==> Braces(u) < Braces(value)
    decreases MAX_BRACES - depth
  {
    hide QuoteShell, OpenBrace, CloseBrace, Alternatives, Combine, Marked, Braces;
    if depth >= MAX_BRACES || !Misread(value) {
      u := value;
    } else {
      var x, w, z := MisreadParts(value);
      var choices := Alternatives(Marked(w));
      var first := FirstAlternative(w);
      Shorter(x, w, z, first);
      QuoteJoins(x, first, z);
      u := FirstWord(x + first + z, depth + 1);
      CombineFirst("'" + Marked(x), First(choices), Marked(z) + "'", depth);
    }
  }

  lemma CombineFirst(prefix: string, choices: seq<string>, suffix: string, depth: nat)
    requires depth < MAX_BRACES && choices != []
    ensures var words := BraceExpand(prefix + choices[0] + suffix, depth + 1);
            words != [] && Combine(prefix, choices, suffix, depth, []) != [] &&
            Combine(prefix, choices, suffix, depth, [])[0] == words[0]
  {
    hide BraceExpand;
    var words := BraceExpand(prefix + choices[0] + suffix, depth + 1);
    BracesBounded(prefix + choices[0] + suffix, depth + 1);
    assert [] + words == words;
    if |words| < MAX_WORDS {
      CombineBounded(prefix, choices[1..], suffix, depth, words);
    }
  }

  lemma QuoteJoins(x: string, u: string, z: string)
    ensures "'" + Marked(x) + Marked(u) + (Marked(z) + "'") == QuoteShell(x + u + z)
  {
    hide Replace;
    ReplaceBoth(x + u, z, '\'', "'\\''");
    ReplaceBoth(x, u, '\'', "'\\''");
  }

  lemma Shorter(x: string, w: string, z: string, u: string)
    requires Braces(u) <= Braces(w)
    ensures Braces(x + u + z) < Braces(x + "{" + w + "}" + z)
  {
    assert multiset(x + "{" + w + "}" + z)['{'] == Braces(x) + 1 + Braces(w) + Braces(z);
  }

  // ----- A stopped machine -----

  /** A word that begins with a single quote. */
  predicate Begun(word: string) {
    word != "" && word[0] == '\''
  }

  predicate AllBegun(words: seq<string>) {
    forall i :: 0 <= i < |words| ==> Begun(words[i])
  }

  lemma {:induction false} WordsQuoted(word: string, depth: nat)
    requires Begun(word)
    ensures AllBegun(BraceExpand(word, depth))
    decreases MAX_BRACES - depth, 1, 0
  {
    hide CloseBrace, Alternatives;
    if depth < MAX_BRACES {
      var open := OpenBrace(word, 0, None, false);
      if open.Some? {
        assert open.value > 0 by {
          assert OpenBrace(word, 0, None, false) == OpenBrace(word, 1, Some('\''), false);
        }
        var close := CloseBrace(word, open.value + 1, 0);
        if close.Some? {
          var choices := Alternatives(word[open.value + 1..close.value]);
          if choices != [] {
            CombineQuoted(word[..open.value], First(choices), word[close.value + 1..], depth, []);
          }
        }
      }
    }
  }

  lemma {:induction false} CombineQuoted(prefix: string, choices: seq<string>, suffix: string, depth: nat,
                                         out: seq<string>)
    requires depth < MAX_BRACES && Begun(prefix) && AllBegun(out)
    ensures AllBegun(Combine(prefix, choices, suffix, depth, out))
    decreases MAX_BRACES - depth, 0, |choices|
  {
    hide BraceExpand;
    if choices != [] {
      var word := prefix + choices[0] + suffix;
      assert Begun(word);
      WordsQuoted(word, depth + 1);
      var more := out + BraceExpand(word, depth + 1);
      if |more| < MAX_WORDS {
        CombineQuoted(prefix, choices[1..], suffix, depth, more);
      }
    }
  }

  lemma {:induction false} NothingExpanded(env: Env, words: seq<string>, split: bool)
    requires env.stopped && AllBegun(words)
    ensures ExpandEach(env, words, split) == []
  {
    if words != [] {
      StoppedParts(env, words[0]);
      NothingAssembled(env, split);
      NothingExpanded(env, words[1..], split);
    }
  }

  // ----- The round trip -----

  /** What the quoted text becomes as one word, whatever the separators. */
  function Fielded(env: Env, value: string, split: bool): seq<string> {
    if split && '\'' in env.ifs then Cut(value, '\'') else [value]
  }

  lemma QuotedFields(env: Env, value: string, split: bool)
    requires !env.stopped
    ensures Assemble(env, ToParts(env, QuoteShell(value)), split) == Fielded(env, value, split)
  {
    hide QuoteShell, ToParts, Assemble, Cut;
    if split && '\'' in env.ifs {
      QuotedSplits(env, value);
    } else {
      QuotedAssembles(env, value, split);
    }
  }

  /** What expanding a quoted text gives: nothing on a stopped machine, and unless the scan misreads it
      the text, cut at its single quotes when those separate fields. */
  lemma ExpandQuoted(env: Env, value: string, split: bool)
    ensures env.stopped ==> ExpandWord(env, QuoteShell(value), split) == []
    ensures !env.stopped && !Misread(value) ==> ExpandWord(env, QuoteShell(value), split) == Fielded(env, value, split)
  {
    hide QuoteShell, BraceExpand, ToParts, Assemble, Fielded, Misread;
    if env.stopped {
      Quoted(value);
      WordsQuoted(QuoteShell(value), 0);
      NothingExpanded(env, BraceExpand(QuoteShell(value), 0), split);
    } else if !Misread(value) {
      OnlyWord(value);
      OneWord(env, QuoteShell(value), split);
      QuotedFields(env, value, split);
    }
  }

  lemma OnlyWord(value: string)
    requires !Misread(value)
    ensures BraceExpand(QuoteShell(value), 0) == [QuoteShell(value)]
  {
    hide QuoteShell, OpenBrace, CloseBrace, Alternatives, Combine;
  }

  /** A misread text never comes back: the first field holds fewer braces than the text. */
  lemma MisreadNeverReturns(env: Env, value: string, split: bool)
    requires !env.stopped && Misread(value)
    ensures var fields := ExpandWord(env, QuoteShell(value), split);
            fields != [] && Braces(fields[0]) < Braces(value)
  {
    hide QuoteShell, BraceExpand, ToParts, Assemble, Misread, Braces, Cut;
    var u := FirstWord(value, 0);
    QuotedFields(env, u, split);
    FirstPiece(u);
    assert Fielded(env, u, split)[0] == ExpandWord(env, QuoteShell(value), split)[0];
  }

  lemma {:induction false} FirstPiece(s: string)
    ensures Braces(Cut(s, '\'')[0]) <= Braces(s)
  {
    if s != "" {
      assert s == [s[0]] + s[1..];
      FirstPiece(s[1..]);
      BracesAdd([s[0]], s[1..]);
      BracesAdd([s[0]], Cut(s[1..], '\'')[0]);
    }
  }

  /** Expanding undoes quoting exactly when the machine runs, no single quote of the text separates
      fields, and the brace scan does not misread the quoted text. */
  lemma ExpandUndoesQuote(env: Env, value: string, split: bool)
    ensures ExpandWord(env, QuoteShell(value), split) == [value] <==>
            !env.stopped && !(split && '\'' in env.ifs && '\'' in value) && !Misread(value)
  {
    hide QuoteShell, ExpandWord, Cut, Misread, Braces;
    ExpandQuoted(env, value, split);
    CutOnce(value, '\'');
    if !env.stopped && Misread(value) {
      MisreadNeverReturns(env, value, split);
    }
  }

  /** Only a text with a backslash and a brace is ever misread. */
  lemma MisreadOnly(value: string)
    requires Misread(value)
    ensures '\\' in value && '{' in value
  {
    hide QuoteShell, Alternatives, Within, OpenBrace;
    var word := QuoteShell(value);
    Quoted(value);
    WithinBound(word, 1, value);
    ScanOpens(word);
    if '\\' !in value {
      NoBraceWithin(word, 1, value);
    }
    var x, w, z := MisreadParts(value);
    assert value[|x|] == '{';
  }

  lemma ScanOpens(word: string)
    requires word != "" && word[0] == '\''
    ensures OpenBrace(word, 0, None, false) == OpenBrace(word, 1, Some('\''), false)
  {
  }

  // ----- A text that does not come back -----

  /** A quoted text in which the brace scan, but not the unquoting, reads a backslash as an escape. */
  const Slipped: string := "\\'{a,b}"

  /** The quoted form of a backslash, a single quote and more text. */
  const Ahead: string := "'\\'\\''"

  lemma SlippedWord(s: string)
    requires '\'' !in s
    ensures QuoteShell("\\'" + s) == Ahead + s + "'"
  {
    hide Replace;
    TwoThen(s);
    NothingReplaced(s);
    assert "'" + ("\\'\\''" + s) + "'" == Ahead + s + "'";
  }

  /** The scan passes both quotes of the beginning as escaped and stands outside quotes behind it. */
  lemma AheadUnquoted(word: string)
    requires Ahead <= word
    ensures OpenBrace(word, 0, None, false) == OpenBrace(word, 6, None, false)
  {
    assert word[..6] == Ahead;
    assert word[0] == word[..6][0] && word[1] == word[..6][1] && word[2] == word[..6][2];
    assert word[3] == word[..6][3] && word[4] == word[..6][4] && word[5] == word[..6][5];
    ScanThree(word, 0, None);
    ScanThree(word, 3, Some('\''));
  }

  /** A single quote, a backslash and what it escapes. */
  lemma ScanThree(word: string, i: nat, quote: Option<char>)
    requires i + 3 <= |word| && (quote.None? || quote == Some('\''))
    requires if quote.None? then word[i] == '\'' && word[i + 1] == '\\' else word[i] == '\\' && word[i + 2] == '\''
    ensures OpenBrace(word, i, quote, false) == OpenBrace(word, i + 3, if quote.None? then Some('\'') else None, false)
  {
    if quote.None? {
      assert OpenBrace(word, i, quote, false) == OpenBrace(word, i + 1, Some('\''), false);
      assert OpenBrace(word, i + 1, Some('\''), false) == OpenBrace(word, i + 2, Some('\''), true);
    } else {
      assert OpenBrace(word, i, quote, false) == OpenBrace(word, i + 1, quote, true);
      assert OpenBrace(word, i + 1, quote, true) == OpenBrace(word, i + 2, quote, false);
    }
  }

  lemma SlippedBraces()
    ensures BraceExpand(Ahead + "{a,b}" + "'", 0) == [Ahead + "a" + "'", Ahead + "b" + "'"]
  {
    hide Combine, Alternatives, CloseBrace;
    var w := Ahead + "{a,b}" + "'";
    AheadUnquoted(w);
    assert OpenBrace(w, 6, None, false) == Some(6);
    SlippedClose(w);
    assert w[7..10] == "a,b" && w[..6] == Ahead && w[11..] == "'";
    SlippedChoices();
    SlippedCombined();
  }

  lemma SlippedClose(w: string)
    requires w == Ahead + "{a,b}" + "'"
    ensures CloseBrace(w, 7, 0) == Some(10)
  {
    assert CloseBrace(w, 10, 0) == Some(10);
    assert CloseBrace(w, 8, 0) == CloseBrace(w, 9, 0) == CloseBrace(w, 10, 0);
  }

  lemma {:induction false} NothingReplaced(s: string)
    requires '\'' !in s
    ensures Replace(s, '\'', "'\\''") == s
  {
    if s != "" {
      assert s == [s[0]] + s[1..];
      NothingReplaced(s[1..]);
    }
  }

  lemma TwoThen(s: string)
    ensures Replace("\\'" + s, '\'', "'\\''") == "\\'\\''" + Replace(s, '\'', "'\\''")
  {
    assert ("\\'" + s)[1..] == "'" + s && ("'" + s)[1..] == s;
    assert Replace("'" + s, '\'', "'\\''") == "'\\''" + Replace(s, '\'', "'\\''");
  }

  lemma SlippedChoices()
    ensures Alternatives("a,b") == ["a", "b"]
  {
    var s := "a,b";
    assert s[0..1] == "a" && s[2..] == "b";
    assert Commas(s, 3, 2, 0, ["a"]) == ["a", "b"];
    assert Commas(s, 0, 0, 0, []) == Commas(s, 1, 0, 0, []) == Commas(s, 2, 2, 0, [] + [s[0..1]]) ==
           Commas(s, 3, 2, 0, ["a"]);
  }

  /** A word a choice leads to holds no brace. */
  lemma NoBraceLeft(c: char)
    requires c == 'a' || c == 'b'
    ensures BraceExpand(Ahead + [c] + "'", 1) == [Ahead + [c] + "'"]
  {
    var w := Ahead + [c] + "'";
    AheadUnquoted(w);
    assert w[6] == c && w[7] == '\'' && |w| == 8;
    assert OpenBrace(w, 7, None, false) == OpenBrace(w, 8, Some('\''), false) == None;
    assert OpenBrace(w, 6, None, false) == OpenBrace(w, 7, None, false);
  }

  lemma SlippedCombined()
    ensures Combine(Ahead, ["a", "b"], "'", 0, []) == [Ahead + "a" + "'", Ahead + "b" + "'"]
  {
    hide BraceExpand;
    NoBraceLeft('a');
    NoBraceLeft('b');
    var x, y := Ahead + "a" + "'", Ahead + "b" + "'";
    assert ["a", "b"][1..] == ["b"] && ["b"][1..] == [];
    assert Combine(Ahead, ["b"][1..], "'", 0, [x] + [y]) == [x, y];
    assert Combine(Ahead, ["b"], "'", 0, [x]) == [x, y];
    assert [] + [x] == [x];
  }

  /** With a backslash in the text the law can fail: this text comes back as two fields. */
  lemma BackslashBreaksQuoting(env: Env)
    requires !env.stopped
    ensures ExpandWord(env, QuoteShell(Slipped), false) == ["\\'a", "\\'b"]
  {
    hide QuoteShell, BraceExpand, ToParts, Assemble, ExpandEach;
    assert Slipped == "\\'" + "{a,b}" && "\\'a" == "\\'" + "a" && "\\'b" == "\\'" + "b";
    SlippedWord("{a,b}");
    SlippedWord("a");
    SlippedWord("b");
    SlippedBraces();
    QuotedAssembles(env, "\\'a", false);
    QuotedAssembles(env, "\\'b", false);
    EachOfTwo(env, QuoteShell("\\'a"), QuoteShell("\\'b"));
  }

  lemma EachOfTwo(env: Env, x: string, y: string)
    ensures ExpandEach(env, [x, y], false) ==
            Assemble(env, ToParts(env, x), false) + Assemble(env, ToParts(env, y), false)
  {
    hide ToParts, Assemble;
    assert [x, y][1..] == [y] && [y][1..] == [];
    assert ExpandEach(env, [y][1..], false) == [];
    assert ExpandEach(env, [y], false) == Assemble(env, ToParts(env, y), false);
  }
}
