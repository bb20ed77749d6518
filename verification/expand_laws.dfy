// Laws of unquoting: a here-document without `$` and backquote expands to itself, and what a
// shell-quoted text is read as.

module ExpansionLaws {
  import opened Basics
  import opened BraceExpansion
  import opened WordExpansion

  // ----- Cutting and joining -----

  lemma {:induction false} JoinUndoesCut(s: string, c: char)
    ensures Join(Cut(s, c), [c]) == s
    ensures forall i :: 0 <= i < |Cut(s, c)| ==> c !in Cut(s, c)[i]
  {
    if s != "" {
      var rest := Cut(s[1..], c);
      JoinUndoesCut(s[1..], c);
      if s[0] == c {
        assert Cut(s, c)[1..] == rest;
      } else {
        assert Cut(s, c)[1..] == rest[1..];
        if |rest| > 1 {
          assert Join(Cut(s, c), [c]) == [s[0]] + rest[0] + [c] + Join(rest[1..], [c]);
          assert Join(rest, [c]) == rest[0] + [c] + Join(rest[1..], [c]);
          assert [s[0]] + (rest[0] + [c] + Join(rest[1..], [c])) == [s[0]] + rest[0] + [c] + Join(rest[1..], [c]);
        }
      }
    }
  }

  lemma {:induction false} CutKeeps(s: string, c: char, d: char)
    requires d !in s
    ensures forall i :: 0 <= i < |Cut(s, c)| ==> d !in Cut(s, c)[i]
  {
    if s != "" {
      assert s == [s[0]] + s[1..];
      CutKeeps(s[1..], c, d);
    }
  }

  // ----- A double-quoted line -----

  /** A line escaped for double quotes, character by character. */
  function Escape(line: string): string {
    if line == "" then "" else EscapeChar(line[0]) + Escape(line[1..])
  }

  function EscapeChar(c: char): string {
    if c == '\\' then "\\\\" else if c == '"' then "\\\"" else [c]
  }

  lemma {:induction false} ReplaceBoth(x: string, y: string, c: char, text: string)
    ensures Replace(x + y, c, text) == Replace(x, c, text) + Replace(y, c, text)
  {
    if x == "" {
      assert x + y == y;
    } else {
      assert (x + y)[1..] == x[1..] + y;
      ReplaceBoth(x[1..], y, c, text);
    }
  }

  /** The two replacements, one after the other, escape each character once. */
  lemma {:induction false} EscapedOnce(line: string)
    ensures Replace(Replace(line, '\\', "\\\\"), '"', "\\\"") == Escape(line)
  {
    if line != "" {
      var head := if line[0] == '\\' then "\\\\" else [line[0]];
      ReplaceBoth(head, Replace(line[1..], '\\', "\\\\"), '"', "\\\"");
      EscapedOnce(line[1..]);
      HeadEscaped(line[0]);
    }
  }

  lemma HeadEscaped(c: char)
    ensures Replace(if c == '\\' then "\\\\" else [c], '"', "\\\"") == EscapeChar(c)
  {
    if c == '\\' {
      assert "\\\\"[1..] == "\\" && "\\"[1..] == "";
      assert Replace("\\", '"', "\\\"") == "\\";
    } else {
      assert [c][1..] == "";
    }
  }

  /** The text `rest`, escaped, and then `tail` stand at `i`. */
  predicate Inside(word: string, i: nat, rest: string, tail: string) {
    i <= |word| && word[i..] == Escape(rest) + tail
  }

  lemma InsideStep(word: string, i: nat, rest: string, tail: string)
    requires Inside(word, i, rest, tail) && rest != ""
    ensures var k := |EscapeChar(rest[0])|;
            && i + k <= |word| && |Escape(rest)| == k + |Escape(rest[1..])| && Inside(word, i + k, rest[1..], tail)
            && (if rest[0] == '\\' || rest[0] == '"' then k == 2 && word[i] == '\\' && word[i + 1] == rest[0]
                else k == 1 && word[i] == rest[0])
  {
    hide Escape;
    var e, more := EscapeChar(rest[0]), Escape(rest[1..]);
    EscapeStep(rest);
    assert word[i..] == e + (more + tail) by {
      hide EscapeChar;
      assert e + more + tail == e + (more + tail);
    }
    Front(word, i, e, more + tail);
  }

  lemma EscapeStep(line: string)
    requires line != ""
    ensures Escape(line) == EscapeChar(line[0]) + Escape(line[1..])
  {
  }

  lemma Front(word: string, i: nat, head: string, rest: string)
    requires i <= |word| && word[i..] == head + rest
    ensures i + |head| <= |word| && word[i + |head|..] == rest
    ensures forall k :: 0 <= k < |head| ==> word[i + k] == head[k]
  {
    assert word[i..][|head|..] == rest;
    assert forall k :: 0 <= k < |head| ==> word[i..][k] == head[k];
  }

  lemma InsideBound(word: string, i: nat, rest: string, tail: string)
    requires Inside(word, i, rest, tail)
    ensures i + |Escape(rest)| + |tail| == |word| && word[i + |Escape(rest)|..] == tail
  {
    assert word[i..][|Escape(rest)|..] == tail;
  }

  /** The brace scan finds nothing in a text escaped for double quotes. */
  lemma {:induction false} NoBraceInside(word: string, i: nat, rest: string, tail: string)
    requires Inside(word, i, rest, tail) && i + |Escape(rest)| <= |word|
    ensures OpenBrace(word, i, Some('"'), false) == OpenBrace(word, i + |Escape(rest)|, Some('"'), false)
    decreases |rest|
  {
    hide Inside, EscapeChar;
    if rest != "" {
      InsideStep(word, i, rest, tail);
      NoBraceInside(word, i + |EscapeChar(rest[0])|, rest[1..], tail);
    }
  }

  predicate Plain(s: string) {
    '$' !in s && '`' !in s
  }

  /** The same string under construction with more text in its open part. */
  predicate Grown(d: Splice, e: Splice, text: string) {
    && e == d.(text := d.text + text, content := e.content)
    && (d.content ==> e.content) && (text == "" ==> e == d)
  }

  /** Unquoting undoes escaping, one character. */
  lemma DoubleStep(env: Env, word: string, i: nat, rest: string, tail: string, d: Splice) returns (e: Splice)
    requires Inside(word, i, rest, tail) && rest != "" && Plain(rest) && !env.stopped && i < |word|
    ensures i + |EscapeChar(rest[0])| <= |word| && Grown(d, e, [rest[0]])
    ensures Double(env, word, i, d) == Double(env, word, i + |EscapeChar(rest[0])|, e)
  {
    hide Inside, EscapeChar, Escape;
    InsideStep(word, i, rest, tail);
    e := d.(text := d.text + [rest[0]], content := d.content || |EscapeChar(rest[0])| == 1);
  }

  /** Unquoting undoes escaping. */
  lemma {:induction false} DoubleUndoesEscape(env: Env, word: string, i: nat, rest: string, tail: string, d: Splice)
    returns (e: Splice)
    requires Inside(word, i, rest, tail) && i + |Escape(rest)| <= |word| && Plain(rest) && !env.stopped
    ensures Double(env, word, i, d) == Double(env, word, i + |Escape(rest)|, e) && Grown(d, e, rest)
    decreases |rest|
  {
    hide Inside, EscapeChar, Double;
    if rest == "" {
      e := d;
      assert d.text + rest == d.text;
    } else {
      InsideStep(word, i, rest, tail);
      var more := DoubleStep(env, word, i, rest, tail, d);
      assert rest == [rest[0]] + rest[1..];
      e := DoubleUndoesEscape(env, word, i + |EscapeChar(rest[0])|, rest[1..], tail, more);
      assert d.text + [rest[0]] + rest[1..] == d.text + rest;
    }
  }

  lemma Wrapped(line: string)
    ensures var w := DoubleWrap(line); w != "" && w[0] == '"' && Inside(w, 1, line, "\"")
  {
    EscapedOnce(line);
    var w := DoubleWrap(line);
    assert w[1..] == Escape(line) + "\"";
  }

  lemma WrappedIsOneWord(line: string)
    ensures BraceExpand(DoubleWrap(line), 0) == [DoubleWrap(line)]
  {
    hide Inside, DoubleWrap, Escape;
    var w := DoubleWrap(line);
    Wrapped(line);
    InsideBound(w, 1, line, "\"");
    NoBraceInside(w, 1, line, "\"");
    ScanString(w);
  }

  /** A word that begins and ends with a double quote and hides no brace from its first to its last
      character is not split. */
  lemma ScanString(word: string)
    requires |word| >= 2 && word[0] == '"' && word[|word| - 1..] == "\""
    requires OpenBrace(word, 1, Some('"'), false) == OpenBrace(word, |word| - 1, Some('"'), false)
    ensures BraceExpand(word, 0) == [word]
  {
    hide OpenBrace;
    assert word[|word| - 1] == word[|word| - 1..][0];
    ScanDouble(word, 0, None);
    ScanDouble(word, |word| - 1, Some('"'));
    ScanEnd(word);
    NotSplit(word);
  }

  lemma ScanDouble(word: string, i: nat, quote: Option<char>)
    requires i < |word| && word[i] == '"'
    ensures OpenBrace(word, i, quote, false) == OpenBrace(word, i + 1, Quoting(quote, '"'), false)
  {
  }

  lemma ScanEnd(word: string)
    ensures OpenBrace(word, |word|, None, false) == None
  {
  }

  lemma NotSplit(word: string)
    requires OpenBrace(word, 0, None, false) == None
    ensures BraceExpand(word, 0) == [word]
  {
    hide OpenBrace, Combine, Alternatives;
  }

  /** A wrapped line without expansions is one quoted part. */
  lemma LineIsOnePart(env: Env, line: string)
    requires Plain(line) && !env.stopped
    ensures ToParts(env, DoubleWrap(line)) == [Part(line, true, false, false)]
  {
    hide Inside, DoubleWrap, Double, ToParts, Escape;
    var w := DoubleWrap(line);
    Wrapped(line);
    InsideBound(w, 1, line, "\"");
    var d := DoubleUndoesEscape(env, w, 1, line, "\"", NoSplice);
    assert "" + line == line;
    DoubleEnds(env, w, d);
    WholeString(env, w, d);
  }

  lemma DoubleEnds(env: Env, word: string, d: Splice)
    requires !env.stopped && word != "" && word[|word| - 1..] == "\""
    ensures Double(env, word, |word| - 1, d) == (d, |word|)
  {
    assert word[|word| - 1] == word[|word| - 1..][0];
  }

  /** A word that is one double-quoted string. */
  lemma WholeString(env: Env, word: string, d: Splice)
    requires !env.stopped && word != "" && word[0] == '"' && Double(env, word, 1, NoSplice) == (d, |word|)
    ensures ToParts(env, word) == SpliceParts(d)
  {
    hide Double, SpliceParts;
    assert Flushed([], "", false) + SpliceParts(d) == SpliceParts(d);
    PartsEnd(env, word, SpliceParts(d));
    assert Parts(env, word, 0, "", false, []) == Parts(env, word, |word|, "", false, SpliceParts(d));
  }

  lemma PartsEnd(env: Env, word: string, parts: seq<Part>)
    ensures Parts(env, word, |word|, "", false, parts) == parts
  {
  }

  lemma OneQuotedField(env: Env, text: string, split: bool)
    ensures Assemble(env, [Part(text, true, false, false)], split) == [text]
  {
    var parts := [Part(text, true, false, false)];
    assert parts[1..] == [];
    var f := AddPart(env.ifs, NoFields, parts[0], split);
    assert f == Fields([], text, true, false, false) by { assert "" + text == text; }
    assert AddParts(env.ifs, f, parts[1..], split) == f;
    assert AddParts(env.ifs, NoFields, parts, split) == f;
    assert Collected(f) == [(text, false)];
    OneField(env, text, split);
  }

  lemma OneField(env: Env, text: string, split: bool)
    ensures Globbed(env, [(text, false)], split) == [text]
  {
    assert Globbed(env, [(text, false)][1..], split) == [];
  }

  lemma OneWord(env: Env, word: string, split: bool)
    requires BraceExpand(word, 0) == [word]
    ensures ExpandWord(env, word, split) == Assemble(env, ToParts(env, word), split)
  {
    hide Assemble, ToParts, BraceExpand;
    assert ExpandEach(env, [word][1..], split) == [];
    assert Assemble(env, ToParts(env, word), split) + [] == Assemble(env, ToParts(env, word), split);
  }

  lemma LineExpands(env: Env, line: string)
    requires Plain(line) && !env.stopped
    ensures Join(ExpandWord(env, DoubleWrap(line), false), " ") == line
  {
    hide DoubleWrap, Assemble, BraceExpand, ToParts, ExpandWord;
    LineIsOnePart(env, line);
    WrappedIsOneWord(line);
    OneWord(env, DoubleWrap(line), false);
    OneQuotedField(env, line, false);
  }

  lemma {:induction false} LinesExpand(env: Env, lines: seq<string>)
    requires !env.stopped && forall i :: 0 <= i < |lines| ==> Plain(lines[i])
    ensures ExpandLines(env, lines) == lines
  {
    hide ExpandWord, DoubleWrap;
    if lines != [] {
      LineExpands(env, lines[0]);
      LinesExpand(env, lines[1..]);
    }
  }

  /** Here-document expansion is the identity on every body without `$` and backquote. */
  lemma HeredocIsItself(env: Env, body: string)
    requires Plain(body) && !env.stopped
    ensures ExpandHeredoc(env, body) == body
  {
    hide ExpandLines;
    CutKeeps(body, '\n', '$');
    CutKeeps(body, '\n', '`');
    LinesExpand(env, Cut(body, '\n'));
    JoinUndoesCut(body, '\n');
  }

  // ----- A stopped machine -----

  /** A stopped machine expands no character, so every line becomes empty. */
  lemma StoppedLine(env: Env, line: string)
    requires env.stopped
    ensures Join(ExpandWord(env, DoubleWrap(line), false), " ") == ""
  {
    hide DoubleWrap, BraceExpand, ExpandWord, ToParts, Assemble;
    var w := DoubleWrap(line);
    Wrapped(line);
    WrappedIsOneWord(line);
    OneWord(env, w, false);
    StoppedParts(env, w);
    NothingAssembled(env, false);
  }

  lemma StoppedParts(env: Env, word: string)
    requires env.stopped && word != "" && word[0] != '~'
    ensures ToParts(env, word) == []
  {
  }

  lemma NothingAssembled(env: Env, split: bool)
    ensures Assemble(env, [], split) == []
  {
  }

  lemma {:induction false} StoppedLines(env: Env, lines: seq<string>)
    requires env.stopped
    ensures |ExpandLines(env, lines)| == |lines| && forall i :: 0 <= i < |lines| ==> ExpandLines(env, lines)[i] == ""
  {
    hide ExpandWord, DoubleWrap;
    if lines != [] {
      StoppedLine(env, lines[0]);
      StoppedLines(env, lines[1..]);
    }
  }

  lemma {:induction false} JoinEmpty(pieces: seq<string>)
    requires |pieces| >= 1 && forall i :: 0 <= i < |pieces| ==> pieces[i] == ""
    ensures |Join(pieces, "\n")| == |pieces| - 1 && forall i :: 0 <= i < |Join(pieces, "\n")| ==>
              Join(pieces, "\n")[i] == '\n'
  {
    if |pieces| > 1 {
      JoinEmpty(pieces[1..]);
    }
  }

  lemma {:induction false} CutLength(s: string, c: char)
    requires forall i :: 0 <= i < |s| ==> s[i] == c
    ensures |Cut(s, c)| == |s| + 1
  {
    if s != "" {
      CutLength(s[1..], c);
    }
  }

  /** Exactly when a body without `$` and backquote is expanded to itself: the machine runs, or the body
      holds nothing but line ends. */
  lemma HeredocExactly(env: Env, body: string)
    requires Plain(body)
    ensures ExpandHeredoc(env, body) == body <==> !env.stopped || forall i :: 0 <= i < |body| ==> body[i] == '\n'
  {
    hide ExpandLines, Join, Cut;
    if !env.stopped {
      HeredocIsItself(env, body);
    } else {
      var lines := Cut(body, '\n');
      StoppedLines(env, lines);
      JoinEmpty(ExpandLines(env, lines));
      if forall i :: 0 <= i < |body| ==> body[i] == '\n' {
        CutLength(body, '\n');
      }
    }
  }

  // ----- Shell quoting -----

  /** A text with its single quotes replaced, and the closing quote, stand at `i`. */
  predicate Within(word: string, i: nat, rest: string) {
    i <= |word| && word[i..] == Replace(rest, '\'', "'\\''") + "'"
  }

  /** What stands at `i` when a quoted text goes on, and where it goes on. */
  lemma WithinStep(word: string, i: nat, rest: string)
    requires Within(word, i, rest) && rest != ""
    ensures if rest[0] == '\'' then i + 4 < |word| && word[i..i + 4] == "'\\''" && Within(word, i + 4, rest[1..])
            else i + 1 < |word| && word[i] == rest[0] && Within(word, i + 1, rest[1..])
  {
    var head := if rest[0] == '\'' then "'\\''" else [rest[0]];
    var tail := Replace(rest[1..], '\'', "'\\''") + "'";
    assert word[i..] == head + tail;
    assert word[i..][..|head|] == head && word[i..][|head|..] == tail;
    assert word[i..][|head|..] == word[i + |head|..] && word[i..][0] == word[i];
    assert word[i..][..|head|] == word[i..i + |head|];
  }

  lemma WithinEnd(word: string, i: nat)
    requires Within(word, i, "")
    ensures i + 1 == |word| && word[i] == '\''
  {
    assert word[i..] == "'";
    assert word[i..][0] == word[i];
  }

  /** The brace scan over a quoted single quote: out of the quotes, past the escape, in again. */
  lemma ScanQuoteMark(word: string, i: nat)
    requires i + 4 < |word| && word[i..i + 4] == "'\\''"
    ensures OpenBrace(word, i, Some('\''), false) == OpenBrace(word, i + 4, Some('\''), false)
  {
    var mark := word[i..i + 4];
    assert mark[0] == word[i] && mark[1] == word[i + 1] && mark[2] == word[i + 2] && mark[3] == word[i + 3];
    assert word[i] == '\'' && word[i + 1] == '\\' && word[i + 2] == '\'' && word[i + 3] == '\'';
    assert OpenBrace(word, i, Some('\''), false) == OpenBrace(word, i + 1, None, false);
    assert OpenBrace(word, i + 1, None, false) == OpenBrace(word, i + 2, None, true);
    assert OpenBrace(word, i + 2, None, true) == OpenBrace(word, i + 3, None, false);
  }

  /** The brace scan finds nothing in a quoted text without backslashes. */
  lemma {:induction false} NoBraceWithin(word: string, i: nat, rest: string)
    requires Within(word, i, rest) && '\\' !in rest
    ensures OpenBrace(word, i, Some('\''), false) == None
    decreases |rest|
  {
    hide Within;
    if rest == "" {
      WithinEnd(word, i);
    } else {
      WithinStep(word, i, rest);
      if rest[0] == '\'' {
        ScanQuoteMark(word, i);
        NoBraceWithin(word, i + 4, rest[1..]);
      } else {
        NoBraceWithin(word, i + 1, rest[1..]);
      }
    }
  }

  lemma Quoted(value: string)
    ensures var w := QuoteShell(value); w != "" && w[0] == '\'' && Within(w, 1, value)
  {
    var w := QuoteShell(value);
    assert w[1..] == Replace(value, '\'', "'\\''") + "'";
  }

  /** The parts of a quoted text: its pieces between single quotes, each quoted, and the quotes between
      them, unquoted. */
  function Between(pieces: seq<string>): seq<Part> {
    if pieces == [] then []
    else if |pieces| == 1 then [Part(pieces[0], true, false, false)]
    else [Part(pieces[0], true, false, false), Part("'", false, false, false)] + Between(pieces[1..])
  }

  /** The quoted form of pieces that hold no single quote, from behind the opening quote on. */
  function Glue(pieces: seq<string>): string
    requires |pieces| >= 1
  {
    if |pieces| == 1 then pieces[0] + "'" else pieces[0] + ("'\\''" + Glue(pieces[1..]))
  }

  lemma {:induction false} GlueIsQuoted(value: string)
    ensures Replace(value, '\'', "'\\''") + "'" == Glue(Cut(value, '\''))
  {
    if value != "" {
      var rest := Cut(value[1..], '\'');
      GlueIsQuoted(value[1..]);
      if value[0] == '\'' {
        assert Cut(value, '\'')[1..] == rest;
        assert Replace(value, '\'', "'\\''") + "'" == "'\\''" + (Replace(value[1..], '\'', "'\\''") + "'");
        assert "" + ("'\\''" + Glue(rest)) == "'\\''" + Glue(rest);
      } else {
        assert Cut(value, '\'')[1..] == rest[1..];
        assert Replace(value, '\'', "'\\''") + "'" == [value[0]] + (Replace(value[1..], '\'', "'\\''") + "'");
        GlueHead(value[0], rest);
      }
    }
  }

  lemma GlueHead(c: char, pieces: seq<string>)
    requires |pieces| >= 1
    ensures Glue([[c] + pieces[0]] + pieces[1..]) == [c] + Glue(pieces)
  {
    assert ([[c] + pieces[0]] + pieces[1..])[1..] == pieces[1..];
  }

  /** The next quote behind a piece without one. */
  lemma {:induction false} FindEnd(word: string, i: nat, piece: string, rest: string)
    requires i <= |word| && word[i..] == piece + rest && rest != "" && rest[0] == '\'' && '\'' !in piece
    ensures Find(word, i, '\'') == i + |piece|
    decreases |piece|
  {
    if piece == "" {
      assert word[i..][0] == word[i];
    } else {
      assert piece == [piece[0]] + piece[1..];
      assert word[i..][0] == word[i];
      assert word[i + 1..] == word[i..][1..] == piece[1..] + rest;
      FindEnd(word, i + 1, piece[1..], rest);
    }
  }

  /** A quoted word from an opening quote on. */
  predicate Opens(word: string, i: nat, pieces: seq<string>) {
    && i < |word| && word[i] == '\'' && |pieces| >= 1 && word[i + 1..] == Glue(pieces)
    && (forall k :: 0 <= k < |pieces| ==> '\'' !in pieces[k])
  }

  /** The piece behind an opening quote. */
  lemma OpensPiece(word: string, i: nat, pieces: seq<string>)
    requires Opens(word, i, pieces)
    ensures var end := i + 1 + |pieces[0]|;
            && end < |word| && Find(word, i + 1, '\'') == end && word[i + 1..end] == pieces[0]
            && (|pieces| == 1 ==> end + 1 == |word|)
  {
    var rest := if |pieces| == 1 then "'" else "'\\''" + Glue(pieces[1..]);
    assert word[i + 1..] == pieces[0] + rest;
    FindEnd(word, i + 1, pieces[0], rest);
    assert word[i + 1..][..|pieces[0]|] == pieces[0];
  }

  /** What follows a piece that is not the last: an escaped quote and the next opening quote. */
  lemma OpensNext(word: string, i: nat, pieces: seq<string>)
    requires Opens(word, i, pieces) && |pieces| > 1
    ensures var end := i + 1 + |pieces[0]|;
            end + 4 < |word| && word[end + 1] == '\\' && word[end + 2] == '\'' && Opens(word, end + 3, pieces[1..])
  {
    var end := i + 1 + |pieces[0]|;
    var rest := "'\\''" + Glue(pieces[1..]);
    GlueNonempty(pieces[1..]);
    assert word[i + 1..][|pieces[0]|..] == rest;
    assert word[end..] == word[i + 1..][|pieces[0]|..];
    assert word[end..][1] == word[end + 1] && word[end..][2] == word[end + 2] && word[end..][3] == word[end + 3];
    assert word[end..][4..] == word[end + 4..] && rest[4..] == Glue(pieces[1..]);
  }

  lemma GlueNonempty(pieces: seq<string>)
    requires |pieces| >= 1
    ensures |Glue(pieces)| > 0
  {
  }

  /** One quoted piece of a word. */
  lemma QuotedPiece(env: Env, word: string, i: nat, piece: string, buf: string, parts: seq<Part>)
    requires !env.stopped && i < |word| && word[i] == '\''
    requires var end := i + 1 + |piece|; end < |word| && Find(word, i + 1, '\'') == end && word[i + 1..end] == piece
    ensures Parts(env, word, i, buf, false, parts) ==
            Parts(env, word, i + 2 + |piece|, "", false, Flushed(parts, buf, false) + [Part(piece, true, false, false)])
  {
  }

  /** The parts read from an opening quote on. */
  lemma {:induction false} PartsOfQuoted(env: Env, word: string, i: nat, pieces: seq<string>, buf: string,
                                         parts: seq<Part>)
    requires Opens(word, i, pieces) && !env.stopped
    ensures Parts(env, word, i, buf, false, parts) == Flushed(parts, buf, false) + Between(pieces)
    decreases |pieces|
  {
    hide Opens, Glue, Parts, Find;
    OpensPiece(word, i, pieces);
    OpensAt(word, i, pieces);
    QuotedPiece(env, word, i, pieces[0], buf, parts);
    var end := i + 1 + |pieces[0]|;
    var piece := Part(pieces[0], true, false, false);
    var so := Flushed(parts, buf, false) + [piece];
    if |pieces| == 1 {
      PartsEnd(env, word, so);
    } else {
      OpensNext(word, i, pieces);
      EscapedMark(env, word, end + 1, so);
      PartsOfQuoted(env, word, end + 3, pieces[1..], "'", so);
      assert Flushed(so, "'", false) + Between(pieces[1..]) ==
             Flushed(parts, buf, false) + ([piece, Part("'", false, false, false)] + Between(pieces[1..]));
    }
  }

  lemma OpensAt(word: string, i: nat, pieces: seq<string>)
    requires Opens(word, i, pieces)
    ensures i < |word| && word[i] == '\'' && |pieces| >= 1
  {
  }

  lemma EscapedMark(env: Env, word: string, i: nat, parts: seq<Part>)
    requires i + 2 < |word| && word[i] == '\\' && word[i + 1] == '\'' && !env.stopped
    ensures Parts(env, word, i, "", false, parts) == Parts(env, word, i + 2, "'", false, parts)
  {
    assert "" + [word[i + 1]] == "'";
  }

  lemma QuotedOpens(value: string)
    ensures Opens(QuoteShell(value), 0, Cut(value, '\''))
  {
    var w := QuoteShell(value);
    GlueIsQuoted(value);
    JoinUndoesCut(value, '\'');
    assert w[1..] == Replace(value, '\'', "'\\''") + "'";
  }

  /** A quoted text is read as alternating quoted and unquoted parts, whatever it holds. */
  lemma QuotedParts(env: Env, value: string)
    requires !env.stopped
    ensures ToParts(env, QuoteShell(value)) == Between(Cut(value, '\''))
  {
    hide QuoteShell, Within, Opens, Parts;
    var w := QuoteShell(value);
    Quoted(value);
    QuotedOpens(value);
    PartsOfQuoted(env, w, 0, Cut(value, '\''), "", []);
    assert Flushed([], "", false) + Between(Cut(value, '\'')) == Between(Cut(value, '\''));
  }

  lemma WithinBound(word: string, i: nat, rest: string)
    requires Within(word, i, rest)
    ensures i <= |word|
  {
  }

  // ----- Assembling the parts -----

  /** With no quote among the delimiters the parts join into one field. */
  lemma {:induction false} PartsJoin(ifs: string, f: Fields, pieces: seq<string>, split: bool)
    requires '\'' !in ifs || !split
    ensures pieces != [] ==>
              AddParts(ifs, f, Between(pieces), split) ==
              Fields(f.done, f.open + Join(pieces, "'"), true, f.glob, false)
    decreases |pieces|
  {
    hide AddPart;
    if |pieces| >= 1 {
      var piece := Part(pieces[0], true, false, false);
      QuotedAdds(ifs, f, pieces[0], split);
      var g := AddPart(ifs, f, piece, split);
      if |pieces| == 1 {
        AddLast(ifs, f, piece, split);
      } else {
        MarkAdds(ifs, g, split);
        var h := AddPart(ifs, g, Part("'", false, false, false), split);
        AddTwo(ifs, f, piece, Part("'", false, false, false), Between(pieces[1..]), split);
        PartsJoin(ifs, h, pieces[1..], split);
        assert f.open + pieces[0] + "'" + Join(pieces[1..], "'") == f.open + (pieces[0] + "'" + Join(pieces[1..], "'"));
      }
    }
  }

  lemma QuotedAdds(ifs: string, f: Fields, text: string, split: bool)
    ensures AddPart(ifs, f, Part(text, true, false, false), split) == Fields(f.done, f.open + text, true, f.glob, false)
  {
  }

  lemma MarkAdds(ifs: string, f: Fields, split: bool)
    requires f.started && !f.afterBlank && ('\'' !in ifs || !split)
    ensures AddPart(ifs, f, Part("'", false, false, false), split) == Fields(f.done, f.open + "'", true, f.glob, false)
  {
    assert "'"[1..] == "";
    assert SplitText(ifs, SplitChar(ifs, f, '\''), "'"[1..]) == SplitChar(ifs, f, '\'');
  }

  lemma AddLast(ifs: string, f: Fields, p: Part, split: bool)
    ensures AddParts(ifs, f, [p], split) == AddPart(ifs, f, p, split)
  {
    hide AddPart;
    assert AddParts(ifs, AddPart(ifs, f, p, split), [p][1..], split) == AddPart(ifs, f, p, split);
  }

  lemma AddTwo(ifs: string, f: Fields, p: Part, q: Part, rest: seq<Part>, split: bool)
    ensures AddParts(ifs, f, [p, q] + rest, split) ==
            AddParts(ifs, AddPart(ifs, AddPart(ifs, f, p, split), q, split), rest, split)
  {
    hide AddPart;
    var all := [p, q] + rest;
    assert all[1..] == [q] + rest && all[1..][1..] == rest;
    assert AddParts(ifs, f, all, split) == AddParts(ifs, AddPart(ifs, f, p, split), all[1..], split);
  }

  lemma OneResult(env: Env, text: string, split: bool)
    ensures Globbed(env, Collected(Fields([], text, true, false, false)), split) == [text]
  {
    assert Collected(Fields([], text, true, false, false)) == [(text, false)];
    OneField(env, text, split);
  }

  /** The parts of a quoted text assemble to the text. */
  lemma QuotedAssembles(env: Env, value: string, split: bool)
    requires !env.stopped && ('\'' !in env.ifs || !split)
    ensures Assemble(env, ToParts(env, QuoteShell(value)), split) == [value]
  {
    hide QuoteShell, ToParts, AddParts, Globbed, Between;
    QuotedParts(env, value);
    PartsJoin(env.ifs, NoFields, Cut(value, '\''), split);
    JoinUndoesCut(value, '\'');
    assert "" + value == value;
    OneResult(env, value, split);
  }

  // ----- With the single quote among the separators -----

  /** Finished fields that are no patterns. */
  function Literal(pieces: seq<string>): seq<(string, bool)> {
    if pieces == [] then [] else [(pieces[0], false)] + Literal(pieces[1..])
  }

  lemma MarkSplits(ifs: string, f: Fields)
    requires f.started && '\'' in ifs
    ensures AddPart(ifs, f, Part("'", false, false, false), true) == Fields(f.done + [(f.open, f.glob)], "", false,
                                                                            false, false)
  {
    assert "'"[1..] == "";
    assert SplitText(ifs, SplitChar(ifs, f, '\''), "'"[1..]) == SplitChar(ifs, f, '\'');
  }

  /** Every single quote ends a field. */
  lemma {:induction false} PartsSplit(ifs: string, f: Fields, pieces: seq<string>)
    requires '\'' in ifs && f.open == "" && !f.glob && |pieces| >= 1
    ensures Collected(AddParts(ifs, f, Between(pieces), true)) == f.done + Literal(pieces)
    decreases |pieces|
  {
    hide AddPart;
    var piece, mark := Part(pieces[0], true, false, false), Part("'", false, false, false);
    QuotedAdds(ifs, f, pieces[0], true);
    assert "" + pieces[0] == pieces[0];
    if |pieces| == 1 {
      AddLast(ifs, f, piece, true);
      assert Literal(pieces[1..]) == [];
    } else {
      var g := AddPart(ifs, f, piece, true);
      MarkSplits(ifs, g);
      AddTwo(ifs, f, piece, mark, Between(pieces[1..]), true);
      PartsSplit(ifs, AddPart(ifs, g, mark, true), pieces[1..]);
      assert f.done + [(pieces[0], false)] + Literal(pieces[1..]) ==
             f.done + ([(pieces[0], false)] + Literal(pieces[1..]));
    }
  }

  lemma {:induction false} LiteralGlobs(env: Env, pieces: seq<string>, split: bool)
    ensures Globbed(env, Literal(pieces), split) == pieces
  {
    if pieces != [] {
      assert Literal(pieces)[1..] == Literal(pieces[1..]);
      LiteralGlobs(env, pieces[1..], split);
    }
  }

  lemma QuotedSplits(env: Env, value: string)
    requires !env.stopped && '\'' in env.ifs
    ensures Assemble(env, ToParts(env, QuoteShell(value)), true) == Cut(value, '\'')
  {
    hide QuoteShell, ToParts, AddParts, Globbed, Between, Literal;
    QuotedParts(env, value);
    PartsSplit(env.ifs, NoFields, Cut(value, '\''));
    assert NoFields.done + Literal(Cut(value, '\'')) == Literal(Cut(value, '\''));
    LiteralGlobs(env, Cut(value, '\''), true);
  }

  lemma {:induction false} CutOnce(s: string, c: char)
    ensures Cut(s, c) == [s] <==> c !in s
    ensures c in s ==> |Cut(s, c)| > 1
  {
    if s != "" {
      assert s == [s[0]] + s[1..];
      CutOnce(s[1..], c);
    }
  }
}
