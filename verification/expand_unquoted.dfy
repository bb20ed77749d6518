// Arrays outside quotes: their elements become fields of their own.

module UnquotedArrays {
  import opened Basics
  import opened BraceExpansion
  import opened WordExpansion
  import opened ExpansionLaws
  import opened FieldSplitting
  import opened FieldLayout
  import R = WordReading

  lemma {:induction false} CharsBoth(x: string, y: string)
    ensures Chars(x + y) == Chars(x) + Chars(y)
    decreases |x|
  {
    if x == "" {
      assert x + y == y;
    } else {
      assert (x + y)[1..] == x[1..] + y;
      CharsBoth(x[1..], y);
    }
  }

  /** A text without separators, and not empty. */
  predicate Solid(ifs: string, word: string) {
    word != "" && forall c :: c in word ==> c !in ifs
  }

  lemma SolidAtoms(ifs: string, word: string)
    requires Solid(ifs, word)
    ensures Chars(word) != [] && (forall a :: a in Chars(word) ==> Inner(ifs, a)) && TextOf(Chars(word)) == word
  {
    CharsTidy(word);
    R.WholeRun(ifs, word);
    RunParts(ifs, Chars(word));
  }

  /** A field, a blank, and what follows. */
  lemma FoundFirst(ifs: string, word: string, rest: seq<Atom>)
    requires Solid(ifs, word) && ' ' in ifs && (rest != [] ==> Inner(ifs, rest[0]))
    ensures Found(ifs, Chars(word) + ([U(' ')] + rest)) == [word] + Found(ifs, rest)
  {
    hide TextOf, Run, Chars;
    SolidAtoms(ifs, word);
    var more := [U(' ')] + rest;
    var atoms := Chars(word) + more;
    assert atoms[0] == Chars(word)[0] && Chars(word)[0] in Chars(word);
    TrimmedNone(ifs, atoms);
    RunWord(ifs, Chars(word), more);
    assert atoms[|Chars(word)|..] == more;
    TrimGap(ifs, [U(' ')], rest);
    BehindIs(ifs, atoms);
  }

  lemma FoundOnly(ifs: string, word: string)
    requires Solid(ifs, word)
    ensures Found(ifs, Chars(word)) == [word]
  {
    R.FoundWhole(ifs, word);
  }

  lemma {:induction false} FoundJoined(ifs: string, words: seq<string>)
    requires ' ' in ifs && forall i :: 0 <= i < |words| ==> Solid(ifs, words[i])
    ensures Found(ifs, Chars(Join(words, " "))) == words
    ensures words != [] ==> words[0] != "" && Join(words, " ") != "" && Join(words, " ")[0] == words[0][0]
    decreases |words|
  {
    hide Found, Chars;
    if words == [] {
      R.NoChars();
      NothingFound(ifs);
    } else if |words| == 1 {
      FoundOnly(ifs, words[0]);
      assert words == [words[0]];
    } else {
      var rest := Join(words[1..], " ");
      FoundJoined(ifs, words[1..]);
      CharsBoth(words[0] + " ", rest);
      CharsBoth(words[0], " ");
      OneChar();
      assert Chars(words[0]) + [U(' ')] + Chars(rest) == Chars(words[0]) + ([U(' ')] + Chars(rest));
      FirstChar(rest);
      assert rest[0] == words[1][0] && words[1][0] in words[1];
      FoundFirst(ifs, words[0], Chars(rest));
      assert words == [words[0]] + words[1..];
    }
  }

  lemma OneChar()
    ensures Chars(" ") == [U(' ')]
  {
    assert " "[1..] == "";
    R.NoChars();
  }

  lemma FirstChar(text: string)
    requires text != ""
    ensures Chars(text) != [] && Chars(text)[0] == U(text[0])
  {
  }

  // ----- Words -----

  /** A character that only stands for itself, even at the start of a word. */
  predicate IsOrdinary(c: char) {
    !R.NeedsEscape(c) && c != '\'' && c != '{' && c != '~' && !R.IsPattern(c)
  }

  function Pieces(pre: string, values: seq<string>): seq<R.Piece> {
    if pre == "" then [R.Dollar("$@", Elements(values))] else [R.Plain(pre[0])] + Pieces(pre[1..], values)
  }

  lemma {:induction false} PiecesParts(env: Env, pre: string, buf: string)
    requires forall c :: c in pre ==> IsOrdinary(c)
    ensures R.Written(Pieces(pre, env.positional)) == pre + "$@" && R.AllRead(env, Pieces(pre, env.positional))
    ensures R.Means(env, Pieces(pre, env.positional), buf, false) ==
            Flushed([], Appended(buf + pre, Elements(env.positional)), false)
    decreases |pre|
  {
    var ps := Pieces(pre, env.positional);
    if pre == "" {
      assert ps[1..] == [] && R.Written([]) == "" && "$@" + "" == "$@" && buf + "" == buf;
      assert R.Means(env, [], Appended(buf, Elements(env.positional)), false) ==
             Flushed([], Appended(buf, Elements(env.positional)), false);
    } else {
      assert pre == [pre[0]] + pre[1..] && pre[0] in pre;
      assert ps[1..] == Pieces(pre[1..], env.positional);
      PiecesParts(env, pre[1..], buf + [pre[0]]);
      assert [pre[0]] + (pre[1..] + "$@") == pre + "$@" && buf + [pre[0]] + pre[1..] == buf + pre;
    }
  }

  lemma {:induction false} NoOpen(word: string, i: nat, quote: Option<char>, escaped: bool)
    requires i <= |word| && '{' !in word
    ensures OpenBrace(word, i, quote, escaped) == None
    decreases |word| - i
  {
    if i < |word| {
      NoOpen(word, i + 1, quote, false);
      NoOpen(word, i + 1, quote, true);
      NoOpen(word, i + 1, Quoting(quote, word[i]), false);
    }
  }

  /** The fields a text and an array give when a blank separates and none of them holds a separator. */
  function Spread(pre: string, words: seq<string>): seq<string> {
    (if pre == "" then [] else [pre]) + words
  }

  ghost predicate AllSolid(ifs: string, words: seq<string>) {
    forall i :: 0 <= i < |words| ==> Solid(ifs, words[i])
  }

  /** `$@` outside quotes, behind some text, where blanks separate: the text and every argument are a field each, in
      order, if and only if none of them is empty or holds a separator. */
  lemma ArgumentsSpreadExactly(env: Env, pre: string)
    requires !env.stopped && ' ' in env.ifs && forall c :: c in pre ==> IsOrdinary(c)
    ensures ExpandWord(env, pre + "$@", true) == Spread(pre, env.positional) <==>
            AllSolid(env.ifs, Spread(pre, env.positional))
  {
    hide ExpandWord, Found, Chars, Spread;
    ArgumentsAre(env, pre);
    if AllSolid(env.ifs, Spread(pre, env.positional)) {
      SpreadFound(env.ifs, pre, env.positional);
    } else {
      NotSpread(env.ifs, pre, env.positional);
    }
  }

  lemma ArgumentsAre(env: Env, pre: string)
    requires !env.stopped && forall c :: c in pre ==> IsOrdinary(c)
    ensures ExpandWord(env, pre + "$@", true) == Found(env.ifs, Chars(Appended(pre, Elements(env.positional))))
  {
    hide ExpandWord, Assemble, R.Means, R.Written, R.AllRead, OpenBrace, Found, Chars, Join;
    var ps := Pieces(pre, env.positional);
    var word := pre + "$@";
    PiecesParts(env, pre, "");
    assert "" + pre == pre;
    NoOpen(word, 0, None, false);
    assert !R.Tilde(word) by {
      if pre != "" {
        assert pre[0] in pre && word[0] == pre[0];
      }
    }
    R.WordsExpand(env, ps, true);
    var text := Appended(pre, Elements(env.positional));
    if text == "" {
      NothingAssembled(env, true);
      R.NoChars();
      NothingFound(env.ifs);
    } else {
      assert Flushed([], text, false) == [Part(text, false, false, false)];
      R.OnePart(env, text);
    }
  }

  lemma {:induction false} JoinedFrom(words: seq<string>, c: char)
    requires c in Join(words, " ") && c != ' '
    ensures exists i :: 0 <= i < |words| && c in words[i]
    decreases |words|
  {
    if |words| > 1 && c !in words[0] {
      assert Join(words, " ") == words[0] + " " + Join(words[1..], " ");
      JoinedFrom(words[1..], c);
      var i :| 0 <= i < |words[1..]| && c in words[1..][i];
      assert c in words[i + 1];
    } else if |words| >= 1 {
      assert c in words[0];
    }
  }

  lemma SpreadFrom(pre: string, words: seq<string>, c: char)
    requires c in Appended(pre, Elements(words)) && c != ' '
    ensures exists i :: 0 <= i < |Spread(pre, words)| && c in Spread(pre, words)[i]
  {
    hide Join;
    var fields := Spread(pre, words);
    if c in pre {
      assert fields[0] == pre;
    } else {
      JoinedFrom(words, c);
      var i :| 0 <= i < |words| && c in words[i];
      var n := if pre == "" then 0 else 1;
      assert fields[n + i] == words[i];
    }
  }

  /** Without other separators than blanks no field is empty. */
  lemma {:induction false} NoneEmpty(ifs: string, atoms: seq<Atom>)
    requires forall a :: a in atoms ==> a.U? && !Hard(ifs, a)
    ensures "" !in Found(ifs, atoms)
    decreases |atoms|
  {
    hide Trimmed, Run, Behind, TextOf;
    var rest := Trimmed(ifs, atoms);
    if rest != [] {
      TrimmedStart(ifs, atoms);
      R.TrimmedWithin(ifs, atoms);
      assert rest[0] in rest;
      RunParts(ifs, rest);
      SomeText(Run(ifs, rest));
      R.BehindWithin(ifs, rest);
      NoneEmpty(ifs, Behind(ifs, rest));
    }
  }

  lemma SomeText(run: seq<Atom>)
    requires run != [] && run[0].U?
    ensures TextOf(run) != ""
  {
  }

  lemma NotSpread(ifs: string, pre: string, words: seq<string>)
    requires ' ' in ifs && !AllSolid(ifs, Spread(pre, words))
    ensures Found(ifs, Chars(Appended(pre, Elements(words)))) != Spread(pre, words)
  {
    hide Found, Chars, Spread, Appended;
    var text, fields := Appended(pre, Elements(words)), Spread(pre, words);
    var atoms := Chars(text);
    CharsTidy(text);
    if i, c :| 0 <= i < |fields| && c in fields[i] && c in ifs {
      R.FoundFree(ifs, atoms);
      assert fields[i] in fields;
    } else {
      var i :| 0 <= i < |fields| && !Solid(ifs, fields[i]);
      assert fields[i] == "";
      forall a | a in atoms
        ensures a.U? && !Hard(ifs, a)
      {
        var k :| 0 <= k < |atoms| && atoms[k] == a;
        if text[k] != ' ' {
          SpreadFrom(pre, words, text[k]);
        }
      }
      NoneEmpty(ifs, atoms);
      assert fields[i] in fields;
    }
  }

  lemma SpreadFound(ifs: string, pre: string, words: seq<string>)
    requires ' ' in ifs && AllSolid(ifs, Spread(pre, words))
    ensures Found(ifs, Chars(Appended(pre, Elements(words)))) == Spread(pre, words)
  {
    hide Found, Chars, Join;
    var fields := Spread(pre, words);
    if pre == "" {
      assert fields == words && "" + Join(words, " ") == Join(words, " ");
      FoundJoined(ifs, words);
    } else {
      assert fields[0] == pre && Solid(ifs, pre) && fields[1..] == words;
      forall i | 0 <= i < |words|
        ensures Solid(ifs, words[i])
      {
        assert words[i] == fields[i + 1];
      }
      FoundJoined(ifs, words);
      CharsBoth(pre + " ", Join(words, " "));
      CharsBoth(pre, " ");
      OneChar();
      var rest := Chars(Join(words, " "));
      assert Chars(pre) + [U(' ')] + rest == Chars(pre) + ([U(' ')] + rest);
      if words == [] {
        NoneJoined();
        R.NoChars();
      } else {
        FirstChar(Join(words, " "));
        assert words[0][0] in words[0] && Solid(ifs, words[0]);
      }
      FoundFirst(ifs, pre, rest);
    }
  }

  lemma NoneJoined()
    ensures Join([], " ") == ""
  {
  }
}
