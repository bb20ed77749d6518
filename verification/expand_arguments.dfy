// Arrays inside double quotes: every element becomes one field, whatever it holds and whatever
// separates fields, and text around the array joins its first and its last element.

module ArgumentPassing {
  import opened Basics
  import opened BraceExpansion
  import opened WordExpansion
  import opened ExpansionLaws

  /** A text behind the last of several. */
  function Suffixed(texts: seq<string>, post: string): seq<string>
    requires texts != []
  {
    texts[..|texts| - 1] + [texts[|texts| - 1] + post]
  }

  /** The fields of an array between two texts. */
  function Around(pre: string, words: seq<string>, post: string): seq<string> {
    if words != [] then Suffixed([pre + words[0]] + words[1..], post)
    else if pre + post == "" then []
    else [pre + post]
  }

  // ----- The parts of the string -----

  /** Quoted parts each of which opens a field, the first as told. */
  function Opened(texts: seq<string>, first: bool): seq<Part> {
    if texts == [] then [] else [Part(texts[0], true, false, first)] + Opened(texts[1..], true)
  }

  lemma {:induction false} ElementsOpen(d: Splice, words: seq<string>, post: string, e: Splice)
    requires d.content && Grown(MoreElements(d, words), e, post)
    ensures SpliceParts(e) == d.parts + Opened(Suffixed([d.text] + words, post), d.opens)
    decreases |words|
  {
    if words == [] {
      assert Suffixed([d.text] + words, post) == [d.text + post];
      assert Opened([d.text + post], d.opens) == [Part(d.text + post, true, false, d.opens)];
    } else {
      var first := Part(d.text, true, false, d.opens);
      ElementsOpen(d.(parts := d.parts + [first], text := words[0], opens := true), words[1..], post, e);
      assert [words[0]] + words[1..] == words;
      var texts := Suffixed([d.text] + words, post);
      assert texts == [d.text] + Suffixed(words, post);
      assert texts[1..] == Suffixed(words, post);
      assert d.parts + [first] + Opened(Suffixed(words, post), true) ==
             d.parts + ([first] + Opened(Suffixed(words, post), true));
    }
  }

  lemma StringParts(pre: string, words: seq<string>, post: string, d: Splice, e: Splice)
    requires Grown(NoSplice, d, pre) && Grown(AddElements(d, words), e, post)
    ensures SpliceParts(e) == Opened(Around(pre, words, post), false)
  {
    assert "" + pre == pre;
    if words != [] {
      ElementsOpen(d.(text := d.text + words[0], content := true, spread := true), words[1..], post, e);
      assert [] + Opened(Around(pre, words, post), false) == Opened(Around(pre, words, post), false);
    } else if pre + post == "" {
      assert pre == "" && post == "";
    } else {
      assert e.text == pre + post;
      assert Opened([pre + post], false) == [Part(pre + post, true, false, false)];
    }
  }

  // ----- The fields -----

  lemma OpeningAdds(ifs: string, f: Fields, text: string, split: bool)
    requires f.started && !f.glob
    ensures AddPart(ifs, f, Part(text, true, false, true), split) ==
            Fields(f.done + [(f.open, false)], text, true, false, false)
  {
    assert "" + text == text;
  }

  lemma {:induction false} OpenedFields(ifs: string, f: Fields, texts: seq<string>, split: bool)
    requires f.started && !f.glob
    ensures Collected(AddParts(ifs, f, Opened(texts, true), split)) == f.done + Literal([f.open] + texts)
    decreases |texts|
  {
    hide AddPart;
    if texts == [] {
      assert Literal([f.open] + texts) == [(f.open, false)];
    } else {
      OpeningAdds(ifs, f, texts[0], split);
      var g := Fields(f.done + [(f.open, false)], texts[0], true, false, false);
      assert Opened(texts, true)[1..] == Opened(texts[1..], true);
      OpenedFields(ifs, g, texts[1..], split);
      assert [texts[0]] + texts[1..] == texts && ([f.open] + texts)[1..] == texts;
      assert f.done + [(f.open, false)] + Literal(texts) == f.done + ([(f.open, false)] + Literal(texts));
    }
  }

  lemma OpenedAssembles(env: Env, texts: seq<string>, split: bool)
    ensures Assemble(env, Opened(texts, false), split) == texts
  {
    hide AddPart, Globbed, Literal;
    var parts := Opened(texts, false);
    if texts != [] {
      QuotedAdds(env.ifs, NoFields, texts[0], split);
      assert "" + texts[0] == texts[0];
      assert parts[0] == Part(texts[0], true, false, false) && parts[1..] == Opened(texts[1..], true);
      OpenedFields(env.ifs, Fields([], texts[0], true, false, false), texts[1..], split);
      assert [texts[0]] + texts[1..] == texts && [] + Literal(texts) == Literal(texts);
    } else {
      NothingLiteral();
    }
    assert Collected(AddParts(env.ifs, NoFields, parts, split)) == Literal(texts);
    LiteralGlobs(env, texts, split);
  }

  lemma NothingLiteral()
    ensures Literal([]) == []
  {
  }

  // ----- The string itself -----

  /** A double-quoted string: some text, an array, more text. */
  function ArrayString(pre: string, form: string, post: string): string {
    "\"" + (Escape(pre) + (form + (Escape(post) + "\"")))
  }

  /** A `$` form that the brace scan passes inside double quotes. */
  predicate IsForm(form: string) {
    form != "" && form[0] == '$' && '"' !in form && '\\' !in form
  }

  lemma {:induction false} ScanForm(word: string, i: nat, form: string)
    requires i + |form| <= |word| && word[i..i + |form|] == form && '"' !in form && '\\' !in form
    ensures OpenBrace(word, i, Some('"'), false) == OpenBrace(word, i + |form|, Some('"'), false)
    decreases |form|
  {
    if form != "" {
      assert form == [form[0]] + form[1..] && word[i..i + |form|][0] == word[i];
      assert word[i + 1..i + |form|] == word[i..i + |form|][1..];
      ScanForm(word, i + 1, form[1..]);
    }
  }

  lemma StringInside(pre: string, form: string, post: string)
    ensures var word := ArrayString(pre, form, post);
            var i := 1 + |Escape(pre)|;
            && Inside(word, 1, pre, form + (Escape(post) + "\""))
            && i + |form| < |word| && word[i..] == form + (Escape(post) + "\"") && word[i..i + |form|] == form
            && Inside(word, i + |form|, post, "\"")
  {
    hide Escape;
    var word := ArrayString(pre, form, post);
    var i := 1 + |Escape(pre)|;
    var end := Escape(post) + "\"";
    assert word[1..] == Escape(pre) + (form + end);
    assert word[i..] == form + end;
    assert word[i + |form|..] == end;
  }

  lemma ArrayStringWhole(pre: string, form: string, post: string)
    requires IsForm(form)
    ensures BraceExpand(ArrayString(pre, form, post), 0) == [ArrayString(pre, form, post)]
  {
    hide Escape, Inside, OpenBrace, ArrayString;
    var word := ArrayString(pre, form, post);
    var i := 1 + |Escape(pre)|;
    StringInside(pre, form, post);
    StringEnds(pre, form, post);
    NoBraceInside(word, 1, pre, form + (Escape(post) + "\""));
    ScanForm(word, i, form);
    InsideBound(word, i + |form|, post, "\"");
    NoBraceInside(word, i + |form|, post, "\"");
    ScanString(word);
  }

  lemma StringEnds(pre: string, form: string, post: string)
    ensures var word := ArrayString(pre, form, post);
            |word| >= 2 && word[0] == '"' && word[|word| - 1..] == "\""
  {
  }

  lemma ArrayStringParts(env: Env, pre: string, form: string, post: string, words: seq<string>)
    returns (d: Splice, e: Splice)
    requires IsForm(form) && Plain(pre) && Plain(post) && !env.stopped
    requires Dollar(env, form + (Escape(post) + "\""), true) == (Elements(words), |form| - 1)
    ensures ToParts(env, ArrayString(pre, form, post)) == SpliceParts(e)
    ensures Grown(NoSplice, d, pre) && Grown(AddElements(d, words), e, post)
  {
    hide Escape, Inside, ArrayString, Double, Dollar, SpliceParts, AddElements, Grown;
    var word := ArrayString(pre, form, post);
    var i := 1 + |Escape(pre)|;
    StringInside(pre, form, post);
    StringEnds(pre, form, post);
    d := DoubleUndoesEscape(env, word, 1, pre, form + (Escape(post) + "\""), NoSplice);
    AtForm(env, word, i, |form|, words, d);
    InsideBound(word, i + |form|, post, "\"");
    e := DoubleUndoesEscape(env, word, i + |form|, post, "\"", AddElements(d, words));
    DoubleEnds(env, word, e);
    WholeString(env, word, e);
  }

  lemma AtForm(env: Env, word: string, i: nat, n: nat, words: seq<string>, d: Splice)
    requires !env.stopped && n > 0 && i + n <= |word| && word[i] == '$'
    requires Dollar(env, word[i..], true) == (Elements(words), n - 1)
    ensures Double(env, word, i, d) == Double(env, word, i + n, AddElements(d, words))
  {
    hide Dollar, AddElements;
  }

  // ----- What is promised -----

  /** Every array form between two texts in double quotes: each element is one field of its own, the
      texts stand at the outer ends, and a lone empty array is no field at all. */
  lemma ArrayExpands(env: Env, pre: string, form: string, post: string, words: seq<string>, split: bool)
    requires IsForm(form) && Plain(pre) && Plain(post) && !env.stopped
    requires Dollar(env, form + (Escape(post) + "\""), true) == (Elements(words), |form| - 1)
    ensures ExpandWord(env, ArrayString(pre, form, post), split) == Around(pre, words, post)
  {
    hide ArrayString, Dollar, SpliceParts, AddElements, Grown, Assemble, ToParts, BraceExpand, ExpandWord, Opened;
    var d, e := ArrayStringParts(env, pre, form, post, words);
    StringParts(pre, words, post, d, e);
    ArrayStringWhole(pre, form, post);
    OneWord(env, ArrayString(pre, form, post), split);
    OpenedAssembles(env, Around(pre, words, post), split);
  }

  /** `"$@"` passes the positional arguments on unchanged: as many, in order, none split or globbed. Only a
      stopped machine passes none. */
  lemma ArgumentsUnchanged(env: Env, split: bool)
    ensures ExpandWord(env, "\"$@\"", split) == if env.stopped then [] else env.positional
  {
    hide ExpandWord, BraceExpand, ToParts, Assemble;
    var word := "\"$@\"";
    assert word == ArrayString("", "$@", "");
    if env.stopped {
      ArrayStringWhole("", "$@", "");
      OneWord(env, word, split);
      StoppedParts(env, word);
      NothingAssembled(env, split);
    } else {
      var rest := "$@" + (Escape("") + "\"");
      assert rest[1] == '@';
      ArrayExpands(env, "", "$@", "", env.positional, split);
      AroundNothing(env.positional);
    }
  }

  lemma AroundNothing(words: seq<string>)
    ensures Around("", words, "") == words
  {
    if words != [] {
      assert "" + words[0] == words[0] && [words[0]] + words[1..] == words;
      var last := words[|words| - 1];
      assert last + "" == last;
    }
  }

  /** `"$*"` joins the arguments into one field, with the first separator between them, and with a blank when there
      is no separator. */
  lemma StarJoins(env: Env, split: bool)
    requires !env.stopped
    ensures ExpandWord(env, "\"$*\"", split) == [Join(env.positional, if env.ifs == "" then " " else env.ifs[..1])]
  {
    hide ExpandWord, Join;
    var joined := Join(env.positional, if env.ifs == "" then " " else env.ifs[..1]);
    assert "\"$*\"" == ArrayString("", "$*", "");
    var rest := "$*" + (Escape("") + "\"");
    assert rest[1] == '*';
    assert env.ifs != "" ==> env.ifs[..1] == [env.ifs[0]];
    ArrayExpands(env, "", "$*", "", [joined], split);
    AroundNothing([joined]);
  }

  lemma {:induction false} JoinLength(words: seq<string>, between: string)
    ensures |Join(words, between)| == |Join(words, "")| + (if words == [] then 0 else (|words| - 1) * |between|)
    decreases |words|
  {
    if |words| > 1 {
      JoinLength(words[1..], between);
      assert (|words| - 1) * |between| == |between| + (|words| - 2) * |between|;
    }
  }

  /** The arguments are joined with the first separator, or with nothing between them when there is none, if and only
      if there is a separator or nothing to join. */
  lemma StarExactly(env: Env, split: bool)
    requires !env.stopped
    ensures ExpandWord(env, "\"$*\"", split) == [Join(env.positional, if env.ifs == "" then "" else env.ifs[..1])] <==>
            env.ifs != "" || |env.positional| <= 1
  {
    hide ExpandWord;
    StarJoins(env, split);
    if env.ifs == "" {
      var blank, none := Join(env.positional, " "), Join(env.positional, "");
      JoinLength(env.positional, " ");
      assert [blank] == [none] <==> blank == none by { assert [blank][0] == blank && [none][0] == none; }
    }
  }

  /** Two arguments and no separator: a blank stands between them. */
  lemma StarKeepsBlank(env: Env, split: bool)
    requires !env.stopped && env.ifs == "" && env.positional == ["a", "b"]
    ensures ExpandWord(env, "\"$*\"", split) == ["a b"]
  {
    hide ExpandWord;
    StarJoins(env, split);
    assert env.positional[1..] == ["b"] && Join(["b"], " ") == "b";
    assert Join(env.positional, " ") == "a" + " " + "b" == "a b";
  }
}
