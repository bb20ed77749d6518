// Fields when only blanks separate: they are the longest runs of everything else. And the one case in which the
// code departs from the rule for other separators.

module FieldLayout {
  import opened WordExpansion
  import opened ExpansionLaws
  import opened FieldSplitting

  /** Words with gaps before, between and behind them. */
  function Laid(gaps: seq<seq<Atom>>, words: seq<seq<Atom>>): seq<Atom>
    requires |gaps| == |words| + 1
  {
    if words == [] then gaps[0] else gaps[0] + (words[0] + Laid(gaps[1..], words[1..]))
  }

  /** Words of quoted text and other characters, gaps of blanks; a gap is empty only at the outer ends. */
  ghost predicate Apart(ifs: string, gaps: seq<seq<Atom>>, words: seq<seq<Atom>>, outer: bool)
    decreases |words|
  {
    && |gaps| == |words| + 1 && (forall a :: a in gaps[0] ==> Soft(ifs, a))
    && (words != [] ==>
          && (gaps[0] == [] ==> outer) && words[0] != [] && (forall a :: a in words[0] ==> Inner(ifs, a))
          && Apart(ifs, gaps[1..], words[1..], false))
  }

  predicate AllBlank(ifs: string) {
    forall c :: c in ifs ==> IsBlank(c)
  }

  function WordTexts(words: seq<seq<Atom>>): (r: seq<string>)
    ensures |r| == |words|
  {
    if words == [] then [] else [TextOf(words[0])] + WordTexts(words[1..])
  }

  lemma {:induction false} TrimGap(ifs: string, gap: seq<Atom>, rest: seq<Atom>)
    requires (forall a :: a in gap ==> Soft(ifs, a)) && (rest != [] ==> Inner(ifs, rest[0]))
    ensures Trimmed(ifs, gap + rest) == rest
    decreases |gap|
  {
    if gap == [] {
      assert gap + rest == rest;
    } else {
      assert (gap + rest)[0] == gap[0] && gap[0] in gap && (gap + rest)[1..] == gap[1..] + rest;
      TrimGap(ifs, gap[1..], rest);
    }
  }

  lemma {:induction false} RunWord(ifs: string, word: seq<Atom>, rest: seq<Atom>)
    requires (forall a :: a in word ==> Inner(ifs, a)) && (rest != [] ==> !Inner(ifs, rest[0]))
    ensures Run(ifs, word + rest) == word
    decreases |word|
  {
    if word == [] {
      assert word + rest == rest;
    } else {
      assert (word + rest)[0] == word[0] && word[0] in word && (word + rest)[1..] == word[1..] + rest;
      RunWord(ifs, word[1..], rest);
      assert word == [word[0]] + word[1..];
    }
  }

  lemma {:induction false} TrimmedAgain(ifs: string, atoms: seq<Atom>)
    ensures Trimmed(ifs, Trimmed(ifs, atoms)) == Trimmed(ifs, atoms)
    decreases |atoms|
  {
    if atoms != [] && Soft(ifs, atoms[0]) {
      TrimmedAgain(ifs, atoms[1..]);
    }
  }

  /** With blanks only, the delimiter is trimmed away either way. */
  lemma BehindBlank(ifs: string, atoms: seq<Atom>)
    requires AllBlank(ifs) && atoms != [] && Inner(ifs, atoms[0])
    ensures FieldsOf(ifs, Behind(ifs, atoms)) == FieldsOf(ifs, atoms[|Run(ifs, atoms)|..])
  {
    hide Run, TextOf;
    var tail := atoms[|Run(ifs, atoms)|..];
    TrimmedAgain(ifs, tail);
    assert Behind(ifs, atoms) == Trimmed(ifs, tail);
  }

  lemma LaidStart(ifs: string, gaps: seq<seq<Atom>>, words: seq<seq<Atom>>)
    requires Apart(ifs, gaps, words, false)
    ensures Laid(gaps, words) != [] ==> !Inner(ifs, Laid(gaps, words)[0])
  {
    if gaps[0] != [] {
      assert gaps[0][0] in gaps[0];
    }
  }

  lemma {:induction false} LaidFields(ifs: string, gaps: seq<seq<Atom>>, words: seq<seq<Atom>>, outer: bool)
    requires AllBlank(ifs) && Apart(ifs, gaps, words, outer)
    ensures FieldsOf(ifs, Laid(gaps, words)) == WordTexts(words)
    decreases |words|
  {
    hide Trimmed, Run, Behind, TextOf, Inner, Soft;
    if words == [] {
      TrimGap(ifs, gaps[0], []);
      assert gaps[0] + [] == gaps[0];
    } else {
      var more := Laid(gaps[1..], words[1..]);
      var rest := words[0] + more;
      assert rest[0] == words[0][0] && words[0][0] in words[0];
      TrimGap(ifs, gaps[0], rest);
      LaidStart(ifs, gaps[1..], words[1..]);
      RunWord(ifs, words[0], more);
      BehindBlank(ifs, rest);
      assert rest[|words[0]|..] == more;
      LaidFields(ifs, gaps[1..], words[1..], false);
    }
  }

  lemma {:induction false} TrimmedParts(ifs: string, atoms: seq<Atom>) returns (gap: seq<Atom>)
    ensures atoms == gap + Trimmed(ifs, atoms) && (forall a :: a in gap ==> Soft(ifs, a))
    ensures atoms != [] && Soft(ifs, atoms[0]) ==> gap != []
    decreases |atoms|
  {
    gap := [];
    if atoms != [] && Soft(ifs, atoms[0]) {
      gap := TrimmedParts(ifs, atoms[1..]);
      gap := [atoms[0]] + gap;
    }
  }

  /** Everything is laid out from its fields. */
  lemma {:induction false} AtomsAreLaid(ifs: string, atoms: seq<Atom>, outer: bool)
    returns (gaps: seq<seq<Atom>>, words: seq<seq<Atom>>)
    requires AllBlank(ifs) && (outer || atoms == [] || !Inner(ifs, atoms[0]))
    ensures |gaps| == |words| + 1 && Apart(ifs, gaps, words, outer) && Laid(gaps, words) == atoms
    ensures WordTexts(words) == FieldsOf(ifs, atoms)
    decreases |atoms|
  {
    hide Trimmed, Run, Behind, TextOf;
    var gap := TrimmedParts(ifs, atoms);
    var rest := Trimmed(ifs, atoms);
    TrimmedStart(ifs, atoms);
    if rest == [] {
      gaps, words := [atoms], [];
    } else {
      var run := Run(ifs, rest);
      var tail := rest[|run|..];
      RunParts(ifs, rest);
      assert rest == run + tail;
      BehindBlank(ifs, rest);
      var moreGaps, moreWords := AtomsAreLaid(ifs, tail, false);
      gaps, words := [gap] + moreGaps, [run] + moreWords;
      assert gaps[1..] == moreGaps && words[1..] == moreWords;
    }
  }

  lemma NoOrphans(ifs: string, atoms: seq<Atom>)
    requires AllBlank(ifs)
    ensures !OrphanFrom(ifs, atoms, 0)
  {
  }

  ghost predicate LaidIs(gaps: seq<seq<Atom>>, words: seq<seq<Atom>>, atoms: seq<Atom>) {
    |gaps| == |words| + 1 && Laid(gaps, words) == atoms
  }

  /** When all separators are blanks, the fields are the longest runs of quoted text and other characters: laid out
      with blanks around them they give what was split, and no other words do. */
  lemma BlanksSplit(ifs: string, parts: seq<Part>, split: bool) returns (gaps: seq<seq<Atom>>, words: seq<seq<Atom>>)
    requires AllBlank(ifs) && Ordinary(parts)
    ensures var fields := Texts(Collected(AddParts(ifs, NoFields, parts, split)));
            Apart(ifs, gaps, words, true) && LaidIs(gaps, words, AllAtoms(parts, split)) && WordTexts(words) == fields
    ensures var fields := Texts(Collected(AddParts(ifs, NoFields, parts, split)));
            forall others, runs :: Apart(ifs, others, runs, true) && LaidIs(others, runs, AllAtoms(parts, split)) ==>
              WordTexts(runs) == fields
  {
    hide AddParts, OrphanFrom, FieldsOf, Apart, Laid, Collected, Texts, AllAtoms;
    var atoms := AllAtoms(parts, split);
    AssemblesExactly(ifs, parts, split);
    NoOrphans(ifs, atoms);
    gaps, words := AtomsAreLaid(ifs, atoms, true);
    forall others, runs | Apart(ifs, others, runs, true) && LaidIs(others, runs, atoms)
      ensures WordTexts(runs) == FieldsOf(ifs, atoms)
    {
      LaidFields(ifs, others, runs, true);
    }
  }

  // ----- The case in which the code departs -----

  lemma HardField(ifs: string, atoms: seq<Atom>, n: nat)
    requires n < |atoms| && Hard(ifs, atoms[n]) && Trimmed(ifs, atoms) == atoms[n..]
    ensures FieldsOf(ifs, atoms) == [""] + FieldsOf(ifs, atoms[n + 1..])
    ensures Found(ifs, atoms) == (if n > 0 then [] else [""]) + Found(ifs, atoms[n + 1..])
  {
    hide Run, Behind, TextOf;
    HardFirst(ifs, atoms[n..]);
    assert atoms[n..][1..] == atoms[n + 1..];
  }

  lemma NothingSplit(ifs: string)
    ensures FieldsOf(ifs, []) == [] && !OrphanFrom(ifs, [], 0)
  {
  }

  /** Blanks between two separators that are no blanks hide the empty field between them. */
  lemma OrphanLost(env: Env)
    requires env.ifs == " :"
    ensures var parts := [Part(": :", false, false, false)];
            && FieldsOf(env.ifs, AllAtoms(parts, true)) == ["", ""] && OrphanFrom(env.ifs, AllAtoms(parts, true), 0)
            && Assemble(env, parts, true) == [""]
  {
    hide Assemble, FieldsOf, Found, AddParts, Texts, Collected;
    var parts := [Part(": :", false, false, false)];
    var atoms := [U(':'), U(' '), U(':')];
    OrphanAtoms();
    assert atoms[0..] == atoms && atoms[1..] == [U(' '), U(':')] && [U(' '), U(':')][1..] == [U(':')];
    assert [U(' '), U(':')][2..] == [] && [U(':')][0..] == [U(':')];
    UnmarkedIs(env, parts, true);
    PartsFind(env.ifs, parts, true);
    HardField(env.ifs, atoms, 0);
    HardField(env.ifs, [U(' '), U(':')], 1);
    NothingFound(env.ifs);
    NothingSplit(env.ifs);
    assert Orphan(env.ifs, atoms, 2);
  }

  lemma OrphanAtoms()
    ensures AllAtoms([Part(": :", false, false, false)], true) == [U(':'), U(' '), U(':')]
  {
    var text := ": :";
    assert text[1..] == " :" && " :"[1..] == ":" && ":"[1..] == "";
    assert Chars("") == [] && Chars(":") == [U(':')] && Chars(" :") == [U(' '), U(':')];
    assert [Part(text, false, false, false)][1..] == [];
    assert AllAtoms([], true) == [];
  }

  // ----- Patterns -----

  /** A field is open behind a text exactly when its last character does not separate. */
  lemma {:induction false} OpenExactly(ifs: string, f: Fields, text: string)
    ensures SplitText(ifs, f, text).started == if text == "" then f.started else text[|text| - 1] !in ifs
    decreases |text|
  {
    if text != "" {
      OpenExactly(ifs, SplitChar(ifs, f, text[0]), text[1..]);
    }
  }

  lemma {:induction false} GlobbedBoth(env: Env, x: seq<(string, bool)>, y: seq<(string, bool)>, split: bool)
    ensures Globbed(env, x + y, split) == Globbed(env, x, split) + Globbed(env, y, split)
    decreases |x|
  {
    if x == [] {
      assert x + y == y;
    } else {
      assert (x + y)[1..] == x[1..] + y;
      GlobbedBoth(env, x[1..], y, split);
    }
  }

  lemma OneGlobbed(env: Env, text: string)
    ensures Globbed(env, [(text, true)], true) == env.glob(text)
  {
    assert [(text, true)][1..] == [] && Globbed(env, [], true) == [];
    assert env.glob(text) + [] == env.glob(text);
  }

  /** Of the fields of an unquoted text that holds pattern characters, only the last one is matched against files,
      and none when the text ends with a separator, wherever the pattern characters stand. */
  lemma PatternsExactly(env: Env, text: string)
    ensures var fields := Found(env.ifs, Chars(text));
            && (text != "" && text[|text| - 1] !in env.ifs ==> fields != [])
            && Assemble(env, [Part(text, false, true, false)], true) ==
               if text == "" || text[|text| - 1] in env.ifs then fields
               else fields[..|fields| - 1] + env.glob(fields[|fields| - 1])
  {
    hide Found, SplitText, Texts, Globbed, Chars;
    var parts := [Part(text, false, true, false)];
    assert parts[1..] == [];
    var g := SplitText(env.ifs, NoFields, text);
    assert AddPart(env.ifs, NoFields, parts[0], true) == g.(glob := true) by {
      SplitUnmarked(env.ifs, NoFields, text);
    }
    assert AddParts(env.ifs, NoFields, parts, true) == g.(glob := true) by {
      assert AddParts(env.ifs, g.(glob := true), [], true) == g.(glob := true);
    }
    OpenExactly(env.ifs, NoFields, text);
    SplitUnmarked(env.ifs, NoFields, text);
    UnmarkedGlobs(env, g.done, true);
    TextFields(env.ifs, text);
    if g.started {
      GlobbedBoth(env, g.done, [(g.open, true)], true);
      OneGlobbed(env, g.open);
      TextsBoth(g.done, [(g.open, false)]);
      OneText(g.open, false);
    }
  }

  lemma TextFields(ifs: string, text: string)
    ensures Texts(Collected(SplitText(ifs, NoFields, text))) == Found(ifs, Chars(text))
  {
    hide Found, SplitText, Scan, Texts, Collected, Literal;
    SplitIsScan(ifs, NoFields, text);
    CharsTidy(text);
    ScanFinds(ifs, NoFields, Chars(text));
    assert NoFields.done + Literal(Found(ifs, Chars(text))) == Literal(Found(ifs, Chars(text)));
    TextsLiteral(Found(ifs, Chars(text)));
  }

  /** A pattern in the first of two fields is not matched against files, the field behind it is. */
  lemma PatternMissed(env: Env)
    requires env.ifs == " "
    ensures Assemble(env, [Part("* b", false, true, false)], true) == ["*"] + env.glob("b")
  {
    hide Assemble, Found, Chars;
    PatternsExactly(env, "* b");
    TwoFields();
  }

  lemma TwoFields()
    ensures Found(" ", Chars("* b")) == ["*", "b"]
  {
    hide Found, FieldsOf, Apart, OrphanFrom;
    var atoms := [U('*'), U(' '), U('b')];
    assert "* b"[1..] == " b" && " b"[1..] == "b" && "b"[1..] == "";
    assert Chars("") == [] && Chars("b") == [U('b')] && Chars(" b") == [U(' '), U('b')];
    assert Chars("* b") == atoms;
    var gaps, words := [[], [U(' ')], []], [[U('*')], [U('b')]];
    TwoLaid(gaps, words, atoms);
    LaidFields(" ", gaps, words, true);
    NoOrphans(" ", atoms);
    FoundExactly(" ", atoms);
  }

  lemma TwoLaid(gaps: seq<seq<Atom>>, words: seq<seq<Atom>>, atoms: seq<Atom>)
    requires gaps == [[], [U(' ')], []] && words == [[U('*')], [U('b')]] && atoms == [U('*'), U(' '), U('b')]
    ensures Apart(" ", gaps, words, true) && Laid(gaps, words) == atoms && WordTexts(words) == ["*", "b"]
  {
    assert gaps[1..] == [[U(' ')], []] && gaps[1..][1..] == [[]];
    assert words[1..] == [[U('b')]] && words[1..][1..] == [];
    assert Apart(" ", [[]], [], false) && Apart(" ", gaps[1..], words[1..], false);
    assert Laid([[]], []) == [] && Laid(gaps[1..], words[1..]) == [U(' '), U('b')];
    assert TextOf([]) == "" && [U('b')][1..] == [] && [U('*')][1..] == [];
    assert TextOf([U('b')]) == "b" && TextOf([U('*')]) == "*";
    assert WordTexts([]) == [] && WordTexts(words[1..]) == ["b"];
  }
}
