// Field splitting: the shell's scan against the rule it follows. Blanks around fields go, a separator that is no
// blank ends a field even if it is empty, quoted text never separates, and the code departs from this in one case.

module FieldSplitting {
  import opened WordExpansion
  import opened ExpansionLaws

  // ----- What is split -----

  /** What a word expands to, bit by bit: a character that may separate, a quoted text, or the end of an array
      element. */
  datatype Atom = U(c: char) | Q(text: string) | Brk

  function Chars(text: string): (r: seq<Atom>)
    ensures |r| == |text|
  {
    if text == "" then [] else [U(text[0])] + Chars(text[1..])
  }

  function PartAtoms(p: Part, split: bool): seq<Atom> {
    (if p.opens then [Brk] else []) + if p.quoted || !split then [Q(p.text)] else Chars(p.text)
  }

  function AllAtoms(parts: seq<Part>, split: bool): seq<Atom> {
    if parts == [] then [] else PartAtoms(parts[0], split) + AllAtoms(parts[1..], split)
  }

  predicate Soft(ifs: string, a: Atom) {
    a.Brk? || (a.U? && a.c in ifs && IsBlank(a.c))
  }

  predicate Hard(ifs: string, a: Atom) {
    a.U? && a.c in ifs && !IsBlank(a.c)
  }

  /** Part of a field: quoted, or no separator. */
  predicate Inner(ifs: string, a: Atom) {
    a.Q? || (a.U? && a.c !in ifs)
  }

  /** An array element is quoted text. */
  predicate Tidy(atoms: seq<Atom>) {
    forall i :: 0 <= i < |atoms| && atoms[i].Brk? ==> i + 1 < |atoms| && atoms[i + 1].Q?
  }

  function TextOf(atoms: seq<Atom>): string {
    if atoms == [] then ""
    else (match atoms[0] case U(c) => [c] case Q(text) => text case Brk => "") + TextOf(atoms[1..])
  }

  // ----- The rule -----

  /** What follows the leading blanks. */
  function Trimmed(ifs: string, atoms: seq<Atom>): (rest: seq<Atom>)
    ensures |rest| <= |atoms|
  {
    if atoms != [] && Soft(ifs, atoms[0]) then Trimmed(ifs, atoms[1..]) else atoms
  }

  /** The longest beginning without separators. */
  function Run(ifs: string, atoms: seq<Atom>): (run: seq<Atom>)
    ensures |run| <= |atoms| && (atoms != [] && Inner(ifs, atoms[0]) ==> run != [])
  {
    if atoms == [] || !Inner(ifs, atoms[0]) then [] else [atoms[0]] + Run(ifs, atoms[1..])
  }

  /** What follows the delimiter at the start: blanks, with at most one other separator among them. */
  function Delimited(ifs: string, atoms: seq<Atom>): (rest: seq<Atom>)
    ensures |rest| <= |atoms| && (atoms != [] && Hard(ifs, atoms[0]) ==> |rest| < |atoms|)
  {
    var rest := Trimmed(ifs, atoms);
    if rest != [] && Hard(ifs, rest[0]) then rest[1..] else rest
  }

  /** What follows the first field and its delimiter. */
  function Behind(ifs: string, atoms: seq<Atom>): (rest: seq<Atom>)
    requires atoms != [] && !Soft(ifs, atoms[0])
    ensures |rest| < |atoms|
  {
    assert atoms[0..] == atoms;
    Delimited(ifs, atoms[|Run(ifs, atoms)|..])
  }

  /** The fields by the rule. */
  function FieldsOf(ifs: string, atoms: seq<Atom>): seq<string>
    decreases |atoms|
  {
    var rest := Trimmed(ifs, atoms);
    if rest == [] then []
    else
      TrimmedStart(ifs, atoms);
      [TextOf(Run(ifs, rest))] + FieldsOf(ifs, Behind(ifs, rest))
  }

  lemma {:induction false} TrimmedStart(ifs: string, atoms: seq<Atom>)
    ensures Trimmed(ifs, atoms) != [] ==> !Soft(ifs, Trimmed(ifs, atoms)[0])
    decreases |atoms|
  {
    if atoms != [] && Soft(ifs, atoms[0]) {
      TrimmedStart(ifs, atoms[1..]);
    }
  }

  lemma {:induction false} RunParts(ifs: string, atoms: seq<Atom>)
    ensures var run := Run(ifs, atoms);
            && run <= atoms && (forall a :: a in run ==> Inner(ifs, a))
            && (atoms[|run|..] != [] ==> !Inner(ifs, atoms[|run|..][0]))
    decreases |atoms|
  {
    if atoms != [] && Inner(ifs, atoms[0]) {
      RunParts(ifs, atoms[1..]);
      assert atoms == [atoms[0]] + atoms[1..];
    }
  }

  lemma TrimmedNone(ifs: string, atoms: seq<Atom>)
    ensures atoms != [] && !Soft(ifs, atoms[0]) ==> Trimmed(ifs, atoms) == atoms
  {
  }

  // ----- Where the code departs -----

  /** The fields the code finds: an empty field is lost when blanks stand before its separator. */
  function Found(ifs: string, atoms: seq<Atom>): seq<string>
    decreases |atoms|
  {
    var rest := Trimmed(ifs, atoms);
    if rest == [] then []
    else
      TrimmedStart(ifs, atoms);
      (if rest != atoms && Hard(ifs, rest[0]) then [] else [TextOf(Run(ifs, rest))]) + Found(ifs, Behind(ifs, rest))
  }

  // ----- The scan -----

  function Step(ifs: string, f: Fields, a: Atom): Fields {
    match a
    case U(c) => SplitChar(ifs, f, c)
    case Q(text) => f.(open := f.open + text, started := true, afterBlank := false)
    case Brk => if f.started then Finished(f).(afterBlank := false) else f
  }

  function Scan(ifs: string, f: Fields, atoms: seq<Atom>): Fields
    decreases |atoms|
  {
    if atoms == [] then f else Scan(ifs, Step(ifs, f, atoms[0]), atoms[1..])
  }

  lemma {:induction false} ScanBoth(ifs: string, f: Fields, x: seq<Atom>, y: seq<Atom>)
    ensures Scan(ifs, f, x + y) == Scan(ifs, Scan(ifs, f, x), y)
    decreases |x|
  {
    hide Step;
    if x == [] {
      assert x + y == y;
    } else {
      assert (x + y)[1..] == x[1..] + y;
      ScanBoth(ifs, Step(ifs, f, x[0]), x[1..], y);
    }
  }

  lemma ScanNothing(ifs: string, f: Fields)
    ensures Scan(ifs, f, []) == f
  {
  }

  lemma ScanFirst(ifs: string, f: Fields, atoms: seq<Atom>)
    requires atoms != []
    ensures Scan(ifs, f, atoms) == Scan(ifs, Step(ifs, f, atoms[0]), atoms[1..])
  {
  }

  lemma TidyTail(atoms: seq<Atom>, n: nat)
    requires Tidy(atoms) && n <= |atoms|
    ensures Tidy(atoms[n..])
  {
  }

  /** Between fields blanks are only noted. */
  lemma {:induction false} ScanTrimmed(ifs: string, f: Fields, atoms: seq<Atom>)
    requires !f.started && Tidy(atoms)
    ensures var rest := Trimmed(ifs, atoms);
            var noted := f.(afterBlank := f.afterBlank || rest != atoms);
            && Tidy(rest)
            && (Scan(ifs, f, atoms) == Scan(ifs, noted, rest) || (rest != [] && Inner(ifs, rest[0]) && atoms != rest &&
                                                                  Scan(ifs, f, atoms) == Scan(ifs, f, rest)))
    decreases |atoms|
  {
    hide Tidy;
    if atoms != [] && Soft(ifs, atoms[0]) {
      TidyTail(atoms, 1);
      if atoms[0].Brk? {
        AfterBreak(atoms);
        TrimmedNone(ifs, atoms[1..]);
      } else {
        ScanTrimmed(ifs, f.(afterBlank := true), atoms[1..]);
      }
    } else {
      assert f.(afterBlank := f.afterBlank || false) == f;
    }
  }

  lemma AfterBreak(atoms: seq<Atom>)
    requires Tidy(atoms) && atoms != [] && atoms[0].Brk?
    ensures |atoms| > 1 && atoms[1..][0].Q?
  {
  }

  /** Quoted text and other characters extend the open field. */
  lemma {:induction false} ScanRun(ifs: string, f: Fields, run: seq<Atom>)
    requires run != [] && forall a :: a in run ==> Inner(ifs, a)
    ensures Scan(ifs, f, run) == f.(open := f.open + TextOf(run), started := true, afterBlank := false)
    decreases |run|
  {
    assert run == [run[0]] + run[1..] && run[0] in run;
    var first := match run[0] case U(c) => [c] case Q(text) => text case Brk => "";
    var g := f.(open := f.open + first, started := true, afterBlank := false);
    assert Step(ifs, f, run[0]) == g;
    assert TextOf(run) == first + TextOf(run[1..]);
    if run[1..] == [] {
      assert first + "" == first;
    } else {
      ScanRun(ifs, g, run[1..]);
      assert f.open + first + TextOf(run[1..]) == f.open + (first + TextOf(run[1..]));
    }
  }

  /** Nothing is open, and blanks were passed only if a field follows. */
  predicate Idle(ifs: string, f: Fields, atoms: seq<Atom>) {
    !f.started && f.open == "" && !f.glob && (f.afterBlank && atoms != [] ==> Inner(ifs, atoms[0]))
  }

  /** What ends an open field. */
  lemma ScanDelimiter(ifs: string, f: Fields, atoms: seq<Atom>) returns (g: Fields)
    requires f.started && !f.glob && atoms != [] && !Inner(ifs, atoms[0]) && Tidy(atoms)
    ensures var rest := Delimited(ifs, atoms);
            && Idle(ifs, g, rest) && g.done == f.done + [(f.open, false)] && Tidy(rest)
            && Scan(ifs, f, atoms) == Scan(ifs, g, rest)
  {
    hide Scan, Tidy;
    var rest := Trimmed(ifs, atoms);
    TrimmedStart(ifs, atoms);
    g := Step(ifs, f, atoms[0]);
    ScanFirst(ifs, f, atoms);
    TidyTail(atoms, 1);
    if Hard(ifs, atoms[0]) {
    } else if atoms[0].Brk? {
      AfterBreak(atoms);
      TrimmedNone(ifs, atoms[1..]);
    } else {
      ScanTrimmed(ifs, g, atoms[1..]);
      assert g.(afterBlank := true) == g;
      if rest != [] && Hard(ifs, rest[0]) {
        ScanFirst(ifs, g, rest);
        g := Step(ifs, g, rest[0]);
        TidyTail(rest, 1);
      }
    }
  }

  /** Behind the first field. */
  lemma ScanField(ifs: string, f: Fields, atoms: seq<Atom>) returns (g: Fields)
    requires !f.started && f.open == "" && !f.glob && atoms != [] && Inner(ifs, atoms[0]) && Tidy(atoms)
    ensures var rest := Behind(ifs, atoms);
            || (Idle(ifs, g, rest) && g.done == f.done + [(TextOf(Run(ifs, atoms)), false)] && Tidy(rest) &&
                Scan(ifs, f, atoms) == Scan(ifs, g, rest))
            || (rest == [] && Collected(Scan(ifs, f, atoms)) == f.done + [(TextOf(Run(ifs, atoms)), false)])
  {
    hide Scan, Delimited, Run, Tidy, TextOf;
    var run := Run(ifs, atoms);
    var behind := atoms[|run|..];
    RunParts(ifs, atoms);
    assert atoms == run + behind;
    ScanBoth(ifs, f, run, behind);
    ScanRun(ifs, f, run);
    assert "" + TextOf(run) == TextOf(run);
    var h := f.(open := TextOf(run), started := true, afterBlank := false);
    g := Finished(h);
    if behind == [] {
      ScanNothing(ifs, h);
      NothingDelimited(ifs);
    } else {
      TidyTail(atoms, |run|);
      g := ScanDelimiter(ifs, h, behind);
    }
  }

  lemma NothingDelimited(ifs: string)
    ensures Delimited(ifs, []) == []
  {
  }

  /** The scan finds exactly the fields it is said to find. */
  lemma {:induction false} ScanFinds(ifs: string, f: Fields, atoms: seq<Atom>)
    requires Idle(ifs, f, atoms) && Tidy(atoms)
    ensures Collected(Scan(ifs, f, atoms)) == f.done + Literal(Found(ifs, atoms))
    decreases |atoms|
  {
    hide Scan, Literal, Behind, Trimmed, Run, Tidy, TextOf;
    var rest := Trimmed(ifs, atoms);
    var noted := f.(afterBlank := f.afterBlank || rest != atoms);
    ScanTrimmed(ifs, f, atoms);
    TrimmedStart(ifs, atoms);
    LiteralParts("", []);
    if rest == [] {
      ScanNothing(ifs, noted);
    } else {
      LiteralParts(TextOf(Run(ifs, rest)), Found(ifs, Behind(ifs, rest)));
      if Hard(ifs, rest[0]) {
        HardFinds(ifs, f, atoms);
      } else {
        var g := if Scan(ifs, f, atoms) == Scan(ifs, noted, rest) then noted else f;
        var h := ScanField(ifs, g, rest);
        NothingFound(ifs);
        if Idle(ifs, h, Behind(ifs, rest)) && Tidy(Behind(ifs, rest)) {
          ScanFinds(ifs, h, Behind(ifs, rest));
        }
      }
    }
  }

  lemma HardFinds(ifs: string, f: Fields, atoms: seq<Atom>)
    requires Idle(ifs, f, atoms) && Tidy(atoms) && Trimmed(ifs, atoms) != [] && Hard(ifs, Trimmed(ifs, atoms)[0])
    ensures Collected(Scan(ifs, f, atoms)) == f.done + Literal(Found(ifs, atoms))
    decreases |atoms|, 0
  {
    hide Scan, Literal, Behind, Trimmed, Run, Tidy, TextOf;
    var rest := Trimmed(ifs, atoms);
    var noted := f.(afterBlank := f.afterBlank || rest != atoms);
    ScanTrimmed(ifs, f, atoms);
    TrimmedStart(ifs, atoms);
    TrimmedNone(ifs, atoms);
    var h := Step(ifs, noted, rest[0]);
    ScanFirst(ifs, noted, rest);
    HardFirst(ifs, rest);
    TidyTail(rest, 1);
    ScanFinds(ifs, h, rest[1..]);
    var found := Found(ifs, rest[1..]);
    LiteralParts("", found);
    assert [] + found == found;
    assert f.done + [("", false)] + Literal(found) == f.done + ([("", false)] + Literal(found));
  }

  lemma NothingFound(ifs: string)
    ensures Found(ifs, []) == []
  {
  }

  lemma HardFirst(ifs: string, atoms: seq<Atom>)
    requires atoms != [] && Hard(ifs, atoms[0])
    ensures Run(ifs, atoms) == [] && TextOf(Run(ifs, atoms)) == "" && Behind(ifs, atoms) == atoms[1..]
  {
    assert atoms[0..] == atoms;
  }

  lemma LiteralParts(first: string, more: seq<string>)
    ensures Literal([]) == [] && Literal([first]) == [(first, false)]
    ensures Literal([first] + more) == [(first, false)] + Literal(more)
  {
    assert ([first] + more)[1..] == more;
  }

  // ----- Rule and code -----

  /** A scan for orphans: whether no field began since the last separator that is no blank, and whether a blank
      was just passed. */
  predicate Loses(ifs: string, atoms: seq<Atom>, unbegun: bool, blank: bool)
    decreases |atoms|
  {
    && atoms != []
    && if Soft(ifs, atoms[0]) then Loses(ifs, atoms[1..], unbegun, true)
       else if Hard(ifs, atoms[0]) then (unbegun && blank) || Loses(ifs, atoms[1..], true, false)
       else Loses(ifs, atoms[1..], false, false)
  }

  lemma {:induction false} LosesTrimmed(ifs: string, atoms: seq<Atom>, unbegun: bool, blank: bool)
    ensures var rest := Trimmed(ifs, atoms);
            Loses(ifs, atoms, unbegun, blank) == Loses(ifs, rest, unbegun, blank || rest != atoms)
    decreases |atoms|
  {
    if atoms != [] && Soft(ifs, atoms[0]) {
      LosesTrimmed(ifs, atoms[1..], unbegun, true);
    }
  }

  lemma {:induction false} LosesRun(ifs: string, atoms: seq<Atom>, unbegun: bool, blank: bool)
    requires atoms != [] && Inner(ifs, atoms[0])
    ensures Loses(ifs, atoms, unbegun, blank) == Loses(ifs, atoms[|Run(ifs, atoms)|..], false, false)
    decreases |atoms|
  {
    var rest := atoms[1..];
    RunFirst(ifs, atoms);
    assert atoms[|Run(ifs, atoms)|..] == rest[|Run(ifs, rest)|..];
    if rest != [] && Inner(ifs, rest[0]) {
      LosesRun(ifs, rest, false, false);
    } else {
      assert rest[0..] == rest;
    }
  }

  lemma RunFirst(ifs: string, atoms: seq<Atom>)
    requires atoms != [] && Inner(ifs, atoms[0])
    ensures Run(ifs, atoms) == [atoms[0]] + Run(ifs, atoms[1..])
    ensures atoms[1..] == [] || !Inner(ifs, atoms[1..][0]) ==> Run(ifs, atoms[1..]) == []
  {
  }

  lemma LosesDelimiter(ifs: string, atoms: seq<Atom>)
    ensures Loses(ifs, atoms, false, false) == Loses(ifs, Delimited(ifs, atoms), true, false)
  {
    LosesTrimmed(ifs, atoms, false, false);
    TrimmedStart(ifs, atoms);
  }

  lemma {:induction false} FoundAtMost(ifs: string, atoms: seq<Atom>)
    ensures |Found(ifs, atoms)| <= |FieldsOf(ifs, atoms)|
    decreases |atoms|
  {
    hide Behind, TextOf;
    var rest := Trimmed(ifs, atoms);
    if rest != [] {
      TrimmedStart(ifs, atoms);
      FoundAtMost(ifs, Behind(ifs, rest));
    }
  }

  lemma {:induction false} FoundUnlessLost(ifs: string, atoms: seq<Atom>)
    ensures Found(ifs, atoms) == FieldsOf(ifs, atoms) <==> !Loses(ifs, atoms, true, false)
    decreases |atoms|
  {
    hide Behind, Run, TextOf;
    var rest := Trimmed(ifs, atoms);
    TrimmedStart(ifs, atoms);
    LosesTrimmed(ifs, atoms, true, false);
    if rest != [] {
      var first, behind := TextOf(Run(ifs, rest)), Behind(ifs, rest);
      FoundAtMost(ifs, behind);
      if Hard(ifs, rest[0]) {
        HardFirst(ifs, rest);
      } else {
        LosesRun(ifs, rest, true, rest != atoms);
        LosesDelimiter(ifs, rest[|Run(ifs, rest)|..]);
        BehindIs(ifs, rest);
      }
      FoundUnlessLost(ifs, behind);
      assert ([first] + Found(ifs, behind))[1..] == Found(ifs, behind);
      assert ([first] + FieldsOf(ifs, behind))[1..] == FieldsOf(ifs, behind);
    }
  }

  lemma BehindIs(ifs: string, atoms: seq<Atom>)
    requires atoms != [] && !Soft(ifs, atoms[0])
    ensures Behind(ifs, atoms) == Delimited(ifs, atoms[|Run(ifs, atoms)|..])
  {
  }

  /** No field began between the last separator that is no blank and a place. */
  ghost predicate Unbegun(ifs: string, atoms: seq<Atom>, j: int) {
    forall i :: 0 <= i < j && i < |atoms| && Inner(ifs, atoms[i]) ==> HardWithin(ifs, atoms, i, j)
  }

  ghost predicate HardWithin(ifs: string, atoms: seq<Atom>, i: int, j: int) {
    exists k :: i < k < j && 0 <= k < |atoms| && Hard(ifs, atoms[k])
  }

  /** A separator that is no blank stands behind blanks, and before the blanks no field. */
  ghost predicate Orphan(ifs: string, atoms: seq<Atom>, j: int) {
    0 < j < |atoms| && Hard(ifs, atoms[j]) && Soft(ifs, atoms[j - 1]) && Unbegun(ifs, atoms, j)
  }

  lemma UnbegunNext(ifs: string, atoms: seq<Atom>, j: nat)
    requires j < |atoms|
    ensures Unbegun(ifs, atoms, j + 1) ==
            if Soft(ifs, atoms[j]) then Unbegun(ifs, atoms, j) else Hard(ifs, atoms[j])
  {
    if !Inner(ifs, atoms[j]) {
      forall i | 0 <= i < j
        ensures HardWithin(ifs, atoms, i, j + 1) == (Hard(ifs, atoms[j]) || HardWithin(ifs, atoms, i, j))
      {
      }
    } else {
      assert !HardWithin(ifs, atoms, j, j + 1);
    }
  }

  ghost predicate OrphanFrom(ifs: string, atoms: seq<Atom>, i: int) {
    exists j :: i <= j && Orphan(ifs, atoms, j)
  }

  lemma {:induction false} LosesExactly(ifs: string, atoms: seq<Atom>, i: nat)
    requires i <= |atoms|
    ensures Loses(ifs, atoms[i..], Unbegun(ifs, atoms, i), i > 0 && Soft(ifs, atoms[i - 1])) ==
            OrphanFrom(ifs, atoms, i)
    decreases |atoms| - i
  {
    hide Unbegun;
    if i < |atoms| {
      assert atoms[i..][1..] == atoms[i + 1..];
      UnbegunNext(ifs, atoms, i);
      LosesExactly(ifs, atoms, i + 1);
      OrphanNext(ifs, atoms, i);
    }
  }

  lemma OrphanNext(ifs: string, atoms: seq<Atom>, i: nat)
    ensures OrphanFrom(ifs, atoms, i) == (Orphan(ifs, atoms, i) || OrphanFrom(ifs, atoms, i + 1))
  {
    hide Orphan;
  }

  /** The code follows the rule exactly when there is no orphan. */
  lemma FoundExactly(ifs: string, atoms: seq<Atom>)
    ensures Found(ifs, atoms) == FieldsOf(ifs, atoms) <==> !OrphanFrom(ifs, atoms, 0)
  {
    hide Found, FieldsOf, Loses;
    FoundUnlessLost(ifs, atoms);
    LosesExactly(ifs, atoms, 0);
    assert atoms[0..] == atoms;
    assert Unbegun(ifs, atoms, 0);
  }

  // ----- Parts -----

  /** Two scans that differ in pattern marks only. */
  predicate Alike(f: Fields, g: Fields) {
    Texts(f.done) == Texts(g.done) && f.open == g.open && f.started == g.started && f.afterBlank == g.afterBlank
  }

  function Texts(fields: seq<(string, bool)>): (r: seq<string>)
    ensures |r| == |fields|
  {
    if fields == [] then [] else [fields[0].0] + Texts(fields[1..])
  }

  lemma {:induction false} TextsBoth(x: seq<(string, bool)>, y: seq<(string, bool)>)
    ensures Texts(x + y) == Texts(x) + Texts(y)
    decreases |x|
  {
    if x == [] {
      assert x + y == y;
    } else {
      assert (x + y)[1..] == x[1..] + y;
      TextsBoth(x[1..], y);
    }
  }

  lemma {:induction false} TextsLiteral(words: seq<string>)
    ensures Texts(Literal(words)) == words
    decreases |words|
  {
    if words != [] {
      assert Literal(words)[1..] == Literal(words[1..]);
      TextsLiteral(words[1..]);
    }
  }

  lemma OneText(text: string, mark: bool)
    ensures Texts([(text, mark)]) == [text]
  {
    assert [(text, mark)][1..] == [];
  }

  lemma FinishedAlike(f: Fields, g: Fields)
    requires Alike(f, g)
    ensures Alike(Finished(f), Finished(g)) && Texts(Collected(f)) == Texts(Collected(g))
  {
    hide Texts;
    TextsBoth(f.done, [(f.open, f.glob)]);
    TextsBoth(g.done, [(g.open, g.glob)]);
    OneText(f.open, f.glob);
    OneText(g.open, g.glob);
  }

  lemma StepAlike(ifs: string, f: Fields, g: Fields, a: Atom)
    requires Alike(f, g)
    ensures Alike(Step(ifs, f, a), Step(ifs, g, a))
  {
    hide Texts;
    FinishedAlike(f, g);
    TextsBoth(f.done, [("", false)]);
    TextsBoth(g.done, [("", false)]);
  }

  lemma {:induction false} ScanAlike(ifs: string, f: Fields, g: Fields, atoms: seq<Atom>)
    requires Alike(f, g)
    ensures Alike(Scan(ifs, f, atoms), Scan(ifs, g, atoms))
    decreases |atoms|
  {
    hide Alike, Step;
    if atoms != [] {
      StepAlike(ifs, f, g, atoms[0]);
      ScanAlike(ifs, Step(ifs, f, atoms[0]), Step(ifs, g, atoms[0]), atoms[1..]);
    }
  }

  lemma {:induction false} SplitIsScan(ifs: string, f: Fields, text: string)
    ensures SplitText(ifs, f, text) == Scan(ifs, f, Chars(text))
    decreases |text|
  {
    if text != "" {
      assert Chars(text)[1..] == Chars(text[1..]);
      SplitIsScan(ifs, SplitChar(ifs, f, text[0]), text[1..]);
    }
  }

  /** Adding a part is scanning its atoms. */
  lemma PartIsScan(ifs: string, f: Fields, p: Part, split: bool)
    ensures Alike(AddPart(ifs, f, p, split), Scan(ifs, f, PartAtoms(p, split)))
  {
    hide Texts, SplitText;
    var mark := if p.opens then [Brk] else [];
    var body := if p.quoted || !split then [Q(p.text)] else Chars(p.text);
    ScanBoth(ifs, f, mark, body);
    var g := Broken(f, p);
    assert [Brk][1..] == [] && Scan(ifs, f, mark) == g;
    if p.quoted || !split {
      assert [Q(p.text)][1..] == [];
    } else {
      SplitIsScan(ifs, g, p.text);
    }
  }

  lemma {:induction false} PartsAreScan(ifs: string, f: Fields, g: Fields, parts: seq<Part>, split: bool)
    requires Alike(f, g)
    ensures Alike(AddParts(ifs, f, parts, split), Scan(ifs, g, AllAtoms(parts, split)))
    decreases |parts|
  {
    hide AddPart, PartAtoms, Alike;
    if parts != [] {
      var atoms := PartAtoms(parts[0], split);
      PartIsScan(ifs, f, parts[0], split);
      ScanAlike(ifs, f, g, atoms);
      AlikeBoth(AddPart(ifs, f, parts[0], split), Scan(ifs, f, atoms), Scan(ifs, g, atoms));
      ScanBoth(ifs, g, atoms, AllAtoms(parts[1..], split));
      PartsAreScan(ifs, AddPart(ifs, f, parts[0], split), Scan(ifs, g, atoms), parts[1..], split);
    }
  }

  lemma AlikeBoth(f: Fields, g: Fields, h: Fields)
    requires Alike(f, g) && Alike(g, h)
    ensures Alike(f, h)
  {
  }

  /** Parts that open a field are quoted. */
  predicate Ordinary(parts: seq<Part>) {
    forall i :: 0 <= i < |parts| && parts[i].opens ==> parts[i].quoted
  }

  lemma TidyBoth(x: seq<Atom>, y: seq<Atom>)
    requires Tidy(x) && Tidy(y)
    ensures Tidy(x + y)
  {
  }

  lemma {:induction false} CharsTidy(text: string)
    ensures forall i :: 0 <= i < |text| ==> Chars(text)[i] == U(text[i])
  {
    if text != "" {
      CharsTidy(text[1..]);
    }
  }

  lemma {:induction false} PartsTidy(parts: seq<Part>, split: bool)
    requires Ordinary(parts)
    ensures Tidy(AllAtoms(parts, split))
    decreases |parts|
  {
    if parts != [] {
      PartsTidy(parts[1..], split);
      CharsTidy(parts[0].text);
      TidyBoth(PartAtoms(parts[0], split), AllAtoms(parts[1..], split));
    }
  }

  // ----- What is promised -----

  /** The texts of the fields that parts assemble to are those of the rule if and only if no separator is an
      orphan; quoted text is never taken for a separator. */
  lemma AssemblesExactly(ifs: string, parts: seq<Part>, split: bool)
    requires Ordinary(parts)
    ensures var atoms := AllAtoms(parts, split);
            Texts(Collected(AddParts(ifs, NoFields, parts, split))) == FieldsOf(ifs, atoms) <==>
            !OrphanFrom(ifs, atoms, 0)
  {
    hide OrphanFrom, FieldsOf, Found, AddParts, Scan, Collected;
    var atoms := AllAtoms(parts, split);
    PartsFind(ifs, parts, split);
    FoundExactly(ifs, atoms);
  }

  lemma PartsFind(ifs: string, parts: seq<Part>, split: bool)
    requires Ordinary(parts)
    ensures Texts(Collected(AddParts(ifs, NoFields, parts, split))) == Found(ifs, AllAtoms(parts, split))
  {
    hide Found, AddParts, Scan, Collected, Texts, Literal;
    var atoms := AllAtoms(parts, split);
    PartsTidy(parts, split);
    PartsAreScan(ifs, NoFields, NoFields, parts, split);
    FinishedAlike(AddParts(ifs, NoFields, parts, split), Scan(ifs, NoFields, atoms));
    ScanFinds(ifs, NoFields, atoms);
    assert NoFields.done + Literal(Found(ifs, atoms)) == Literal(Found(ifs, atoms));
    TextsLiteral(Found(ifs, atoms));
  }

  /** No part may be a pattern. */
  predicate Unmarked(parts: seq<Part>) {
    forall p :: p in parts ==> !p.glob
  }

  lemma SplitUnmarked(ifs: string, f: Fields, text: string)
    requires !f.glob && forall i :: 0 <= i < |f.done| ==> !f.done[i].1
    ensures var g := SplitText(ifs, f, text); !g.glob && forall i :: 0 <= i < |g.done| ==> !g.done[i].1
    decreases |text|
  {
    if text != "" {
      SplitUnmarked(ifs, SplitChar(ifs, f, text[0]), text[1..]);
    }
  }

  lemma {:induction false} PartsUnmarked(ifs: string, f: Fields, parts: seq<Part>, split: bool)
    requires Unmarked(parts) && !f.glob && forall i :: 0 <= i < |f.done| ==> !f.done[i].1
    ensures var g := AddParts(ifs, f, parts, split); !g.glob && forall i :: 0 <= i < |g.done| ==> !g.done[i].1
    decreases |parts|
  {
    hide SplitText;
    if parts != [] {
      assert parts[0] in parts;
      SplitUnmarked(ifs, Broken(f, parts[0]), parts[0].text);
      PartsUnmarked(ifs, AddPart(ifs, f, parts[0], split), parts[1..], split);
    }
  }

  lemma {:induction false} UnmarkedGlobs(env: Env, fields: seq<(string, bool)>, split: bool)
    requires forall i :: 0 <= i < |fields| ==> !fields[i].1
    ensures Globbed(env, fields, split) == Texts(fields)
    decreases |fields|
  {
    if fields != [] {
      UnmarkedGlobs(env, fields[1..], split);
    }
  }

  /** The same of whole expansion, when nothing may be a pattern. */
  lemma SplitsExactly(env: Env, parts: seq<Part>, split: bool)
    requires Ordinary(parts) && Unmarked(parts)
    ensures var atoms := AllAtoms(parts, split);
            Assemble(env, parts, split) == FieldsOf(env.ifs, atoms) <==> !OrphanFrom(env.ifs, atoms, 0)
  {
    hide OrphanFrom, FieldsOf, AllAtoms;
    UnmarkedIs(env, parts, split);
    AssemblesExactly(env.ifs, parts, split);
  }

  lemma UnmarkedIs(env: Env, parts: seq<Part>, split: bool)
    requires Unmarked(parts)
    ensures Assemble(env, parts, split) == Texts(Collected(AddParts(env.ifs, NoFields, parts, split)))
  {
    hide AddParts, Texts, Globbed;
    PartsUnmarked(env.ifs, NoFields, parts, split);
    UnmarkedGlobs(env, Collected(AddParts(env.ifs, NoFields, parts, split)), split);
  }
}
