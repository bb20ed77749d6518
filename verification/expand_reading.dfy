// Reading words: a word written from its pieces (plain and escaped characters, both kinds of quotes, `$` forms and
// backquotes in any order) is read as exactly those pieces.

module WordReading {
  import opened Basics
  import opened BraceExpansion
  import opened WordExpansion
  import opened ExpansionLaws
  import opened FieldSplitting

  // ----- Pieces -----

  /** A piece of a double-quoted string; a form comes with the value it has. */
  datatype Inside = Char(c: char) | Slash | Escaped(c: char) | Form(form: string, value: Value) | Back(cmd: string)

  /** A piece of a word. */
  datatype Piece =
    | Plain(c: char)
    | Escape(c: char)
    | Single(text: string)
    | Double(inside: seq<Inside>)
    | Dollar(form: string, value: Value)
    | Backquote(cmd: string)

  function InsideText(x: Inside): string {
    match x
    case Char(c) => [c]
    case Slash => "\\"
    case Escaped(c) => "\\" + [c]
    case Form(form, _) => form
    case Back(cmd) => "`" + (cmd + "`")
  }

  function InsideWritten(xs: seq<Inside>): string {
    if xs == [] then "" else InsideText(xs[0]) + InsideWritten(xs[1..])
  }

  function PieceText(p: Piece): string {
    match p
    case Plain(c) => [c]
    case Escape(c) => "\\" + [c]
    case Single(text) => "'" + (text + "'")
    case Double(inside) => "\"" + (InsideWritten(inside) + "\"")
    case Dollar(form, _) => form
    case Backquote(cmd) => "`" + (cmd + "`")
  }

  function Written(ps: seq<Piece>): string {
    if ps == [] then "" else PieceText(ps[0]) + Written(ps[1..])
  }

  predicate NeedsEscape(c: char) {
    c == '"' || c == '\\' || c == '$' || c == '`'
  }

  /** Each piece of a string stands for itself where it stands: `rest` follows it. */
  ghost predicate InsideReads(env: Env, x: Inside, rest: string) {
    match x
    case Char(c) => !NeedsEscape(c)
    case Slash => rest != "" && !NeedsEscape(rest[0])
    case Escaped(c) => NeedsEscape(c)
    case Form(form, value) =>
      form != "" && form[0] == '$' && WordExpansion.Dollar(env, form + rest, true) == (value, |form| - 1)
    case Back(cmd) => '`' !in cmd
  }

  ghost predicate AllInside(env: Env, xs: seq<Inside>, rest: string)
    decreases |xs|
  {
    xs != [] ==> InsideReads(env, xs[0], InsideWritten(xs[1..]) + rest) && AllInside(env, xs[1..], rest)
  }

  ghost predicate Reads(env: Env, p: Piece, rest: string) {
    match p
    case Plain(c) => !NeedsEscape(c) && c != '\''
    case Escape(_) => true
    case Single(text) => '\'' !in text
    case Double(inside) => AllInside(env, inside, "\"" + rest)
    case Dollar(form, value) =>
      form != "" && form[0] == '$' && WordExpansion.Dollar(env, form + rest, false) == (value, |form| - 1)
    case Backquote(cmd) => '`' !in cmd
  }

  ghost predicate AllRead(env: Env, ps: seq<Piece>)
    decreases |ps|
  {
    ps != [] ==> Reads(env, ps[0], Written(ps[1..])) && AllRead(env, ps[1..])
  }

  // ----- What pieces mean -----

  /** What a piece adds to a string. */
  function InsideValue(env: Env, x: Inside, d: Splice): Splice {
    match x
    case Char(c) => AddValue(d, Text([c]))
    case Slash => d.(text := d.text + "\\")
    case Escaped(c) => d.(text := d.text + [c])
    case Form(_, value) => AddValue(d, value)
    case Back(cmd) => AddValue(d, Text(env.capture(cmd)))
  }

  function InsideMeans(env: Env, xs: seq<Inside>, d: Splice): Splice
    decreases |xs|
  {
    if xs == [] then d else InsideMeans(env, xs[1..], InsideValue(env, xs[0], d))
  }

  predicate IsPattern(c: char) {
    c == '*' || c == '?' || c == '['
  }

  /** The parts of a word behind some unquoted text: unquoted pieces gather, quoted ones stand on their own. */
  function Means(env: Env, ps: seq<Piece>, buf: string, glob: bool): seq<Part>
    decreases |ps|
  {
    if ps == [] then Flushed([], buf, glob)
    else
      var rest := ps[1..];
      match ps[0]
      case Plain(c) => Means(env, rest, buf + [c], glob || IsPattern(c))
      case Escape(c) => Means(env, rest, buf + [c], glob)
      case Dollar(_, value) => Means(env, rest, Appended(buf, value), glob)
      case Backquote(cmd) => Means(env, rest, buf + env.capture(cmd), glob)
      case Single(text) => Flushed([], buf, glob) + ([Part(text, true, false, false)] + Means(env, rest, "", false))
      case Double(inside) =>
        Flushed([], buf, glob) + (SpliceParts(InsideMeans(env, inside, NoSplice)) + Means(env, rest, "", false))
  }

  // ----- Reading a string -----

  /** From a place on, a text reads one thing and then another. */
  predicate At(word: string, i: nat, here: string, rest: string) {
    i <= |word| && word[i..] == here + rest
  }

  lemma AtSplit(word: string, i: nat, x: string, y: string, rest: string)
    requires At(word, i, x + y, rest)
    ensures At(word, i, x, y + rest) && At(word, i + |x|, y, rest)
  {
    assert x + y + rest == x + (y + rest);
    assert word[i + |x|..] == word[i..][|x|..];
  }

  lemma AtFirst(word: string, i: nat, c: char, y: string, rest: string)
    requires At(word, i, [c] + y, rest)
    ensures i < |word| && word[i] == c && At(word, i + 1, y, rest)
  {
    assert word[i..][0] == c;
    AtSplit(word, i, [c], y, rest);
  }

  lemma AtEnd(word: string, i: nat, x: string, rest: string)
    requires At(word, i, x, rest)
    ensures i + |x| <= |word| && word[i..i + |x|] == x && word[i + |x|..] == rest
  {
    assert word[i..][..|x|] == x && word[i..][|x|..] == rest;
  }

  lemma {:induction false} FindHere(word: string, i: nat, text: string, c: char, rest: string)
    requires c !in text && At(word, i, text, [c] + rest)
    ensures i <= |word| && Find(word, i, c) == i + |text|
    decreases |text|
  {
    if text == "" {
      assert [c] + "" + rest == text + ([c] + rest);
      AtFirst(word, i, c, "", rest);
    } else {
      assert text == [text[0]] + text[1..];
      AtFirst(word, i, text[0], text[1..], [c] + rest);
      FindHere(word, i + 1, text[1..], c, rest);
    }
  }

  /** Where a text between two marks stands. */
  lemma MarkedAt(word: string, i: nat, mark: char, text: string, rest: string)
    requires mark !in text && At(word, i, [mark] + (text + [mark]), rest)
    ensures i + |text| + 2 <= |word| && word[i] == mark && word[i + 1..i + 1 + |text|] == text
    ensures Find(word, i + 1, mark) == i + 1 + |text|
  {
    hide At, Find;
    AtFirst(word, i, mark, text + [mark], rest);
    AtSplit(word, i + 1, text, [mark], rest);
    FindHere(word, i + 1, text, mark, rest);
    AtEnd(word, i + 1, text, [mark] + rest);
    AtEnd(word, i + 1 + |text|, [mark], rest);
  }

  lemma BackStep(env: Env, word: string, i: nat, cmd: string, rest: string, d: Splice)
    requires !env.stopped && '`' !in cmd && At(word, i, "`" + (cmd + "`"), rest)
    ensures i + |cmd| + 2 <= |word|
    ensures WordExpansion.Double(env, word, i, d) ==
            WordExpansion.Double(env, word, i + |cmd| + 2, AddValue(d, Text(env.capture(cmd))))
  {
    hide AddValue, At, Find, WordExpansion.Dollar;
    MarkedAt(word, i, '`', cmd, rest);
  }

  lemma FormStep(env: Env, word: string, i: nat, form: string, value: Value, rest: string, d: Splice)
    requires !env.stopped && form != "" && form[0] == '$' && At(word, i, form, rest)
    requires WordExpansion.Dollar(env, form + rest, true) == (value, |form| - 1)
    ensures i + |form| <= |word|
    ensures WordExpansion.Double(env, word, i, d) == WordExpansion.Double(env, word, i + |form|, AddValue(d, value))
  {
    hide AddValue, WordExpansion.Dollar;
    AtEnd(word, i, form, rest);
    assert word[i] == word[i..][0] == form[0];
  }

  lemma CharStep(env: Env, word: string, i: nat, x: Inside, rest: string, d: Splice)
    requires !env.stopped && (x.Char? || x.Slash? || x.Escaped?)
    requires InsideReads(env, x, rest) && At(word, i, InsideText(x), rest)
    ensures i + |InsideText(x)| <= |word|
    ensures WordExpansion.Double(env, word, i, d) ==
            WordExpansion.Double(env, word, i + |InsideText(x)|, InsideValue(env, x, d))
  {
    hide AddValue, WordExpansion.Dollar;
    AtEnd(word, i, InsideText(x), rest);
    assert word[i] == InsideText(x)[0];
    match x
    case Char(c) =>
    case Slash => assert word[i + 1] == word[i + 1..][0];
    case Escaped(c) => assert word[i + 1] == InsideText(x)[1];
  }

  /** One piece of a string is read as that piece. */
  lemma InsideStep(env: Env, word: string, i: nat, x: Inside, rest: string, d: Splice)
    requires !env.stopped && InsideReads(env, x, rest) && At(word, i, InsideText(x), rest)
    ensures i + |InsideText(x)| <= |word|
    ensures WordExpansion.Double(env, word, i, d) ==
            WordExpansion.Double(env, word, i + |InsideText(x)|, InsideValue(env, x, d))
  {
    hide AddValue, At, WordExpansion.Double, WordExpansion.Dollar;
    match x
    case Form(form, value) => FormStep(env, word, i, form, value, rest, d);
    case Back(cmd) => BackStep(env, word, i, cmd, rest, d);
    case _ => CharStep(env, word, i, x, rest, d);
  }

  lemma StringEnds(env: Env, word: string, i: nat, d: Splice)
    requires !env.stopped && i < |word| && word[i] == '"'
    ensures WordExpansion.Double(env, word, i, d) == (d, i + 1)
  {
  }

  lemma {:induction false} InsideRead(env: Env, word: string, i: nat, xs: seq<Inside>, rest: string, d: Splice)
    requires !env.stopped && AllInside(env, xs, "\"" + rest) && At(word, i, InsideWritten(xs), "\"" + rest)
    ensures i + |InsideWritten(xs)| < |word|
    ensures WordExpansion.Double(env, word, i, d) == (InsideMeans(env, xs, d), i + |InsideWritten(xs)| + 1)
    decreases |xs|
  {
    hide At, InsideReads, InsideText, InsideValue, WordExpansion.Double, AddValue;
    AtEnd(word, i, InsideWritten(xs), "\"" + rest);
    if xs == [] {
      assert word[i..][0] == '"';
      StringEnds(env, word, i, d);
    } else {
      AtSplit(word, i, InsideText(xs[0]), InsideWritten(xs[1..]), "\"" + rest);
      InsideStep(env, word, i, xs[0], InsideWritten(xs[1..]) + ("\"" + rest), d);
      InsideRead(env, word, i + |InsideText(xs[0])|, xs[1..], rest, InsideValue(env, xs[0], d));
    }
  }

  // ----- Reading a word -----

  predicate Unquoted(p: Piece) {
    p.Plain? || p.Escape? || p.Dollar? || p.Backquote?
  }

  /** The unquoted text behind a piece. */
  function Gathered(env: Env, p: Piece, buf: string): string
    requires Unquoted(p)
  {
    match p
    case Plain(c) => buf + [c]
    case Escape(c) => buf + [c]
    case Dollar(_, value) => Appended(buf, value)
    case Backquote(cmd) => buf + env.capture(cmd)
  }

  lemma BackquoteStep(env: Env, word: string, i: nat, cmd: string, rest: string, buf: string, glob: bool,
                      parts: seq<Part>)
    requires !env.stopped && '`' !in cmd && At(word, i, "`" + (cmd + "`"), rest)
    ensures i + |cmd| + 2 <= |word|
    ensures Parts(env, word, i, buf, glob, parts) ==
            Parts(env, word, i + |cmd| + 2, buf + env.capture(cmd), glob, parts)
  {
    hide At, Find, Flushed, Appended, WordExpansion.Dollar, WordExpansion.Double;
    MarkedAt(word, i, '`', cmd, rest);
  }

  lemma DollarStep(env: Env, word: string, i: nat, form: string, value: Value, rest: string, buf: string, glob: bool,
                   parts: seq<Part>)
    requires !env.stopped && form != "" && form[0] == '$' && At(word, i, form, rest)
    requires WordExpansion.Dollar(env, form + rest, false) == (value, |form| - 1)
    ensures i + |form| <= |word|
    ensures Parts(env, word, i, buf, glob, parts) == Parts(env, word, i + |form|, Appended(buf, value), glob, parts)
  {
    hide Find, Flushed, Appended, WordExpansion.Dollar, WordExpansion.Double;
    AtEnd(word, i, form, rest);
    assert word[i] == word[i..][0] == form[0];
  }

  lemma PlainStep(env: Env, word: string, i: nat, p: Piece, rest: string, buf: string, glob: bool, parts: seq<Part>)
    requires !env.stopped && (p.Plain? || p.Escape?) && Reads(env, p, rest) && At(word, i, PieceText(p), rest)
    ensures i + |PieceText(p)| <= |word|
    ensures Parts(env, word, i, buf, glob, parts) ==
            Parts(env, word, i + |PieceText(p)|, buf + [p.c], glob || (p.Plain? && IsPattern(p.c)), parts)
  {
    hide Find, Flushed, Appended, WordExpansion.Dollar, WordExpansion.Double;
    AtEnd(word, i, PieceText(p), rest);
    assert word[i] == PieceText(p)[0];
    if p.Escape? {
      assert word[i + 1] == PieceText(p)[1];
    }
  }

  /** An unquoted piece is read as that piece. */
  lemma PieceStep(env: Env, word: string, i: nat, p: Piece, rest: string, buf: string, glob: bool, parts: seq<Part>)
    requires !env.stopped && Unquoted(p) && Reads(env, p, rest) && At(word, i, PieceText(p), rest)
    ensures i + |PieceText(p)| <= |word|
    ensures Parts(env, word, i, buf, glob, parts) ==
            Parts(env, word, i + |PieceText(p)|, Gathered(env, p, buf), glob || (p.Plain? && IsPattern(p.c)), parts)
  {
    hide At, Appended, Flushed, Parts, WordExpansion.Dollar;
    match p
    case Dollar(form, value) => DollarStep(env, word, i, form, value, rest, buf, glob, parts);
    case Backquote(cmd) => BackquoteStep(env, word, i, cmd, rest, buf, glob, parts);
    case _ => PlainStep(env, word, i, p, rest, buf, glob, parts);
  }

  lemma SingleStep(env: Env, word: string, i: nat, text: string, rest: string, buf: string, glob: bool,
                   parts: seq<Part>)
    requires !env.stopped && '\'' !in text && At(word, i, "'" + (text + "'"), rest)
    ensures i + |text| + 2 <= |word|
    ensures Parts(env, word, i, buf, glob, parts) ==
            Parts(env, word, i + |text| + 2, "", if buf == "" then glob else false,
                  Flushed(parts, buf, glob) + [Part(text, true, false, false)])
  {
    hide Flushed, At, Find, WordExpansion.Dollar, WordExpansion.Double;
    MarkedAt(word, i, '\'', text, rest);
  }

  lemma DoubleStep(env: Env, word: string, i: nat, inside: seq<Inside>, rest: string, buf: string, glob: bool,
                   parts: seq<Part>)
    requires !env.stopped && AllInside(env, inside, "\"" + rest)
    requires At(word, i, "\"" + (InsideWritten(inside) + "\""), rest)
    ensures i + |InsideWritten(inside)| + 2 <= |word|
    ensures Parts(env, word, i, buf, glob, parts) ==
            Parts(env, word, i + |InsideWritten(inside)| + 2, "", if buf == "" then glob else false,
                  Flushed(parts, buf, glob) + SpliceParts(InsideMeans(env, inside, NoSplice)))
  {
    hide Flushed, SpliceParts, InsideMeans, InsideWritten, AllInside, WordExpansion.Double;
    AtFirst(word, i, '"', InsideWritten(inside) + "\"", rest);
    AtSplit(word, i + 1, InsideWritten(inside), "\"", rest);
    InsideRead(env, word, i + 1, inside, rest, NoSplice);
  }

  lemma FlushedBehind(parts: seq<Part>, buf: string, glob: bool)
    ensures Flushed(parts, buf, glob) == parts + Flushed([], buf, glob)
  {
  }

  /** Pieces are read one after the other. */
  lemma {:induction false} PiecesRead(env: Env, word: string, i: nat, ps: seq<Piece>, buf: string, glob: bool,
                                      parts: seq<Part>)
    requires !env.stopped && AllRead(env, ps) && At(word, i, Written(ps), "") && (buf == "" ==> !glob)
    ensures i <= |word| && Parts(env, word, i, buf, glob, parts) == parts + Means(env, ps, buf, glob)
    decreases |ps|
  {
    hide At, Reads, PieceText, Parts, Flushed, Gathered, SpliceParts, InsideMeans;
    AtEnd(word, i, Written(ps), "");
    FlushedBehind(parts, buf, glob);
    if ps == [] {
      PartsOver(env, word, i, buf, glob, parts);
    } else {
      var p, rest := ps[0], Written(ps[1..]);
      AtSplit(word, i, PieceText(p), rest, "");
      assert rest + "" == rest;
      if Unquoted(p) {
        PieceStep(env, word, i, p, rest, buf, glob, parts);
        GatheredSome(env, p, buf);
        PiecesRead(env, word, i + |PieceText(p)|, ps[1..], Gathered(env, p, buf), glob || (p.Plain? && IsPattern(p.c)),
                   parts);
        MeansUnquoted(env, ps, buf, glob);
      } else {
        var here := QuotedStep(env, word, i, p, rest, buf, glob, parts);
        var front := Flushed(parts, buf, glob) + here;
        PiecesRead(env, word, i + |PieceText(p)|, ps[1..], "", false, front);
        MeansQuoted(env, ps, buf, glob);
        Regrouped(parts, Flushed([], buf, glob), here, Means(env, ps[1..], "", false));
      }
    }
  }

  lemma Regrouped(a: seq<Part>, b: seq<Part>, c: seq<Part>, d: seq<Part>)
    ensures a + b + c + d == a + (b + (c + d))
  {
  }

  lemma PartsOver(env: Env, word: string, i: nat, buf: string, glob: bool, parts: seq<Part>)
    requires i == |word|
    ensures Parts(env, word, i, buf, glob, parts) == Flushed(parts, buf, glob)
  {
  }

  lemma GatheredSome(env: Env, p: Piece, buf: string)
    requires Unquoted(p)
    ensures Gathered(env, p, buf) == "" ==> buf == "" && !p.Plain?
  {
  }

  /** What a quoted piece stands for. */
  function QuotedMeans(env: Env, p: Piece): seq<Part>
    requires !Unquoted(p)
  {
    if p.Single? then [Part(p.text, true, false, false)] else SpliceParts(InsideMeans(env, p.inside, NoSplice))
  }

  lemma QuotedStep(env: Env, word: string, i: nat, p: Piece, rest: string, buf: string, glob: bool, parts: seq<Part>)
    returns (here: seq<Part>)
    requires !env.stopped && !Unquoted(p) && Reads(env, p, rest) && At(word, i, PieceText(p), rest)
    requires buf == "" ==> !glob
    ensures here == QuotedMeans(env, p) && i + |PieceText(p)| <= |word|
    ensures Parts(env, word, i, buf, glob, parts) ==
            Parts(env, word, i + |PieceText(p)|, "", false, Flushed(parts, buf, glob) + here)
  {
    hide At, Parts, Flushed, SpliceParts, InsideMeans;
    here := QuotedMeans(env, p);
    if p.Single? {
      SingleStep(env, word, i, p.text, rest, buf, glob, parts);
    } else {
      DoubleStep(env, word, i, p.inside, rest, buf, glob, parts);
    }
  }

  lemma MeansUnquoted(env: Env, ps: seq<Piece>, buf: string, glob: bool)
    requires ps != [] && Unquoted(ps[0])
    ensures Means(env, ps, buf, glob) ==
            Means(env, ps[1..], Gathered(env, ps[0], buf), glob || (ps[0].Plain? && IsPattern(ps[0].c)))
  {
  }

  lemma MeansQuoted(env: Env, ps: seq<Piece>, buf: string, glob: bool)
    requires ps != [] && !Unquoted(ps[0])
    ensures Means(env, ps, buf, glob) ==
            Flushed([], buf, glob) + (QuotedMeans(env, ps[0]) + Means(env, ps[1..], "", false))
  {
  }

  // ----- What is promised -----

  /** A text begins with a tilde for the home directory. */
  predicate Tilde(word: string) {
    word != "" && word[0] == '~' && (|word| == 1 || word[1] == '/')
  }

  /** Every word is read as the pieces it was written from; behind a leading tilde, which stands for the home
      directory, too. */
  lemma WordsRead(env: Env, ps: seq<Piece>)
    requires !env.stopped && AllRead(env, ps)
    ensures !Tilde(Written(ps)) ==> ToParts(env, Written(ps)) == Means(env, ps, "", false)
    ensures Tilde("~" + Written(ps)) ==> ToParts(env, "~" + Written(ps)) == Means(env, ps, env.home, false)
  {
    hide Parts, Means, Written, AllRead;
    var word := Written(ps);
    if !Tilde(word) {
      assert word[0..] == word + "";
      PiecesRead(env, word, 0, ps, "", false, []);
      assert [] + Means(env, ps, "", false) == Means(env, ps, "", false);
    }
    if Tilde("~" + word) {
      assert ("~" + word)[1..] == word + "";
      PiecesRead(env, "~" + word, 1, ps, env.home, false, []);
      assert [] + Means(env, ps, env.home, false) == Means(env, ps, env.home, false);
    }
  }

  /** A word that holds no brace list expands to the fields of its pieces. */
  lemma WordsExpand(env: Env, ps: seq<Piece>, split: bool)
    requires !env.stopped && AllRead(env, ps) && !Tilde(Written(ps))
    requires OpenBrace(Written(ps), 0, None, false) == None
    ensures ExpandWord(env, Written(ps), split) == Assemble(env, Means(env, ps, "", false), split)
  {
    hide ExpandWord, BraceExpand, Assemble, Means, Written, AllRead, ToParts, OpenBrace;
    WordsRead(env, ps);
    NotSplit(Written(ps));
    OneWord(env, Written(ps), split);
  }

  // ----- Words without expansions -----

  /** A character written as it is or behind a backslash. */
  predicate IsLiteral(p: Piece) {
    p.Escape? || (p.Plain? && !IsPattern(p.c))
  }

  function LiteralText(ps: seq<Piece>): string
    requires forall p :: p in ps ==> IsLiteral(p)
  {
    if ps == [] then ""
    else
      assert ps[0] in ps && IsLiteral(ps[0]);
      [ps[0].c] + LiteralText(ps[1..])
  }

  lemma {:induction false} LiteralMeans(env: Env, ps: seq<Piece>, buf: string)
    requires forall p :: p in ps ==> IsLiteral(p)
    ensures Means(env, ps, buf, false) == Flushed([], buf + LiteralText(ps), false)
    decreases |ps|
  {
    if ps == [] {
      assert buf + "" == buf;
    } else {
      assert ps[0] in ps;
      LiteralMeans(env, ps[1..], buf + [ps[0].c]);
      assert buf + [ps[0].c] + LiteralText(ps[1..]) == buf + LiteralText(ps);
    }
  }

  /** Fields of characters hold no separators. */
  lemma {:induction false} FoundFree(ifs: string, atoms: seq<Atom>)
    requires forall a :: a in atoms ==> a.U?
    ensures forall field, c :: field in Found(ifs, atoms) && c in field ==> c !in ifs
    decreases |atoms|
  {
    hide Trimmed, Run, Behind, TextOf, Delimited;
    var rest := Trimmed(ifs, atoms);
    if rest != [] {
      TrimmedStart(ifs, atoms);
      TrimmedWithin(ifs, atoms);
      RunParts(ifs, rest);
      RunFree(ifs, Run(ifs, rest));
      BehindWithin(ifs, rest);
      FoundFree(ifs, Behind(ifs, rest));
    }
  }

  lemma {:induction false} TrimmedWithin(ifs: string, atoms: seq<Atom>)
    ensures forall a :: a in Trimmed(ifs, atoms) ==> a in atoms
    decreases |atoms|
  {
    if atoms != [] && Soft(ifs, atoms[0]) {
      TrimmedWithin(ifs, atoms[1..]);
    }
  }

  lemma BehindWithin(ifs: string, atoms: seq<Atom>)
    requires atoms != [] && !Soft(ifs, atoms[0])
    ensures forall a :: a in Behind(ifs, atoms) ==> a in atoms
  {
    hide Run, Trimmed;
    var tail := atoms[|Run(ifs, atoms)|..];
    TrimmedWithin(ifs, tail);
    var rest := Trimmed(ifs, tail);
    assert forall a :: a in tail ==> a in atoms;
    assert forall a :: a in Behind(ifs, atoms) ==> a in rest;
  }

  lemma {:induction false} RunFree(ifs: string, run: seq<Atom>)
    requires forall a :: a in run ==> a.U? && Inner(ifs, a)
    ensures forall c :: c in TextOf(run) ==> c !in ifs
    decreases |run|
  {
    if run != [] {
      assert run[0] in run;
      RunFree(ifs, run[1..]);
    }
  }

  lemma {:induction false} WholeRun(ifs: string, text: string)
    requires forall c :: c in text ==> c !in ifs
    ensures Run(ifs, Chars(text)) == Chars(text) && TextOf(Chars(text)) == text
    decreases |text|
  {
    if text != "" {
      assert text[0] in text && Chars(text)[1..] == Chars(text[1..]);
      WholeRun(ifs, text[1..]);
      assert text == [text[0]] + text[1..];
    }
  }

  lemma FoundWhole(ifs: string, text: string)
    requires text != ""
    ensures Found(ifs, Chars(text)) == [text] <==> forall c :: c in text ==> c !in ifs
  {
    hide Run, TextOf;
    var atoms := Chars(text);
    CharsTidy(text);
    if forall c :: c in text ==> c !in ifs {
      WholeRun(ifs, text);
      assert text[0] in text && atoms[0] == U(text[0]);
      TrimmedNone(ifs, atoms);
      assert atoms[|atoms|..] == [];
      NothingDelimited(ifs);
      NothingFound(ifs);
    } else {
      FoundFree(ifs, atoms);
      var c :| c in text && c in ifs;
      assert Found(ifs, atoms) == [text] ==> text in Found(ifs, atoms);
    }
  }

  /** A word of plain and escaped characters is one field, as written, if and only if none of them separates fields:
      the code splits what no expansion produced, and a backslash does not keep it from that. */
  lemma LiteralExactly(env: Env, ps: seq<Piece>)
    requires !env.stopped && (forall p :: p in ps ==> IsLiteral(p)) && ps != [] && AllRead(env, ps)
    requires !Tilde(Written(ps)) && OpenBrace(Written(ps), 0, None, false) == None
    ensures ExpandWord(env, Written(ps), true) == [LiteralText(ps)] <==>
            forall c :: c in LiteralText(ps) ==> c !in env.ifs
  {
    hide ExpandWord, Means, Written, AllRead, OpenBrace, Assemble, Found, Chars;
    var text := LiteralText(ps);
    WordsExpand(env, ps, true);
    LiteralMeans(env, ps, "");
    assert "" + text == text && text != "";
    var parts := [Part(text, false, false, false)];
    assert Flushed([], text, false) == parts;
    OnePart(env, text);
    FoundWhole(env.ifs, text);
  }

  /** An escaped blank splits a word in two. */
  lemma EscapedBlankSplits(env: Env)
    requires !env.stopped && env.ifs == " \t\n"
    ensures ExpandWord(env, "a\\ b", true) == ["a", "b"]
  {
    hide ExpandWord, OpenBrace, Assemble, Found;
    var ps := [Plain('a'), Escape(' '), Plain('b')];
    assert ps[1..] == [Escape(' '), Plain('b')] && ps[1..][1..] == [Plain('b')] && [Plain('b')][1..] == [];
    assert Written([]) == "" && Written([Plain('b')]) == "b" && Written(ps[1..]) == "\\ b";
    assert Written(ps) == "a\\ b";
    assert AllRead(env, [Plain('b')]) && AllRead(env, ps[1..]);
    NoBraceThere();
    WordsExpand(env, ps, true);
    LiteralMeans(env, ps, "");
    assert LiteralText([Plain('b')]) == "b" && LiteralText(ps[1..]) == " b" && LiteralText(ps) == "a b";
    assert "" + "a b" == "a b" && Flushed([], "a b", false) == [Part("a b", false, false, false)];
    OnePart(env, "a b");
    TwoFound(env.ifs);
  }

  lemma NoBraceThere()
    ensures OpenBrace("a\\ b", 0, None, false) == None
  {
    var word := "a\\ b";
    assert OpenBrace(word, 4, None, false) == None;
    assert OpenBrace(word, 3, None, false) == None;
    assert OpenBrace(word, 2, None, true) == None;
    assert OpenBrace(word, 1, None, false) == None;
  }

  lemma TwoFound(ifs: string)
    requires ifs == " \t\n"
    ensures Found(ifs, Chars("a b")) == ["a", "b"]
  {
    var text := "a b";
    assert text[1..] == " b" && " b"[1..] == "b" && "b"[1..] == "";
    assert Chars("") == [] && Chars("b") == [U('b')] && Chars(" b") == [U(' '), U('b')];
    assert Chars(text) == [U('a'), U(' '), U('b')];
    WholeRun(ifs, "b");
    var atoms := Chars(text);
    assert atoms[1..] == [U(' '), U('b')] && atoms[1..][1..] == [U('b')] && [U('b')][1..] == [];
    assert Run(ifs, atoms[1..]) == [] && Run(ifs, atoms) == [U('a')];
    assert TextOf([]) == "" && [U('a')][1..] == [] && TextOf([U('a')]) == "a";
    assert Trimmed(ifs, atoms[1..]) == [U('b')] && Behind(ifs, atoms) == [U('b')];
    NothingDelimited(ifs);
    assert [U('b')][|Run(ifs, [U('b')])|..] == [];
    assert Behind(ifs, [U('b')]) == [];
    NothingFound(ifs);
    assert Found(ifs, [U('b')]) == ["b"];
  }

  lemma OnePart(env: Env, text: string)
    ensures Assemble(env, [Part(text, false, false, false)], true) == Found(env.ifs, Chars(text))
  {
    hide Assemble, Found, AddParts, Texts, Collected, Chars;
    var parts := [Part(text, false, false, false)];
    UnmarkedIs(env, parts, true);
    PartsFind(env.ifs, parts, true);
    assert parts[1..] == [] && AllAtoms([], true) == [];
    assert [] + Chars(text) + [] == Chars(text);
    assert AllAtoms(parts, true) == PartAtoms(parts[0], true) + AllAtoms(parts[1..], true);
  }

  /** A word that is one `$` form: its value is split by the rule if and only if no separator in it is an orphan. */
  lemma VariableSplitsExactly(env: Env, form: string, value: string)
    requires form != "" && form[0] == '$' && !env.stopped && OpenBrace(form, 0, None, false).None?
    requires WordExpansion.Dollar(env, form, false) == (Text(value), |form| - 1)
    ensures ExpandWord(env, form, true) == FieldsOf(env.ifs, Chars(value)) <==> !OrphanFrom(env.ifs, Chars(value), 0)
  {
    hide WordExpansion.Dollar, OpenBrace, ExpandWord, Assemble, OrphanFrom, FieldsOf, Found, Chars;
    var ps := [Dollar(form, Text(value))];
    assert ps[1..] == [] && Written([]) == "" && form + "" == form;
    assert Written(ps) == form && AllRead(env, ps);
    WordsExpand(env, ps, true);
    assert "" + value == value;
    assert Means(env, ps, "", false) == Means(env, [], value, false) == Flushed([], value, false);
    FoundExactly(env.ifs, Chars(value));
    if value == "" {
      NothingAssembled(env, true);
      assert Chars("") == [] by { NoChars(); }
      NothingFound(env.ifs);
    } else {
      assert Flushed([], value, false) == [Part(value, false, false, false)];
      OnePart(env, value);
    }
  }

  lemma NoChars()
    ensures Chars("") == []
  {
  }
}
