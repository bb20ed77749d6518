// Word expansion: unquoting and field assembly behind brace expansion. What a dollar sign, a backquote
// and a glob expand to is arbitrary; everything else is as the shell does it.

module WordExpansion {
  import opened Basics
  import opened BraceExpansion

  /** A piece of an expanding word, and whether it opens a new field. */
  datatype Part = Part(text: string, quoted: bool, glob: bool, opens: bool)

  /** What a `$` form yields: a text, or the elements of an array. */
  datatype Value = Text(text: string) | Elements(words: seq<string>)

  /** The shell around an expansion. `dollar` gives the value of a `$` form other than `$@` and `$*` and
      how many characters behind the dollar sign it takes; `glob` is what a field becomes that holds
      unquoted pattern characters, itself when none of its components is a pattern. */
  datatype Env = Env(home: string, ifs: string, stopped: bool, positional: seq<string>,
                     dollar: (string, bool) -> (Value, nat), capture: string -> string, glob: string -> seq<string>)

  // ----- Unquoting -----

  /** The first place from `i` on where a character stands, or the end. */
  function Find(word: string, i: nat, c: char): (r: nat)
    requires i <= |word|
    ensures i <= r <= |word| && (r < |word| ==> word[r] == c)
    decreases |word| - i
  {
    if i == |word| || word[i] == c then i else Find(word, i + 1, c)
  }

  function Min(x: nat, y: nat): nat {
    if x <= y then x else y
  }

  /** The value of the `$` form at the start of a text. */
  function Dollar(env: Env, form: string, quoted: bool): (Value, nat) {
    if |form| > 1 && form[1] == '@' then (Elements(env.positional), 1)
    else if |form| > 1 && form[1] == '*' then
      (Elements(if quoted then [Join(env.positional, if env.ifs == "" then " " else [env.ifs[0]])] else env.positional),
       1)
    else env.dollar(form, quoted)
  }

  /** A double-quoted string under construction: its finished parts, the open one, whether anything but an
      empty array stood in it, whether an array did, and whether the open part begins a new field. */
  datatype Splice = Splice(parts: seq<Part>, text: string, content: bool, spread: bool, opens: bool)

  const NoSplice: Splice := Splice([], "", false, false, false)

  /** Further elements: each ends the open part and opens the next. */
  function MoreElements(d: Splice, words: seq<string>): Splice
    decreases |words|
  {
    if words == [] then d
    else MoreElements(d.(parts := d.parts + [Part(d.text, true, false, d.opens)], text := words[0], opens := true),
                      words[1..])
  }

  /** An array inside double quotes: its first element continues the open part. */
  function AddElements(d: Splice, words: seq<string>): Splice {
    if words == [] then d.(spread := true)
    else MoreElements(d.(text := d.text + words[0], content := true, spread := true), words[1..])
  }

  /** The parts of a finished double-quoted string; none when it held just an empty array. */
  function SpliceParts(d: Splice): seq<Part> {
    if d.spread && !d.content && d.parts == [] && d.text == "" then []
    else d.parts + [Part(d.text, true, false, d.opens)]
  }

  function AddValue(d: Splice, value: Value): Splice {
    match value
    case Text(text) => d.(text := d.text + text, content := true)
    case Elements(words) => AddElements(d, words)
  }

  /** The inside of a double-quoted string from `i` to its closing quote, and where it ends. */
  function Double(env: Env, word: string, i: nat, d: Splice): (r: (Splice, nat))
    requires i <= |word|
    ensures i <= r.1 <= |word|
    decreases |word| - i
  {
    if i == |word| || env.stopped then (d, i)
    else
      var c := word[i];
      if c == '"' then (d, i + 1)
      else if c == '\\' then
        if i + 1 == |word| then (d, i + 1)
        else if word[i + 1] in ['"', '\\', '$', '`'] then Double(env, word, i + 2, d.(text := d.text + [word[i + 1]]))
        else Double(env, word, i + 1, d.(text := d.text + ['\\']))
      else if c == '$' then
        var (value, more) := Dollar(env, word[i..], true);
        Double(env, word, Min(i + 1 + more, |word|), AddValue(d, value))
      else if c == '`' then
        var end := Find(word, i + 1, '`');
        Double(env, word, Min(end + 1, |word|), AddValue(d, Text(env.capture(word[i + 1..end]))))
      else Double(env, word, i + 1, AddValue(d, Text([c])))
  }

  /** An unquoted value behind the text gathered so far: the elements of an array stand apart. */
  function Appended(buf: string, value: Value): string {
    match value
    case Text(text) => buf + text
    case Elements(words) => (if buf == "" then "" else buf + " ") + Join(words, " ")
  }

  /** The unquoted text gathered so far as a part, if there is any. */
  function Flushed(parts: seq<Part>, buf: string, glob: bool): seq<Part> {
    if buf == "" then parts else parts + [Part(buf, false, glob, false)]
  }

  function Parts(env: Env, word: string, i: nat, buf: string, glob: bool, parts: seq<Part>): seq<Part>
    requires i <= |word|
    decreases |word| - i
  {
    if i == |word| || env.stopped then Flushed(parts, buf, glob)
    else
      var c := word[i];
      if c == '\\' then
        if i + 1 == |word| then Parts(env, word, i + 1, buf, glob, parts)
        else Parts(env, word, i + 2, buf + [word[i + 1]], glob, parts)
      else if c == '\'' then
        var end := Find(word, i + 1, '\'');
        Parts(env, word, Min(end + 1, |word|), "", if buf == "" then glob else false,
              Flushed(parts, buf, glob) + [Part(word[i + 1..end], true, false, false)])
      else if c == '"' then
        var (d, end) := Double(env, word, i + 1, NoSplice);
        Parts(env, word, end, "", if buf == "" then glob else false, Flushed(parts, buf, glob) + SpliceParts(d))
      else if c == '$' then
        var (value, more) := Dollar(env, word[i..], false);
        Parts(env, word, Min(i + 1 + more, |word|), Appended(buf, value), glob, parts)
      else if c == '`' then
        var end := Find(word, i + 1, '`');
        Parts(env, word, Min(end + 1, |word|), buf + env.capture(word[i + 1..end]), glob, parts)
      else Parts(env, word, i + 1, buf + [c], glob || c in ['*', '?', '['], parts)
  }

  /** A word in parts; a leading tilde on its own or before a slash is the home directory. */
  function ToParts(env: Env, word: string): seq<Part> {
    if word != "" && word[0] == '~' && (|word| == 1 || word[1] == '/') then Parts(env, word, 1, env.home, false, [])
    else Parts(env, word, 0, "", false, [])
  }

  // ----- Fields -----

  /** Fields under construction: the finished ones, the open one, whether it has begun, whether it may
      be a pattern, and whether blanks were just passed. */
  datatype Fields = Fields(done: seq<(string, bool)>, open: string, started: bool, glob: bool, afterBlank: bool)

  function Finished(f: Fields): Fields {
    f.(done := f.done + [(f.open, f.glob)], open := "", started := false, glob := false)
  }

  predicate IsBlank(c: char) {
    c == ' ' || c == '\t' || c == '\n'
  }

  function SplitChar(ifs: string, f: Fields, c: char): Fields {
    if c in ifs && IsBlank(c) then (if f.started then Finished(f) else f).(afterBlank := true)
    else if c in ifs then
      var g := if f.started then Finished(f) else if !f.afterBlank then f.(done := f.done + [("", false)]) else f;
      g.(afterBlank := false)
    else f.(open := f.open + [c], started := true, afterBlank := false)
  }

  function SplitText(ifs: string, f: Fields, text: string): Fields
    decreases |text|
  {
    if text == "" then f else SplitText(ifs, SplitChar(ifs, f, text[0]), text[1..])
  }

  /** A part that opens a field ends the open field first. */
  function Broken(f: Fields, p: Part): Fields {
    if p.opens && f.started then Finished(f).(afterBlank := false) else f
  }

  function AddPart(ifs: string, f0: Fields, p: Part, split: bool): Fields {
    var f := Broken(f0, p);
    if p.quoted || !split then
      f.(open := f.open + p.text, started := true, afterBlank := false, glob := f.glob || (p.glob && !p.quoted))
    else var g := SplitText(ifs, f, p.text); g.(glob := g.glob || p.glob)
  }

  function AddParts(ifs: string, f: Fields, parts: seq<Part>, split: bool): Fields
    decreases |parts|
  {
    if parts == [] then f else AddParts(ifs, AddPart(ifs, f, parts[0], split), parts[1..], split)
  }

  const NoFields: Fields := Fields([], "", false, false, false)

  function Collected(f: Fields): seq<(string, bool)> {
    if f.started then f.done + [(f.open, f.glob)] else f.done
  }

  function Globbed(env: Env, fields: seq<(string, bool)>, split: bool): seq<string> {
    if fields == [] then []
    else (if split && fields[0].1 then env.glob(fields[0].0) else [fields[0].0]) + Globbed(env, fields[1..], split)
  }

  function Assemble(env: Env, parts: seq<Part>, split: bool): seq<string> {
    Globbed(env, Collected(AddParts(env.ifs, NoFields, parts, split)), split)
  }

  function ExpandEach(env: Env, words: seq<string>, split: bool): seq<string> {
    if words == [] then [] else Assemble(env, ToParts(env, words[0]), split) + ExpandEach(env, words[1..], split)
  }

  function ExpandWord(env: Env, word: string, split: bool): seq<string> {
    ExpandEach(env, BraceExpand(word, 0), split)
  }

  // ----- Here-documents and quoting -----

  /** Every occurrence of a character replaced by a text. */
  function Replace(s: string, c: char, text: string): string {
    if s == "" then "" else (if s[0] == c then text else [s[0]]) + Replace(s[1..], c, text)
  }

  function DoubleWrap(line: string): string {
    "\"" + Replace(Replace(line, '\\', "\\\\"), '"', "\\\"") + "\""
  }

  function QuoteShell(value: string): string {
    "'" + Replace(value, '\'', "'\\''") + "'"
  }

  /** A text cut at every occurrence of a character. */
  function Cut(s: string, c: char): (pieces: seq<string>)
    ensures |pieces| >= 1
  {
    if s == "" then [""]
    else
      var rest := Cut(s[1..], c);
      if s[0] == c then [""] + rest else [[s[0]] + rest[0]] + rest[1..]
  }

  function Join(pieces: seq<string>, between: string): string {
    if pieces == [] then "" else if |pieces| == 1 then pieces[0] else pieces[0] + between + Join(pieces[1..], between)
  }

  function ExpandLines(env: Env, lines: seq<string>): seq<string> {
    if lines == [] then [] else [Join(ExpandWord(env, DoubleWrap(lines[0]), false), " ")] + ExpandLines(env, lines[1..])
  }

  /** A here-document body, expanded line by line as double-quoted text. */
  function ExpandHeredoc(env: Env, body: string): string {
    Join(ExpandLines(env, Cut(body, '\n')), "\n")
  }
}
