// The scanning loops of word expansion, each proved against the function that specifies it.

module ExpansionLoops {
  import opened Basics
  import opened ArithNumbers
  import opened ArithGrammar
  import opened BraceExpansion
  import opened WordExpansion

  method ScanOpenBrace(word: string) returns (open: Option<nat>)
    ensures open == OpenBrace(word, 0, None, false)
  {
    var quote: Option<char> := None;
    var escaped := false;
    var i: nat := 0;
    while i < |word|
      invariant i <= |word| && OpenBrace(word, i, quote, escaped) == OpenBrace(word, 0, None, false)
    {
      var c := word[i];
      if escaped {
        escaped := false;
      } else if c == '\\' {
        escaped := true;
      } else if c == '\'' || c == '"' {
        quote := Quoting(quote, c);
      } else if c == '{' && quote.None? && (i == 0 || word[i - 1] != '$') {
        return Some(i);
      }
      i := i + 1;
    }
    return None;
  }

  method ScanCloseBrace(word: string, start: nat) returns (close: Option<nat>)
    requires start <= |word|
    ensures close == CloseBrace(word, start, 0)
  {
    var nested: nat := 0;
    var i := start;
    while i < |word|
      invariant start <= i <= |word| && CloseBrace(word, i, nested) == CloseBrace(word, start, 0)
    {
      if word[i] == '{' {
        nested := nested + 1;
      } else if word[i] == '}' {
        if nested == 0 {
          return Some(i);
        }
        nested := nested - 1;
      }
      i := i + 1;
    }
    return None;
  }

  method SplitBraceCommas(inner: string) returns (parts: seq<string>)
    ensures parts == Commas(inner, 0, 0, 0, [])
  {
    parts := [];
    var depth: nat, start: nat, i: nat := 0, 0, 0;
    while i < |inner|
      invariant start <= i <= |inner| && Commas(inner, i, start, depth, parts) == Commas(inner, 0, 0, 0, [])
    {
      if inner[i] == '{' {
        depth := depth + 1;
      } else if inner[i] == '}' {
        depth := if depth == 0 then 0 else depth - 1;
      } else if inner[i] == ',' && depth == 0 {
        parts := parts + [inner[start..i]];
        start := i + 1;
      }
      i := i + 1;
    }
    if parts != [] {
      parts := parts + [inner[start..]];
    }
  }

  method ListNumbers(start: i64, end: i64, step: i64, width: nat) returns (result: seq<string>)
    requires step != 0
    ensures result == NumberRange(start, end, step, width)
  {
    hide Label, Wrap, Numbers;
    result := [];
    if Sign(Wrap(end - start)) != Sign(step) && start != end {
      return;
    }
    var value: i64 := start;
    assert result + Numbers(start, end, step, width, MAX_WORDS) == Numbers(start, end, step, width, MAX_WORDS);
    while |result| < MAX_WORDS && Reaches(value, end, step)
      invariant |result| <= MAX_WORDS
      invariant result + Numbers(value, end, step, width, MAX_WORDS - |result|) ==
                Numbers(start, end, step, width, MAX_WORDS)
      decreases MAX_WORDS - |result|
    {
      NumbersStep(value, end, step, width, MAX_WORDS - |result|, result);
      result := result + [Label(value, width)];
      value := Clamp(value + step);
    }
    NumbersEnd(value, end, step, width, MAX_WORDS - |result|);
  }

  lemma NumbersEnd(value: i64, end: i64, step: i64, width: nat, left: nat)
    requires left == 0 || !Reaches(value, end, step)
    ensures Numbers(value, end, step, width, left) == []
  {
  }

  lemma NumbersStep(value: i64, end: i64, step: i64, width: nat, left: nat, out: seq<string>)
    requires left > 0 && Reaches(value, end, step)
    ensures out + Numbers(value, end, step, width, left) ==
            out + [Label(value, width)] + Numbers(Clamp(value + step), end, step, width, left - 1)
  {
    hide Label, Reaches;
  }

  method ListLetters(from: char, to: char, step: i64) returns (result: seq<string>)
    requires step != 0
    ensures result == Letters(from as int, to as int, step, MAX_WORDS)
  {
    result := [];
    var value: i64 := from as int;
    ghost var whole := Letters(from as int, to as int, step, MAX_WORDS);
    while |result| < MAX_WORDS && Reaches(value, to as int, step)
      invariant |result| <= MAX_WORDS && (step > 0 ==> value >= 0)
      invariant result + Letters(value, to as int, step, MAX_WORDS - |result|) == whole
      decreases if step > 0 then to as int - value else value - to as int
    {
      LettersStep(value, to as int, step, MAX_WORDS - |result|, result);
      if IsScalar(value) {
        result := result + [[value as char]];
      }
      value := Clamp(value + step);
    }
  }

  lemma LettersStep(value: i64, end: i64, step: i64, left: nat, out: seq<string>)
    requires step != 0 && 0 <= end < 0x11_0000 && (step > 0 ==> value >= 0) && left > 0 && Reaches(value, end, step)
    ensures out + Letters(value, end, step, left) ==
            if IsScalar(value) then out + [[value as char]] + Letters(Clamp(value + step), end, step, left - 1)
            else out + Letters(Clamp(value + step), end, step, left)
  {
  }

  method BraceRange(inner: string) returns (result: seq<string>)
    ensures result == Range(inner)
  {
    hide DotSplit, NumberRange, Letters, ParseI64;
    var pieces := DotSplit(inner, 0, 0);
    if |pieces| < 2 || |pieces| > 3 {
      return [];
    }
    var step := GivenStep(pieces);
    var start, end := ParseI64(pieces[0]), ParseI64(pieces[1]);
    if start.Some? && end.Some? {
      var width := Wider(WithoutDashes(pieces[0]), WithoutDashes(pieces[1]));
      result := ListNumbers(start.value, end.value, StepOr(step, start.value, end.value), width);
    } else if |pieces[0]| == 1 && |pieces[1]| == 1 {
      var from, to := pieces[0][0], pieces[1][0];
      result := ListLetters(from, to, StepOr(step, from as int, to as int));
    } else {
      result := [];
    }
  }

  method BraceChoices(inner: string) returns (choices: seq<string>)
    ensures choices == Alternatives(inner)
  {
    choices := SplitBraceCommas(inner);
    if |choices| <= 1 {
      choices := BraceRange(inner);
    }
  }

  /** Expand the braces of a word, stopping at the word limit. */
  method ExpandBraces(word: string, depth: nat) returns (words: seq<string>)
    ensures words == BraceExpand(word, depth)
    decreases MAX_BRACES - depth, 1
  {
    hide OpenBrace, CloseBrace, Alternatives, Combine;
    if depth >= MAX_BRACES {
      return [word];
    }
    var open := ScanOpenBrace(word);
    if open.None? {
      return [word];
    }
    var close := ScanCloseBrace(word, open.value + 1);
    if close.None? {
      return [word];
    }
    var choices := BraceChoices(word[open.value + 1..close.value]);
    if choices == [] {
      return [word];
    }
    words := CombineChoices(word[..open.value], First(choices), word[close.value + 1..], depth);
  }

  method CombineChoices(prefix: string, choices: seq<string>, suffix: string, depth: nat) returns (words: seq<string>)
    requires depth < MAX_BRACES
    ensures words == Combine(prefix, choices, suffix, depth, [])
    decreases MAX_BRACES - depth, 0
  {
    hide BraceExpand, Combine;
    words := [];
    var i := 0;
    assert choices[0..] == choices;
    while i < |choices|
      invariant i <= |choices|
      invariant Combine(prefix, choices[i..], suffix, depth, words) == Combine(prefix, choices, suffix, depth, [])
    {
      CombineStep(prefix, choices, i, suffix, depth, words);
      var more := ExpandBraces(prefix + choices[i] + suffix, depth + 1);
      words := words + more;
      if |words| >= MAX_WORDS {
        return First(words);
      }
      i := i + 1;
    }
    CombineEnd(prefix, choices, suffix, depth, words);
  }

  lemma CombineEnd(prefix: string, choices: seq<string>, suffix: string, depth: nat, out: seq<string>)
    requires depth < MAX_BRACES
    ensures Combine(prefix, choices[|choices|..], suffix, depth, out) == out
  {
  }

  lemma CombineStep(prefix: string, choices: seq<string>, i: nat, suffix: string, depth: nat, out: seq<string>)
    requires depth < MAX_BRACES && i < |choices|
    ensures var more := out + BraceExpand(prefix + choices[i] + suffix, depth + 1);
            Combine(prefix, choices[i..], suffix, depth, out) ==
            if |more| >= MAX_WORDS then First(more) else Combine(prefix, choices[i + 1..], suffix, depth, more)
  {
    hide BraceExpand;
    assert choices[i..][0] == choices[i] && choices[i..][1..] == choices[i + 1..];
  }

  /** An array inside double quotes, element by element. */
  method SpliceElements(d: Splice, words: seq<string>) returns (e: Splice)
    ensures e == AddElements(d, words)
  {
    e := d.(spread := true);
    if words == [] {
      return;
    }
    e := e.(content := true, text := d.text + words[0]);
    var k := 1;
    ghost var whole := MoreElements(e, words[1..]);
    while k < |words|
      invariant 1 <= k <= |words| && MoreElements(e, words[k..]) == whole
    {
      assert words[k..][1..] == words[k + 1..];
      e := e.(parts := e.parts + [Part(e.text, true, false, e.opens)], text := words[k], opens := true);
      k := k + 1;
    }
  }

  method ReadDouble(env: Env, word: string, start: nat) returns (d: Splice, end: nat)
    requires start <= |word|
    ensures (d, end) == Double(env, word, start, NoSplice) && start <= end <= |word|
  {
    hide AddElements, Dollar;
    d, end := NoSplice, start;
    while end < |word| && !env.stopped
      invariant start <= end <= |word| && Double(env, word, end, d) == Double(env, word, start, NoSplice)
      decreases |word| - end
    {
      var c := word[end];
      if c == '"' {
        end := end + 1;
        return;
      } else if c == '\\' {
        if end + 1 == |word| {
          end := end + 1;
        } else if word[end + 1] in ['"', '\\', '$', '`'] {
          d, end := d.(text := d.text + [word[end + 1]]), end + 2;
        } else {
          d, end := d.(text := d.text + ['\\']), end + 1;
        }
      } else if c == '$' {
        var (value, more) := Dollar(env, word[end..], true);
        d := AddDollar(d, value);
        end := Min(end + 1 + more, |word|);
      } else if c == '`' {
        var stop := Find(word, end + 1, '`');
        d := d.(text := d.text + env.capture(word[end + 1..stop]), content := true);
        end := Min(stop + 1, |word|);
      } else {
        d, end := d.(text := d.text + [c], content := true), end + 1;
      }
    }
  }

  method AddDollar(d: Splice, value: Value) returns (e: Splice)
    ensures e == AddValue(d, value)
  {
    match value
    case Text(text) =>
      e := d.(text := d.text + text, content := true);
    case Elements(words) =>
      e := SpliceElements(d, words);
  }

  method ReadParts(env: Env, word: string) returns (parts: seq<Part>)
    ensures parts == ToParts(env, word)
  {
    hide Double, Dollar, SpliceParts, Appended, Find, Flushed;
    parts := [];
    var buf, glob := "", false;
    var i: nat := 0;
    if word != "" && word[0] == '~' && (|word| == 1 || word[1] == '/') {
      buf, i := env.home, 1;
    }
    while i < |word| && !env.stopped
      invariant i <= |word| && Parts(env, word, i, buf, glob, parts) == ToParts(env, word)
      decreases |word| - i
    {
      var c := word[i];
      if c == '\\' {
        if i + 1 == |word| {
          i := i + 1;
        } else {
          buf, i := buf + [word[i + 1]], i + 2;
        }
      } else if c == '\'' || c == '"' {
        parts := Flushed(parts, buf, glob);
        var end: nat;
        if c == '\'' {
          var stop := Find(word, i + 1, '\'');
          parts := parts + [Part(word[i + 1..stop], true, false, false)];
          end := Min(stop + 1, |word|);
        } else {
          var d;
          d, end := ReadDouble(env, word, i + 1);
          parts := parts + SpliceParts(d);
        }
        glob := if buf == "" then glob else false;
        buf, i := "", end;
      } else if c == '$' {
        var (value, more) := Dollar(env, word[i..], false);
        buf, i := Appended(buf, value), Min(i + 1 + more, |word|);
      } else if c == '`' {
        var stop := Find(word, i + 1, '`');
        buf, i := buf + env.capture(word[i + 1..stop]), Min(stop + 1, |word|);
      } else {
        buf, glob, i := buf + [c], glob || c in ['*', '?', '['], i + 1;
      }
    }
    parts := Flushed(parts, buf, glob);
  }

  method AssembleFields(env: Env, parts: seq<Part>, split: bool) returns (out: seq<string>)
    ensures out == Assemble(env, parts, split)
  {
    hide SplitChar, Globbed;
    var f := NoFields;
    var i := 0;
    while i < |parts|
      invariant i <= |parts| && AddParts(env.ifs, f, parts[i..], split) == AddParts(env.ifs, NoFields, parts, split)
    {
      var p := parts[i];
      assert parts[i..][1..] == parts[i + 1..];
      ghost var after := AddPart(env.ifs, f, p, split);
      if p.opens && f.started {
        f := Fields(f.done + [(f.open, f.glob)], "", false, false, false);
      }
      if p.quoted || !split {
        f := f.(open := f.open + p.text, started := true, afterBlank := false, glob := f.glob || (p.glob && !p.quoted));
      } else {
        ghost var whole := SplitText(env.ifs, f, p.text);
        var j := 0;
        while j < |p.text|
          invariant j <= |p.text| && SplitText(env.ifs, f, p.text[j..]) == whole
        {
          assert p.text[j..][1..] == p.text[j + 1..];
          f := SplitChar(env.ifs, f, p.text[j]);
          j := j + 1;
        }
        f := f.(glob := f.glob || p.glob);
      }
      assert f == after;
      i := i + 1;
    }
    var fields := Collected(f);
    out := [];
    i := 0;
    while i < |fields|
      invariant i <= |fields| && out + Globbed(env, fields[i..], split) == Globbed(env, fields, split)
    {
      GlobStep(env, fields, i, split);
      out := out + if split && fields[i].1 then env.glob(fields[i].0) else [fields[i].0];
      i := i + 1;
    }
    GlobStep(env, fields, i, split);
  }

  lemma GlobStep(env: Env, fields: seq<(string, bool)>, i: nat, split: bool)
    requires i <= |fields|
    ensures Globbed(env, fields[i..], split) ==
            if i == |fields| then []
            else (if split && fields[i].1 then env.glob(fields[i].0) else [fields[i].0]) +
                 Globbed(env, fields[i + 1..], split)
  {
    if i < |fields| {
      assert fields[i..][1..] == fields[i + 1..];
    }
  }

  /** A word expanded into fields: its braces first, then each of the words that come of them. */
  method ExpandFields(env: Env, word: string, split: bool) returns (out: seq<string>)
    ensures out == ExpandWord(env, word, split)
  {
    hide BraceExpand, ToParts, Assemble;
    out := [];
    var words := ExpandBraces(word, 0);
    var i := 0;
    assert words[0..] == words;
    while i < |words|
      invariant i <= |words| && out + ExpandEach(env, words[i..], split) == ExpandEach(env, words, split)
    {
      assert words[i..][0] == words[i] && words[i..][1..] == words[i + 1..];
      var parts := ReadParts(env, words[i]);
      var fields := AssembleFields(env, parts, split);
      assert out + (fields + ExpandEach(env, words[i + 1..], split)) ==
             out + fields + ExpandEach(env, words[i + 1..], split);
      out := out + fields;
      i := i + 1;
    }
  }
}
