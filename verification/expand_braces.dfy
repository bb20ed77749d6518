// Brace expansion: comma lists and ranges, bounded in nesting and in the number of words.

module BraceExpansion {
  import opened Basics
  import opened ArithNumbers
  import opened ArithGrammar

  const MAX_BRACES: nat := 8
  const MAX_WORDS: nat := 1024

  // ----- The scan -----

  /** The first brace that is neither quoted nor escaped nor part of a parameter. */
  function OpenBrace(word: string, i: nat, quote: Option<char>, escaped: bool): (r: Option<nat>)
    requires i <= |word|
    ensures r.Some? ==> i <= r.value < |word|
    decreases |word| - i
  {
    if i == |word| then None
    else
      var c := word[i];
      if escaped then OpenBrace(word, i + 1, quote, false)
      else if c == '\\' then OpenBrace(word, i + 1, quote, true)
      else if c == '\'' || c == '"' then OpenBrace(word, i + 1, Quoting(quote, c), false)
      else if c == '{' && quote.None? && (i == 0 || word[i - 1] != '$') then Some(i)
      else OpenBrace(word, i + 1, quote, false)
  }

  /** The quoting state behind a quote character. */
  function Quoting(quote: Option<char>, c: char): Option<char> {
    if quote == Some(c) then None else if quote.None? then Some(c) else quote
  }

  function CloseBrace(word: string, i: nat, nested: nat): (r: Option<nat>)
    requires i <= |word|
    ensures r.Some? ==> i <= r.value < |word|
    decreases |word| - i
  {
    if i == |word| then None
    else if word[i] == '{' then CloseBrace(word, i + 1, nested + 1)
    else if word[i] == '}' then (if nested == 0 then Some(i) else CloseBrace(word, i + 1, nested - 1))
    else CloseBrace(word, i + 1, nested)
  }

  /** The parts of a brace body between its outer commas; nothing when there is none. */
  function Commas(inner: string, i: nat, start: nat, depth: nat, parts: seq<string>): seq<string>
    requires start <= i <= |inner|
    decreases |inner| - i
  {
    if i == |inner| then (if parts == [] then [] else parts + [inner[start..]])
    else if inner[i] == '{' then Commas(inner, i + 1, start, depth + 1, parts)
    else if inner[i] == '}' then Commas(inner, i + 1, start, if depth == 0 then 0 else depth - 1, parts)
    else if inner[i] == ',' && depth == 0 then Commas(inner, i + 1, i + 1, depth, parts + [inner[start..i]])
    else Commas(inner, i + 1, start, depth, parts)
  }

  // ----- Ranges -----

  /** The pieces of a text between pairs of dots, the pairs read from the left. */
  function DotSplit(s: string, start: nat, i: nat): (pieces: seq<string>)
    requires start <= i <= |s|
    ensures |pieces| >= 1
    decreases |s| - i
  {
    if i + 1 >= |s| then [s[start..]]
    else if s[i] == '.' && s[i + 1] == '.' then [s[start..i]] + DotSplit(s, i + 2, i + 2)
    else DotSplit(s, start, i + 1)
  }

  /** The step a third piece gives: a number other than zero. */
  function GivenStep(pieces: seq<string>): (step: Option<i64>)
    ensures step.Some? ==> step.value != 0
  {
    if |pieces| < 3 || ParseI64(pieces[2]) == Some(0) then None else ParseI64(pieces[2])
  }

  function StepOr(step: Option<i64>, start: int, end: int): (s: i64)
    requires step.Some? ==> step.value != 0
    ensures s != 0
  {
    if step.Some? then step.value else if start <= end then 1 else -1
  }

  function Sign(x: int): int {
    if x < 0 then -1 else if x == 0 then 0 else 1
  }

  function Clamp(x: int): i64 {
    if x < I64_MIN then I64_MIN else if x > I64_MAX then I64_MAX else x
  }

  function WithoutDashes(s: string): string {
    if s != "" && s[0] == '-' then WithoutDashes(s[1..]) else s
  }

  function Wider(x: string, y: string): nat {
    if |x| >= |y| then |x| else |y|
  }

  function Abs(x: int): nat {
    if x < 0 then -x else x
  }

  /** A number behind its sign, filled with zeros up to a width. */
  function Label(value: i64, width: nat): string {
    var digits := Decimal(Abs(value));
    (if value < 0 then "-" else "") + seq(if |digits| < width then width - |digits| else 0, _ => '0') + digits
  }

  predicate Reaches(value: int, end: int, step: int) {
    if step > 0 then value <= end else value >= end
  }

  function Numbers(value: i64, end: i64, step: i64, width: nat, left: nat): seq<string>
    decreases left
  {
    if left == 0 || !Reaches(value, end, step) then []
    else [Label(value, width)] + Numbers(Clamp(value + step), end, step, width, left - 1)
  }

  /** The numbers of a range; none when the step leads away from the end. The difference wraps. */
  function NumberRange(start: i64, end: i64, step: i64, width: nat): seq<string> {
    if Sign(Wrap(end - start)) != Sign(step) && start != end then [] else Numbers(start, end, step, width, MAX_WORDS)
  }

  predicate IsScalar(value: int) {
    0 <= value < 0xD800 || 0xE000 <= value < 0x11_0000
  }

  /** The characters of a range; a code point that is no character is passed over. */
  function Letters(value: i64, end: i64, step: i64, left: nat): seq<string>
    requires step != 0 && 0 <= end < 0x11_0000 && (step > 0 ==> value >= 0)
    decreases if step > 0 then end - value else value - end
  {
    if left == 0 || !Reaches(value, end, step) then []
    else if IsScalar(value) then [[value as char]] + Letters(Clamp(value + step), end, step, left - 1)
    else Letters(Clamp(value + step), end, step, left)
  }

  function Range(inner: string): seq<string> {
    var pieces := DotSplit(inner, 0, 0);
    if |pieces| < 2 || |pieces| > 3 then []
    else
      var step := GivenStep(pieces);
      var start, end := ParseI64(pieces[0]), ParseI64(pieces[1]);
      if start.Some? && end.Some? then
        NumberRange(start.value, end.value, StepOr(step, start.value, end.value),
                    Wider(WithoutDashes(pieces[0]), WithoutDashes(pieces[1])))
      else if |pieces[0]| == 1 && |pieces[1]| == 1 then
        var from, to := pieces[0][0] as int, pieces[1][0] as int;
        Letters(from, to, StepOr(step, from, to), MAX_WORDS)
      else []
  }

  // ----- Words -----

  function Alternatives(inner: string): seq<string> {
    var parts := Commas(inner, 0, 0, 0, []);
    if |parts| > 1 then parts else Range(inner)
  }

  function First(words: seq<string>): seq<string> {
    if |words| > MAX_WORDS then words[..MAX_WORDS] else words
  }

  function BraceExpand(word: string, depth: nat): seq<string>
    decreases MAX_BRACES - depth, 1, 0
  {
    if depth >= MAX_BRACES then [word]
    else
      var open := OpenBrace(word, 0, None, false);
      if open.None? then [word]
      else
        var close := CloseBrace(word, open.value + 1, 0);
        if close.None? then [word]
        else
          var choices := Alternatives(word[open.value + 1..close.value]);
          if choices == [] then [word]
          else Combine(word[..open.value], First(choices), word[close.value + 1..], depth, [])
  }

  function Combine(prefix: string, choices: seq<string>, suffix: string, depth: nat, out: seq<string>): seq<string>
    requires depth < MAX_BRACES
    decreases MAX_BRACES - depth, 0, |choices|
  {
    if choices == [] then out
    else
      var more := out + BraceExpand(prefix + choices[0] + suffix, depth + 1);
      if |more| >= MAX_WORDS then First(more) else Combine(prefix, choices[1..], suffix, depth, more)
  }

  // ----- What is promised of it -----

  /** The number `k` steps from `value`, held inside 64 bits. */
  function Term(value: i64, step: i64, k: nat): i64 {
    Clamp(value + k * step)
  }

  /** Term by term: the numbers of a range run from its start by its step as far as the end or the word
      limit, and no further. */
  lemma {:induction false} NumbersAt(value: i64, end: i64, step: i64, width: nat, left: nat, k: nat)
    requires step != 0
    ensures k < |Numbers(value, end, step, width, left)| <==> k < left && Reaches(Term(value, step, k), end, step)
    ensures k < |Numbers(value, end, step, width, left)| ==>
              Numbers(value, end, step, width, left)[k] == Label(Term(value, step, k), width)
    decreases k
  {
    hide Term, Label, Reaches;
    TermSteps(value, step, k);
    if k > 0 {
      if left > 0 && Reaches(value, end, step) {
        NumbersAt(Clamp(value + step), end, step, width, left - 1, k - 1);
      } else if left > 0 {
        NeverBack(value, end, step, k);
      }
    }
  }

  lemma TermSteps(value: i64, step: i64, k: nat)
    requires step != 0
    ensures Term(value, step, k) == if k == 0 then value else Term(Clamp(value + step), step, k - 1)
  {
    if k > 0 {
      assert k * step == step + (k - 1) * step;
      SameSign(k - 1, step);
    }
  }

  lemma SameSign(k: nat, step: int)
    ensures if step > 0 then k * step >= 0 else k * step <= 0
  {
  }

  lemma NeverBack(value: i64, end: i64, step: i64, k: nat)
    requires step != 0 && !Reaches(value, end, step)
    ensures !Reaches(Term(value, step, k), end, step)
  {
    SameSign(k, step);
  }

  /** However braces nest, a word expands to at least one word and to no more than the limit. */
  lemma {:induction false} BracesBounded(word: string, depth: nat)
    ensures 1 <= |BraceExpand(word, depth)| <= MAX_WORDS
    decreases MAX_BRACES - depth, 1, 0
  {
    hide OpenBrace, CloseBrace, Alternatives;
    if depth < MAX_BRACES {
      var open := OpenBrace(word, 0, None, false);
      if open.Some? {
        var close := CloseBrace(word, open.value + 1, 0);
        if close.Some? {
          var choices := Alternatives(word[open.value + 1..close.value]);
          if choices != [] {
            CombineBounded(word[..open.value], First(choices), word[close.value + 1..], depth, []);
          }
        }
      }
    }
  }

  lemma {:induction false} CombineBounded(prefix: string, choices: seq<string>, suffix: string, depth: nat,
                                          out: seq<string>)
    requires depth < MAX_BRACES && |out| < MAX_WORDS && (out != [] || choices != [])
    ensures 1 <= |Combine(prefix, choices, suffix, depth, out)| <= MAX_WORDS
    ensures out != [] ==> Combine(prefix, choices, suffix, depth, out)[0] == out[0]
    decreases MAX_BRACES - depth, 0, |choices|
  {
    hide BraceExpand;
    if choices != [] {
      var word := prefix + choices[0] + suffix;
      BracesBounded(word, depth + 1);
      var more := out + BraceExpand(word, depth + 1);
      if |more| < MAX_WORDS {
        CombineBounded(prefix, choices[1..], suffix, depth, more);
      }
    }
  }
}
