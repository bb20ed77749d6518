// Route patterns: `*` stands for any text. The matcher splits the pattern at its stars and takes
// each middle part at its first occurrence; that decides exactly the patterns' meaning.

module RouteGlob {
  import opened Basics

  /** The meaning of a pattern: some choice of text for every star turns it into the text. */
  predicate Denotes(pattern: string, text: string)
    decreases |pattern|
  {
    if pattern == "" then text == ""
    else if pattern[0] == '*' then exists k | 0 <= k <= |text| :: Denotes(pattern[1..], text[k..])
    else text != "" && text[0] == pattern[0] && Denotes(pattern[1..], text[1..])
  }

  /** The parts of a pattern between its stars. */
  function Split(pattern: string): (parts: seq<string>)
    ensures |parts| >= 1
  {
    if pattern == "" then [""]
    else
      var rest := Split(pattern[1..]);
      if pattern[0] == '*' then [""] + rest else [[pattern[0]] + rest[0]] + rest[1..]
  }

  predicate StartsWith(text: string, part: string) {
    part <= text
  }

  predicate EndsWith(text: string, part: string) {
    |part| <= |text| && text[|text| - |part|..] == part
  }

  /** The first position from `from` on where a part occurs. */
  function FindFrom(text: string, part: string, from: nat): (r: Option<nat>)
    requires from <= |text|
    ensures r.Some? ==> from <= r.value <= |text| && StartsWith(text[r.value..], part)
    ensures forall k :: from <= k <= |text| && StartsWith(text[k..], part) ==> r.Some? && r.value <= k
    decreases |text| - from
  {
    if StartsWith(text[from..], part) then Some(from)
    else if from == |text| then None
    else FindFrom(text, part, from + 1)
  }

  /** The parts behind a star: each occurs somewhere after the one before, the last at the end. */
  predicate Follow(parts: seq<string>, text: string)
    requires |parts| >= 1
    decreases |parts|, 1
  {
    if |parts| == 1 then EndsWith(text, parts[0]) else exists k: nat | k <= |text| :: Placed(parts, text, k)
  }

  /** A place where the first of several parts occurs and the others follow. */
  predicate Placed(parts: seq<string>, text: string, k: nat)
    requires |parts| > 1
    decreases |parts|, 0
  {
    k + |parts[0]| <= |text| && StartsWith(text[k..], parts[0]) && Follow(parts[1..], text[k + |parts[0]|..])
  }

  /** The same with every middle part taken at its first occurrence. */
  predicate Greedy(parts: seq<string>, text: string)
    requires |parts| >= 1
    decreases |parts|
  {
    if |parts| == 1 then EndsWith(text, parts[0])
    else
      var found := FindFrom(text, parts[0], 0);
      found.Some? && Greedy(parts[1..], text[found.value + |parts[0]|..])
  }

  lemma FollowPlace(parts: seq<string>, text: string) returns (k: nat)
    requires |parts| > 1 && Follow(parts, text)
    ensures Placed(parts, text, k)
  {
    k :| k <= |text| && Placed(parts, text, k);
  }

  lemma PlaceFollow(parts: seq<string>, text: string, k: nat)
    requires |parts| > 1 && Placed(parts, text, k)
    ensures Follow(parts, text)
  {
  }

  lemma FollowOne(parts: seq<string>, text: string)
    requires |parts| == 1
    ensures Follow(parts, text) <==> EndsWith(text, parts[0])
  {
  }

  /** What follows a star also follows with more text in front. */
  lemma FollowLater(parts: seq<string>, text: string, k: nat)
    requires |parts| >= 1 && k <= |text| && Follow(parts, text[k..])
    ensures Follow(parts, text)
  {
    hide Follow;
    if |parts| > 1 {
      var j := FollowPlace(parts, text[k..]);
      assert text[k..][j..] == text[k + j..];
      assert text[k..][j + |parts[0]|..] == text[k + j + |parts[0]|..];
      PlaceFollow(parts, text, k + j);
    } else {
      FollowOne(parts, text[k..]);
      FollowOne(parts, text);
      assert text[k..][|text[k..]| - |parts[0]|..] == text[|text| - |parts[0]|..];
    }
  }

  /** Taking the first occurrence never loses a match. */
  lemma {:induction false} GreedySuffices(parts: seq<string>, text: string)
    requires |parts| >= 1
    ensures Greedy(parts, text) <==> Follow(parts, text)
    decreases |parts|
  {
    hide Follow, Greedy;
    if |parts| == 1 {
      FollowOne(parts, text);
      GreedyLast(parts, text);
    } else {
      var found := FindFrom(text, parts[0], 0);
      GreedyMiddle(parts, text);
      if found.Some? {
        GreedySuffices(parts[1..], text[found.value + |parts[0]|..]);
        if Greedy(parts, text) {
          PlaceFollow(parts, text, found.value);
        }
      }
      if Follow(parts, text) {
        var k := FollowPlace(parts, text);
        var rest := text[found.value + |parts[0]|..];
        assert rest[k - found.value..] == text[k + |parts[0]|..];
        FollowLater(parts[1..], rest, k - found.value);
      }
    }
  }

  /** A pattern's meaning in terms of its parts. */
  predicate Parted(parts: seq<string>, text: string)
    requires |parts| >= 1
  {
    if |parts| == 1 then text == parts[0] else StartsWith(text, parts[0]) && Follow(parts[1..], text[|parts[0]|..])
  }

  lemma {:induction false} PartsDenote(pattern: string, text: string)
    ensures Denotes(pattern, text) <==> Parted(Split(pattern), text)
    decreases |pattern|
  {
    if pattern != "" {
      var rest := Split(pattern[1..]);
      if pattern[0] == '*' {
        StarDenotes(pattern, text);
        assert Split(pattern)[1..] == rest && text[0..] == text;
      } else {
        LetterParts(pattern, text);
        if text != "" {
          PartsDenote(pattern[1..], text[1..]);
        }
      }
    }
  }

  /** A star before a pattern is a first part at some position. */
  lemma StarDenotes(pattern: string, text: string)
    requires pattern != "" && pattern[0] == '*'
    ensures Denotes(pattern, text) <==> Follow(Split(pattern[1..]), text)
    decreases |pattern|, 0
  {
    var rest := Split(pattern[1..]);
    forall k | 0 <= k <= |text|
      ensures Denotes(pattern[1..], text[k..]) <==> Parted(rest, text[k..])
    {
      PartsDenote(pattern[1..], text[k..]);
    }
    forall k | 0 <= k <= |text|
      ensures Parted(rest, text[k..]) ==> Follow(rest, text)
    {
      if Parted(rest, text[k..]) {
        PlacedFollows(rest, text, k);
      }
    }
    if Follow(rest, text) {
      FollowsPlaced(rest, text);
    }
  }

  lemma PlacedFollows(parts: seq<string>, text: string, k: nat)
    requires |parts| >= 1 && k <= |text| && Parted(parts, text[k..])
    ensures Follow(parts, text)
  {
    hide Follow;
    if |parts| > 1 {
      assert text[k..][|parts[0]|..] == text[k + |parts[0]|..];
      PlaceFollow(parts, text, k);
    } else {
      FollowOne(parts, text);
      assert k == |text| - |parts[0]|;
    }
  }

  lemma FollowsPlaced(parts: seq<string>, text: string)
    requires |parts| >= 1 && Follow(parts, text)
    ensures exists k | 0 <= k <= |text| :: Parted(parts, text[k..])
  {
    hide Follow;
    if |parts| > 1 {
      var k := FollowPlace(parts, text);
      assert text[k..][|parts[0]|..] == text[k + |parts[0]|..];
      assert Parted(parts, text[k..]);
    } else {
      FollowOne(parts, text);
      assert Parted(parts, text[|text| - |parts[0]|..]);
    }
  }

  lemma LetterParts(pattern: string, text: string)
    requires pattern != "" && pattern[0] != '*'
    ensures Parted(Split(pattern), text) <==>
            text != "" && text[0] == pattern[0] && Parted(Split(pattern[1..]), text[1..])
  {
    var rest := Split(pattern[1..]);
    var parts := Split(pattern);
    assert parts[1..] == rest[1..] && parts[0] == [pattern[0]] + rest[0];
    if text != "" {
      assert text == [text[0]] + text[1..];
      assert StartsWith(text, parts[0]) <==> text[0] == pattern[0] && StartsWith(text[1..], rest[0]);
      if StartsWith(text[1..], rest[0]) {
        assert text[1..][|rest[0]|..] == text[|parts[0]|..];
      }
    }
  }

  lemma {:induction false} OnePart(pattern: string)
    ensures |Split(pattern)| == 1 <==> '*' !in pattern
    ensures |Split(pattern)| == 1 ==> Split(pattern) == [pattern]
  {
    if pattern != "" {
      OnePart(pattern[1..]);
      assert pattern == [pattern[0]] + pattern[1..];
    }
  }

  lemma {:induction false} DenotesItself(pattern: string)
    ensures Denotes(pattern, pattern)
  {
    if pattern != "" {
      DenotesItself(pattern[1..]);
      if pattern[0] == '*' {
        assert pattern[1..] == pattern[1..];
        assert Denotes(pattern[1..], pattern[1..]);
      }
    }
  }

  /** The matcher: exact text first, then the parts from left to right. */
  method PatternMatches(pattern: string, text: string) returns (matches: bool)
    ensures matches <==> Denotes(pattern, text)
  {
    hide Denotes, Split, Follow, Greedy;
    if pattern == text {
      DenotesItself(pattern);
      return true;
    }
    OnePart(pattern);
    PartsDenote(pattern, text);
    if '*' !in pattern {
      return false;
    }
    var parts := Split(pattern);
    var pos: nat := 0;
    var i := 0;
    while i < |parts|
      invariant i <= |parts| && pos <= |text|
      invariant i == 0 ==> pos == 0
      invariant 0 < i < |parts| ==> (Denotes(pattern, text) <==> Greedy(parts[i..], text[pos..]))
      invariant i == |parts| ==> Denotes(pattern, text)
    {
      var part := parts[i];
      if i == 0 {
        assert text[0..] == text;
        if !StartsWith(text[pos..], part) {
          return false;
        }
        pos := pos + |part|;
        GreedySuffices(parts[1..], text[pos..]);
      } else if i == |parts| - 1 {
        GreedyLast(parts[i..], text[pos..]);
        if !EndsWith(text[pos..], part) {
          return false;
        }
      } else {
        GreedyMiddle(parts[i..], text[pos..]);
        var found := FindFrom(text[pos..], part, 0);
        if found.None? {
          return false;
        }
        assert parts[i..][1..] == parts[i + 1..];
        assert text[pos..][found.value + |part|..] == text[pos + found.value + |part|..];
        pos := pos + found.value + |part|;
      }
      i := i + 1;
    }
    return true;
  }

  lemma GreedyLast(parts: seq<string>, text: string)
    requires |parts| == 1
    ensures Greedy(parts, text) <==> EndsWith(text, parts[0])
  {
  }

  lemma GreedyMiddle(parts: seq<string>, text: string)
    requires |parts| > 1
    ensures var found := FindFrom(text, parts[0], 0);
            Greedy(parts, text) <==> found.Some? && Greedy(parts[1..], text[found.value + |parts[0]|..])
  {
  }
}
