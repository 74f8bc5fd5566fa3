/** The wildcard matcher behind per-module log levels (vlog_is_on.cc). */
module Glob {

  // ---------------------------------------------------------------------------------
  // What a pattern means
  // ---------------------------------------------------------------------------------

  /** A star stands for any text, a question mark for any one character. */
  predicate Matches(pattern: string, text: string) {
    if pattern == "" then text == ""
    else if pattern[0] == '*' then exists k :: 0 <= k <= |text| && Matches(pattern[1..], text[k..])
    else text != "" && (pattern[0] == '?' || pattern[0] == text[0]) && Matches(pattern[1..], text[1..])
  }

  predicate Starless(s: string) {
    '*' !in s
  }

  predicate AllStars(pattern: string) {
    forall i :: 0 <= i < |pattern| ==> pattern[i] == '*'
  }

  predicate EndsInTwoStars(pattern: string) {
    |pattern| >= 2 && pattern[|pattern| - 1] == '*' && pattern[|pattern| - 2] == '*'
  }

  // ---------------------------------------------------------------------------------
  // The matcher
  // ---------------------------------------------------------------------------------

  /** The answer of the code, branch by branch. A character equal to the one in the pattern is consumed before
      stars are looked at, and a star tries only non-empty rests of the text. */
  predicate Accepts(pattern: string, text: string) {
    if pattern == "" then text == ""
    else if text == "" then pattern == "*"
    else if pattern[0] == text[0] || pattern[0] == '?' then Accepts(pattern[1..], text[1..])
    else if pattern[0] == '*' then pattern == "*" || exists k :: 0 <= k < |text| && Accepts(pattern[1..], text[k..])
    else false
  }

  /** SafeFNMatch_. */
  method SafeFNMatch(pattern: string, str: string) returns (r: bool)
    ensures r == Accepts(pattern, str)
    ensures r <==> exists cuts :: AreCuts(pattern, str, cuts)
    ensures r ==> Matches(pattern, str)
    ensures Starless(str) ==> (r <==> Matches(Effective(pattern), str))
    decreases |pattern|, 0
  {
    AcceptsOnlyMatches(pattern, str);
    AcceptsExactlyCuts(pattern, str);
    if Starless(str) {
      AcceptsExactly(pattern, str);
    }
    var p, s := 0, 0;
    while true
      invariant 0 <= p <= |pattern| && 0 <= s <= |str|
      invariant Accepts(pattern, str) == Accepts(pattern[p..], str[s..])
      decreases |pattern| - p
    {
      if p == |pattern| && s == |str| {
        return true;
      }
      if p == |pattern| {
        return false;
      }
      if s == |str| {
        return p + 1 == |pattern| && pattern[p] == '*';
      }
      assert pattern[p..][1..] == pattern[p + 1..];
      if pattern[p] == str[s] || pattern[p] == '?' {
        assert str[s..][1..] == str[s + 1..];
        p := p + 1;
        s := s + 1;
        continue;
      }
      if pattern[p] == '*' {
        if p + 1 == |pattern| {
          return true;
        }
        r := TryRests(pattern[p + 1..], str[s..]);
        return r;
      }
      return false;
    }
  }

  /** The do-while loop over the rests of the text at a star. */
  method TryRests(pattern: string, str: string) returns (r: bool)
    requires str != ""
    ensures r <==> exists k :: 0 <= k < |str| && Accepts(pattern, str[k..])
    decreases |pattern|, 1
  {
    var s := 0;
    r := SafeFNMatch(pattern, str[s..]);
    while !r && s + 1 != |str|
      invariant 0 <= s < |str|
      invariant forall k :: 0 <= k < s ==> !Accepts(pattern, str[k..])
      invariant r == Accepts(pattern, str[s..])
      decreases |str| - s
    {
      s := s + 1;
      r := SafeFNMatch(pattern, str[s..]);
    }
  }

  // ---------------------------------------------------------------------------------
  // Soundness
  // ---------------------------------------------------------------------------------

  lemma StarSkips(pattern: string, text: string, k: nat)
    requires pattern != "" && pattern[0] == '*' && k <= |text| && Matches(pattern[1..], text[k..])
    ensures Matches(pattern, text)
  {
  }

  /** Whatever is accepted matches, on all inputs. */
  lemma {:induction false} AcceptsOnlyMatches(pattern: string, text: string)
    ensures Accepts(pattern, text) ==> Matches(pattern, text)
    decreases |pattern|
  {
    if pattern != "" && Accepts(pattern, text) {
      if text == "" {
        StarSkips(pattern, text, 0);
      } else if pattern[0] == text[0] || pattern[0] == '?' {
        AcceptsOnlyMatches(pattern[1..], text[1..]);
        if pattern[0] == '*' {
          StarSkips(pattern, text, 1);
        }
      } else if pattern == "*" {
        StarSkips(pattern, text, |text|);
      } else {
        var k :| 0 <= k < |text| && Accepts(pattern[1..], text[k..]);
        AcceptsOnlyMatches(pattern[1..], text[k..]);
        StarSkips(pattern, text, k);
      }
    }
  }

  // ---------------------------------------------------------------------------------
  // What is accepted among texts without a star
  // ---------------------------------------------------------------------------------

  function WithoutLastStars(pattern: string): string {
    if pattern != "" && pattern[|pattern| - 1] == '*' then WithoutLastStars(pattern[..|pattern| - 1]) else pattern
  }

  /** The pattern that the code follows: two or more stars at the end ask for at least one character. */
  function Effective(pattern: string): string {
    if EndsInTwoStars(pattern) then WithoutLastStars(pattern) + "?*" else pattern
  }

  lemma {:induction false} LastStarsOfAll(pattern: string)
    requires AllStars(pattern)
    ensures WithoutLastStars(pattern) == ""
  {
    if pattern != "" {
      LastStarsOfAll(pattern[..|pattern| - 1]);
    }
  }

  lemma {:induction false} LastStarsOfRest(pattern: string)
    requires !AllStars(pattern)
    ensures pattern[0] != '*' && AllStars(pattern[1..]) ==> WithoutLastStars(pattern) == [pattern[0]]
    ensures !AllStars(pattern[1..]) ==> WithoutLastStars(pattern) == [pattern[0]] + WithoutLastStars(pattern[1..])
    decreases |pattern|
  {
    var n := |pattern| - 1;
    if pattern[n] == '*' {
      assert !AllStars(pattern[..n]);
      LastStarsOfRest(pattern[..n]);
      assert pattern[..n][1..] == pattern[1..][..n - 1];
    } else if n > 0 {
      assert pattern[1..][n - 1] == pattern[n];
    }
  }

  lemma EffectiveStep(pattern: string)
    requires !AllStars(pattern)
    ensures Effective(pattern) == [pattern[0]] + Effective(pattern[1..])
  {
    LastStarsOfRest(pattern);
    if AllStars(pattern[1..]) {
      LastStarsOfAll(pattern[1..]);
    }
  }

  lemma {:induction false} NeedsCharacter(pattern: string)
    requires !AllStars(pattern)
    ensures !Matches(pattern, "")
  {
    if pattern[0] == '*' {
      NeedsCharacter(pattern[1..]);
    }
  }

  lemma EffectiveNeedsCharacter(pattern: string)
    requires !AllStars(pattern) || |pattern| >= 2
    ensures !Matches(Effective(pattern), "")
  {
    var e := Effective(pattern);
    if EndsInTwoStars(pattern) {
      assert e[|e| - 2] == '?';
    }
    NeedsCharacter(e);
  }

  lemma {:induction false} StarsAccept(pattern: string, text: string)
    requires AllStars(pattern) && |pattern| >= 2 && Starless(text)
    ensures Accepts(pattern, text) <==> text != ""
    decreases |pattern|
  {
    if text != "" {
      assert text[0] in text;
      assert text[0..] == text;
      if |pattern| == 2 {
        assert Accepts(pattern[1..], text[0..]);
      } else {
        StarsAccept(pattern[1..], text);
        assert Accepts(pattern[1..], text[0..]);
      }
    }
  }

  lemma OneOrMore(text: string)
    ensures Matches("?*", text) <==> text != ""
  {
    assert "?*"[1..] == "*" && "*"[1..] == "";
    if text != "" {
      var rest := text[1..];
      assert rest[|rest|..] == "";
      StarSkips("*", rest, |rest|);
    }
  }

  /** For a text without a star, the code accepts exactly what the effective pattern means. */
  lemma {:induction false} AcceptsExactly(pattern: string, text: string)
    requires Starless(text)
    ensures Accepts(pattern, text) <==> Matches(Effective(pattern), text)
    decreases |pattern|
  {
    if AllStars(pattern) {
      if |pattern| >= 2 {
        StarsAccept(pattern, text);
        LastStarsOfAll(pattern);
        assert Effective(pattern) == "?*";
        OneOrMore(text);
      } else if pattern != "" {
        assert pattern == "*";
        assert text[|text|..] == "";
        StarSkips(pattern, text, |text|);
        assert text != "" ==> text[0] in text;
      }
    } else {
      EffectiveStep(pattern);
      var e := Effective(pattern);
      assert e[1..] == Effective(pattern[1..]);
      if text == "" {
        EffectiveNeedsCharacter(pattern);
      } else {
        assert text[0] in text;
        if pattern[0] == '*' {
          StarStep(pattern, text);
        } else {
          AcceptsExactly(pattern[1..], text[1..]);
        }
      }
    }
  }

  lemma {:induction false} StarStep(pattern: string, text: string)
    requires Starless(text) && text != "" && !AllStars(pattern) && pattern[0] == '*'
    requires Effective(pattern) == [pattern[0]] + Effective(pattern[1..])
    ensures Accepts(pattern, text) <==> Matches(Effective(pattern), text)
    decreases |pattern|, 0
  {
    var e := Effective(pattern);
    assert text[0] in text;
    assert e[1..] == Effective(pattern[1..]);
    forall k | 0 <= k < |text|
      ensures Accepts(pattern[1..], text[k..]) <==> Matches(e[1..], text[k..])
    {
      AcceptsExactly(pattern[1..], text[k..]);
    }
    EffectiveNeedsCharacter(pattern[1..]);
    assert text[|text|..] == "";
  }

  // ---------------------------------------------------------------------------------
  // When the code meets the meaning
  // ---------------------------------------------------------------------------------

  /** The shortest text that a pattern matches. */
  function Shortest(pattern: string): string {
    if pattern == "" then ""
    else if pattern[0] == '*' then Shortest(pattern[1..])
    else [if pattern[0] == '?' then 'a' else pattern[0]] + Shortest(pattern[1..])
  }

  lemma {:induction false} ShortestMatches(pattern: string)
    ensures Matches(pattern, Shortest(pattern)) && Starless(Shortest(pattern))
  {
    if pattern != "" {
      ShortestMatches(pattern[1..]);
      if pattern[0] == '*' {
        assert Shortest(pattern)[0..] == Shortest(pattern);
        StarSkips(pattern, Shortest(pattern), 0);
      } else {
        assert Shortest(pattern)[1..] == Shortest(pattern[1..]);
      }
    }
  }

  lemma {:induction false} MatchesNoShorter(pattern: string, text: string)
    requires Matches(pattern, text)
    ensures |text| >= |Shortest(pattern)|
    decreases |pattern|
  {
    if pattern != "" {
      if pattern[0] == '*' {
        var k :| 0 <= k <= |text| && Matches(pattern[1..], text[k..]);
        MatchesNoShorter(pattern[1..], text[k..]);
      } else {
        MatchesNoShorter(pattern[1..], text[1..]);
      }
    }
  }

  lemma {:induction false} EffectiveIsLonger(pattern: string)
    requires EndsInTwoStars(pattern)
    ensures |Shortest(Effective(pattern))| > |Shortest(pattern)|
    decreases |pattern|
  {
    if AllStars(pattern) {
      LastStarsOfAll(pattern);
      ShortestOfStars(pattern);
      assert Effective(pattern) == "?*";
      assert |Shortest("?*")| == 1 + |Shortest("?*"[1..])|;
    } else {
      EffectiveStep(pattern);
      assert Effective(pattern)[1..] == Effective(pattern[1..]);
      assert EndsInTwoStars(pattern[1..]);
      EffectiveIsLonger(pattern[1..]);
    }
  }

  lemma {:induction false} ShortestOfStars(pattern: string)
    requires AllStars(pattern)
    ensures Shortest(pattern) == ""
  {
    if pattern != "" {
      ShortestOfStars(pattern[1..]);
    }
  }

  ghost predicate AgreesOnPlainText(pattern: string) {
    forall text :: Starless(text) ==> (Accepts(pattern, text) <==> Matches(pattern, text))
  }

  /** A pattern is matched correctly on all texts without a star if and only if it does not end in two stars. */
  lemma PatternIsRightExactlyWhen(pattern: string)
    ensures AgreesOnPlainText(pattern) <==> !EndsInTwoStars(pattern)
  {
    if EndsInTwoStars(pattern) {
      var text := Shortest(pattern);
      ShortestMatches(pattern);
      AcceptsExactly(pattern, text);
      if Matches(Effective(pattern), text) {
        MatchesNoShorter(Effective(pattern), text);
        EffectiveIsLonger(pattern);
      }
    } else {
      forall text | Starless(text)
        ensures Accepts(pattern, text) <==> Matches(pattern, text)
      {
        AcceptsExactly(pattern, text);
      }
    }
  }

  ghost predicate AgreesOnGoodPatterns(text: string) {
    forall pattern :: !EndsInTwoStars(pattern) ==> (Accepts(pattern, text) <==> Matches(pattern, text))
  }

  /** Characters that are the same are consumed together. */
  lemma {:induction false} CommonPrefix(prefix: string, pattern: string, text: string)
    requires Starless(prefix)
    ensures Accepts(prefix + pattern, prefix + text) == Accepts(pattern, text)
    ensures Matches(prefix + pattern, prefix + text) == Matches(pattern, text)
  {
    if prefix == "" {
      assert prefix + pattern == pattern && prefix + text == text;
    } else {
      CommonPrefix(prefix[1..], pattern, text);
      assert prefix[0] in prefix;
      assert (prefix + pattern)[1..] == prefix[1..] + pattern;
      assert (prefix + text)[1..] == prefix[1..] + text;
    }
  }

  /** A star in the text is consumed by a star of the pattern, which then stands for nothing else. */
  lemma StarEatsStar(rest: string)
    ensures |rest| == 1 ==> Matches("*", "*" + rest) && !Accepts("*", "*" + rest)
    ensures |rest| != 1 ==> Matches("*?", "*" + rest) && !Accepts("*?", "*" + rest)
  {
    var text := "*" + rest;
    assert text[1..] == rest && "*"[1..] == "" && "*?"[1..] == "?" && "?"[1..] == "";
    assert text[|text|..] == "";
    StarSkips("*", text, |text|);
    var last := text[|text| - 1..];
    assert last[1..] == "" && Matches("?", last);
    StarSkips("*?", text, |text| - 1);
    assert rest != "" ==> (Accepts("?", rest) <==> rest[1..] == "");
  }

  lemma FirstStar(text: string) returns (i: nat)
    requires !Starless(text)
    ensures i < |text| && text[i] == '*' && Starless(text[..i])
  {
    i := 0;
    while text[i] != '*'
      invariant i < |text| && Starless(text[..i])
      invariant '*' in text[i..]
      decreases |text| - i
    {
      i := i + 1;
      assert text[i - 1..] == [text[i - 1]] + text[i..];
      assert text[..i] == text[..i - 1] + [text[i - 1]];
    }
  }

  /** What precedes the first star, and a pattern that fails at the star. */
  lemma GoodPatternThatFails(text: string) returns (pattern: string)
    requires !Starless(text)
    ensures !EndsInTwoStars(pattern) && Matches(pattern, text) && !Accepts(pattern, text)
  {
    hide Matches, Accepts;
    var i := FirstStar(text);
    var rest := text[i + 1..];
    var end := if |rest| == 1 then "*" else "*?";
    pattern := text[..i] + end;
    assert text == text[..i] + ("*" + rest);
    CommonPrefix(text[..i], end, "*" + rest);
    StarEatsStar(rest);
    if i > 0 { assert text[..i][i - 1] in text[..i]; }
  }

  /** A text is matched correctly against all patterns that do not end in two stars if and only if it contains
      no star. */
  lemma TextIsRightExactlyWhen(text: string)
    ensures AgreesOnGoodPatterns(text) <==> Starless(text)
  {
    if Starless(text) {
      forall pattern | !EndsInTwoStars(pattern)
        ensures Accepts(pattern, text) <==> Matches(pattern, text)
      {
        AcceptsExactly(pattern, text);
      }
    } else {
      var pattern := GoodPatternThatFails(text);
    }
  }

  // ---------------------------------------------------------------------------------
  // What is accepted among all texts
  // ---------------------------------------------------------------------------------

  /** What character i of a pattern may stand for, from place a of the text to place b: a character or a question mark
      for one character; a star that comes upon a star for just that one; any other star for everything that is left
      if it is the last, and otherwise for anything that leaves a character. */
  predicate StandsFor(pattern: string, text: string, i: nat, a: nat, b: nat)
    requires i < |pattern| && a <= |text|
  {
    if pattern[i] != '*' then a < |text| && b == a + 1 && (pattern[i] == '?' || pattern[i] == text[a])
    else if a < |text| && text[a] == '*' then b == a + 1
    else if i + 1 == |pattern| then b == |text|
    else a <= b < |text|
  }

  /** Places that cut the text into what each character of the pattern stands for. */
  ghost predicate AreCuts(pattern: string, text: string, cuts: seq<nat>) {
    && |cuts| == |pattern| + 1 && cuts[0] == 0 && cuts[|pattern|] == |text|
    && (forall i :: 0 <= i < |cuts| ==> cuts[i] <= |text|)
    && (forall i :: 0 <= i < |pattern| ==> StandsFor(pattern, text, i, cuts[i], cuts[i + 1]))
  }

  lemma RestStandsFor(pattern: string, text: string, i: nat, k: nat, a: nat, b: nat)
    requires pattern != "" && i + 1 < |pattern| && k <= a <= |text| && k <= b
    ensures StandsFor(pattern, text, i + 1, a, b) <==> StandsFor(pattern[1..], text[k..], i, a - k, b - k)
  {
    if a < |text| { assert text[a] == text[k..][a - k]; }
  }

  /** Cuts for the rest of the pattern and the rest of the text, moved into place. */
  lemma FirstCut(pattern: string, text: string, k: nat, rest: seq<nat>) returns (cuts: seq<nat>)
    requires pattern != "" && k <= |text| && StandsFor(pattern, text, 0, 0, k) && AreCuts(pattern[1..], text[k..], rest)
    ensures AreCuts(pattern, text, cuts)
  {
    cuts := [0] + seq(|rest|, i requires 0 <= i < |rest| => k + rest[i]);
    forall i | 0 <= i < |pattern|
      ensures StandsFor(pattern, text, i, cuts[i], cuts[i + 1])
    {
      if i > 0 {
        assert StandsFor(pattern[1..], text[k..], i - 1, rest[i - 1], rest[i]);
        RestStandsFor(pattern, text, i - 1, k, cuts[i], cuts[i + 1]);
      }
    }
  }

  lemma {:induction false} CutsOfAccepted(pattern: string, text: string) returns (cuts: seq<nat>)
    requires Accepts(pattern, text)
    ensures AreCuts(pattern, text, cuts)
    decreases |pattern|
  {
    if pattern == "" {
      return [0];
    }
    var k, rest := 1, [];
    if text == "" || (pattern == "*" && text[0] != '*') {
      k, rest := |text|, [0];
    } else if pattern[0] == text[0] || pattern[0] == '?' {
      rest := CutsOfAccepted(pattern[1..], text[1..]);
    } else {
      k :| 0 <= k < |text| && Accepts(pattern[1..], text[k..]);
      rest := CutsOfAccepted(pattern[1..], text[k..]);
    }
    cuts := FirstCut(pattern, text, k, rest);
  }

  lemma {:induction false} CutsGrow(pattern: string, text: string, cuts: seq<nat>, i: nat)
    requires AreCuts(pattern, text, cuts) && 1 <= i < |cuts|
    ensures cuts[1] <= cuts[i]
  {
    if i > 1 {
      CutsGrow(pattern, text, cuts, i - 1);
      assert StandsFor(pattern, text, i - 1, cuts[i - 1], cuts[i]);
    }
  }

  lemma LaterCuts(pattern: string, text: string, cuts: seq<nat>) returns (rest: seq<nat>)
    requires pattern != "" && AreCuts(pattern, text, cuts)
    ensures cuts[1] <= |text| && AreCuts(pattern[1..], text[cuts[1]..], rest)
  {
    var k := cuts[1];
    forall i | 1 <= i < |cuts|
      ensures k <= cuts[i]
    {
      CutsGrow(pattern, text, cuts, i);
    }
    rest := seq(|pattern|, i requires 0 <= i < |pattern| => cuts[i + 1] - k);
    forall i | 0 <= i < |pattern| - 1
      ensures StandsFor(pattern[1..], text[k..], i, rest[i], rest[i + 1])
    {
      assert StandsFor(pattern, text, i + 1, cuts[i + 1], cuts[i + 2]);
      RestStandsFor(pattern, text, i, k, cuts[i + 1], cuts[i + 2]);
    }
  }

  lemma {:induction false} CutIsAccepted(pattern: string, text: string, cuts: seq<nat>)
    requires AreCuts(pattern, text, cuts)
    ensures Accepts(pattern, text)
    decreases |pattern|
  {
    if pattern != "" {
      assert StandsFor(pattern, text, 0, cuts[0], cuts[1]);
      var rest := LaterCuts(pattern, text, cuts);
      CutIsAccepted(pattern[1..], text[cuts[1]..], rest);
    }
  }

  /** For every pattern and every text: what is accepted is what can be cut up in that way. */
  lemma AcceptsExactlyCuts(pattern: string, text: string)
    ensures Accepts(pattern, text) <==> exists cuts :: AreCuts(pattern, text, cuts)
  {
    if Accepts(pattern, text) {
      var cuts := CutsOfAccepted(pattern, text);
    }
    if cuts :| AreCuts(pattern, text, cuts) {
      CutIsAccepted(pattern, text, cuts);
    }
  }
}
