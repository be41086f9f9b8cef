/** The pattern strings that the regular-expression exercises build before
    handing them to PCRE. Only the building is modelled: the user's words are
    spliced in verbatim, without escaping. */
module Patterns {
  import opened Text

  /** `matchesItself`: the string between slash delimiters. */
  function MatchesItselfPattern(s: string): (p: string)
    ensures |p| == |s| + 2
    ensures p[0] == '/' && p[|p| - 1] == '/' && p[1..|p| - 1] == s
  {
    "/" + s + "/"
  }

  /** `matchesItselfInquisitively`: the string followed by an escaped
      question mark. */
  function MatchesItselfInquisitivelyPattern(s: string): (p: string)
    ensures |p| == |s| + 4
    ensures p[0] == '/' && p[1..|s| + 1] == s && p[|s| + 1..] == "\\?/"
  {
    "/" + s + "\\?/"
  }

  /** `matchesPluralOptionally`: the string followed by an optional `s`. */
  function MatchesPluralOptionallyPattern(s: string): (p: string)
    ensures |p| == |s| + 4
    ensures p[0] == '/' && p[1..|s| + 1] == s && p[|s| + 1..] == "s?/"
  {
    "/" + s + "s?/"
  }

  const LinesPrefix: string := "/^.*\\b("
  const LinesSuffix: string := ")\\b.*$/m"

  /** `extractLinesThatMatchWords`: the words joined by `|` inside a
      multi-line pattern that matches a whole line containing one of them. */
  function ExtractLinesPattern(words: seq<string>): (p: string)
    ensures StartsWith(p, LinesPrefix)
    ensures |p| >= |LinesPrefix| + |LinesSuffix| && p[|p| - |LinesSuffix|..] == LinesSuffix
  {
    LinesPrefix + Implode("|", words) + LinesSuffix
  }

  /** The alternatives of the lines pattern are exactly the words, in order,
      when no word contains `|`: splitting them again gives the words back. */
  lemma ExtractLinesAlternatives(words: seq<string>)
    requires |words| > 0
    requires forall k :: 0 <= k < |words| ==> '|' !in words[k]
    ensures StartsWith(ExtractLinesPattern(words), LinesPrefix)
    ensures var p := ExtractLinesPattern(words);
      p[|p| - |LinesSuffix|..] == LinesSuffix
    ensures var p := ExtractLinesPattern(words);
      Split(p[|LinesPrefix|..|p| - |LinesSuffix|], '|') == words
  {
    var p := ExtractLinesPattern(words);
    var body := Implode("|", words);
    assert p[..|LinesPrefix|] == LinesPrefix;
    assert p[|LinesPrefix|..|p| - |LinesSuffix|] == body;
    SplitImplode(words, '|');
  }

  const CloseHead: string := "/\\b(?:"
  const CloseTail: string := ")\\b/"

  /** What `matchesWordsCloseToEachOther` puts after every word but the last:
      non-word characters, then at most `distance` further words, lazily. */
  function Gap(distance: int): (g: string)
    ensures StartsWith(g, "\\W+(?:\\w+\\W+){0,")
    ensures |g| >= 2 && g[|g| - 2..] == "}?"
  {
    "\\W+(?:\\w+\\W+){0," + IntText(distance) + "}?"
  }

  /** The pattern `matchesWordsCloseToEachOther` builds. */
  function CloseWordsPattern(words: seq<string>, distance: int): (p: string)
    ensures words == [] ==> p == CloseHead + CloseTail
    ensures |words| == 1 ==> p == CloseHead + words[0] + CloseTail
  {
    CloseHead + Implode(Gap(distance), words) + CloseTail
  }

  /** The concatenation of `w + gap` over `words`: the pattern body before the
      last word is appended. */
  function WithGaps(words: seq<string>, gap: string): string {
    if words == [] then "" else WithGaps(words[..|words| - 1], gap) + words[|words| - 1] + gap
  }

  /** Every word but the last followed by the gap, then the last word, is
      the words glued with the gap. */
  lemma {:induction false} ImplodeAsWithGaps(words: seq<string>, gap: string)
    requires |words| > 0
    ensures Implode(gap, words) == WithGaps(words[..|words| - 1], gap) + words[|words| - 1]
  {
    var n := |words|;
    if n > 1 {
      var init := words[..n - 1];
      ImplodeAsWithGaps(init, gap);
      assert init[..n - 2] == words[..n - 2];
      assert words[..n - 1][..n - 2] == words[..n - 2];
    } else {
      assert words[..0] == [];
    }
  }

  /** `matchesWordsCloseToEachOther`, pattern composition: the fixed head,
      the words with the gap after every word but the last, the fixed tail. */
  method CloseWordsPatternOf(words: seq<string>, distance: int) returns (pattern: string)
    ensures pattern == CloseWordsPattern(words, distance)
  {
    pattern := AppendWords(CloseHead, words, Gap(distance));
    pattern := pattern + CloseTail;
  }

  /** The `foreach` of `matchesWordsCloseToEachOther`: each word is appended
      with the gap after it, except the last word, which goes in bare. */
  method AppendWords(head: string, words: seq<string>, gap: string) returns (pattern: string)
    ensures pattern == head + Implode(gap, words)
  {
    var wordCount := |words|;
    pattern := head;
    var i := 0;
    while i < wordCount
      invariant 0 <= i <= wordCount
      invariant i < wordCount || i == 0 ==> pattern == head + WithGaps(words[..i], gap)
      invariant i == wordCount && wordCount > 0 ==> pattern == head + Implode(gap, words)
    {
      ghost var before := WithGaps(words[..i], gap);
      if i != wordCount - 1 {
        WithGapsSnoc(words, gap, i);
        pattern := pattern + words[i] + gap;
        assert pattern == head + (before + words[i] + gap);
      } else {
        ImplodeAsWithGaps(words, gap);
        pattern := pattern + words[i];
        assert pattern == head + (before + words[i]);
      }
      i := i + 1;
    }
    if wordCount == 0 {
      assert pattern == head + Implode(gap, words);
    }
  }

  /** One more word and its gap extend the gapped text. */
  lemma WithGapsSnoc(words: seq<string>, gap: string, i: nat)
    requires i < |words|
    ensures WithGaps(words[..i + 1], gap) == WithGaps(words[..i], gap) + words[i] + gap
  {
    assert words[..i + 1][..i] == words[..i];
  }

  /** The documented shape: for `foo`, `bar` and distance 5 the pattern is
      `/\b(?:foo\W+(?:\w+\W+){0,5}?bar)\b/`. */
  lemma CloseWordsExample()
    ensures CloseWordsPattern(["foo", "bar"], 5) == "/\\b(?:foo\\W+(?:\\w+\\W+){0,5}?bar)\\b/"
  {
    CloseTwoWords("foo", "bar", 5);
    GapFive();
    var gap := "\\W+(?:\\w+\\W+){0,5}?";
    assert CloseHead + "foo" == "/\\b(?:foo";
    assert CloseHead + "foo" + gap == "/\\b(?:foo\\W+(?:\\w+\\W+){0,5}?";
    assert "bar" + CloseTail == "bar)\\b/";
  }

  lemma GapFive()
    ensures Gap(5) == "\\W+(?:\\w+\\W+){0,5}?"
  {
    assert NatText(5) == [DigitChar(5)];
  }

  /** Two words: the first, the gap, the second, between head and tail. */
  lemma CloseTwoWords(a: string, b: string, distance: int)
    ensures CloseWordsPattern([a, b], distance) == CloseHead + a + Gap(distance) + b + CloseTail
  {
    var gap := Gap(distance);
    ImplodeFront(gap, [a, b]);
    assert [a, b][1..] == [b];
  }

  /** The pattern opens with the head and closes with the tail, and its
      length is that of the words plus the fixed fragments: nothing is
      escaped or dropped. */
  lemma CloseWordsShape(words: seq<string>, distance: int)
    requires |words| > 0
    ensures StartsWith(CloseWordsPattern(words, distance), CloseHead)
    ensures var p := CloseWordsPattern(words, distance);
      |p| >= |CloseTail| && p[|p| - |CloseTail|..] == CloseTail
    ensures |CloseWordsPattern(words, distance)|
         == |CloseHead| + TotalLength(words) + (|words| - 1) * |Gap(distance)| + |CloseTail|
  {
    var p := CloseWordsPattern(words, distance);
    ImplodeLength(Gap(distance), words);
    assert p[..|CloseHead|] == CloseHead;
    assert p[|p| - |CloseTail|..] == CloseTail;
  }

  /** The word at index `i` sits right after the head and the words before it,
      each with its gap: the words appear verbatim and in input order. */
  lemma CloseWordsPlacesWord(words: seq<string>, distance: int, i: nat)
    requires i < |words|
    ensures var p := CloseWordsPattern(words, distance);
      var at := |CloseHead| + |WithGaps(words[..i], Gap(distance))|;
      at + |words[i]| <= |p| && p[at..at + |words[i]|] == words[i]
  {
    var gap := Gap(distance);
    ImplodePlacesWord(words, gap, i);
    PieceInside(CloseHead, Implode(gap, words), CloseTail, WithGaps(words[..i], gap), words[i]);
  }

  /** Glued with `gap`, the words begin with the first `i` of them, each
      followed by the gap, and then word `i`. */
  lemma ImplodePlacesWord(words: seq<string>, gap: string, i: nat)
    requires i < |words|
    ensures StartsWith(Implode(gap, words), WithGaps(words[..i], gap) + words[i])
  {
    var n := |words|;
    ImplodeAsWithGaps(words, gap);
    var x := WithGaps(words[..i], gap) + words[i];
    if i == n - 1 {
      assert Implode(gap, words) == x;
      assert x[..|x|] == x;
    } else {
      WithGapsPrefix(words, gap, i);
      StartsWithExtend(WithGaps(words[..n - 1], gap), words[n - 1], x);
    }
  }

  /** The gapped text of the first `i + 1` words begins with that of the
      first `i` followed by word `i`, whenever word `i` is not the last. */
  lemma {:induction false} WithGapsPrefix(words: seq<string>, gap: string, i: nat)
    requires i < |words|
    ensures i < |words| - 1 ==> StartsWith(WithGaps(words[..|words| - 1], gap), WithGaps(words[..i], gap) + words[i])
    decreases |words|
  {
    var n := |words|;
    if i < n - 1 {
      var init := words[..n - 1];
      assert init[..i] == words[..i];
      if i < n - 2 {
        WithGapsPrefix(init, gap, i);
        assert init[..|init| - 1] == words[..n - 2];
        var w := WithGaps(words[..n - 2], gap);
        assert WithGaps(init, gap) == w + words[n - 2] + gap;
      } else {
        assert init[..|init| - 1] == words[..i];
        assert WithGaps(init, gap) == WithGaps(words[..i], gap) + words[i] + gap;
      }
    }
  }

  /** The number in the repetition bound is `distance` itself: reading the
      text back gives `distance`. */
  lemma GapNamesDistance(distance: int)
    ensures var g := Gap(distance);
      var digits := g[|"\\W+(?:\\w+\\W+){0,"|..|g| - |"}?"|];
      ParseInt(digits) == distance
  {
    var g := Gap(distance);
    assert g[|"\\W+(?:\\w+\\W+){0,"|..|g| - |"}?"|] == IntText(distance);
    IntTextRoundTrip(distance);
  }
}
