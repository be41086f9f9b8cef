/** The PHP string built-ins the shop and the pattern builders rely on, on
    strings as sequences of characters: `substr` from offset 0, `str_replace`
    with one search string, the ASCII case folding PHP applies to method
    names, `implode`, and the decimal text of an integer. */
module Text {
  import opened Seqs

  /** `substr($s, 0, $n)` for `$n >= 0`: the first `n` characters, or all of
      `s` when it is shorter. */
  function Substr(s: string, n: nat): (r: string)
    ensures |r| == if n <= |s| then n else |s|
    ensures r <= s
  {
    if n <= |s| then s[..n] else s
  }

  predicate StartsWith(s: string, prefix: string) {
    |prefix| <= |s| && s[..|prefix|] == prefix
  }

  /** Comparing the first `|p|` characters with `p` is the prefix test. */
  lemma SubstrPrefixTest(s: string, p: string)
    ensures (Substr(s, |p|) == p) <==> StartsWith(s, p)
  {
    if |s| < |p| {
      assert |Substr(s, |p|)| != |p|;
    }
  }

  lemma StartsWithExtend(s: string, t: string, prefix: string)
    requires StartsWith(s, prefix)
    ensures StartsWith(s + t, prefix)
  {
    assert (s + t)[..|prefix|] == s[..|prefix|];
  }

  /** A piece that follows `x` at the front of `s` sits at offset
      `|a| + |x|` of `a + s + c`. */
  lemma PieceInside(a: string, s: string, c: string, x: string, w: string)
    requires StartsWith(s, x + w)
    ensures |a| + |x| + |w| <= |a + s + c|
    ensures (a + s + c)[|a| + |x|..|a| + |x| + |w|] == w
  {
    var p := a + s + c;
    forall k | 0 <= k < |w| ensures p[|a| + |x| + k] == w[k] {
      assert p[|a| + |x| + k] == s[|x| + k];
      assert s[|x| + k] == (x + w)[|x| + k];
    }
  }

  predicate OccursAt(s: string, w: string, i: nat) {
    i + |w| <= |s| && s[i..i + |w|] == w
  }

  ghost predicate Contains(s: string, w: string) {
    exists i: nat :: OccursAt(s, w, i)
  }

  /** `str_replace($search, $replacement, $s)`: scans left to right and
      replaces every non-overlapping occurrence of `search`; an empty search
      string leaves `s` as it is. */
  function Replace(s: string, search: string, replacement: string): (r: string)
    ensures replacement == search ==> r == s
    ensures |replacement| <= |search| ==> |r| <= |s|
    decreases |s|
  {
    if |search| == 0 || |s| < |search| then s
    else if s[..|search|] == search then replacement + Replace(s[|search|..], search, replacement)
    else [s[0]] + Replace(s[1..], search, replacement)
  }

  /** A first character that cannot start `search` is copied over. */
  lemma ReplacePassesChar(c: char, t: string, search: string, replacement: string)
    requires |search| > 0 && c != search[0]
    ensures Replace([c] + t, search, replacement) == [c] + Replace(t, search, replacement)
  {
    var s := [c] + t;
    assert s[1..] == t;
    if |s| >= |search| {
      assert s[..|search|][0] != search[0];
    }
  }

  /** A prefix none of whose characters can start `search` is copied over. */
  lemma {:induction false} ReplacePassesPrefix(p: string, t: string, search: string, replacement: string)
    requires |search| > 0
    requires forall i :: 0 <= i < |p| ==> p[i] != search[0]
    ensures Replace(p + t, search, replacement) == p + Replace(t, search, replacement)
    decreases |p|
  {
    if p != [] {
      ReplacePassesPrefix(p[1..], t, search, replacement);
      ReplacePassesChar(p[0], p[1..] + t, search, replacement);
      assert p + t == [p[0]] + (p[1..] + t);
      assert p == [p[0]] + p[1..];
    } else {
      assert p + t == t;
    }
  }

  /** An occurrence at the front is replaced and the scan goes on after it. */
  lemma ReplaceAtFront(t: string, search: string, replacement: string)
    requires |search| > 0
    ensures Replace(search + t, search, replacement) == replacement + Replace(t, search, replacement)
  {
    var s := search + t;
    assert s[..|search|] == search;
    assert s[|search|..] == t;
  }

  /** After a lead none of whose characters can start `search`, an
      occurrence is replaced and the scan goes on after it. */
  lemma ReplaceSkipsLead(lead: string, search: string, t: string, replacement: string)
    requires |search| > 0
    requires forall i :: 0 <= i < |lead| ==> lead[i] != search[0]
    ensures Replace(lead + (search + t), search, replacement) == lead + (replacement + Replace(t, search, replacement))
  {
    ReplaceAtFront(t, search, replacement);
    ReplacePassesPrefix(lead, search + t, search, replacement);
  }

  /** A string without an occurrence of `search` comes back unchanged. */
  lemma {:induction false} ReplaceWithoutOccurrence(s: string, search: string, replacement: string)
    requires !Contains(s, search)
    ensures Replace(s, search, replacement) == s
    decreases |s|
  {
    if |search| != 0 && |s| >= |search| {
      assert s[0..0 + |search|] == s[..|search|];
      assert !OccursAt(s, search, 0);
      assert !Contains(s[1..], search) by {
        forall i: nat | i + |search| <= |s[1..]|
          ensures !OccursAt(s[1..], search, i)
        {
          assert s[1..][i..i + |search|] == s[i + 1..i + 1 + |search|];
          assert !OccursAt(s, search, i + 1);
        }
      }
      ReplaceWithoutOccurrence(s[1..], search, replacement);
      assert [s[0]] + s[1..] == s;
    }
  }

  /** Deleting occurrences never lengthens a string, and a deletion that
      leaves the length alone deleted nothing. */
  lemma {:induction false} DeleteShortens(s: string, search: string)
    ensures |Replace(s, search, "")| <= |s|
    ensures |Replace(s, search, "")| == |s| ==> Replace(s, search, "") == s
    decreases |s|
  {
    if |search| == 0 || |s| < |search| {
    } else if s[..|search|] == search {
      DeleteShortens(s[|search|..], search);
    } else {
      DeleteShortens(s[1..], search);
      assert [s[0]] + s[1..] == s;
    }
  }

  /** PHP folds method names to lower case byte by byte, ASCII letters only. */
  function LowerChar(c: char): char {
    if 'A' <= c <= 'Z' then (c as int + 32) as char else c
  }

  function Lower(s: string): (r: string)
    ensures |r| == |s|
    ensures forall i :: 0 <= i < |s| ==> r[i] == LowerChar(s[i])
  {
    if s == [] then [] else [LowerChar(s[0])] + Lower(s[1..])
  }

  /** Case folding works character by character, so it distributes over
      concatenation. */
  lemma LowerConcat(a: string, b: string)
    ensures Lower(a + b) == Lower(a) + Lower(b)
  {
    var l, r := Lower(a + b), Lower(a) + Lower(b);
    assert forall i :: 0 <= i < |l| ==> l[i] == r[i];
  }

  /** `implode($glue, $pieces)` on a list: the pieces in order with `glue`
      between neighbours; no pieces give the empty string. */
  function Implode(glue: string, pieces: seq<string>): string
    decreases |pieces|
  {
    if |pieces| == 0 then ""
    else if |pieces| == 1 then pieces[0]
    else Implode(glue, pieces[..|pieces| - 1]) + glue + pieces[|pieces| - 1]
  }

  function TotalLength(pieces: seq<string>): nat {
    if pieces == [] then 0 else TotalLength(pieces[..|pieces| - 1]) + |pieces[|pieces| - 1]|
  }

  /** The pieces are copied verbatim: the glued string is exactly as long as
      the pieces together plus one glue per gap. */
  lemma {:induction false} ImplodeLength(glue: string, pieces: seq<string>)
    requires |pieces| > 0
    ensures |Implode(glue, pieces)| == TotalLength(pieces) + (|pieces| - 1) * |glue|
  {
    var n := |pieces|;
    if n > 1 {
      var init := pieces[..n - 1];
      var last := pieces[n - 1];
      ImplodeLength(glue, init);
      assert |Implode(glue, pieces)| == |Implode(glue, init)| + |glue| + |last|;
      assert TotalLength(pieces) == TotalLength(init) + |last|;
      OneMoreGlue(n - 1, |glue|);
    }
  }

  lemma OneMoreGlue(k: int, g: int)
    ensures (k - 1) * g + g == k * g
  {
  }

  /** Read from the front, the glued string is the first piece, the glue and
      the rest glued. */
  lemma {:induction false} ImplodeFront(glue: string, pieces: seq<string>)
    requires |pieces| >= 2
    ensures Implode(glue, pieces) == pieces[0] + glue + Implode(glue, pieces[1..])
    decreases |pieces|
  {
    var n := |pieces|;
    if n > 2 {
      var init := pieces[..n - 1];
      ImplodeFront(glue, init);
      assert init[1..] == pieces[1..][..n - 2];
      assert pieces[1..][n - 2] == pieces[n - 1];
    } else {
      assert pieces[1..] == [pieces[1]];
      assert pieces[..1] == [pieces[0]];
    }
  }

  /** `explode` for a one-character separator: the pieces between separators. */
  function Split(s: string, sep: char): (r: seq<string>)
    ensures |r| > 0
    decreases |s|
  {
    if sep !in s then [s]
    else
      var i := IndexOf(s, sep);
      [s[..i]] + Split(s[i + 1..], sep)
  }

  /** Gluing with a one-character separator that no piece contains can be
      undone by splitting: the pieces come back in order. */
  lemma {:induction false} SplitImplode(pieces: seq<string>, sep: char)
    requires |pieces| > 0
    requires forall k :: 0 <= k < |pieces| ==> sep !in pieces[k]
    ensures Split(Implode([sep], pieces), sep) == pieces
    decreases |pieces|
  {
    if |pieces| == 1 {
      assert Implode([sep], pieces) == pieces[0];
    } else {
      var head := pieces[0];
      var rest := Implode([sep], pieces[1..]);
      ImplodeFront([sep], pieces);
      var s := head + [sep] + rest;
      assert s[|head|] == sep;
      assert forall j :: 0 <= j < |head| ==> s[j] == head[j] != sep;
      assert IndexOf(s, sep) == |head|;
      assert s[..|head|] == head;
      assert s[|head| + 1..] == rest;
      SplitImplode(pieces[1..], sep);
      assert pieces == [head] + pieces[1..];
    }
  }

  function DigitChar(d: nat): char
    requires d < 10
  {
    ('0' as int + d) as char
  }

  function DigitValue(c: char): nat {
    if '0' <= c <= '9' then c as int - '0' as int else 0
  }

  /** The decimal text PHP gives a non-negative integer: no leading zeros. */
  function NatText(n: nat): (r: string)
    ensures |r| > 0
    ensures forall i :: 0 <= i < |r| ==> '0' <= r[i] <= '9'
    ensures n > 0 ==> r[0] != '0'
    decreases n
  {
    if n < 10 then [DigitChar(n)] else NatText(n / 10) + [DigitChar(n % 10)]
  }

  /** The text of an integer interpolated into a PHP string: a minus sign
      before the digits of a negative number. */
  function IntText(n: int): (r: string)
    ensures |r| > 0
    ensures r[0] == '-' <==> n < 0
  {
    if n < 0 then "-" + NatText(-n) else NatText(n)
  }

  function ParseNat(s: string): nat
    decreases |s|
  {
    if s == [] then 0 else 10 * ParseNat(s[..|s| - 1]) + DigitValue(s[|s| - 1])
  }

  function ParseInt(s: string): int {
    if |s| > 0 && s[0] == '-' then -(ParseNat(s[1..]) as int) else ParseNat(s)
  }

  lemma {:induction false} NatTextRoundTrip(n: nat)
    ensures ParseNat(NatText(n)) == n
    decreases n
  {
    if n >= 10 {
      var q, d := n / 10, n % 10;
      NatTextRoundTrip(q);
      var init := NatText(q);
      var s := init + [DigitChar(d)];
      assert NatText(n) == s;
      assert s[..|s| - 1] == init;
      assert DigitValue(DigitChar(d)) == d;
      assert ParseNat(s) == 10 * q + d;
    } else {
      assert NatText(n) == [DigitChar(n)];
    }
  }

  /** The decimal text determines the integer it was made from. */
  lemma IntTextRoundTrip(n: int)
    ensures ParseInt(IntText(n)) == n
  {
    if n < 0 {
      var m: nat := -n;
      assert IntText(n) == "-" + NatText(m);
      NegativeRoundTrip(m);
    } else {
      assert IntText(n) == NatText(n);
      NonNegativeRoundTrip(n);
    }
  }

  lemma NegativeRoundTrip(m: nat)
    ensures ParseInt("-" + NatText(m)) == -(m as int)
  {
    NatTextRoundTrip(m);
    ParseSigned(NatText(m));
  }

  lemma NonNegativeRoundTrip(m: nat)
    ensures ParseInt(NatText(m)) == m
  {
    NatTextRoundTrip(m);
    ParseUnsigned(NatText(m));
  }

  lemma ParseSigned(digits: string)
    ensures ParseInt("-" + digits) == -(ParseNat(digits) as int)
  {
    var s := "-" + digits;
    assert s[1..] == digits;
  }

  lemma ParseUnsigned(digits: string)
    requires |digits| > 0 && '0' <= digits[0] <= '9'
    ensures ParseInt(digits) == ParseNat(digits)
  {
  }
}
