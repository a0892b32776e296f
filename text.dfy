/**
 * The parts of Rust's `str` and `String` that the modelled code relies on:
 * `char::is_whitespace`, `trim`, `split_whitespace`, `contains`,
 * `starts_with`/`ends_with`, and decimal formatting of integers (`{}` and
 * `to_string`). Strings are sequences of Unicode scalar values.
 */
module Text {

  /** `char::is_whitespace`: the Unicode White_Space property. */
  predicate IsWhitespace(c: char) {
    || ('\U{9}' <= c <= '\U{D}')
    || c == ' '
    || c == '\U{85}'
    || c == '\U{A0}'
    || c == '\U{1680}'
    || ('\U{2000}' <= c <= '\U{200A}')
    || c == '\U{2028}'
    || c == '\U{2029}'
    || c == '\U{202F}'
    || c == '\U{205F}'
    || c == '\U{3000}'
  }

  predicate IsDigit(c: char) {
    '0' <= c <= '9'
  }

  /** `s.contains(t)` */
  predicate Contains(s: string, t: string) {
    exists i | 0 <= i <= |s| :: t <= s[i..]
  }

  /** `t` occurs in `s` starting at index `i`. */
  lemma ContainsAt(s: string, t: string, i: nat)
    requires i + |t| <= |s| && s[i..i + |t|] == t
    ensures Contains(s, t)
  {
    assert t <= s[i..];
  }

  /** `t` occurs in any string built around it. */
  lemma ContainsMiddle(before: string, t: string, after: string)
    ensures Contains(before + t + after, t)
  {
    var s := before + t + after;
    assert s[|before|..|before| + |t|] == t;
    ContainsAt(s, t, |before|);
  }

  /** `s.starts_with(t)` */
  predicate StartsWith(s: string, t: string) {
    t <= s
  }

  /** `s.ends_with(t)` */
  predicate EndsWith(s: string, t: string) {
    |t| <= |s| && s[|s| - |t|..] == t
  }

  /** The number of whitespace characters at the start of `s`. */
  function LeadingWhitespace(s: string): (k: nat)
    ensures k <= |s|
    ensures forall i | 0 <= i < k :: IsWhitespace(s[i])
    ensures k < |s| ==> !IsWhitespace(s[k])
  {
    if s == [] || !IsWhitespace(s[0]) then 0
    else 1 + LeadingWhitespace(s[1..])
  }

  /** The index where the whitespace at the end of `s` begins. */
  function TrailingWhitespaceStart(s: string): (k: nat)
    ensures k <= |s|
    ensures forall i | k <= i < |s| :: IsWhitespace(s[i])
    ensures k > 0 ==> !IsWhitespace(s[k - 1])
  {
    if s == [] || !IsWhitespace(s[|s| - 1]) then |s|
    else TrailingWhitespaceStart(s[..|s| - 1])
  }

  /**
   * `str::trim`: `s` without its leading and trailing whitespace. The result is
   * a contiguous part of `s`, only whitespace was cut on either side, and it
   * neither starts nor ends with whitespace.
   */
  function Trim(s: string): (r: string)
    ensures exists i, j | 0 <= i <= j <= |s| ::
              && r == s[i..j]
              && (forall k | 0 <= k < i :: IsWhitespace(s[k]))
              && (forall k | j <= k < |s| :: IsWhitespace(s[k]))
    ensures r != [] ==> !IsWhitespace(r[0]) && !IsWhitespace(r[|r| - 1])
  {
    var i := LeadingWhitespace(s);
    var t := s[i..];
    var j := TrailingWhitespaceStart(t);
    assert t[..j] == s[i..i + j];
    assert j > 0 ==> t[0] == s[i];
    t[..j]
  }

  /** The length of the run of non-whitespace characters that starts `s`. */
  function WordLength(s: string): (k: nat)
    ensures k <= |s|
    ensures forall i | 0 <= i < k :: !IsWhitespace(s[i])
    ensures k < |s| ==> IsWhitespace(s[k])
  {
    if s == [] || IsWhitespace(s[0]) then 0
    else 1 + WordLength(s[1..])
  }

  /**
   * `str::split_whitespace`: the maximal runs of non-whitespace characters of
   * `s`, in order. No word is empty and no word holds whitespace.
   */
  function SplitWhitespace(s: string): (words: seq<string>)
    ensures forall w | w in words :: w != [] && forall i | 0 <= i < |w| :: !IsWhitespace(w[i])
    decreases |s|
  {
    var k := LeadingWhitespace(s);
    if k == |s| then []
    else
      var rest := s[k..];
      var n := WordLength(rest);
      [rest[..n]] + SplitWhitespace(rest[n..])
  }

  /** A non-empty run of non-whitespace characters. */
  predicate IsWord(w: string) {
    w != [] && forall i | 0 <= i < |w| :: !IsWhitespace(w[i])
  }

  /** Nothing but whitespace (possibly nothing at all). */
  predicate IsBlank(g: string) {
    forall i | 0 <= i < |g| :: IsWhitespace(g[i])
  }

  /** `gaps[0] + words[0] + gaps[1] + ... + words[n - 1] + gaps[n]`. */
  function Interleave(gaps: seq<string>, words: seq<string>): string
    requires |gaps| == |words| + 1
    decreases |words|
  {
    if words == [] then gaps[0]
    else gaps[0] + words[0] + Interleave(gaps[1..], words[1..])
  }

  /**
   * The whitespace that `split_whitespace` drops: what comes before the first
   * word, between each pair of words, and after the last one.
   */
  function WhitespaceGaps(s: string): (gaps: seq<string>)
    ensures |gaps| == |SplitWhitespace(s)| + 1
    decreases |s|
  {
    var k := LeadingWhitespace(s);
    if k == |s| then [s]
    else
      var rest := s[k..];
      var n := WordLength(rest);
      [s[..k]] + WhitespaceGaps(rest[n..])
  }

  /**
   * `split_whitespace` loses nothing but whitespace: `s` is its words laid out
   * between whitespace-only gaps, and every gap between two words is
   * non-empty, so no two words were glued together and no word was cut.
   */
  lemma SplitWhitespaceLayout(s: string)
    ensures var words, gaps := SplitWhitespace(s), WhitespaceGaps(s);
            && (forall i | 0 <= i < |words| :: IsWord(words[i]))
            && (forall i | 0 <= i < |gaps| :: IsBlank(gaps[i]))
            && (forall i | 0 < i < |words| :: gaps[i] != [])
            && Interleave(gaps, words) == s
  {
    GapsAreBlank(s);
    InnerGapsAreNonEmpty(s);
    InterleaveGapsAndWords(s);
  }

  /** The first gap is the leading whitespace, and the rest are those after the first word. */
  lemma SplitStep(s: string)
    requires LeadingWhitespace(s) < |s|
    ensures var rest := s[LeadingWhitespace(s)..];
            var n := WordLength(rest);
            && 0 < n
            && SplitWhitespace(s) == [rest[..n]] + SplitWhitespace(rest[n..])
            && WhitespaceGaps(s) == [s[..LeadingWhitespace(s)]] + WhitespaceGaps(rest[n..])
  {
    assert s[LeadingWhitespace(s)..][0] == s[LeadingWhitespace(s)];
  }

  /** Every gap is whitespace only. */
  lemma {:induction false} GapsAreBlank(s: string)
    ensures forall i | 0 <= i < |WhitespaceGaps(s)| :: IsBlank(WhitespaceGaps(s)[i])
    decreases |s|
  {
    var k := LeadingWhitespace(s);
    if k == |s| {
      assert WhitespaceGaps(s) == [s];
    } else {
      SplitStep(s);
      var t := s[k..][WordLength(s[k..])..];
      GapsAreBlank(t);
      assert WhitespaceGaps(s) == [s[..k]] + WhitespaceGaps(t);
    }
  }

  /** A text that holds a word starting with whitespace has a non-empty first gap. */
  lemma FirstGapOfSpaced(t: string)
    requires SplitWhitespace(t) != [] && t != [] && IsWhitespace(t[0])
    ensures WhitespaceGaps(t)[0] != []
  {
    var j := LeadingWhitespace(t);
    assert 0 < j < |t|;
    assert WhitespaceGaps(t)[0] == t[..j];
  }

  /** Each gap that lies between two words holds some whitespace. */
  lemma {:induction false} InnerGapsAreNonEmpty(s: string)
    ensures forall i | 0 < i < |SplitWhitespace(s)| :: WhitespaceGaps(s)[i] != []
    decreases |s|
  {
    var k := LeadingWhitespace(s);
    if k < |s| {
      SplitStep(s);
      var n := WordLength(s[k..]);
      var t := s[k..][n..];
      InnerGapsAreNonEmpty(t);
      if SplitWhitespace(t) != [] {
        assert t != [];
        assert t[0] == s[k..][n];
        FirstGapOfSpaced(t);
      }
      assert WhitespaceGaps(s)[1..] == WhitespaceGaps(t);
    }
  }

  /** A sequence cut at `k`, and its remainder cut again at `n`, is the three pieces in order. */
  lemma SliceApartTwice<T>(s: seq<T>, k: nat, n: nat)
    requires k + n <= |s|
    ensures s[..k] + s[k..][..n] + s[k..][n..] == s
  {
    var r := s[..k] + s[k..][..n] + s[k..][n..];
    assert |r| == |s|;
    forall i | 0 <= i < |s|
      ensures r[i] == s[i]
    {
      if i < k {
      } else if i < k + n {
        assert r[i] == s[k..][i - k];
      } else {
        assert r[i] == s[k..][n..][i - k - n];
      }
    }
  }

  /** Laying the words out between the gaps gives back `s`. */
  lemma {:induction false} InterleaveGapsAndWords(s: string)
    ensures Interleave(WhitespaceGaps(s), SplitWhitespace(s)) == s
    decreases |s|
  {
    var k := LeadingWhitespace(s);
    if k == |s| {
      assert WhitespaceGaps(s) == [s];
    } else {
      SplitStep(s);
      var rest := s[k..];
      var n := WordLength(rest);
      var t := rest[n..];
      InterleaveGapsAndWords(t);
      var gaps, words := WhitespaceGaps(s), SplitWhitespace(s);
      assert Interleave(gaps, words) == s[..k] + rest[..n] + t by {
        assert gaps[0] == s[..k] && gaps[1..] == WhitespaceGaps(t);
        assert words[0] == rest[..n] && words[1..] == SplitWhitespace(t);
      }
      SliceApartTwice(s, k, n);
    }
  }

  /** `words.join(" ")` */
  function JoinWords(words: seq<string>): string
  {
    if words == [] then ""
    else if |words| == 1 then words[0]
    else words[0] + " " + JoinWords(words[1..])
  }

  /** A word followed by whitespace (or by nothing) is read to its end. */
  lemma {:induction false} WordLengthOfWord(w: string, rest: string)
    requires IsWord(w)
    requires rest == [] || IsWhitespace(rest[0])
    ensures WordLength(w + rest) == |w|
  {
    if |w| > 1 {
      WordLengthOfWord(w[1..], rest);
      assert (w + rest)[1..] == w[1..] + rest;
    } else {
      assert (w + rest)[1..] == rest;
    }
  }

  /** Splitting skips the whitespace in front of the first word. */
  lemma SplitSkipsSpace(t: string)
    requires t != [] && !IsWhitespace(t[0])
    ensures SplitWhitespace(" " + t) == SplitWhitespace(t)
  {
    assert (" " + t)[1..] == t;
    assert LeadingWhitespace(" " + t) == 1;
  }

  /** A word at the front of the text is the first word split off. */
  lemma SplitLeadingWord(w: string, tail: string)
    requires IsWord(w)
    requires tail == [] || IsWhitespace(tail[0])
    ensures SplitWhitespace(w + tail) == [w] + SplitWhitespace(tail)
  {
    var s := w + tail;
    assert LeadingWhitespace(s) == 0;
    assert s[0..] == s;
    WordLengthOfWord(w, tail);
    assert s[..|w|] == w;
    assert s[|w|..] == tail;
  }

  /** Joining two or more words puts the first one, a space, and the rest joined. */
  lemma JoinWordsFront(words: seq<string>)
    requires |words| > 1 && IsWord(words[1])
    ensures JoinWords(words) == words[0] + (" " + JoinWords(words[1..]))
    ensures JoinWords(words[1..]) != [] && JoinWords(words[1..])[0] == words[1][0]
  {
    if |words| > 2 {
      assert JoinWords(words[1..]) == words[1] + " " + JoinWords(words[2..]);
    }
  }

  /** Words joined by single spaces split back into the same words. */
  lemma {:induction false} SplitJoinRoundTrip(words: seq<string>)
    requires forall i | 0 <= i < |words| :: IsWord(words[i])
    ensures SplitWhitespace(JoinWords(words)) == words
    decreases |words|, 1
  {
    if words == [] {
      SplitNoWords();
    } else if |words| == 1 {
      SplitSingleWord(words[0]);
      assert [words[0]] == words;
    } else {
      SplitJoinTail(words);
      SplitJoinFront(words[0], words[1..]);
      assert [words[0]] + words[1..] == words;
    }
  }

  /** The words after the first one split back, by the round trip on them. */
  lemma {:induction false} SplitJoinTail(words: seq<string>)
    requires |words| > 1 && forall i | 0 <= i < |words| :: IsWord(words[i])
    ensures IsWord(words[0]) && IsWord(words[1])
    ensures SplitWhitespace(JoinWords(words[1..])) == words[1..]
    decreases |words|, 0
  {
    var rest := words[1..];
    forall i | 0 <= i < |rest|
      ensures IsWord(rest[i])
    {
      assert rest[i] == words[i + 1];
    }
    SplitJoinRoundTrip(rest);
  }

  /** No words join into a text with no words. */
  lemma SplitNoWords()
    ensures SplitWhitespace(JoinWords([])) == []
  {
  }

  /** A single word splits into itself. */
  lemma SplitSingleWord(w: string)
    requires IsWord(w)
    ensures SplitWhitespace(JoinWords([w])) == [w]
  {
    SplitLeadingWord(w, "");
    assert w + "" == w;
  }

  /** A word put in front of words that split back also splits back. */
  lemma SplitJoinFront(w: string, rest: seq<string>)
    requires IsWord(w) && rest != [] && IsWord(rest[0])
    requires SplitWhitespace(JoinWords(rest)) == rest
    ensures SplitWhitespace(JoinWords([w] + rest)) == [w] + rest
  {
    var words := [w] + rest;
    assert words[1..] == rest;
    var t := JoinWords(rest);
    JoinWordsFront(words);
    SplitSkipsSpace(t);
    SplitLeadingWord(w, " " + t);
  }

  function DigitChar(d: nat): (c: char)
    requires d < 10
    ensures IsDigit(c)
  {
    '0' + d as char
  }

  function DigitValue(c: char): (d: nat)
    requires IsDigit(c)
    ensures d < 10 && DigitChar(d) == c
  {
    (c - '0') as nat
  }

  /** The decimal digits of `n`, most significant first, without leading zeros. */
  function NatToDecimal(n: nat): (s: string)
    ensures s != [] && forall i | 0 <= i < |s| :: IsDigit(s[i])
    ensures |s| > 1 ==> s[0] != '0'
  {
    if n < 10 then [DigitChar(n)]
    else NatToDecimal(n / 10) + [DigitChar(n % 10)]
  }

  /** The number that a string of decimal digits denotes. */
  function DecimalValue(s: string): nat
    requires forall i | 0 <= i < |s| :: IsDigit(s[i])
  {
    if s == [] then 0
    else 10 * DecimalValue(s[..|s| - 1]) + DigitValue(s[|s| - 1])
  }

  /** Reading back the digits that `NatToDecimal` writes gives the number. */
  lemma {:induction false} DecimalRoundTrip(n: nat)
    ensures DecimalValue(NatToDecimal(n)) == n
  {
    var s := NatToDecimal(n);
    if n >= 10 {
      DecimalRoundTrip(n / 10);
      assert s[..|s| - 1] == NatToDecimal(n / 10);
    }
  }

  /** How `{}` and `to_string` print an integer. */
  function IntToDecimal(i: int): (s: string)
    ensures s != []
    ensures i < 0 <==> s[0] == '-'
  {
    if i < 0 then "-" + NatToDecimal(-i) else NatToDecimal(i)
  }
}
