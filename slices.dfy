/**
 * Finding the first word of a string, once as an index and once as a slice.
 * Both scan the string's UTF-8 bytes for the first space byte; the range
 * slices of the walk-through use ASCII text, where bytes and characters agree.
 */
module Slices {

  newtype byte = x: int | 0 <= x < 0x100

  const Space: byte := 0x20

  /** The bytes of an ASCII string. */
  function AsciiBytes(s: string): (b: seq<byte>)
    requires forall i | 0 <= i < |s| :: s[i] < 128 as char
    ensures |b| == |s| && forall i | 0 <= i < |s| :: b[i] as int == s[i] as int
  {
    if s == [] then [] else [s[0] as int as byte] + AsciiBytes(s[1..])
  }

  /**
   * Where the first word ends: the index of the first space byte, or the
   * length when there is none.
   */
  function FirstWordEnd(s: seq<byte>): (n: nat)
    ensures n <= |s|
    ensures forall j | 0 <= j < n :: s[j] != Space
    ensures n < |s| ==> s[n] == Space
  {
    if s == [] || s[0] == Space then 0 else 1 + FirstWordEnd(s[1..])
  }

  /** `first_word_iterative`: returns as soon as it sees a space byte. */
  method FirstWordIterative(s: seq<byte>) returns (n: nat)
    ensures n == FirstWordEnd(s)
  {
    for i := 0 to |s|
      invariant forall j | 0 <= j < i :: s[j] != Space
    {
      if s[i] == Space {
        return i;
      }
    }
    return |s|;
  }

  /** `first_word_slices`: the same scan, returning the word itself. */
  method FirstWordSlices(s: seq<byte>) returns (word: seq<byte>)
    ensures word == s[..FirstWordEnd(s)]
  {
    for i := 0 to |s|
      invariant forall j | 0 <= j < i :: s[j] != Space
    {
      if s[i] == Space {
        return s[..i];
      }
    }
    return s[..];
  }

  /** The first word is a prefix of the string, so its length is where it ends. */
  lemma FirstWordIsPrefix(s: seq<byte>)
    ensures s[..FirstWordEnd(s)] <= s
    ensures |s[..FirstWordEnd(s)]| == FirstWordEnd(s)
  {
  }

  /** The first word of a string that does not start with a space is the word before the first space. */
  lemma {:induction false} FirstWordOfJoin(word: seq<byte>, rest: seq<byte>)
    requires forall j | 0 <= j < |word| :: word[j] != Space
    ensures FirstWordEnd(word + [Space] + rest) == |word|
  {
    if word != [] {
      assert (word + [Space] + rest)[1..] == word[1..] + [Space] + rest;
      FirstWordOfJoin(word[1..], rest);
    }
  }

  /** Converting a concatenation converts each part. */
  lemma {:induction false} AsciiBytesAppend(s: string, t: string)
    requires forall i | 0 <= i < |s| :: s[i] < 128 as char
    requires forall i | 0 <= i < |t| :: t[i] < 128 as char
    ensures AsciiBytes(s + t) == AsciiBytes(s) + AsciiBytes(t)
  {
    if s != [] {
      assert (s + t)[1..] == s[1..] + t;
      AsciiBytesAppend(s[1..], t);
    } else {
      assert s + t == t;
    }
  }

  /** The bytes of two words joined by a space are theirs around a space byte. */
  lemma AsciiBytesAroundSpace(w1: string, w2: string)
    requires forall i | 0 <= i < |w1| :: w1[i] < 128 as char
    requires forall i | 0 <= i < |w2| :: w2[i] < 128 as char
    ensures AsciiBytes(w1 + " " + w2) == AsciiBytes(w1) + [Space] + AsciiBytes(w2)
  {
    var front := w1 + " ";
    forall i | 0 <= i < |front|
      ensures front[i] < 128 as char
    {
      if i < |w1| {
        assert front[i] == w1[i];
      }
    }
    assert AsciiBytes(" ") == [Space] by {
      assert " "[1..] == [];
    }
    AsciiBytesAppend(w1, " ");
    AsciiBytesAppend(front, w2);
  }

  /** The bytes of "Hello world" are those of its two words around a space. */
  lemma HelloWorldBytes()
    ensures AsciiBytes("Hello world") == AsciiBytes("Hello") + [Space] + AsciiBytes("world")
    ensures |AsciiBytes("Hello")| == 5 && |AsciiBytes("world")| == 5
  {
    assert "Hello world" == "Hello" + " " + "world";
    AsciiBytesAroundSpace("Hello", "world");
  }

  /**
   * The body of `slices` for any sentence made of a space-free word, one
   * space and a rest: the first word ends at the word's length, the slices
   * `[0..n]`/`[..n]` and `[n + 1..len]`/`[n + 1..]` agree, and the first word
   * is the word.
   */
  method SentenceSlices(word: seq<byte>, rest: seq<byte>)
      returns (size: nat, hello: seq<byte>, world: seq<byte>, firstWord: seq<byte>)
    requires forall j | 0 <= j < |word| :: word[j] != Space
    ensures size == |word| && hello == word && world == rest && firstWord == word
  {
    var s := word + [Space] + rest;
    FirstWordOfJoin(word, rest);
    size := FirstWordIterative(s);
    hello := s[0..|word|];
    world := s[|word| + 1..|s|];
    assert hello == s[..|word|] == word && world == s[|word| + 1..] == rest;
    firstWord := FirstWordSlices(s);
  }

  /**
   * `slices`: in "Hello world" the first word ends at 5, the two ways of
   * writing each range give the same slice, and the first word is "Hello".
   */
  method Slices() returns (size: nat, hello: seq<byte>, world: seq<byte>, firstWord: seq<byte>)
    ensures size == 5
    ensures hello == AsciiBytes("Hello") && world == AsciiBytes("world")
    ensures firstWord == hello
  {
    size, hello, world, firstWord := SentenceSlices(AsciiBytes("Hello"), AsciiBytes("world"));
  }

  /** `int_slices`: elements 1 and 2 of [1, 2, 3, 4, 5]. */
  lemma IntSlices()
    ensures [1, 2, 3, 4, 5][1..3] == [2, 3]
  {
  }
}
