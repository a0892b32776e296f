/**
 * The hash-map walk-through of the collections chapter. The map's iteration
 * order is arbitrary in the source, so nothing here depends on it: a map is
 * modelled by its contents only.
 */
module HashMaps {
  import opened RustInts
  import opened Std
  import opened Text

  /** A hash map: which value each key is bound to. */
  class HashMap<K(==), V> {
    var entries: map<K, V>

    /** `HashMap::new()` */
    constructor ()
      ensures entries == map[]
    {
      entries := map[];
    }

    /**
     * `HashMap::insert`: binds `k` to `v`, overwriting any old value, which is
     * handed back; every other key keeps its value.
     */
    method Insert(k: K, v: V) returns (previous: Option<V>)
      modifies this
      ensures entries == old(entries)[k := v]
      ensures previous == if k in old(entries) then Some(old(entries)[k]) else None
    {
      previous := if k in entries then Some(entries[k]) else None;
      entries := entries[k := v];
    }

    /**
     * `entry(k).or_insert(d)`: binds `k` to `d` only when `k` is absent, and
     * yields the value `k` is then bound to.
     */
    method EntryOrInsert(k: K, d: V) returns (v: V)
      modifies this
      ensures k in old(entries) ==> entries == old(entries) && v == old(entries)[k]
      ensures k !in old(entries) ==> entries == old(entries)[k := d] && v == d
    {
      if k !in entries {
        entries := entries[k := d];
      }
      v := entries[k];
    }

    /** `HashMap::get`: the value bound to `k`, if any. */
    function Get(k: K): (r: Option<V>)
      reads this
      ensures r.Some? <==> k in entries
      ensures r.Some? ==> r.value == entries[k]
    {
      if k in entries then Some(entries[k]) else None
    }
  }

  /** `get(k).copied().unwrap_or(0)`: the score for a present key, 0 for a missing one. */
  function ScoreOrZero(scores: map<string, i32>, k: string): (r: i32)
    ensures k in scores ==> r == scores[k]
    ensures k !in scores ==> r == 0
  {
    (if k in scores then Some(scores[k]) else None).UnwrapOr(0)
  }

  /** `hashmap_creation`: two inserts under two keys keep both. */
  method HashmapCreation() returns (scores: map<string, i32>)
    ensures scores == map["Blue" := 10, "Yellow" := 50]
  {
    var m := new HashMap<string, i32>();
    var _ := m.Insert("Blue", 10);
    var _ := m.Insert("Yellow", 50);
    scores := m.entries;
  }

  /**
   * The first part of `hashmap_updates`: inserting 25 under "Blue" after 10
   * overwrites it, and `or_insert` keeps Blue's 10 while adding Yellow's 50.
   */
  method HashmapUpdates() returns (overwritten: map<string, i32>, kept: map<string, i32>,
                                   blueScore: i32, yellowScore: i32)
    ensures overwritten == map["Blue" := 25]
    ensures kept == map["Blue" := 10, "Yellow" := 50]
    ensures blueScore == 10 && yellowScore == 50
  {
    var scores := new HashMap<string, i32>();
    var _ := scores.Insert("Blue", 10);
    var _ := scores.Insert("Blue", 25);
    overwritten := scores.entries;

    var scores2 := new HashMap<string, i32>();
    var _ := scores2.Insert("Blue", 10);
    yellowScore := scores2.EntryOrInsert("Yellow", 50);
    blueScore := scores2.EntryOrInsert("Blue", 25);
    kept := scores2.entries;
  }

  /**
   * The word counter of `hashmap_updates`: each word of the text is bound to
   * the number of times it occurs. `*count += 1` writes through the reference
   * `or_insert` returns; here that is a store of the new count under the same
   * key. The counts are `i32`, so there must be fewer than 2^31 words.
   */
  method WordCounter(text: string) returns (counts: map<string, i32>)
    requires |SplitWhitespace(text)| <= I32_MAX
    ensures forall w :: w in counts <==> w in SplitWhitespace(text)
    ensures forall w | w in counts :: counts[w] as int == multiset(SplitWhitespace(text))[w]
  {
    counts := CountWords(SplitWhitespace(text));
  }

  /** The counting loop of the word counter, over the words already split off. */
  method CountWords(words: seq<string>) returns (counts: map<string, i32>)
    requires |words| <= I32_MAX
    ensures forall w :: w in counts <==> w in words
    ensures forall w | w in counts :: counts[w] as int == multiset(words)[w]
  {
    var counter := new HashMap<string, i32>();
    for i := 0 to |words|
      invariant forall w :: w in counter.entries <==> w in words[..i]
      invariant forall w | w in counter.entries ::
                  counter.entries[w] as int == multiset(words[..i])[w] <= i
    {
      assert words[..i + 1] == words[..i] + [words[i]];
      assert multiset(words[..i + 1]) == multiset(words[..i]) + multiset{words[i]};
      var count := counter.EntryOrInsert(words[i], 0);
      var _ := counter.Insert(words[i], count + 1);
    }
    assert words[..|words|] == words;
    counts := counter.entries;
  }

  /** The text the word counter runs on, and its words. */
  const SampleText := "Hello world you wonderful world"
  const Words: seq<string> := ["Hello", "world", "you", "wonderful", "world"]

  lemma SampleTextJoinsWords()
    ensures JoinWords(Words) == SampleText
  {
    SampleTextPieces();
    assert Words[1..][1..][1..][1..] == ["world"];
  }

  /** The sample text is its five words with a space between each two. */
  lemma SampleTextPieces()
    ensures SampleText == "Hello" + " " + ("world" + " " + ("you" + " " + ("wonderful" + " " + "world")))
  {
  }

  lemma SampleWordsAreWords()
    ensures forall i | 0 <= i < |Words| :: IsWord(Words[i])
  {
    assert IsWord(Words[0]);
    assert IsWord(Words[1]);
    assert IsWord(Words[2]);
    assert IsWord(Words[3]);
  }

  /** The sample text splits into its five words. */
  lemma SampleTextWords()
    ensures SplitWhitespace(SampleText) == Words
  {
    SampleTextJoinsWords();
    SampleWordsAreWords();
    SplitJoinRoundTrip(Words);
  }

  /** "world" is counted twice and every other word once. */
  method WordCounterExample() returns (counts: map<string, i32>)
    ensures counts == map["Hello" := 1, "world" := 2, "you" := 1, "wonderful" := 1]
  {
    SampleTextWords();
    counts := WordCounter(SampleText);
    SampleCounts(counts);
  }

  /** The only map that counts the sample words correctly. */
  lemma SampleCounts(counts: map<string, i32>)
    requires forall w :: w in counts <==> w in Words
    requires forall w | w in counts :: counts[w] as int == multiset(Words)[w]
    ensures counts == map["Hello" := 1, "world" := 2, "you" := 1, "wonderful" := 1]
  {
    var expected := map["Hello" := 1, "world" := 2, "you" := 1, "wonderful" := 1];
    assert multiset(Words) == multiset{"Hello", "world", "you", "wonderful", "world"};
    assert counts.Keys == expected.Keys by {
      assert forall w :: w in Words <==> w in expected;
    }
  }

  /**
   * `hashmap_values_access`: "Blue" is found with 10 both by `get` and by
   * `unwrap_or(0)`, and the absent "Brown" falls back to 0.
   */
  method HashmapValuesAccess() returns (blue: Option<i32>, blueOrZero: i32, brownOrZero: i32)
    ensures blue == Some(10) && blueOrZero == 10 && brownOrZero == 0
  {
    var scores := new HashMap<string, i32>();
    var _ := scores.Insert("Blue", 10);
    var _ := scores.Insert("Yellow", 50);
    blue := scores.Get("Blue");
    blueOrZero := ScoreOrZero(scores.entries, "Blue");
    assert "Brown" != "Blue" && "Brown" != "Yellow";
    brownOrZero := ScoreOrZero(scores.entries, "Brown");
  }

  /** The indices at which `c` occurs in `s`, in ascending order. */
  function Positions(s: string, c: char): seq<nat>
  {
    if s == [] then []
    else Positions(s[..|s| - 1], c) + (if s[|s| - 1] == c then [|s| - 1] else [])
  }

  /**
   * `Positions` lists exactly the indices holding `c`, each once and in
   * strictly ascending order.
   */
  lemma {:induction false} PositionsAreOccurrences(s: string, c: char)
    ensures forall k | 0 <= k < |Positions(s, c)| :: Positions(s, c)[k] < |s| && s[Positions(s, c)[k]] == c
    ensures forall i | 0 <= i < |s| && s[i] == c :: i in Positions(s, c)
    ensures forall k, l | 0 <= k < l < |Positions(s, c)| :: Positions(s, c)[k] < Positions(s, c)[l]
  {
    if s != [] {
      var init := s[..|s| - 1];
      PositionsAreOccurrences(init, c);
      assert forall i | 0 <= i < |init| :: init[i] == s[i];
    }
  }

  /** A character that does not occur has no positions. */
  lemma {:induction false} PositionsOfAbsent(s: string, c: char)
    requires c !in s
    ensures Positions(s, c) == []
  {
    if s != [] {
      assert c !in s[..|s| - 1];
      PositionsOfAbsent(s[..|s| - 1], c);
    }
  }

  /**
   * The grouping loop of `hashmap_challenge`: each character of `s` is bound
   * to the list of its indices, pushed in the order the characters are read.
   */
  method GroupIndices(s: string) returns (groups: map<char, seq<nat>>)
    ensures forall c :: c in groups <==> c in s
    ensures forall c | c in groups :: groups[c] == Positions(s, c)
  {
    var m := new HashMap<char, seq<nat>>();
    for idx := 0 to |s|
      invariant forall c :: c in m.entries <==> c in s[..idx]
      invariant forall c | c in m.entries :: m.entries[c] == Positions(s[..idx], c)
    {
      assert s[..idx + 1][..idx] == s[..idx];
      if s[idx] !in m.entries {
        PositionsOfAbsent(s[..idx], s[idx]);
      }
      var indices := m.EntryOrInsert(s[idx], []);
      var _ := m.Insert(s[idx], indices + [idx]);
    }
    assert s[..|s|] == s;
    groups := m.entries;
  }

  /** The sum of a list of indices. */
  function Sum(v: seq<nat>): nat
  {
    if v == [] then 0 else Sum(v[..|v| - 1]) + v[|v| - 1]
  }

  /** The summing loop of `hashmap_challenge`: `sum += *i` over the list. */
  method SumIndices(v: seq<nat>) returns (sum: nat)
    ensures sum == Sum(v)
  {
    sum := 0;
    for i := 0 to |v|
      invariant sum == Sum(v[..i])
    {
      assert v[..i + 1][..i] == v[..i];
      sum := sum + v[i];
    }
    assert v[..|v|] == v;
  }

  /** `hashmap_challenge`: in "hello", 'l' sits at 2 and 3, which sum to 5. */
  method HashmapChallenge() returns (ls: seq<nat>, sum: nat)
    ensures ls == [2, 3] && sum == 5
  {
    var s := "hello";
    var groups := GroupIndices(s);
    assert s[2] == 'l';
    ls := groups['l'];
    assert "hello"[..4] == "hell" && "hell"[..3] == "hel" && "hel"[..2] == "he" && "he"[..1] == "h";
    assert Positions("h", 'l') == [];
    assert Positions("he", 'l') == [];
    assert Positions("hel", 'l') == [2];
    assert Positions("hell", 'l') == [2, 3];
    sum := SumIndices(ls);
    assert [2, 3][..1] == [2];
  }
}
