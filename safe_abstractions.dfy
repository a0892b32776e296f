/**
 * `split_at_mut`, a safe function built on raw pointers, at the level of the
 * two slices it returns: which elements each one covers.
 */
module SafeAbstractions {

  /**
   * `split_at_mut`: the first `mid` elements and the rest. The source asserts
   * `mid <= len` and panics otherwise. The two parts cover the index ranges
   * [0, mid) and [mid, len), which do not overlap and together are the whole.
   */
  function SplitAtMut<T>(values: seq<T>, mid: nat): (parts: (seq<T>, seq<T>))
    requires mid <= |values|
    ensures |parts.0| == mid && |parts.1| == |values| - mid
    ensures forall i | 0 <= i < mid :: parts.0[i] == values[i]
    ensures forall i | 0 <= i < |values| - mid :: parts.1[i] == values[mid + i]
  {
    (values[..mid], values[mid..])
  }

  /** Putting the two parts back together gives the original, in order. */
  lemma SplitRejoins<T>(values: seq<T>, mid: nat)
    requires mid <= |values|
    ensures SplitAtMut(values, mid).0 + SplitAtMut(values, mid).1 == values
  {
    var parts := SplitAtMut(values, mid);
    assert forall i | 0 <= i < |values| :: (parts.0 + parts.1)[i] == values[i];
  }

  /** Splitting a concatenation where the first piece ends gives the pieces back. */
  lemma SplitOfJoin<T>(front: seq<T>, back: seq<T>)
    ensures SplitAtMut(front + back, |front|) == (front, back)
  {
    var parts := SplitAtMut(front + back, |front|);
    assert parts.0 == front;
    assert parts.1 == back;
  }

  /** `run`: [1, 2, 3, 4, 5, 6] split at 3. */
  lemma Run()
    ensures SplitAtMut([1, 2, 3, 4, 5, 6], 3) == ([1, 2, 3], [4, 5, 6])
  {
    SplitOfJoin([1, 2, 3], [4, 5, 6]);
    assert [1, 2, 3] + [4, 5, 6] == [1, 2, 3, 4, 5, 6];
  }
}
