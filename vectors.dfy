/** The vector walk-through of the collections chapter. */
module Vectors {
  import opened RustInts
  import opened Std
  import opened StdIter

  /** A growable vector: its elements, in order. */
  class Vec<T> {
    var elems: seq<T>

    /** `Vec::new()` and the empty `vec![]`. */
    constructor ()
      ensures elems == []
    {
      elems := [];
    }

    /** `vec![...]` */
    constructor FromSeq(elems: seq<T>)
      ensures this.elems == elems
    {
      this.elems := elems;
    }

    /** `Vec::push`: appends at the end and leaves every earlier element where it was. */
    method Push(x: T)
      modifies this
      ensures elems == old(elems) + [x]
    {
      elems := elems + [x];
    }

    /** `&v[i]`: indexing, which panics out of range; the panic is the precondition. */
    function Index(i: nat): (r: T)
      reads this
      requires i < |elems|
      ensures r == elems[i] && r in elems
    {
      elems[i]
    }

    /** `v.get(i)`: the element at `i` when there is one, and `None` otherwise. */
    function Get(i: nat): (r: Option<T>)
      reads this
      ensures r.Some? <==> i < |elems|
      ensures r.Some? ==> r == Some(Index(i))
    {
      if i < |elems| then Some(elems[i]) else None
    }
  }

  /** `get` and indexing agree wherever indexing does not panic. */
  lemma GetAgreesWithIndex<T>(v: Vec<T>, i: nat)
    requires i < |v.elems|
    ensures v.Get(i).UnwrapOr(v.Index(0)) == v.Index(i)
  {
  }

  /** `updating_vectors`: pushing 3, 2, 1, 0 onto an empty vector. */
  method UpdatingVectors() returns (v: seq<i32>)
    ensures v == [3, 2, 1, 0]
  {
    var vec := new Vec<i32>();
    vec.Push(3);
    vec.Push(2);
    vec.Push(1);
    vec.Push(0);
    v := vec.elems;
  }

  /**
   * `reading_vectors`: on [1, 2, 3, 4, 5] the third element is 3 both by
   * indexing and by `get`, and the sixth, which indexing would panic on, is
   * `None` by `get`.
   */
  method ReadingVectors() returns (third: i32, thirdByGet: Option<i32>, sixthByGet: Option<i32>)
    ensures third == 3 && thirdByGet == Some(3) && sixthByGet == None
  {
    var v := new Vec.FromSeq([1 as i32, 2, 3, 4, 5]);
    third := v.Index(2);
    thirdByGet := v.Get(2);
    sixthByGet := v.Get(5);
  }

  /** `referencing_vectors`: after pushing 6, the first element is still 1. */
  method ReferencingVectors() returns (first: i32)
    ensures first == 1
  {
    var v := new Vec.FromSeq([1 as i32, 2, 3, 4, 5]);
    v.Push(6);
    first := v.Index(0);
  }

  /**
   * The first loop of `iterating_over_vectors`: walking the vector by shared
   * reference reads each element (the loop prints it plus one) and writes none.
   * The `i32` addition panics on overflow, so no element may be `i32::MAX`.
   */
  method PrintPlusOne(v: array<i32>) returns (printed: seq<i32>)
    requires forall i | 0 <= i < v.Length :: v[i] as int < I32_MAX
    ensures |printed| == v.Length
    ensures forall i | 0 <= i < v.Length :: printed[i] as int == v[i] as int + 1
  {
    printed := [];
    for i := 0 to v.Length
      invariant |printed| == i
      invariant forall k | 0 <= k < i :: printed[k] as int == v[k] as int + 1
    {
      printed := printed + [v[i] + 1];
    }
  }

  /** Every element plus `d` stays inside `i32`. */
  ghost predicate AllFit(s: seq<i32>, d: int)
  {
    forall i | 0 <= i < |s| :: I32_MIN <= s[i] as int + d <= I32_MAX
  }

  /**
   * The second loop of `iterating_over_vectors`: `*n_ref += d` through each
   * `&mut` element, in place. The addition panics on overflow, so every sum
   * must fit.
   */
  method AddToEach(a: array<i32>, d: i32)
    requires AllFit(a[..], d as int)
    modifies a
    ensures forall i | 0 <= i < a.Length :: a[i] as int == old(a[i]) as int + d as int
  {
    for i := 0 to a.Length
      invariant forall k | 0 <= k < i :: a[k] as int == old(a[k]) as int + d as int
      invariant forall k | i <= k < a.Length :: a[k] == old(a[k])
    {
      assert I32_MIN <= a[..][i] as int + d as int <= I32_MAX;
      a[i] := a[i] + d;
    }
  }

  /**
   * `iterating_over_vectors`: printing leaves [100, 32, 57] as it was, and
   * adding 20 in place gives [120, 52, 77].
   */
  method IteratingOverVectors() returns (printed: seq<i32>, after: seq<i32>)
    ensures printed == [101, 33, 58] && after == [120, 52, 77]
  {
    var v := new i32[3] [100, 32, 57];
    printed := PrintPlusOne(v);
    assert v[..] == [100, 32, 57];
    AddToEach(v, 20);
    after := v[..];
  }

  /**
   * `safe_iterations`: the slice iterator over [1, 2] hands out 1, then 2,
   * then `None`; the range iterator `0..len` hands out the index 0, which
   * reads 1.
   */
  method SafeIterations() returns (n1: i32, n2: i32, end: Option<i32>, i1: int, byIndex: i32)
    ensures n1 == 1 && n2 == 2 && end == None
    ensures i1 == 0 && byIndex == 1
  {
    var v: seq<i32> := [1, 2];
    var iter := new SliceIter(v);
    var x1 := iter.Next();
    var x2 := iter.Next();
    end := iter.Next();
    n1, n2 := x1.value, x2.value;
    var range := new Range(0, |v|);
    var j := range.Next();
    i1 := j.value;
    byIndex := v[i1];
  }
}
