/** Iterator adaptors and a filter that captures its environment. */
module Iterators {
  import opened RustInts
  import opened Std
  import opened StdIter

  /**
   * The closure `|x| x + 1`, computed without bounds: the `i32` addition panics
   * exactly when the sum leaves `i32`, which is when `x` is `i32::MAX`.
   */
  function PlusOne(x: i32): (r: int)
    ensures r > x as int && r - 1 == x as int
    ensures I32_MIN <= r <= I32_MAX <==> x as int < I32_MAX
  {
    x as int + 1
  }

  /**
   * `iterator_adaptors`: stepping `v1.iter().map(|x| x + 1)` with `next` until
   * it gives `None` yields the same items, in order, as collecting it. The
   * closure's addition must not overflow, so no element is `i32::MAX`, and
   * then every item is an `i32` again.
   */
  method IteratorAdaptors(v1: seq<i32>) returns (printed: seq<int>, v2: seq<int>)
    requires forall i | 0 <= i < |v1| :: v1[i] as int < I32_MAX
    ensures printed == v2 == MapSeq(v1, PlusOne)
    ensures forall i | 0 <= i < |printed| :: I32_MIN <= printed[i] <= I32_MAX
  {
    var iter := new SliceIter(v1);
    var res := new MapIter(iter, PlusOne);
    printed := [];
    var item := res.Next();
    while item.Some?
      invariant iter.Valid() && iter.items == v1
      invariant iter.pos == |printed| + (if item.Some? then 1 else 0)
      invariant item.Some? ==> item.value == PlusOne(v1[|printed|])
      invariant item.None? ==> iter.pos == |v1|
      invariant forall i | 0 <= i < |printed| :: printed[i] == PlusOne(v1[i])
      decreases |v1| - |printed|
    {
      printed := printed + [item.value];
      item := res.Next();
    }
    assert printed == MapSeq(v1, PlusOne);
    v2 := MapSeq(v1, PlusOne);
  }

  /** The walk-through's vector [1, 2, 3] becomes [2, 3, 4]. */
  lemma MapExample()
    ensures MapSeq([1 as i32, 2, 3], PlusOne) == [2, 3, 4]
  {
  }

  datatype Shoe = Shoe(size: u32, style: string)

  /** `shoes_in_my_size`: keeps exactly the shoes of the given size. */
  function ShoesInMySize(shoes: seq<Shoe>, size: u32): (mine: seq<Shoe>)
    ensures forall i | 0 <= i < |mine| :: mine[i].size == size
  {
    if shoes == [] then []
    else
      var rest := ShoesInMySize(shoes[1..], size);
      if shoes[0].size == size then [shoes[0]] + rest else rest
  }

  /**
   * Nothing is lost and nothing is added: each shoe of the given size is kept
   * as many times as it occurs, and no other shoe is.
   */
  lemma {:induction false} ShoesAllKept(shoes: seq<Shoe>, size: u32, s: Shoe)
    ensures multiset(ShoesInMySize(shoes, size))[s] == if s.size == size then multiset(shoes)[s] else 0
  {
    if shoes != [] {
      ShoesAllKept(shoes[1..], size, s);
      assert shoes == [shoes[0]] + shoes[1..];
    }
  }

  /**
   * The kept shoes stay in their original order: filtering a list made of two
   * parts filters each part and keeps the parts in order.
   */
  lemma {:induction false} ShoesKeepOrder(front: seq<Shoe>, back: seq<Shoe>, size: u32)
    ensures ShoesInMySize(front + back, size) == ShoesInMySize(front, size) + ShoesInMySize(back, size)
  {
    if front != [] {
      assert (front + back)[1..] == front[1..] + back;
      ShoesKeepOrder(front[1..], back, size);
    } else {
      assert front + back == back;
    }
  }

  /** `env_capturing_iterators`: of the four sample shoes, the boot and the sneaker of size 10. */
  lemma EnvCapturingIterators()
    ensures ShoesInMySize([Shoe(10, "boot"), Shoe(12, "sneaker"), Shoe(13, "sandal"), Shoe(10, "sneaker")], 10)
            == [Shoe(10, "boot"), Shoe(10, "sneaker")]
  {
  }
}
