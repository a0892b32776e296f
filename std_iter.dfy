/**
 * Rust's stepping iterators: `slice::Iter`, which hands out the elements of a
 * slice one `next` at a time, and the `Map` adaptor, which applies a closure
 * to each element its inner iterator hands out.
 */
module StdIter {
  import opened Std

  class SliceIter<T> {
    const items: seq<T>
    var pos: nat

    ghost predicate Valid()
      reads this
    {
      pos <= |items|
    }

    /** The elements not handed out yet. */
    function Remaining(): seq<T>
      reads this
      requires Valid()
    {
      items[pos..]
    }

    /** `slice.iter()` */
    constructor (items: seq<T>)
      ensures Valid() && this.items == items && Remaining() == items
    {
      this.items := items;
      pos := 0;
    }

    /** `Iter::next`: the next element, or `None` for good once all were handed out. */
    method Next() returns (item: Option<T>)
      requires Valid()
      modifies this
      ensures Valid()
      ensures old(Remaining()) == [] ==> item == None && Remaining() == []
      ensures old(Remaining()) != [] ==>
                item == Some(old(Remaining())[0]) && Remaining() == old(Remaining())[1..]
      ensures old(pos) < |items| ==> pos == old(pos) + 1 && item == Some(items[old(pos)])
      ensures old(pos) == |items| ==> pos == old(pos) && item == None
    {
      if pos < |items| {
        item := Some(items[pos]);
        pos := pos + 1;
      } else {
        item := None;
      }
    }
  }

  /** `seq(|s|, f)` applied elementwise: what `map(f).collect()` builds. */
  function MapSeq<T, U>(s: seq<T>, f: T -> U): (r: seq<U>)
    ensures |r| == |s| && forall i | 0 <= i < |s| :: r[i] == f(s[i])
  {
    seq(|s|, i requires 0 <= i < |s| => f(s[i]))
  }

  class MapIter<T, U> {
    const inner: SliceIter<T>
    const f: T -> U

    /** `iter.map(f)`: nothing is computed until `next` is called. */
    constructor (inner: SliceIter<T>, f: T -> U)
      ensures this.inner == inner && this.f == f
    {
      this.inner := inner;
      this.f := f;
    }

    /** `Map::next`: the closure applied to what the inner iterator hands out. */
    method Next() returns (item: Option<U>)
      requires inner.Valid()
      modifies inner
      ensures inner.Valid()
      ensures old(inner.pos) < |inner.items| ==>
                inner.pos == old(inner.pos) + 1 && item == Some(f(inner.items[old(inner.pos)]))
      ensures old(inner.pos) == |inner.items| ==> inner.pos == old(inner.pos) && item == None
    {
      var x := inner.Next();
      match x
      case None => item := None;
      case Some(v) => item := Some(f(v));
    }
  }

  /**
   * `start..end`: the integers from `start` up to but excluding `end`,
   * handed out from the front by `next` and from the back by `next_back`
   * (which is what `rev()` steps).
   */
  class Range {
    var start: int
    var end: int

    /** The integers not handed out yet, in ascending order. */
    function Remaining(): (r: seq<int>)
      reads this
      ensures |r| == if start < end then end - start else 0
      ensures forall i | 0 <= i < |r| :: r[i] == start + i
    {
      var lo := start;
      if lo < end then seq(end - lo, i => lo + i) else []
    }

    constructor (start: int, end: int)
      ensures this.start == start && this.end == end
    {
      this.start := start;
      this.end := end;
    }

    /** `Range::next`: the smallest integer left, or `None` once the range is empty. */
    method Next() returns (item: Option<int>)
      modifies this
      ensures old(start) < old(end) ==> item == Some(old(start)) && start == old(start) + 1 && end == old(end)
      ensures old(start) >= old(end) ==> item == None && start == old(start) && end == old(end)
    {
      if start < end {
        item := Some(start);
        start := start + 1;
      } else {
        item := None;
      }
    }

    /** `Range::next_back`: the largest integer left, or `None` once the range is empty. */
    method NextBack() returns (item: Option<int>)
      modifies this
      ensures old(start) < old(end) ==> item == Some(old(end) - 1) && end == old(end) - 1 && start == old(start)
      ensures old(start) >= old(end) ==> item == None && start == old(start) && end == old(end)
    {
      if start < end {
        end := end - 1;
        item := Some(end);
      } else {
        item := None;
      }
    }
  }
}
