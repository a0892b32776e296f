/** Structs generic over their field types, and mixing two of them. */
module GenericsStructs {

  datatype MixedPoint<T, U> = MixedPoint(x: T, y: U) {

    /**
     * `MixedPoint::mixup`: a new point with `x` from this one and `y` from
     * `other`. Both are borrowed and their fields cloned, so neither changes.
     */
    function Mixup<V, W>(other: MixedPoint<V, W>): (r: MixedPoint<T, W>)
      ensures r.x == x && r.y == other.y
    {
      MixedPoint(x, other.y)
    }
  }

  /** Mixing a point with itself gives it back. */
  lemma MixupSelf<T, U>(p: MixedPoint<T, U>)
    ensures p.Mixup(p) == p
  {
  }

  /**
   * Only the outer points matter: mixing in `b` and then `c` is mixing in `c`,
   * and so is mixing in `b` mixed with `c`.
   */
  lemma MixupAbsorbs<T, U, V, W, X, Y>(a: MixedPoint<T, U>, b: MixedPoint<V, W>, c: MixedPoint<X, Y>)
    ensures a.Mixup(b).Mixup(c) == a.Mixup(c)
    ensures a.Mixup(b.Mixup(c)) == a.Mixup(c)
  {
  }

  /** `main`: `(1.3, 3)` mixed with `("World", 'c')` is `(1.3, 'c')`. */
  lemma MixupSample()
    ensures MixedPoint(1.3, 3).Mixup(MixedPoint("World", 'c')) == MixedPoint(1.3, 'c')
  {
  }
}
