/**
 * Rectangles measured in pixels: the same area computed from two loose
 * variables, from a tuple, from a struct and by a method, and the methods and
 * associated functions of `Rectangle`.
 */
module Rectangles {
  import opened RustInts

  /** The product of two `u32`s fits in a `u32`, so that `*` does not panic. */
  predicate ProductFits(width: u32, height: u32) {
    width as int * height as int <= U32_MAX
  }

  class Rectangle {
    var width: u32
    var height: u32

    constructor (width: u32, height: u32)
      ensures this.width == width && this.height == height
    {
      this.width := width;
      this.height := height;
    }

    /** `Rectangle::square`: an associated function building a square. */
    constructor Square(size: u32)
      ensures width == size && height == size
    {
      width := size;
      height := size;
    }

    /** `Rectangle::area`, called as `r.area()` or as `Rectangle::area(&r)`. */
    function Area(): (a: u32)
      reads this
      requires ProductFits(width, height)
      ensures a as int == AreaFromSimpleVars(width, height) as int
    {
      width * height
    }

    /** `Rectangle::set_width`: the height stays as it was. */
    method SetWidth(w: u32)
      modifies this
      ensures width == w && height == old(height)
    {
      width := w;
    }

    /** `Rectangle::can_hold`: strictly wider and strictly taller. */
    predicate CanHold(other: Rectangle): (r: bool)
      reads this, other
      ensures r ==> width as int * height as int > other.width as int * other.height as int
    {
      if width > other.width && height > other.height then
        StrictlyLargerProduct(width as int, height as int, other.width as int, other.height as int);
        true
      else
        false
    }
  }

  /** `area_from_simple_vars`: the area of a width-by-height rectangle. */
  function AreaFromSimpleVars(width: u32, height: u32): (a: u32)
    requires ProductFits(width, height)
    ensures a as int == width as int * height as int
    ensures width > 0 ==> a as int / width as int == height as int
    ensures a == 0 <==> width == 0 || height == 0
  {
    width * height
  }

  /** `area_from_tuple`: the width is component 0, the height component 1. */
  function AreaFromTuple(dimensions: (u32, u32)): (a: u32)
    requires ProductFits(dimensions.0, dimensions.1)
    ensures a as int == dimensions.0 as int * dimensions.1 as int
  {
    dimensions.0 * dimensions.1
  }

  /** `area_from_struct` */
  function AreaFromStruct(rect: Rectangle): (a: u32)
    reads rect
    requires ProductFits(rect.width, rect.height)
    ensures a as int == rect.width as int * rect.height as int
  {
    rect.width * rect.height
  }

  /**
   * All four ways of computing the area agree, and swapping width and height
   * (the mix-up that the tuple invites) does not change it.
   */
  lemma AreasAgree(rect: Rectangle)
    requires ProductFits(rect.width, rect.height)
    ensures AreaFromStruct(rect) == rect.Area()
    ensures AreaFromTuple((rect.width, rect.height)) == rect.Area()
    ensures ProductFits(rect.height, rect.width)
            && AreaFromTuple((rect.height, rect.width)) == rect.Area()
  {
  }

  /** A square's area is its side squared. */
  method SquareArea(size: u32) returns (area: u32)
    requires ProductFits(size, size)
    ensures area as int == size as int * size as int
  {
    var sq := new Rectangle.Square(size);
    area := sq.Area();
  }

  /** `methods`: a 30-by-50 rectangle holds a 10-by-40 one but not a 60-by-45 one. */
  method Methods() returns (holdsR2: bool, holdsR3: bool)
    ensures holdsR2 && !holdsR3
  {
    var r1 := new Rectangle(30, 50);
    var r2 := new Rectangle(10, 40);
    var r3 := new Rectangle(60, 45);
    holdsR2 := r1.CanHold(r2);
    holdsR3 := r1.CanHold(r3);
  }

  /**
   * `associated_functions`: a 7-by-5 rectangle has area 35, and 10 once its
   * width is set to 2; method-call and function-call syntax give the same area.
   */
  method AssociatedFunctions() returns (before: u32, after: u32)
    ensures before == 35 && after == 10
  {
    var r := new Rectangle(7, 5);
    var area1 := r.Area();
    var area2 := r.Area();
    assert area1 == area2;
    before := area1;
    r.SetWidth(2);
    area1 := r.Area();
    area2 := r.Area();
    assert area1 == area2;
    after := area1;
  }
}
