/** The `Add` trait implemented for points and for millimetres plus metres. */
module DefaultGenericType {
  import opened RustInts

  datatype Point = Point(x: i32, y: i32)

  /** Both coordinate sums fit in an `i32`, so that `+` does not panic. */
  predicate SumFits(p: Point, q: Point) {
    && -0x8000_0000 <= p.x as int + q.x as int <= I32_MAX
    && -0x8000_0000 <= p.y as int + q.y as int <= I32_MAX
  }

  /** `Add for Point`: componentwise. */
  function AddPoints(p: Point, q: Point): (r: Point)
    requires SumFits(p, q)
    ensures r.x as int - q.x as int == p.x as int
    ensures r.y as int - q.y as int == p.y as int
  {
    Point(p.x + q.x, p.y + q.y)
  }

  /** Point addition does not depend on the order of the operands, and the origin changes nothing. */
  lemma AddPointsLaws(p: Point, q: Point)
    requires SumFits(p, q)
    ensures SumFits(q, p) && AddPoints(p, q) == AddPoints(q, p)
    ensures SumFits(p, Point(0, 0)) && AddPoints(p, Point(0, 0)) == p
  {
  }

  datatype Millimeters = Millimeters(mm: u32)
  datatype Meters = Meters(m: u32)

  /** The metres converted to millimetres and added fit in a `u32`. */
  predicate MetersFit(a: Millimeters, b: Meters) {
    a.mm as int + b.m as int * 1000 <= U32_MAX
  }

  /**
   * `Add<Meters> for Millimeters`: the result is in millimetres, each metre
   * counting as a thousand of them.
   */
  function AddMeters(a: Millimeters, b: Meters): (r: Millimeters)
    requires MetersFit(a, b)
    ensures r.mm >= a.mm
    ensures (r.mm as int - a.mm as int) % 1000 == 0
    ensures (r.mm as int - a.mm as int) / 1000 == b.m as int
  {
    Millimeters(a.mm + b.m * 1000)
  }

  /** Adding metres in two steps is adding their total at once. */
  lemma AddMetersTwice(a: Millimeters, b: Meters, c: Meters)
    requires b.m as int + c.m as int <= U32_MAX
    requires MetersFit(a, Meters(b.m + c.m))
    ensures MetersFit(a, b) && MetersFit(AddMeters(a, b), c)
    ensures AddMeters(AddMeters(a, b), c) == AddMeters(a, Meters(b.m + c.m))
  {
  }

  /** `run`: (1, 0) + (2, 3) is (3, 3), and 24 mm + 2 m is 2024 mm. */
  lemma Run()
    ensures AddPoints(Point(1, 0), Point(2, 3)) == Point(3, 3)
    ensures AddMeters(Millimeters(24), Meters(2)) == Millimeters(2024)
  {
  }
}
