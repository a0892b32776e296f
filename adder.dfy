/** The `adder` crate that the testing chapter writes its tests against. */
module Adder {
  import opened RustInts
  import opened Std
  import opened Text

  /** `add`: a `u64` sum, which panics instead of wrapping. */
  function Add(left: u64, right: u64): (r: u64)
    requires left as int + right as int < 0x1_0000_0000_0000_0000
    ensures r as int - right as int == left as int
  {
    left + right
  }

  lemma AddCommutes(left: u64, right: u64)
    requires left as int + right as int < 0x1_0000_0000_0000_0000
    ensures Add(left, right) == Add(right, left)
  {
  }

  /** `add_two` */
  function AddTwo(a: i32): (r: i32)
    requires a as int <= I32_MAX - 2
    ensures r > a && r as int - a as int == 2
  {
    a + 2
  }

  /** `greeting`: the name framed by "Hello, " and "!". */
  function Greeting(name: string): (r: string)
    ensures |r| == |name| + 8
    ensures StartsWith(r, "Hello, ") && EndsWith(r, "!")
    ensures r[7..|r| - 1] == name
  {
    "Hello, " + name + "!"
  }

  /** The greeting always mentions the name it was given. */
  lemma GreetingContainsName(name: string)
    ensures Contains(Greeting(name), name)
  {
    assert name <= Greeting(name)[7..];
  }

  /** `prints_and_returns_10`: the printing is left out; the result ignores the argument. */
  function PrintsAndReturns10(a: i32): (r: i32)
    ensures r == 10
  {
    10
  }

  datatype Rectangle = Rectangle(width: i32, height: i32) {

    /** `Rectangle::can_hold`: strictly wider and strictly taller. */
    predicate CanHold(other: Rectangle): (r: bool)
      ensures r && other.width >= 0 && other.height >= 0 ==>
                width as int * height as int > other.width as int * other.height as int
    {
      if width > other.width && height > other.height then
        StrictlyLargerProduct(width as int, height as int, other.width as int, other.height as int);
        true
      else
        false
    }
  }

  /** Holding is a strict order: nothing holds itself, and it chains. */
  lemma CanHoldIsStrictOrder(a: Rectangle, b: Rectangle, c: Rectangle)
    ensures !a.CanHold(a)
    ensures a.CanHold(b) ==> !b.CanHold(a)
    ensures a.CanHold(b) && b.CanHold(c) ==> a.CanHold(c)
  {
  }

  datatype Guess = Guess(value: i32)

  /** Why `Guess::new` panics. */
  datatype Panic = Panic(message: string)

  /**
   * `Guess::new`: a guess outside 1..=100 panics, with a message that says
   * which bound was broken and echoes the value; inside, the value is kept.
   */
  function NewGuess(value: i32): (r: Result<Guess, Panic>)
    ensures r.Ok? <==> 1 <= value <= 100
    ensures r.Ok? ==> r.value.value == value
    ensures value < 1 ==> r.Err? && Contains(r.error.message, "greater than or equal 1")
    ensures value > 100 ==> r.Err? && Contains(r.error.message, "less than or equal 100")
  {
    var got := ", got " + IntToDecimal(value as int) + ".";
    if value < 1 then
      ContainsMiddle("Guess value must be ", "greater than or equal 1", got);
      Err(Panic("Guess value must be " + "greater than or equal 1" + got))
    else if value > 100 then
      ContainsMiddle("Guess value must be ", "less than or equal 100", got);
      Err(Panic("Guess value must be " + "less than or equal 100" + got))
    else
      Ok(Guess(value))
  }

  // The crate's unit tests and its integration test.

  lemma ItAdds()
    ensures Add(2, 2) == 4
  {
  }

  lemma ItAddsTwo()
    ensures AddTwo(4) == 6
    ensures AddTwo(2) == 4
  {
  }

  lemma GreetingContainsCarol()
    ensures Contains(Greeting("Carol"), "Carol")
  {
    GreetingContainsName("Carol");
  }

  lemma LargerCanHoldSmaller()
    ensures Rectangle(8, 7).CanHold(Rectangle(5, 1))
    ensures !Rectangle(5, 1).CanHold(Rectangle(8, 7))
  {
  }

  lemma GreaterThan100Panics()
    ensures NewGuess(200).Err?
    ensures Contains(NewGuess(200).error.message, "less than or equal 100")
  {
  }

  /** `this_test_will_pass`, and why the ignored `this_test_will_fail` would fail. */
  lemma ReturnsTen()
    ensures PrintsAndReturns10(4) == 10
    ensures PrintsAndReturns10(8) != 5
  {
  }
}
