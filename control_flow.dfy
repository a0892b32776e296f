/** The `if`, `loop`, `while` and `for` walk-through of the language-concepts chapter. */
module ControlFlow {
  import opened RustInts
  import opened Std
  import opened StdIter

  /** Which message the `if`/`else if` chain prints. */
  datatype Divisibility = DivisibleBy4 | DivisibleBy3 | DivisibleBy2 | NotDivisible

  /**
   * The `if`/`else if` chain of `if_statement`: the branch of the first test
   * that holds, with Rust's truncating `%`.
   */
  function Classify(num: i32): (d: Divisibility)
    ensures d == DivisibleBy4 <==> RustRem(num as int, 4) == 0
    ensures d == DivisibleBy3 <==> RustRem(num as int, 4) != 0 && RustRem(num as int, 3) == 0
  {
    if RustRem(num as int, 4) == 0 then DivisibleBy4
    else if RustRem(num as int, 3) == 0 then DivisibleBy3
    else if RustRem(num as int, 2) == 0 then DivisibleBy2
    else NotDivisible
  }

  /**
   * What each message means about `num`: since a multiple of 4 is caught
   * first, "divisible by 2" is only ever printed for numbers that are 2 more
   * than a multiple of 4 and not multiples of 3, and the last message only for
   * odd numbers that are not multiples of 3.
   */
  lemma ClassifyMeaning(num: i32)
    ensures Classify(num) == DivisibleBy4 <==> num as int % 4 == 0
    ensures Classify(num) == DivisibleBy3 <==> num as int % 4 != 0 && num as int % 3 == 0
    ensures Classify(num) == DivisibleBy2 <==> num as int % 4 == 2 && num as int % 3 != 0
    ensures Classify(num) == NotDivisible <==> num as int % 2 == 1 && num as int % 3 != 0
  {
    var n := num as int;
    assert n % 2 == 0 <==> n % 4 == 0 || n % 4 == 2;
  }

  /**
   * `if_statement`: for `num = 4` the first test holds and the chain reports
   * divisibility by 4; the `if` expression on a true condition yields 5.
   */
  method IfStatement() returns (lessThanFive: bool, report: Divisibility, number: i32)
    ensures lessThanFive && report == DivisibleBy4 && number == 5
  {
    var num: i32 := 4;
    lessThanFive := num < 5;
    report := Classify(num);
    var condition := true;
    var value: int := if condition then 5 else 9;
    number := value as i32;
  }

  /** The `loop` of `loops` that breaks with `counter * 2` once the counter reaches 10. */
  method LoopWithBreakValue() returns (result: i32)
    ensures result == 20
  {
    var counter: i32 := 0;
    while true
      invariant 0 <= counter < 10
      decreases 10 - counter
    {
      counter := counter + 1;
      if counter == 10 {
        result := counter * 2;
        return;
      }
    }
  }

  /**
   * The labelled loops of `loops`: for each `count` the inner loop prints
   * `remaining` = 10 and, while `count < 2`, stops at 9; at `count == 2` it
   * leaves both loops at once, before any decrement. The result is the
   * values printed and the final count.
   */
  method LabelledLoops() returns (count: i32, printedCounts: seq<i32>, printedRemaining: seq<i32>)
    ensures count == 2
    ensures printedCounts == [0, 1, 2]
    ensures printedRemaining == [10, 9, 10, 9, 10]
  {
    count := 0;
    printedCounts := [];
    printedRemaining := [];
    label countingUp: while true
      invariant 0 <= count <= 2
      invariant printedCounts == [0, 1, 2][..count]
      invariant printedRemaining == if count == 0 then [] else if count == 1 then [10, 9] else [10, 9, 10, 9]
      decreases 2 - count
    {
      printedCounts := printedCounts + [count];
      var remaining: i32 := 10;
      while true
        invariant remaining == 10 || remaining == 9
        invariant remaining == 9 ==> count < 2
        invariant printedRemaining == (if count == 0 then [] else if count == 1 then [10, 9] else [10, 9, 10, 9])
                                      + (if remaining == 9 then [10] else [])
        decreases remaining
      {
        printedRemaining := printedRemaining + [remaining];
        if remaining == 9 {
          break;
        }
        if count == 2 {
          break countingUp;
        }
        remaining := remaining - 1;
      }
      count := count + 1;
    }
  }

  /**
   * The `while` countdown of `loops`: prints `number`, `number - 1`, ..., 1
   * and stops at 0. A negative start would count down until `-=` overflows
   * and panics, so the start must not be negative.
   */
  method Countdown(start: i32) returns (printed: seq<i32>, number: i32)
    requires start >= 0
    ensures number == 0
    ensures |printed| == start as int
    ensures forall i | 0 <= i < |printed| :: printed[i] as int == start as int - i
  {
    number := start;
    printed := [];
    while number != 0
      invariant 0 <= number <= start
      invariant |printed| == (start - number) as int
      invariant forall i | 0 <= i < |printed| :: printed[i] as int == start as int - i
    {
      printed := printed + [number];
      number := number - 1;
    }
  }

  /** The countdown in `loops` starts at 3: it prints 3, 2, 1 and ends at 0. */
  method Liftoff() returns (printed: seq<i32>, number: i32)
    ensures printed == [3, 2, 1] && number == 0
  {
    printed, number := Countdown(3);
  }

  /** `for el in a`: visits every element of the array, in order. */
  method ForIn(a: array<i32>) returns (printed: seq<i32>)
    ensures printed == a[..]
  {
    printed := [];
    for i := 0 to a.Length
      invariant printed == a[..i]
    {
      printed := printed + [a[i]];
    }
  }

  /** `for num in (lo..hi).rev()`: visits `hi - 1` down to `lo`. */
  method ForInReversedRange(lo: int, hi: int) returns (printed: seq<int>)
    ensures |printed| == if lo < hi then hi - lo else 0
    ensures forall i | 0 <= i < |printed| :: printed[i] == hi - 1 - i
  {
    var range := new Range(lo, hi);
    printed := [];
    var item := range.NextBack();
    while item.Some?
      invariant range.start == lo
      invariant item.Some? ==> lo <= range.end < hi && item.value == range.end
      invariant item.None? ==> range.end == if lo < hi then lo else hi
      invariant |printed| == hi - 1 - (if item.Some? then range.end else range.end - 1)
      invariant forall i | 0 <= i < |printed| :: printed[i] == hi - 1 - i
      decreases range.end - lo, item.Some?
    {
      printed := printed + [item.value];
      item := range.NextBack();
    }
  }

  /**
   * The two `for` loops of `loops`: over [10, 20, 30, 40, 50] in order, and
   * over `(1..4).rev()` as 3, 2, 1.
   */
  method ForLoops() returns (elements: seq<i32>, countdown: seq<int>)
    ensures elements == [10, 20, 30, 40, 50] && countdown == [3, 2, 1]
  {
    var a := new i32[5] [10, 20, 30, 40, 50];
    elements := ForIn(a);
    countdown := ForInReversedRange(1, 4);
  }
}
