/** Function pointers, closures and tuple-variant constructors passed as functions. */
module FuncPointers {
  import opened RustInts
  import opened Text
  import opened StdIter

  /** `add_one`, which panics at `i32::MAX`. */
  function AddOne(x: i32): (r: i32)
    requires x as int < I32_MAX
    ensures r as int == x as int + 1
  {
    x + 1
  }

  /**
   * `do_twice`: calls `f` twice on the same argument and adds the results;
   * the sum must fit in `i32`, or the addition panics.
   */
  function DoTwice(f: i32 --> i32, arg: i32): (r: i32)
    requires f.requires(arg)
    requires I32_MIN <= 2 * f(arg) as int <= I32_MAX
    ensures r as int == 2 * f(arg) as int
  {
    f(arg) + f(arg)
  }

  /** Applying `add_one` twice and adding gives `2 * (arg + 1)`, an even number. */
  lemma DoTwiceAddOne(arg: i32)
    requires I32_MIN <= 2 * (arg as int + 1) <= I32_MAX
    ensures DoTwice(AddOne, arg) as int == 2 * arg as int + 2
    ensures DoTwice(AddOne, arg) as int % 2 == 0
  {
  }

  /** `func_ptr`: `do_twice(add_one, 5)` is 12. */
  lemma FuncPtr()
    ensures DoTwice(AddOne, 5) == 12
  {
  }

  /**
   * `ToString::to_string` on an `i32`: a `'-'` exactly for a negative number,
   * then decimal digits, without leading zeros, that read back as its
   * magnitude.
   */
  function ToString(i: i32): (r: string)
    ensures r != [] && (i < 0 <==> r[0] == '-')
    ensures var digits := if i < 0 then r[1..] else r;
            && (forall k | 0 <= k < |digits| :: IsDigit(digits[k]))
            && (|digits| > 1 ==> digits[0] != '0')
            && DecimalValue(digits) == if i < 0 then -(i as int) else i as int
  {
    var magnitude := if i < 0 then -(i as int) else i as int;
    DecimalRoundTrip(magnitude);
    assert i < 0 ==> ("-" + NatToDecimal(magnitude))[1..] == NatToDecimal(magnitude);
    IntToDecimal(i as int)
  }

  /**
   * `closure_or_fnptr`: mapping the closure `|i| i.to_string()` and mapping
   * the function path `ToString::to_string` build the same list, element by
   * element.
   */
  lemma ClosureOrFnPtr(list: seq<i32>)
    ensures MapSeq(list, i => ToString(i)) == MapSeq(list, ToString)
    ensures |MapSeq(list, ToString)| == |list|
  {
  }

  /** The sample list [1, 2, 3] becomes ["1", "2", "3"]. */
  lemma ClosureOrFnPtrSample()
    ensures MapSeq([1 as i32, 2, 3], ToString) == ["1", "2", "3"]
  {
    assert ToString(1) == "1" && ToString(2) == "2" && ToString(3) == "3";
  }

  datatype Status = Value(u32) | Stop

  /** `(0u32..n).map(Status::Value).collect()`: the variant constructor as the mapped function. */
  function ValueStatuses(n: u32): (statuses: seq<Status>)
    ensures |statuses| == n as int
    ensures forall i | 0 <= i < n as int :: statuses[i] == Value(i as u32)
  {
    seq(n as int, i requires 0 <= i < n as int => Value(i as u32))
  }

  /** `enum_init_fnptr`: twelve statuses, `Value(0)` first and none of them `Stop`. */
  lemma EnumInitFnPtr()
    ensures |ValueStatuses(12)| == 12
    ensures ValueStatuses(12)[0] == Value(0)
    ensures Stop !in ValueStatuses(12)
  {
  }
}
