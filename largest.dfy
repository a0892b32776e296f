/** The generic `largest` of the generics chapter. */
module Largest {

  /**
   * `greater` is a strict total order, as `>` is on the integers and
   * characters `largest` is used with.
   */
  ghost predicate StrictTotalOrder<T(!new)>(greater: (T, T) -> bool) {
    && (forall a :: !greater(a, a))
    && (forall a, b, c :: greater(a, b) && greater(b, c) ==> greater(a, c))
    && (forall a, b :: a == b || greater(a, b) || greater(b, a))
  }

  /**
   * `largest`: the position of the element it returns a reference to. Nothing
   * in the list is greater, and because only a strictly greater item replaces
   * the current one, every element before it is smaller: it is the first
   * occurrence of the maximum. An empty list panics at `list[0]`.
   */
  method Largest<T(!new)>(list: seq<T>, greater: (T, T) -> bool) returns (k: nat)
    requires |list| > 0
    requires StrictTotalOrder(greater)
    ensures k < |list|
    ensures forall j | 0 <= j < |list| :: !greater(list[j], list[k])
    ensures forall j | 0 <= j < k :: greater(list[k], list[j])
  {
    k := 0;
    for i := 0 to |list|
      invariant k < |list| && k <= i
      invariant forall j | 0 <= j < i :: !greater(list[j], list[k])
      invariant forall j | 0 <= j < k :: greater(list[k], list[j])
    {
      if greater(list[i], list[k]) {
        k := i;
      }
    }
  }

  /** `main`: 101 is the largest of the numbers and 'z' of the characters. */
  method Examples() returns (largestNum: int, largestChar: char)
    ensures largestNum == 101 && largestChar == 'z'
  {
    var numList := [14, 32, 101, 43, 22];
    var k := Largest(numList, (a: int, b: int) => a > b);
    largestNum := numList[k];
    assert numList[2] == 101;
    var charList := ['c', 'z', 'x', 'y', 'w'];
    var m := Largest(charList, (a: char, b: char) => a > b);
    largestChar := charList[m];
    assert charList[1] == 'z';
  }
}
