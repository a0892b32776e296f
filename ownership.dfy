/** Moving a `String` into a function, and cloning it first so the original survives. */
module Ownership {

  /**
   * `add_suffix`: takes the string by value and appends " Jr." to it in
   * place. The result keeps `name` as its start and is four characters longer.
   */
  method AddSuffix(name: string) returns (full: string)
    ensures |full| == |name| + 4
    ensures full[..|name|] == name && full[|name|..] == " Jr."
  {
    var s := name;
    s := s + " Jr.";
    full := s;
  }

  /** `box_moving`'s `ownership_transfer`: "Ferris" becomes "Ferris Jr.". */
  method OwnershipTransferMoving() returns (full: string)
    ensures full == "Ferris Jr."
  {
    var first := "Ferris";
    full := AddSuffix(first);
  }

  /**
   * `box_cloning`'s `ownership_transfer`: the suffix is appended to a clone,
   * so `first` is still "Ferris" next to "Ferris Jr.".
   */
  method OwnershipTransferCloning() returns (first: string, full: string)
    ensures first == "Ferris" && full == "Ferris Jr."
  {
    first := "Ferris";
    var firstClone := first;
    full := AddSuffix(firstClone);
  }
}
