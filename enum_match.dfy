/** The coin sorter of the pattern-matching chapter. */
module EnumMatch {
  import opened RustInts

  datatype USState = Alabama | Alaska

  datatype Coin = Penny | Nickel | Dime | Quarter(state: USState)

  /**
   * `value_in_cents`: one exhaustive `match`, so every coin has a value, and
   * it is one of 1, 5, 10 and 25; a quarter is worth 25 whatever its state.
   */
  function ValueInCents(coin: Coin): (cents: u8)
    ensures cents == 1 || cents == 5 || cents == 10 || cents == 25
    ensures cents == 25 <==> coin.Quarter?
  {
    match coin
    case Penny => 1
    case Nickel => 5
    case Dime => 10
    case Quarter(_) => 25
  }

  /** The value tells the kind of coin apart: two coins of equal value differ at most in a quarter's state. */
  lemma ValueDeterminesKind(a: Coin, b: Coin)
    requires ValueInCents(a) == ValueInCents(b)
    ensures a == b || (a.Quarter? && b.Quarter?)
  {
  }

  /** `coins_values`: the values printed for the five sample coins. */
  lemma CoinsValues()
    ensures ValueInCents(Penny) == 1 && ValueInCents(Nickel) == 5 && ValueInCents(Dime) == 10
    ensures ValueInCents(Quarter(Alabama)) == 25 && ValueInCents(Quarter(Alaska)) == 25
  {
  }
}
