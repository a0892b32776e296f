/** Matching on `Option<T>` and catch-all arms. */
module OptionTMatch {
  import opened RustInts
  import opened Std

  /**
   * `plus_one`: `None` stays `None`, and `Some(n)` becomes `Some(n + 1)`. The
   * addition panics on overflow, so `n` must be below `i32::MAX`.
   */
  function PlusOne(x: Option<i32>): (r: Option<i32>)
    requires x.Some? ==> x.value as int < I32_MAX
    ensures r.None? <==> x.None?
    ensures r.Some? ==> r.value as int == x.value as int + 1
  {
    match x
    case None => None
    case Some(num) => Some(num + 1)
  }

  /** `plus_one` loses nothing: different inputs give different results. */
  lemma PlusOneInjective(x: Option<i32>, y: Option<i32>)
    requires x.Some? ==> x.value as int < I32_MAX
    requires y.Some? ==> y.value as int < I32_MAX
    requires PlusOne(x) == PlusOne(y)
    ensures x == y
  {
  }

  /** `enum_option_matches`: `Some(5)` becomes `Some(6)`, and `None` stays `None`. */
  lemma EnumOptionMatches()
    ensures PlusOne(Some(5)) == Some(6)
    ensures PlusOne(None) == None
  {
  }

  /** What an arm of the dice matches does. */
  datatype DiceAction = RolledAThree | RolledASeven | MoveOn(num: u8) | RollAgain | NoAction

  /** The first dice match: 3 and 7 have arms, and `other` binds any other roll. */
  function CatchAllMatch(diceRoll: u8): (a: DiceAction)
    ensures a == RolledAThree <==> diceRoll == 3
    ensures a == RolledASeven <==> diceRoll == 7
    ensures diceRoll != 3 && diceRoll != 7 ==> a == MoveOn(diceRoll)
  {
    match diceRoll
    case 3 => RolledAThree
    case 7 => RolledASeven
    case other => MoveOn(other)
  }

  /** The second dice match: the placeholder `_` rolls again without binding. */
  function PlaceholderMatch(diceRoll: u8): (a: DiceAction)
    ensures a == RolledAThree <==> diceRoll == 3
    ensures a == RolledASeven <==> diceRoll == 7
    ensures diceRoll != 3 && diceRoll != 7 ==> a == RollAgain
  {
    match diceRoll
    case 3 => RolledAThree
    case 7 => RolledASeven
    case _ => RollAgain
  }

  /** The third dice match: `_ => ()` does nothing for any other roll. */
  function UnitMatch(diceRoll: u8): (a: DiceAction)
    ensures a == RolledAThree <==> diceRoll == 3
    ensures a == RolledASeven <==> diceRoll == 7
    ensures diceRoll != 3 && diceRoll != 7 ==> a == NoAction
  {
    match diceRoll
    case 3 => RolledAThree
    case 7 => RolledASeven
    case _ => NoAction
  }

  /**
   * The three matches agree on 3 and 7 and reach their catch-all arm for
   * exactly the same rolls.
   */
  lemma DiceMatchesAgree(diceRoll: u8)
    ensures CatchAllMatch(diceRoll).MoveOn? <==> PlaceholderMatch(diceRoll) == RollAgain
    ensures PlaceholderMatch(diceRoll) == RollAgain <==> UnitMatch(diceRoll) == NoAction
    ensures !CatchAllMatch(diceRoll).MoveOn? ==>
              CatchAllMatch(diceRoll) == PlaceholderMatch(diceRoll) == UnitMatch(diceRoll)
  {
  }

  /** `enum_match_catch_all`: a roll of 9 moves on with 9, rolls again, and does nothing. */
  lemma EnumMatchCatchAll()
    ensures CatchAllMatch(9) == MoveOn(9)
    ensures PlaceholderMatch(9) == RollAgain
    ensures UnitMatch(9) == NoAction
  {
  }
}
