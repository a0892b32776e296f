/** `if let` as the one-armed `match`, on options, coins and locations. */
module IfLetMatch {
  import opened RustInts
  import opened Std
  import opened EnumMatch

  /** The verbose `match config_max`: the maximum it reports, if any. */
  function ConfigMaxByMatch(configMax: Option<u8>): (reported: Option<u8>)
    ensures reported.Some? <==> configMax.Some?
  {
    match configMax
    case Some(max) => Some(max)
    case _ => None
  }

  /** `if let Some(max) = config_max`: runs its body for `Some` only. */
  function ConfigMaxByIfLet(configMax: Option<u8>): (reported: Option<u8>)
    ensures reported.Some? ==> configMax == Some(reported.value)
  {
    if configMax.Some? then Some(configMax.value) else None
  }

  /** The `if let` and the `match` report the same thing, which is the configured maximum. */
  lemma ConfigMaxFormsAgree(configMax: Option<u8>)
    ensures ConfigMaxByIfLet(configMax) == ConfigMaxByMatch(configMax) == configMax
  {
  }

  /**
   * The `if let ... else` coin count: a quarter reports its state and leaves
   * the count alone; any other coin adds one (which panics past `i32::MAX`).
   */
  method CountByIfLet(coin: Coin, count: i32) returns (newCount: i32, reported: Option<USState>)
    requires count as int < I32_MAX
    ensures coin.Quarter? ==> newCount == count && reported == Some(coin.state)
    ensures !coin.Quarter? ==> newCount as int == count as int + 1 && reported == None
  {
    newCount := count;
    if coin.Quarter? {
      reported := Some(coin.state);
    } else {
      reported := None;
      newCount := newCount + 1;
    }
  }

  /** The same count with a `match` and a `_ => count += 1` arm. */
  method CountByMatch(coin: Coin, count: i32) returns (newCount: i32, reported: Option<USState>)
    requires count as int < I32_MAX
    ensures coin.Quarter? ==> newCount == count && reported == Some(coin.state)
    ensures !coin.Quarter? ==> newCount as int == count as int + 1 && reported == None
  {
    newCount := count;
    match coin {
      case Quarter(state) =>
        reported := Some(state);
      case _ =>
        reported := None;
        newCount := newCount + 1;
    }
  }

  /** `if_let` with a nickel: both forms count one coin, and neither reports a state. */
  method CountNickel() returns (byIfLet: i32, byMatch: i32)
    ensures byIfLet == byMatch == 1
  {
    var stateByIfLet, stateByMatch;
    byIfLet, stateByIfLet := CountByIfLet(Nickel, 0);
    byMatch, stateByMatch := CountByMatch(Nickel, 0);
  }

  datatype Location = Point(u32) | Range(u32, u32)

  /** `print_range_max`: the second field of a `Range`, and nothing for a `Point`. */
  function PrintRangeMax(loc: Location): (printed: Option<u32>)
    ensures printed.Some? <==> loc.Range?
  {
    match loc
    case Range(_, b) => Some(b)
    case _ => None
  }

  /** `get_start`: the first field of a `Range`, or the only field of a `Point`. */
  function GetStart(loc: Location): (start: u32)
    ensures loc.Point? ==> loc == Point(start)
  {
    match loc
    case Point(a) => a
    case Range(a, _) => a
  }

  /** Between them, `get_start` and `print_range_max` recover every location. */
  lemma LocationFromFields(loc: Location)
    ensures loc.Point? ==> loc == Point(GetStart(loc))
    ensures loc.Range? ==> loc == Range(GetStart(loc), PrintRangeMax(loc).value)
  {
  }

  /** The samples: `Point(4)` starts at 4 and has no range maximum; `Range(6, 32)` starts at 6 and reports 32. */
  lemma LocationSamples()
    ensures PrintRangeMax(Point(4)) == None && GetStart(Point(4)) == 4
    ensures PrintRangeMax(Range(6, 32)) == Some(32) && GetStart(Range(6, 32)) == 6
  {
  }
}
