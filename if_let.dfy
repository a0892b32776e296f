/**
 * The background-colour cascade that mixes `if let`, `else if` and
 * `else if let`, with the `str::parse::<u8>` it relies on.
 */
module IfLet {
  import opened RustInts
  import opened Std
  import opened Text

  /** Why `str::parse::<u8>` fails (`IntErrorKind`). */
  datatype IntErrorKind = Empty | InvalidDigit | PosOverflow

  /**
   * The digits of a `u8`, read left to right: the first character that is not
   * a digit fails with `InvalidDigit`, and the first digit that takes the
   * value past 255 with `PosOverflow`, whichever comes first.
   */
  function ParseDigits(digits: string): (r: Result<u8, IntErrorKind>)
    ensures r.Ok? ==> forall i | 0 <= i < |digits| :: IsDigit(digits[i])
    ensures r.Ok? ==> r.value as int == DecimalValue(digits)
    ensures r.Err? ==> r.error != Empty
    ensures (forall i | 0 <= i < |digits| :: IsDigit(digits[i])) && DecimalValue(digits) <= 255 ==> r.Ok?
  {
    if digits == [] then Ok(0)
    else
      match ParseDigits(digits[..|digits| - 1])
      case Err(e) => Err(e)
      case Ok(v) =>
        var c := digits[|digits| - 1];
        if !IsDigit(c) then Err(InvalidDigit)
        else if v as int * 10 + DigitValue(c) > 255 then Err(PosOverflow)
        else
          assert digits[..|digits| - 1] + [c] == digits;
          Ok((v as int * 10 + DigitValue(c)) as u8)
  }

  /** The digits that `str::parse::<u8>` reads: everything after one leading `+`. */
  function Magnitude(s: string): string
  {
    if s != "" && s[0] == '+' then s[1..] else s
  }

  /**
   * `str::parse::<u8>`: an empty string is `Empty`; a lone sign is
   * `InvalidDigit`; one leading `+` is skipped (a `-` is not, since `u8` has
   * no sign, so it is an invalid digit); the rest must be digits. It succeeds
   * exactly when what follows the `+` is a non-empty run of digits whose value
   * fits in a `u8`, and then gives that value.
   */
  function ParseU8(s: string): (r: Result<u8, IntErrorKind>)
    ensures r == Err(Empty) <==> s == ""
    ensures r.Ok? <==> Magnitude(s) != "" && (forall i | 0 <= i < |Magnitude(s)| :: IsDigit(Magnitude(s)[i]))
                       && DecimalValue(Magnitude(s)) <= 255
    ensures r.Ok? ==> r.value as int == DecimalValue(Magnitude(s))
  {
    if s == "" then Err(Empty)
    else if (s[0] == '+' || s[0] == '-') && |s| == 1 then Err(InvalidDigit)
    else if s[0] == '+' then ParseDigits(s[1..])
    else ParseDigits(s)
  }

  /** Printing a number that fits in a `u8` and parsing it back gives the number. */
  lemma ParsePrintedU8(n: u8)
    ensures ParseU8(NatToDecimal(n as nat)) == Ok(n)
  {
    var s := NatToDecimal(n as nat);
    DecimalRoundTrip(n as nat);
  }

  datatype Background = FavoriteColor(color: string) | Green | Purple | Orange | Blue

  /**
   * The cascade of `run`: a favourite colour wins; otherwise Tuesday is
   * green; otherwise a parsed age picks purple above 30 and orange up to 30;
   * otherwise blue.
   */
  function BackgroundColor(favoriteColor: Option<string>, isTuesday: bool,
                           age: Result<u8, IntErrorKind>): (b: Background)
    ensures favoriteColor.Some? ==> b == FavoriteColor(favoriteColor.value)
    ensures favoriteColor.None? && isTuesday ==> b == Green
    ensures favoriteColor.None? && !isTuesday && age.Ok? ==> b == (if age.value > 30 then Purple else Orange)
    ensures favoriteColor.None? && !isTuesday && age.Err? ==> b == Blue
  {
    if favoriteColor.Some? then FavoriteColor(favoriteColor.value)
    else if isTuesday then Green
    else if age.Ok? then
      if age.value > 30 then Purple else Orange
    else Blue
  }

  /** The colour depends on the later inputs only when the earlier ones do not decide it. */
  lemma FavoriteColorDecides(color: string, isTuesday1: bool, isTuesday2: bool,
                             age1: Result<u8, IntErrorKind>, age2: Result<u8, IntErrorKind>)
    ensures BackgroundColor(Some(color), isTuesday1, age1) == BackgroundColor(Some(color), isTuesday2, age2)
  {
  }

  /** `run`: no favourite colour, not Tuesday, and the age "34" give purple. */
  lemma Run()
    ensures ParseU8("34") == Ok(34)
    ensures BackgroundColor(None, false, ParseU8("34")) == Purple
  {
    ParsePrintedU8(34);
    assert NatToDecimal(34) == NatToDecimal(3) + [DigitChar(4)] == "34";
  }
}
