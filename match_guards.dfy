/** Match guards: extra conditions on match arms. */
module MatchGuards {
  import opened RustInts
  import opened Std

  datatype ParityArm = Even(x: i32) | Odd(x: i32) | NoNumber

  /**
   * `match_guard`: `Some(x) if x % 2 == 0` is the even arm, any other `Some`
   * the odd arm, and `None` does nothing. Rust's `%` gives -1 for a negative
   * odd number, which is not 0, so the arms follow the number's true parity.
   */
  function MatchGuard(num: Option<i32>): (arm: ParityArm)
    ensures num.None? <==> arm == NoNumber
    ensures arm.Even? <==> num.Some? && num.value as int % 2 == 0
    ensures arm != NoNumber ==> arm.x == num.value
  {
    match num
    case Some(x) => if RustRem(x as int, 2) == 0 then Even(x) else Odd(x)
    case None => NoNumber
  }

  /** A negative odd number is reported odd, although Rust's `x % 2` is -1 rather than 1 for it. */
  lemma NegativeOddIsOdd(x: i32)
    requires x < 0 && x as int % 2 == 1
    ensures MatchGuard(Some(x)) == Odd(x)
    ensures RustRem(x as int, 2) == -1
  {
    RustRemNegativeOdd(x as int);
  }

  /** `run`: 4 is even, 3 is odd, and `None` takes no arm. */
  lemma MatchGuardRun()
    ensures MatchGuard(Some(4)) == Even(4) && MatchGuard(Some(3)) == Odd(3)
    ensures MatchGuard(None) == NoNumber
  {
  }

  datatype GuardArm = Got50 | Matched(n: i32) | Default(x: Option<i32>)

  /**
   * `another_match_guard`: `Some(50)` first; then `Some(n) if n == y`, whose
   * guard reads the outer `y` since the pattern binds `n`, not `y`; otherwise
   * the default arm, which sees `x` as it was.
   */
  function AnotherMatchGuard(x: Option<i32>, y: i32): (arm: GuardArm)
    ensures arm == Got50 <==> x == Some(50)
    ensures arm.Matched? <==> x.Some? && x.value != 50 && x.value == y
    ensures arm.Matched? ==> arm.n == y
    ensures arm.Default? ==> arm.x == x
  {
    if x == Some(50) then Got50
    else if x.Some? && x.value == y then Matched(x.value)
    else Default(x)
  }

  /** The arms are tried in order: with `y == 50`, `Some(50)` still takes the first arm. */
  lemma FirstArmWins()
    ensures AnotherMatchGuard(Some(50), 50) == Got50
  {
  }

  /** The sample: `Some(5)` with `y = 10` takes the default arm. */
  lemma AnotherMatchGuardSample()
    ensures AnotherMatchGuard(Some(5), 10) == Default(Some(5))
    ensures AnotherMatchGuard(Some(10), 10) == Matched(10)
  {
  }
}
