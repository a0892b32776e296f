/** `@` bindings: testing a value against a range and binding it at once. */
module AtBindings {
  import opened RustInts

  datatype Message = Hello(id: i32)

  /** Which arm of the `match msg` fires, with what it binds. */
  datatype IdArm = InRange(idVariable: i32) | InAnotherRange | OtherId(id: i32)

  /**
   * The `match msg` of `run`: the first arm whose pattern fits, so an id in
   * 3..=7 binds `id_variable`, one in 10..=12 binds nothing, and any other id
   * reaches the last arm, which binds it.
   */
  function MatchId(msg: Message): (arm: IdArm)
    ensures arm.InRange? <==> 3 <= msg.id <= 7
    ensures arm.InAnotherRange? <==> 10 <= msg.id <= 12
    ensures arm.OtherId? <==> !(3 <= msg.id <= 7) && !(10 <= msg.id <= 12)
    ensures arm.InRange? ==> arm.idVariable == msg.id
    ensures arm.OtherId? ==> arm.id == msg.id
  {
    var id := msg.id;
    if 3 <= id <= 7 then InRange(id)
    else if 10 <= id <= 12 then InAnotherRange
    else OtherId(id)
  }

  /** `run`: the id 5 is found in range, bound to 5. */
  lemma Run()
    ensures MatchId(Hello(5)) == InRange(5)
  {
  }
}
