/** The walk-through that drives a post through its state types. */
module StatePatternRust {
  import opened BlogRustWay
  import StatePatternNonRust

  /**
   * `run`: a new draft gets its text, becomes a post pending review and then a
   * published post, whose content is exactly the text written into the draft.
   */
  method Run() returns (published: string)
    ensures published == StatePatternNonRust.Salad
  {
    var post := new DraftPost();
    post.AddText(StatePatternNonRust.Salad);
    var pending := post.RequestReview();
    var approved := pending.Approve();
    published := approved.Content();
  }
}
