/** The walk-through that drives a state-pattern `Post` through its workflow. */
module StatePatternNonRust {
  import opened BlogNonRustWay

  const Salad: string := "I ate a salad for lunch today"

  /**
   * `run`: the text stays hidden after creation, after adding text, after an
   * approval that came before any review request, and while the review is
   * pending; the approval after the review request shows exactly the text
   * that was added.
   */
  method Run() returns (afterNew: string, afterAddText: string, afterEarlyApprove: string,
                        afterReviewRequest: string, afterApprove: string)
    ensures afterNew == "" && afterAddText == "" && afterEarlyApprove == ""
    ensures afterReviewRequest == ""
    ensures afterApprove == Salad
  {
    var post := new Post();
    afterNew := post.Content();

    post.AddText(Salad);
    afterAddText := post.Content();

    post.Approve();
    afterEarlyApprove := post.Content();

    post.RequestReview();
    afterReviewRequest := post.Content();

    post.Approve();
    afterApprove := post.Content();
  }

  /** The same calls, replayed on the model of call sequences, end with the same text shown. */
  lemma RunMatchesActions()
    ensures var final := BlogNonRustWay.Run(Calls);
            final.0.Content(final.1) == Salad
  {
    VisibleContent(Calls);
    assert Calls[2].RequestReview? && Calls[3].Approve?;
    assert AddedText(Calls[..1]) == Salad by {
      assert Calls[..1][..0] == [];
    }
    assert Calls[..2][..1] == Calls[..1];
    assert AddedText(Calls[..2]) == Salad;
    assert Calls[..3][..2] == Calls[..2];
    assert AddedText(Calls[..3]) == Salad;
    assert Calls[..4] == Calls;
  }

  /** The calls `run` makes, in order. */
  const Calls: seq<Action> := [AddText(Salad), Action.Approve, Action.RequestReview, Action.Approve]
}
