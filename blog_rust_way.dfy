/**
 * The blog-post workflow written with one type per state: a draft, a post
 * pending review and a published post are different types, each transition
 * consumes the value it is called on and hands its text to the next type, and
 * only the published post has a `Content` accessor.
 */
module BlogRustWay {
  import BlogNonRustWay

  /** A published post. */
  datatype Post = Post(content: string) {

    /** `Post::content`: the text, exactly as it was written in the draft. */
    function Content(): (r: string)
      ensures |r| == |content| && forall i | 0 <= i < |r| :: r[i] == content[i]
    {
      content
    }
  }

  /** A post waiting for review; it offers no way to read its text. */
  datatype PendingReviewPost = PendingReviewPost(content: string) {

    /** `PendingReviewPost::approve`: consumes the post, carrying its text over. */
    function Approve(): (p: Post)
      ensures p.content == content
    {
      Post(content)
    }
  }

  /** A draft: the only state in which text can be added. */
  class DraftPost {
    var content: string

    /** `Post::new`: the workflow starts with an empty draft. */
    constructor ()
      ensures content == ""
    {
      content := "";
    }

    /** `DraftPost::add_text`: appends to the text already written. */
    method AddText(text: string)
      modifies this
      ensures content == old(content) + text
    {
      content := content + text;
    }

    /** `DraftPost::request_review`: consumes the draft, carrying its text over. */
    function RequestReview(): (p: PendingReviewPost)
      reads this
      ensures p.content == content
    {
      PendingReviewPost(content)
    }
  }

  /** The text of a draft after `add_text` was called with each of `texts` in turn. */
  function Written(texts: seq<string>): string
  {
    if texts == [] then "" else Written(texts[..|texts| - 1]) + texts[|texts| - 1]
  }

  /** A new draft into which `add_text` wrote each of `texts` in turn holds `Written(texts)`. */
  method WriteDraft(texts: seq<string>) returns (post: DraftPost)
    ensures fresh(post) && post.content == Written(texts)
  {
    post := new DraftPost();
    for i := 0 to |texts|
      invariant post.content == Written(texts[..i])
    {
      assert texts[..i + 1][..i] == texts[..i];
      post.AddText(texts[i]);
    }
    assert texts[..|texts|] == texts;
  }

  /** Written text grows only at the end: each further piece is appended after what is there. */
  lemma {:induction false} WrittenAppends(texts: seq<string>, more: seq<string>)
    ensures Written(texts + more) == Written(texts) + Written(more)
  {
    if more == [] {
      assert texts + more == texts;
    } else {
      var front, last := more[..|more| - 1], more[|more| - 1];
      assert (texts + more)[..|texts + more| - 1] == texts + front;
      assert (texts + more)[|texts + more| - 1] == last;
      WrittenAppends(texts, front);
      assert Written(more) == Written(front) + last;
    }
  }

  /** The calls on a state-pattern post that match adding `texts` to a draft. */
  function AddCalls(texts: seq<string>): (calls: seq<BlogNonRustWay.Action>)
    ensures |calls| == |texts|
    ensures forall i | 0 <= i < |texts| :: calls[i] == BlogNonRustWay.AddText(texts[i])
  {
    if texts == [] then [] else AddCalls(texts[..|texts| - 1]) + [BlogNonRustWay.AddText(texts[|texts| - 1])]
  }

  lemma {:induction false} AddCallsText(texts: seq<string>)
    ensures BlogNonRustWay.AddedText(AddCalls(texts)) == Written(texts)
  {
    if texts != [] {
      var calls := AddCalls(texts);
      AddCallsText(texts[..|texts| - 1]);
      assert calls[..|calls| - 1] == AddCalls(texts[..|texts| - 1]);
    }
  }

  /**
   * Both designs publish the same text: writing `texts` into a draft, asking
   * for review and approving shows what a state-pattern post shows after
   * the same calls.
   */
  lemma TypestateAgreesWithStatePattern(texts: seq<string>)
    ensures var calls := AddCalls(texts) + [BlogNonRustWay.RequestReview, BlogNonRustWay.Approve];
            var final := BlogNonRustWay.Run(calls);
            PendingReviewPost(Written(texts)).Approve().Content() == final.0.Content(final.1)
  {
    var adds := AddCalls(texts);
    var requested := adds + [BlogNonRustWay.RequestReview];
    var calls := requested + [BlogNonRustWay.Approve];
    assert calls == AddCalls(texts) + [BlogNonRustWay.RequestReview, BlogNonRustWay.Approve];
    assert BlogNonRustWay.Run(calls).0.Content(BlogNonRustWay.Run(calls).1) == Written(texts) by {
      BlogNonRustWay.VisibleContent(calls);
      assert BlogNonRustWay.ApprovedAfterReview(calls) by {
        assert calls[|adds|].RequestReview? && calls[|adds| + 1].Approve?;
      }
      assert BlogNonRustWay.AddedText(calls) == Written(texts) by {
        AddCallsText(texts);
        assert calls[..|calls| - 1] == requested;
        assert requested[..|requested| - 1] == adds;
      }
    }
  }
}
