/**
 * The blog-post workflow written with the state pattern: a `Post` owns a
 * boxed state object that is taken out and replaced on every transition, and
 * the state object decides whether the post's text is visible.
 */
module BlogNonRustWay {
  import opened Std

  /**
   * The three implementors of the `State` trait. Each transition consumes the
   * state and returns the next one; `Content` is the trait's default method,
   * which only `Published` overrides.
   */
  datatype State = Draft | PendingReview | Published {

    function RequestReview(): (r: State)
      ensures this == Draft ==> r == PendingReview
      ensures this != Draft ==> r == this
    {
      match this
      case Draft => PendingReview
      case PendingReview => this
      case Published => this
    }

    function Approve(): (r: State)
      ensures this == PendingReview ==> r == Published
      ensures this != PendingReview ==> r == this
    {
      match this
      case Draft => this
      case PendingReview => Published
      case Published => this
    }

    /** What the post shows, given the text the post stores. */
    function Content(postContent: string): (r: string)
      ensures this == Published ==> r == postContent
      ensures this != Published ==> r == ""
    {
      match this
      case Published => postContent
      case _ => ""
    }
  }

  /**
   * A post. `state` is an `Option` only so that a transition can take the old
   * state out of the field before the new one is written back; between calls it
   * always holds a state, which is what `Valid` says.
   */
  class Post {
    var state: Option<State>
    var content: string

    ghost predicate Valid()
      reads this
    {
      state.Some?
    }

    /** `Post::new`: a draft with no text. */
    constructor ()
      ensures Valid() && state == Some(Draft) && content == ""
    {
      state := Some(Draft);
      content := "";
    }

    /**
     * `Post::content`: the stored text once the post is published, and the
     * empty string before that. `Valid` is what keeps the `unwrap` from
     * panicking.
     */
    function Content(): (r: string)
      reads this
      requires Valid()
      ensures state == Some(Published) ==> r == content
      ensures state != Some(Published) ==> r == ""
    {
      state.value.Content(content)
    }

    /** `Post::add_text`: appends in every state and never changes the state. */
    method AddText(text: string)
      requires Valid()
      modifies this
      ensures Valid() && state == old(state)
      ensures content == old(content) + text
    {
      content := content + text;
    }

    method RequestReview()
      requires Valid()
      modifies this
      ensures Valid() && state == Some(old(state).value.RequestReview())
      ensures content == old(content)
    {
      var taken := state;
      state := None;
      if taken.Some? {
        state := Some(taken.value.RequestReview());
      }
    }

    method Approve()
      requires Valid()
      modifies this
      ensures Valid() && state == Some(old(state).value.Approve())
      ensures content == old(content)
    {
      var taken := state;
      state := None;
      if taken.Some? {
        state := Some(taken.value.Approve());
      }
    }
  }

  /** A call a user can make on a post. */
  datatype Action = AddText(text: string) | RequestReview | Approve

  /** The state and text of a post after one call, as the `Post` methods define it. */
  function Step(s: State, c: string, a: Action): (State, string)
  {
    match a
    case AddText(t) => (s, c + t)
    case RequestReview => (s.RequestReview(), c)
    case Approve => (s.Approve(), c)
  }

  /** The state and text of a post created by `Post::new` after a series of calls. */
  function Run(actions: seq<Action>): (State, string)
  {
    if actions == [] then (Draft, "")
    else
      var before := Run(actions[..|actions| - 1]);
      Step(before.0, before.1, actions[|actions| - 1])
  }

  /** Everything the calls added, in order. */
  function AddedText(actions: seq<Action>): string
  {
    if actions == [] then ""
    else
      var last := actions[|actions| - 1];
      AddedText(actions[..|actions| - 1]) + (if last.AddText? then last.text else "")
  }

  predicate ReviewRequested(actions: seq<Action>) {
    exists i | 0 <= i < |actions| :: actions[i].RequestReview?
  }

  /** Some review request is followed, later, by an approval. */
  predicate ApprovedAfterReview(actions: seq<Action>) {
    exists i, j | 0 <= i < j < |actions| :: actions[i].RequestReview? && actions[j].Approve?
  }

  /**
   * A post is published exactly when a review was requested and approved
   * afterwards; it is pending exactly when a review was requested and not yet
   * approved; otherwise it is still a draft. In particular, an approval before
   * any review request never publishes.
   */
  lemma {:induction false} RunState(actions: seq<Action>)
    ensures Run(actions).0 ==
      if ApprovedAfterReview(actions) then Published
      else if ReviewRequested(actions) then PendingReview
      else Draft
  {
    if actions != [] {
      var n := |actions| - 1;
      var init := actions[..n];
      RunState(init);
      assert forall i | 0 <= i < n :: init[i] == actions[i];
      if ApprovedAfterReview(init) {
        var i, j :| 0 <= i < j < n && init[i].RequestReview? && init[j].Approve?;
        assert actions[i].RequestReview? && actions[j].Approve?;
      }
      if ReviewRequested(init) {
        var i :| 0 <= i < n && init[i].RequestReview?;
        assert actions[i].RequestReview?;
        if actions[n].Approve? {
          assert ApprovedAfterReview(actions);
        }
      }
      if actions[n].RequestReview? {
        assert ReviewRequested(actions);
      }
      if ApprovedAfterReview(actions) && !ApprovedAfterReview(init) {
        var i, j :| 0 <= i < j < |actions| && actions[i].RequestReview? && actions[j].Approve?;
        assert j == n && init[i].RequestReview?;
      }
      if ReviewRequested(actions) && !ReviewRequested(init) {
        var i :| 0 <= i < |actions| && actions[i].RequestReview?;
        assert i == n;
      }
    }
  }

  /** The stored text is all the added text, whatever the state did. */
  lemma {:induction false} RunContent(actions: seq<Action>)
    ensures Run(actions).1 == AddedText(actions)
  {
    if actions != [] {
      RunContent(actions[..|actions| - 1]);
    }
  }

  /**
   * What `Post::content` shows after a series of calls: everything added, once
   * a review request has been approved, and nothing before that.
   */
  lemma VisibleContent(actions: seq<Action>)
    ensures Run(actions).0.Content(Run(actions).1) ==
      if ApprovedAfterReview(actions) then AddedText(actions) else ""
  {
    RunState(actions);
    RunContent(actions);
  }

  /** Once published, a post stays published whatever is called next. */
  lemma {:induction false} PublishedIsFinal(actions: seq<Action>, more: seq<Action>)
    requires Run(actions).0 == Published
    ensures Run(actions + more).0 == Published
    decreases |more|
  {
    if more != [] {
      var n := |more| - 1;
      PublishedIsFinal(actions, more[..n]);
      assert (actions + more)[..|actions + more| - 1] == actions + more[..n];
    } else {
      assert actions + more == actions;
    }
  }
}
