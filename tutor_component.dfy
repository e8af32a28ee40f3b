/**
 * The Tulu Tutor screen as an object: the four pieces of component state
 * are fields, and each event handler is a method whose new state is the one
 * `TutorProtocol` prescribes. `handleSubmit` is an async function that
 * suspends once, at the `POST /tutor` call; its two run-to-completion
 * segments are `BeginSubmit` and `ResolveSubmit`, and `HandleSubmit` runs
 * both with no event in between.
 */
module TutorComponent {
  import opened Wrappers
  import JsString
  import opened TutorProtocol

  class TuluTutor {
    var messages: seq<Message>
    var currentMessage: string
    var isLoading: bool
    var sessionId: Option<string>

    function State(): ChatState
      reads this
    {
      ChatState(messages, currentMessage, isLoading, sessionId)
    }

    /** Settled between submits, or awaiting the answer to the last question. */
    ghost predicate Valid()
      reads this
    {
      Settled(State()) || Awaiting(State())
    }

    /** Mounting the screen: the greeting alone, an empty input, idle, no session. */
    constructor (mountedAt: int)
      ensures State() == Initial(mountedAt)
      ensures Valid() && !isLoading
    {
      messages := [Greeting(mountedAt)];
      currentMessage := "";
      isLoading := false;
      sessionId := None;
    }

    /** The input's `onChange`; the input is disabled while a request is in flight. */
    method ChangeInput(text: string)
      requires Valid()
      modifies this
      ensures State() == EditInput(old(State()), text)
      ensures currentMessage == if old(isLoading) then old(currentMessage) else text
      ensures Valid()
    {
      if !isLoading {
        currentMessage := text;
      }
    }

    /** A quick-question button: fills the input with the `k`-th example question. */
    method PickExample(k: nat)
      requires Valid()
      requires k < |ExampleQuestions|
      modifies this
      ensures State() == EditInput(old(State()), ExampleQuestions[k])
      ensures Valid()
    {
      ChangeInput(ExampleQuestions[k]);
    }

    /** `handleSubmit` up to its `await`: returns the request it sends, or `None` if it returned early. */
    method BeginSubmit(sentAt: int) returns (request: Option<TutorRequest>)
      requires Valid()
      modifies this
      ensures request == RequestFor(old(State()))
      ensures State() == Begin(old(State()), sentAt)
      ensures Valid()
      ensures request.Some? ==> Awaiting(State())
    {
      ghost var before := State();
      if JsString.IsBlank(currentMessage) || isLoading {
        return None;
      }
      // The request is built from the values captured before the state updates.
      var question, token := currentMessage, sessionId;
      messages := messages + [UserMessage(question, sentAt)];
      currentMessage := "";
      isLoading := true;
      request := Some(TutorRequest(question, token));
      assert State() == Begin(before, sentAt);
      if Settled(before) {
        BeginAwaits(before, sentAt);
      }
    }

    /** `handleSubmit` after its `await`: the `try` or `catch` branch, then `finally`. */
    method ResolveSubmit(reply: TutorReply, resolvedAt: int)
      requires Valid() && isLoading
      modifies this
      ensures State() == Resolve(old(State()), reply, resolvedAt)
      ensures Settled(State())
    {
      match reply {
        case Answered(answer, token) =>
          messages := messages + [Message(resolvedAt + 1, Ai, answer, resolvedAt)];
          sessionId := Some(token);
        case Failed =>
          messages := messages + [Message(resolvedAt + 1, Ai, FallbackText, resolvedAt)];
      }
      isLoading := false;
      ResolveSettles(old(State()), reply, resolvedAt);
    }

    /** A whole submit whose reply arrives before any other event. */
    method HandleSubmit(reply: TutorReply, sentAt: int, resolvedAt: int) returns (request: Option<TutorRequest>)
      requires Valid()
      modifies this
      ensures request == RequestFor(old(State()))
      ensures State() == Submit(old(State()), reply, sentAt, resolvedAt)
      ensures Valid() && (!old(isLoading) ==> !isLoading)
    {
      request := BeginSubmit(sentAt);
      if request.Some? {
        ResolveSubmit(reply, resolvedAt);
      }
    }
  }
}
