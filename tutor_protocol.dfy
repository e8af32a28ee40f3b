/**
 * The tutor chat session of the Tulu Tutor screen, as values.
 *
 * A chat state holds the message log (starting with the tutor's greeting),
 * the text in the input box, the busy flag and the session token handed out
 * by the backend (`None` until the first answer). A submit runs in two
 * segments around its one network call: `Begin` checks the guard, appends
 * the user's message, clears the input and sets the busy flag; `Resolve`
 * appends the tutor's answer (or the fixed fallback text), adopts the
 * returned session token on success and clears the busy flag. The backend's
 * reply and the clock readings are inputs.
 */
module TutorProtocol {
  import opened Wrappers
  import JsString

  /** `type: 'user'` or `type: 'ai'`. */
  datatype Role = User | Ai

  /** One chat bubble; `id` and `timestamp` are clock readings taken by the caller. */
  datatype Message = Message(id: int, role: Role, content: string, timestamp: int)

  /** The body of `POST /tutor`. */
  datatype TutorRequest = TutorRequest(question: string, sessionId: Option<string>)

  /** How the request settled: a 2xx reply, or anything thrown (transport error, non-2xx status). */
  datatype TutorReply = Answered(answer: string, sessionId: string) | Failed

  /** The component state `messages`, `currentMessage`, `isLoading`, `sessionId`. */
  datatype ChatState = ChatState(messages: seq<Message>, draft: string, loading: bool, sessionId: Option<string>)

  /** One question typed and submitted, with the reply it got and the clock readings. */
  datatype Turn = Turn(question: string, reply: TutorReply, sentAt: int, resolvedAt: int)

  const GreetingText: string :=
    "Merhaba! \U{1F44B} I'm Tulu, your Turkish language tutor. Ask me anything about Turkish words, grammar, pronunciation, or culture!"

  const FallbackText: string := "Sorry, I couldn't process your question. Please try again."

  /** The quick-question buttons, each of which fills the input box. */
  const ExampleQuestions: seq<string> := [
    "What does 'abla' mean?",
    "How do you say 'thank you' in Turkish?",
    "Explain Turkish sentence structure",
    "What's the difference between 'var' and 'yok'?"
  ]

  function Greeting(mountedAt: int): Message {
    Message(1, Ai, GreetingText, mountedAt)
  }

  /** The state when the tutor screen mounts: settled, with the greeting alone and no session token. */
  function Initial(mountedAt: int): (s: ChatState)
    ensures s.messages == [Greeting(mountedAt)] && s.messages[0].role == Ai
    ensures s.draft == "" && s.sessionId == None
    ensures Settled(s)
  {
    ChatState([Greeting(mountedAt)], "", false, None)
  }

  /** The user's bubble: its id is `Date.now()` at submit time, its content the untrimmed input. */
  function UserMessage(question: string, sentAt: int): Message {
    Message(sentAt, User, question, sentAt)
  }

  function ReplyContent(reply: TutorReply): string {
    match reply
    case Answered(answer, _) => answer
    case Failed => FallbackText
  }

  /** The tutor's bubble for a settled request: its id is `Date.now() + 1` at settle time. */
  function ReplyMessage(reply: TutorReply, resolvedAt: int): Message {
    Message(resolvedAt + 1, Ai, ReplyContent(reply), resolvedAt)
  }

  /** The guard of `handleSubmit`: some non-white-space character in the input and no request in flight. */
  predicate CanSubmit(s: ChatState): (ok: bool)
    ensures ok <==> !JsString.AllWhitespace(s.draft) && !s.loading
  {
    !JsString.IsBlank(s.draft) && !s.loading
  }

  /** The request a submit sends, if the guard lets it through: the input as typed and the token held so far. */
  function RequestFor(s: ChatState): (r: Option<TutorRequest>)
    ensures r.None? <==> JsString.AllWhitespace(s.draft) || s.loading
    ensures r.Some? ==> r.value.question == s.draft && r.value.sessionId == s.sessionId
  {
    if CanSubmit(s) then Some(TutorRequest(s.draft, s.sessionId)) else None
  }

  /**
   * The segment of `handleSubmit` before its `await`. It never touches the
   * session token, only ever appends (at most one message), and leaves the
   * busy flag set exactly when a request is now in flight.
   */
  function Begin(s: ChatState, sentAt: int): (r: ChatState)
    ensures r.sessionId == s.sessionId
    ensures |s.messages| <= |r.messages| <= |s.messages| + 1 && r.messages[..|s.messages|] == s.messages
    ensures r.loading <==> s.loading || CanSubmit(s)
  {
    if CanSubmit(s) then
      s.(messages := s.messages + [UserMessage(s.draft, sentAt)], draft := "", loading := true)
    else s
  }

  /**
   * The segment after the `await`: `try` or `catch`, then `finally`. Exactly
   * one tutor message is appended, the busy flag is cleared, and the session
   * token is replaced on success and kept on failure.
   */
  function Resolve(s: ChatState, reply: TutorReply, resolvedAt: int): (r: ChatState)
    ensures |r.messages| == |s.messages| + 1 && r.messages[..|s.messages|] == s.messages
    ensures r.messages[|s.messages|].role == Ai && !r.loading && r.draft == s.draft
    ensures r.messages[|s.messages|].content == if reply.Answered? then reply.answer else FallbackText
    ensures r.sessionId == if reply.Answered? then Some(reply.sessionId) else s.sessionId
  {
    s.(messages := s.messages + [ReplyMessage(reply, resolvedAt)],
       loading := false,
       sessionId := if reply.Answered? then Some(reply.sessionId) else s.sessionId)
  }

  /** A whole submit with nothing in between its two segments: the log grows by two or not at all. */
  function Submit(s: ChatState, reply: TutorReply, sentAt: int, resolvedAt: int): (r: ChatState)
    ensures |r.messages| == |s.messages| + (if CanSubmit(s) then 2 else 0)
    ensures r.messages[..|s.messages|] == s.messages
    ensures !s.loading ==> !r.loading
  {
    if CanSubmit(s) then Resolve(Begin(s, sentAt), reply, resolvedAt) else s
  }

  /**
   * The input's `onChange` (and a quick-question button); both widgets are
   * disabled while busy. Only the input text can change.
   */
  function EditInput(s: ChatState, text: string): (r: ChatState)
    ensures r.messages == s.messages && r.loading == s.loading && r.sessionId == s.sessionId
    ensures r.draft == if s.loading then s.draft else text
    ensures Settled(s) ==> Settled(r)
    ensures Awaiting(s) ==> r == s
  {
    if s.loading then s else s.(draft := text)
  }

  // ---------------------------------------------------------------------------
  // One submit

  /** A blank input or a request in flight makes a submit change nothing and send nothing. */
  lemma SubmitGuard(s: ChatState, reply: TutorReply, sentAt: int, resolvedAt: int)
    requires JsString.AllWhitespace(s.draft) || s.loading
    ensures Begin(s, sentAt) == s && RequestFor(s) == None
    ensures Submit(s, reply, sentAt, resolvedAt) == s
  {
  }

  /**
   * A submit that passes the guard logs the untrimmed input as a user message,
   * clears the input and sets the busy flag before any reply is seen; the
   * request carries that same input and the session token held beforehand.
   */
  lemma BeginIsOptimistic(s: ChatState, sentAt: int)
    requires !JsString.AllWhitespace(s.draft) && !s.loading
    ensures var b := Begin(s, sentAt);
      b.messages == s.messages + [UserMessage(s.draft, sentAt)] &&
      b.draft == "" && b.loading && b.sessionId == s.sessionId
    ensures RequestFor(s) == Some(TutorRequest(s.draft, s.sessionId))
    ensures Begin(s, sentAt).messages[|s.messages|].content == RequestFor(s).value.question
  {
  }

  /** On success the answer is logged after the question and the returned token replaces the old one. */
  lemma SubmitAnswered(s: ChatState, answer: string, token: string, sentAt: int, resolvedAt: int)
    requires CanSubmit(s)
    ensures var r := Submit(s, Answered(answer, token), sentAt, resolvedAt);
      r.messages == s.messages + [Message(sentAt, User, s.draft, sentAt), Message(resolvedAt + 1, Ai, answer, resolvedAt)] &&
      r.sessionId == Some(token) && r.draft == "" && !r.loading
  {
  }

  /** On failure the fallback text is logged after the question and the session token is kept. */
  lemma SubmitFailed(s: ChatState, sentAt: int, resolvedAt: int)
    requires CanSubmit(s)
    ensures var r := Submit(s, Failed, sentAt, resolvedAt);
      r.messages == s.messages + [Message(sentAt, User, s.draft, sentAt), Message(resolvedAt + 1, Ai, FallbackText, resolvedAt)] &&
      r.sessionId == s.sessionId && r.draft == "" && !r.loading
  {
  }

  /** Whatever the reply, an accepted submit grows the log by exactly two and keeps the old log as a prefix. */
  lemma SubmitGrowsLog(s: ChatState, reply: TutorReply, sentAt: int, resolvedAt: int)
    requires CanSubmit(s)
    ensures var r := Submit(s, reply, sentAt, resolvedAt);
      |r.messages| == |s.messages| + 2 && r.messages[..|s.messages|] == s.messages &&
      r.messages[|s.messages|].role == User && r.messages[|s.messages| + 1].role == Ai && !r.loading
  {
  }

  // ---------------------------------------------------------------------------
  // The log invariant: every question gets exactly one answer

  /** The role expected at position `i` of the log: the greeting, then question/answer pairs. */
  function RoleAt(i: nat): Role {
    if i % 2 == 1 then User else Ai
  }

  predicate RolesAlternate(log: seq<Message>) {
    forall i :: 0 <= i < |log| ==> log[i].role == RoleAt(i)
  }

  /** No request in flight: the greeting followed by complete question/answer pairs. */
  predicate Settled(s: ChatState) {
    !s.loading && |s.messages| % 2 == 1 && RolesAlternate(s.messages)
  }

  /** A request in flight: the last message is the question awaiting its answer. */
  predicate Awaiting(s: ChatState) {
    s.loading && s.draft == "" && |s.messages| >= 2 && |s.messages| % 2 == 0 && RolesAlternate(s.messages)
  }

  /** A settled log has an answer right after each of its questions. */
  lemma SettledQuestionsAnswered(s: ChatState)
    requires Settled(s)
    ensures forall i :: 0 <= i < |s.messages| && s.messages[i].role == User ==>
      i + 1 < |s.messages| && s.messages[i + 1].role == Ai
  {
  }

  /** The first segment of an accepted submit moves a settled state to awaiting its answer. */
  lemma BeginAwaits(s: ChatState, sentAt: int)
    requires Settled(s) && CanSubmit(s)
    ensures Awaiting(Begin(s, sentAt))
  {
  }

  /** The second segment settles an awaiting state. */
  lemma ResolveSettles(s: ChatState, reply: TutorReply, resolvedAt: int)
    requires Awaiting(s)
    ensures Settled(Resolve(s, reply, resolvedAt))
  {
  }

  /** While a request is in flight a further submit is refused: at most one request per session. */
  lemma AwaitingRefusesSubmit(s: ChatState, sentAt: int)
    requires Awaiting(s)
    ensures RequestFor(s) == None && Begin(s, sentAt) == s
  {
  }

  lemma SubmitKeepsSettled(s: ChatState, reply: TutorReply, sentAt: int, resolvedAt: int)
    requires Settled(s)
    ensures Settled(Submit(s, reply, sentAt, resolvedAt))
  {
    if CanSubmit(s) {
      BeginAwaits(s, sentAt);
      ResolveSettles(Begin(s, sentAt), reply, resolvedAt);
    }
  }

  // ---------------------------------------------------------------------------
  // A whole conversation

  /** The user types a question into the box and submits it. */
  function Ask(s: ChatState, t: Turn): ChatState {
    Submit(EditInput(s, t.question), t.reply, t.sentAt, t.resolvedAt)
  }

  function Converse(s: ChatState, turns: seq<Turn>): ChatState
    decreases |turns|
  {
    if turns == [] then s else Converse(Ask(s, turns[0]), turns[1..])
  }

  /** The messages a sequence of turns should add: a question/answer pair per non-blank question. */
  function Exchanges(turns: seq<Turn>): seq<Message>
    decreases |turns|
  {
    if turns == [] then []
    else Exchange(turns[0]) + Exchanges(turns[1..])
  }

  /** The token of the last answered turn, or `prior` if no turn was answered. */
  function LatestSession(prior: Option<string>, turns: seq<Turn>): Option<string>
    decreases |turns|
  {
    if turns == [] then prior
    else
      var t := turns[0];
      var next := if !JsString.IsBlank(t.question) && t.reply.Answered? then Some(t.reply.sessionId) else prior;
      LatestSession(next, turns[1..])
  }

  /** The messages one turn should add: a question/answer pair, or nothing for a blank question. */
  function Exchange(t: Turn): seq<Message> {
    if JsString.IsBlank(t.question) then []
    else [UserMessage(t.question, t.sentAt), ReplyMessage(t.reply, t.resolvedAt)]
  }

  /** One typed-and-submitted question appends exactly its exchange. */
  lemma AskLog(s: ChatState, t: Turn)
    requires !s.loading
    ensures Ask(s, t).messages == s.messages + Exchange(t)
    ensures !Ask(s, t).loading
  {
    var e := EditInput(s, t.question);
    assert e == s.(draft := t.question);
    if JsString.IsBlank(t.question) {
      assert !CanSubmit(e) && Exchange(t) == [];
      assert Ask(s, t) == e;
    } else {
      assert CanSubmit(e);
      var b := Begin(e, t.sentAt);
      assert b == e.(messages := s.messages + [UserMessage(t.question, t.sentAt)], draft := "", loading := true);
      var r := Resolve(b, t.reply, t.resolvedAt);
      assert r.messages == b.messages + [ReplyMessage(t.reply, t.resolvedAt)] && !r.loading;
      assert Ask(s, t) == r;
      assert Exchange(t) == [UserMessage(t.question, t.sentAt), ReplyMessage(t.reply, t.resolvedAt)];
      assert b.messages + [ReplyMessage(t.reply, t.resolvedAt)] == s.messages + Exchange(t);
    }
  }

  /** One step of a conversation and of the exchanges it should add. */
  lemma ConverseUnfold(s: ChatState, turns: seq<Turn>)
    requires turns != []
    ensures Converse(s, turns) == Converse(Ask(s, turns[0]), turns[1..])
    ensures Exchanges(turns) == Exchange(turns[0]) + Exchanges(turns[1..])
  {
  }

  /** A conversation only appends, in order, one question/answer pair per non-blank question. */
  lemma {:induction false} ConverseLog(s: ChatState, turns: seq<Turn>)
    requires !s.loading
    ensures Converse(s, turns).messages == s.messages + Exchanges(turns)
    ensures !Converse(s, turns).loading
    decreases |turns|
  {
    if turns != [] {
      var next := Ask(s, turns[0]);
      ConverseUnfold(s, turns);
      AskLog(s, turns[0]);
      ConverseLog(next, turns[1..]);
      assert s.messages + Exchange(turns[0]) + Exchanges(turns[1..]) ==
             s.messages + (Exchange(turns[0]) + Exchanges(turns[1..]));
    }
  }

  /** The session token after a conversation is the one the last answered turn returned. */
  lemma {:induction false} ConverseSession(s: ChatState, turns: seq<Turn>)
    requires !s.loading
    ensures Converse(s, turns).sessionId == LatestSession(s.sessionId, turns)
    decreases |turns|
  {
    if turns != [] {
      ConverseSession(Ask(s, turns[0]), turns[1..]);
    }
  }

  lemma {:induction false} ConverseKeepsSettled(s: ChatState, turns: seq<Turn>)
    requires Settled(s)
    ensures Settled(Converse(s, turns))
    decreases |turns|
  {
    if turns != [] {
      SubmitKeepsSettled(EditInput(s, turns[0].question), turns[0].reply, turns[0].sentAt, turns[0].resolvedAt);
      ConverseKeepsSettled(Ask(s, turns[0]), turns[1..]);
    }
  }

  /** Each request echoes the token of the last answered turn before it, `None` on a fresh session. */
  lemma RequestEchoesLatestSession(mountedAt: int, turns: seq<Turn>, question: string)
    requires !JsString.IsBlank(question)
    ensures var s := EditInput(Converse(Initial(mountedAt), turns), question);
      RequestFor(s) == Some(TutorRequest(question, LatestSession(None, turns)))
  {
    ConverseLog(Initial(mountedAt), turns);
    ConverseSession(Initial(mountedAt), turns);
  }

  // ---------------------------------------------------------------------------
  // Worked conversations

  /** A first question answered: the session adopts the returned token. */
  lemma FirstAnswerStartsSession(mountedAt: int)
    ensures var r := Converse(Initial(mountedAt), [Turn("Merhaba", Answered("Hello", "abc"), 10, 20)]);
      r.messages == [Greeting(mountedAt), Message(10, User, "Merhaba", 10), Message(21, Ai, "Hello", 20)] &&
      r.sessionId == Some("abc")
  {
    var q := "Merhaba";
    assert !JsString.IsJsWhitespace(q[0]);
    var t := Turn(q, Answered("Hello", "abc"), 10, 20);
    SubmitAnswered(EditInput(Initial(mountedAt), q), "Hello", "abc", 10, 20);
    assert Converse(Initial(mountedAt), [t]) == Converse(Ask(Initial(mountedAt), t), []);
  }

  /** An unreachable backend: the question and the fallback text are logged and the token is kept. */
  lemma UnreachableBackendKeepsSession(s: ChatState)
    requires Settled(s) && s.sessionId == Some("abc")
    ensures var r := Ask(s, Turn("test", Failed, 30, 40));
      r.messages == s.messages + [Message(30, User, "test", 30), Message(41, Ai, FallbackText, 40)] &&
      r.sessionId == Some("abc")
  {
    var q := "test";
    assert !JsString.IsJsWhitespace(q[0]);
    SubmitFailed(EditInput(s, q), 30, 40);
  }
}
