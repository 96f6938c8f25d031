/** `ChatController`: the three handlers of the chat page as transitions over the HTTP
    session, whose one attribute of interest is the conversation id. A fresh id (what
    `UUID.randomUUID()` would produce) and `AiService.processQuery` are parameters. */
module ChatFlow {
  import opened Wrappers
  import opened Text
  import opened Mvc
  import Guardrail

  const ConversationIdKey: string := "conversationId"
  const ChatView: string := "chat"
  const HomeRedirect: string := "redirect:/"
  const EnterQuestion: string := "Please enter a question."
  const ProcessingFailed: string := "Unable to process your request. Please try again later."

  /** A session attribute: a string, or some other object. */
  datatype SessionValue = SessionText(text: string) | SessionOther

  /** The HTTP session's attributes; a missing key reads as `null`. */
  type Session = map<string, SessionValue>

  /** `session.getAttribute(CONVERSATION_ID_KEY) as? String`. */
  function StoredId(session: Session): Option<string> {
    if ConversationIdKey in session && session[ConversationIdKey].SessionText?
    then Some(session[ConversationIdKey].text)
    else None
  }

  /** What a handler leaves behind: the view it names, the model it filled and the session. */
  datatype Step = Step(view: string, attrs: Attrs, session: Session)

  /** One call `processQuery(text, conversationId)`. */
  datatype Query = Query(text: string, conversationId: string)

  /** A chat step and the `processQuery` calls it made. */
  datatype Turn = Turn(step: Step, processed: seq<Query>)

  /** The attributes both `index` and a non-blank `chat` add about the conversation. */
  function ConversationAttrs(id: string): Attrs {
    map["conversationId" := Str(id), "hasConversation" := Flag(true)]
  }

  /** `index`: stores the fresh id when the session has none, then shows the stored id.
      `None` is the `ClassCastException` the cast `as String` throws when the attribute
      holds something other than a string. */
  function Index(session: Session, freshId: string): (o: Option<Step>)
    ensures o.Some? <==> ConversationIdKey !in session || session[ConversationIdKey].SessionText?
    ensures o.Some? ==> o.value.view == ChatView
    ensures o.Some? ==> StoredId(o.value.session).Some?
    ensures o.Some? ==> o.value.attrs == ConversationAttrs(StoredId(o.value.session).value)
    ensures ConversationIdKey in session && o.Some? ==> o.value.session == session
    ensures ConversationIdKey !in session ==>
      o.Some? && o.value.session == session[ConversationIdKey := SessionText(freshId)] &&
      StoredId(o.value.session) == Some(freshId)
  {
    var session' := if ConversationIdKey !in session then session[ConversationIdKey := SessionText(freshId)] else session;
    match session'[ConversationIdKey]
    case SessionText(id) => Some(Step(ChatView, ConversationAttrs(id), session'))
    case SessionOther => None
  }

  /** The model a non-blank `chat` fills: the query echoed back, the conversation, and either
      the answer or the generic error. */
  function ChatAttrs(query: string, id: string, answer: Result<string, Failure>): Attrs {
    var shown := ConversationAttrs(id)["query" := Str(query)];
    match answer
    case Ok(response) => shown["response" := Str(response)]
    case Err(_) => shown["error" := Str(ProcessingFailed)]
  }

  /** `chat`: a blank query is refused without touching the session or the assistant;
      otherwise the stored id (or, failing that, the fresh one, which is stored) is the
      conversation the query is processed in, and a failure is reported only as the generic
      message. */
  function Chat(query: string, session: Session, freshId: string,
                process: Query -> Result<string, Failure>): (t: Turn)
    ensures t.step.view == ChatView
    ensures IsBlank(query) ==>
      t.processed == [] && t.step.session == session && t.step.attrs == map["error" := Str(EnterQuestion)]
    ensures !IsBlank(query) ==>
      && |t.processed| == 1
      && t.processed[0].text == query
      && StoredId(t.step.session) == Some(t.processed[0].conversationId)
    ensures !IsBlank(query) && StoredId(session).Some? ==>
      t.step.session == session && t.processed[0].conversationId == StoredId(session).value
    ensures !IsBlank(query) && StoredId(session).None? ==>
      t.step.session == session[ConversationIdKey := SessionText(freshId)] && t.processed[0].conversationId == freshId
    ensures !IsBlank(query) ==>
      && t.step.attrs.Keys == {"query", "conversationId", "hasConversation",
                               if process(t.processed[0]).Ok? then "response" else "error"}
      && t.step.attrs["query"] == Str(query)
      && t.step.attrs["conversationId"] == Str(t.processed[0].conversationId)
      && t.step.attrs["hasConversation"] == Flag(true)
    ensures !IsBlank(query) && process(t.processed[0]).Ok? ==>
      t.step.attrs["response"] == Str(process(t.processed[0]).value)
    ensures !IsBlank(query) && process(t.processed[0]).Err? ==>
      t.step.attrs["error"] == Str(ProcessingFailed)
  {
    if IsBlank(query) then
      Turn(Step(ChatView, map["error" := Str(EnterQuestion)], session), [])
    else
      var session' := if StoredId(session).None? then session[ConversationIdKey := SessionText(freshId)] else session;
      var id := StoredId(session').value;
      var q := Query(query, id);
      Turn(Step(ChatView, ChatAttrs(query, id, process(q)), session'), [q])
  }

  /** `newConversation`: the fresh id replaces whatever the session held. */
  function NewConversation(session: Session, freshId: string): (s: Step)
    ensures s.view == HomeRedirect && s.attrs == map[]
    ensures StoredId(s.session) == Some(freshId)
    ensures s.session.Keys == session.Keys + {ConversationIdKey}
    ensures forall k :: k in session && k != ConversationIdKey ==> s.session[k] == session[k]
  {
    Step(HomeRedirect, map[], session[ConversationIdKey := SessionText(freshId)])
  }

  // ---------------------------------------------------------------------------
  // Conversations across requests
  // ---------------------------------------------------------------------------

  /** Two non-blank questions in a row are processed in the same conversation, and the
      second leaves the session as the first left it. */
  lemma ConversationContinues(q1: string, q2: string, session: Session, fresh1: string, fresh2: string,
                              p1: Query -> Result<string, Failure>, p2: Query -> Result<string, Failure>)
    requires !IsBlank(q1) && !IsBlank(q2)
    ensures
      var t1 := Chat(q1, session, fresh1, p1);
      var t2 := Chat(q2, t1.step.session, fresh2, p2);
      t2.processed[0].conversationId == t1.processed[0].conversationId && t2.step.session == t1.step.session
  {
  }

  /** The conversation the page shows is the one the next question is processed in. */
  lemma IndexThenChat(session: Session, fresh1: string, query: string, fresh2: string,
                      process: Query -> Result<string, Failure>)
    requires Index(session, fresh1).Some?
    requires !IsBlank(query)
    ensures
      var page := Index(session, fresh1).value;
      var t := Chat(query, page.session, fresh2, process);
      page.attrs["conversationId"] == Str(t.processed[0].conversationId) && t.step.session == page.session
  {
  }

  /** After a new conversation is started, the page and the next question both use the new
      id, whatever the session held before. */
  lemma NewConversationIsUsed(session: Session, newId: string, fresh2: string, query: string,
                              process: Query -> Result<string, Failure>)
    requires !IsBlank(query)
    ensures Index(NewConversation(session, newId).session, fresh2).Some?
    ensures Index(NewConversation(session, newId).session, fresh2).value.attrs["conversationId"] == Str(newId)
    ensures Chat(query, NewConversation(session, newId).session, fresh2, process).processed == [Query(query, newId)]
  {
  }

  /** A blank query leaves everything as it was: a session that had no conversation still
      has none. */
  lemma BlankQueryStartsNothing(query: string, session: Session, freshId: string,
                                process: Query -> Result<string, Failure>)
    requires IsBlank(query)
    ensures StoredId(Chat(query, session, freshId, process).step.session) == StoredId(session)
    ensures "conversationId" !in Chat(query, session, freshId, process).step.attrs
  {
  }

  /** A stored attribute that is not a string breaks `index` but is replaced by `chat`,
      whose safe cast reads it as missing. */
  lemma NonStringIdDiffers(session: Session, freshId: string, query: string,
                           process: Query -> Result<string, Failure>)
    requires ConversationIdKey in session && session[ConversationIdKey] == SessionOther
    requires !IsBlank(query)
    ensures Index(session, freshId).None?
    ensures StoredId(Chat(query, session, freshId, process).step.session) == Some(freshId)
  {
  }

  // ---------------------------------------------------------------------------
  // Failures are masked
  // ---------------------------------------------------------------------------

  /** Whatever `processQuery` throws, the page is the same: the failure's kind and message
      never reach the model. */
  lemma FailuresAreIndistinguishable(query: string, session: Session, freshId: string,
                                     p1: Query -> Result<string, Failure>, p2: Query -> Result<string, Failure>)
    requires !IsBlank(query)
    requires p1(Chat(query, session, freshId, p1).processed[0]).Err?
    requires p2(Chat(query, session, freshId, p1).processed[0]).Err?
    ensures Chat(query, session, freshId, p1).step == Chat(query, session, freshId, p2).step
  {
  }

  /** In particular the guardrail's rejection reaches the user as the generic error, which is
      not the rejection text. */
  lemma GuardrailRejectionIsMasked(query: string, session: Session, freshId: string,
                                   process: Query -> Result<string, Failure>)
    requires !IsBlank(query)
    requires process(Chat(query, session, freshId, process).processed[0]) == Err(Failure(Some(Guardrail.RejectionMessage)))
    ensures Chat(query, session, freshId, process).step.attrs["error"] == Str(ProcessingFailed)
    ensures ProcessingFailed != Guardrail.RejectionMessage
    ensures "response" !in Chat(query, session, freshId, process).step.attrs
  {
    Guardrail.RejectionMessageText();
    Guardrail.FirstRejectionLine();
    assert Guardrail.RejectionMessage[0] == 'I';
  }
}
