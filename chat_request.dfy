/**
 * The checks `POST /api/chat/:assistantId` makes before it opens the event
 * stream, and the user message it records once they pass.
 */
module ChatRequest {
  import opened MessageStore

  /** The JSON body `{ threadId, content }`; a field that is absent, `null` or
      of any other type is `None`. */
  datatype ChatBody = ChatBody(threadId: Option<int>, content: Option<string>)

  /** What the handler answers before streaming: a JSON error with its status,
      or permission to stream on the given assistant and thread. */
  datatype ChatOutcome =
    | Reject(status: int, error: string)
    | Proceed(assistant: AssistantRecord, thread: ThreadRecord, content: string)

  /** Everything the checks demand of a request, in the order they test it. */
  predicate Acceptable(assistantId: NumberValue, body: ChatBody,
                       assistants: seq<AssistantRecord>, threads: seq<ThreadRecord>)
  {
    assistantId.Finite? && TruthyId(body.threadId) && Truthy(body.content) &&
    FindAssistant(assistants, assistantId.n).Some? &&
    FindThread(threads, body.threadId.value).Some? &&
    FindThread(threads, body.threadId.value).value.assistantId == assistantId.n
  }

  /** The five checks, each answering with its own status and message as soon
      as it fails. */
  function ValidateChat(assistantId: NumberValue, body: ChatBody,
                        assistants: seq<AssistantRecord>, threads: seq<ThreadRecord>): (r: ChatOutcome)
    ensures r.Proceed? <==> Acceptable(assistantId, body, assistants, threads)
    ensures r.Proceed? ==>
      assistantId == Finite(r.assistant.id) && r.assistant in assistants &&
      r.thread in threads && body.threadId == Some(r.thread.id) &&
      r.thread.assistantId == r.assistant.id &&
      body.content == Some(r.content) && r.content != ""
    ensures r.Reject? ==> r.status == 400 || r.status == 404
    ensures assistantId.NonFinite? ==> r == Reject(400, "Invalid assistantId")
    ensures assistantId.Finite? && (!TruthyId(body.threadId) || !Truthy(body.content)) ==>
      r == Reject(400, "threadId and content are required")
    ensures r == Reject(404, "Assistant not found") <==>
      assistantId.Finite? && TruthyId(body.threadId) && Truthy(body.content) &&
      forall i :: 0 <= i < |assistants| ==> assistants[i].id != assistantId.n
    ensures r == Reject(404, "Thread not found") <==>
      assistantId.Finite? && TruthyId(body.threadId) && Truthy(body.content) &&
      FindAssistant(assistants, assistantId.n).Some? &&
      forall i :: 0 <= i < |threads| ==> threads[i].id != body.threadId.value
    ensures r == Reject(400, "Thread does not belong to assistant") <==>
      assistantId.Finite? && TruthyId(body.threadId) && Truthy(body.content) &&
      FindAssistant(assistants, assistantId.n).Some? &&
      FindThread(threads, body.threadId.value).Some? &&
      FindThread(threads, body.threadId.value).value.assistantId != assistantId.n
  {
    if assistantId.NonFinite? then Reject(400, "Invalid assistantId")
    else if !TruthyId(body.threadId) || !Truthy(body.content) then
      Reject(400, "threadId and content are required")
    else
      match FindAssistant(assistants, assistantId.n)
      case None => Reject(404, "Assistant not found")
      case Some(a) =>
        match FindThread(threads, body.threadId.value)
        case None => Reject(404, "Thread not found")
        case Some(t) =>
          if t.assistantId != assistantId.n then Reject(400, "Thread does not belong to assistant")
          else Proceed(a, t, body.content.value)
  }

  /** The row recorded for the user's message once the checks pass. */
  function UserRow(o: ChatOutcome, userMessageId: string): (row: MessageRow)
    requires o.Proceed?
    ensures row.threadId == o.thread.id && row.role == User
    ensures row.content == o.content && row.openaiMessageId == Some(userMessageId)
  {
    MessageRow(o.thread.id, User, o.content, Some(userMessageId), None)
  }

  /** The handler up to the start of the stream: it validates, and only a
      request that passes every check posts the user message upstream (whose
      id is `userMessageId`) and inserts it into `messages`. */
  method OpenChat(table: MessageTable, assistantId: NumberValue, body: ChatBody,
                  assistants: seq<AssistantRecord>, threads: seq<ThreadRecord>,
                  userMessageId: string)
    returns (outcome: ChatOutcome)
    modifies table
    ensures outcome == ValidateChat(assistantId, body, assistants, threads)
    ensures table.rows ==
      if outcome.Proceed? then old(table.rows) + [UserRow(outcome, userMessageId)]
      else old(table.rows)
  {
    outcome := ValidateChat(assistantId, body, assistants, threads);
    if outcome.Proceed? {
      table.Insert(UserRow(outcome, userMessageId), true);
    }
  }

  /** An accepted request adds exactly the user's message to the end of its
      thread's history, as the history endpoint lists it. */
  lemma AcceptedAddsUserRow(assistantId: NumberValue, body: ChatBody,
                            assistants: seq<AssistantRecord>, threads: seq<ThreadRecord>,
                            rows: seq<MessageRow>, userMessageId: string)
    ensures var o := ValidateChat(assistantId, body, assistants, threads);
            o.Proceed? ==> OfThread(rows + [UserRow(o, userMessageId)], o.thread.id) ==
                           OfThread(rows, o.thread.id) + [UserRow(o, userMessageId)]
  {
    var o := ValidateChat(assistantId, body, assistants, threads);
    if o.Proceed? {
      OfThreadAppend(rows, [UserRow(o, userMessageId)], o.thread.id);
    }
  }
}
