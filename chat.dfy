/** One chat turn of a tool room (`run_tool_chat` for students and CRs,
    `run_tool_chat_teacher` for teachers): the last messages of the room
    become the history, an LLM gate classifies the text, and the turn is
    answered by a general-chat reply, a refusal, or the room's tool. The
    LLM's replies are inputs: the gate's reply is given as a decoded JSON
    value (None when it is not JSON), and a turn is described by the
    `complete` calls it makes and what it hands to the tool handler. */
module ChatService {

  import opened Common
  import opened Json
  import opened Rows
  import opened Llm
  import opened ToolRegistry

  datatype SenderRole = AssistantSender | StudentSender | TeacherSender | CrSender

  /** A row of the messages table. */
  datatype Message = Message(id: string, roomId: string, senderRole: SenderRole, content: string, createdAt: int)

  function MessageAt(m: Message): int
  {
    m.createdAt
  }

  /** The history window of a chat turn. */
  const HistoryWindow: nat := 6

  /** The room's rows, in table order. */
  function RoomRows(rows: seq<Message>, roomId: string): seq<Message>
  {
    Filter(rows, (m: Message) => m.roomId == roomId)
  }

  /** `fetch_last_messages`: the room's rows newest first, the first `limit`
      of them, put back in ascending order. The window holds messages of
      the room only, as many as the limit allows, oldest first, and no
      message of the room left out is newer than one kept. */
  function LastMessages(rows: seq<Message>, roomId: string, limit: nat): (r: seq<Message>)
    ensures forall m :: m in r ==> m in rows && m.roomId == roomId
    ensures |r| == Min(limit, |RoomRows(rows, roomId)|)
    ensures OldestFirst(r, MessageAt)
    ensures forall m, k :: m in rows && m.roomId == roomId && m !in r && k in r ==> m.createdAt <= k.createdAt
  {
    LastMessagesWindow(rows, roomId, limit);
    Reversed(Page(ByNewest(RoomRows(rows, roomId), MessageAt), 0, limit))
  }

  lemma {:induction false} LastMessagesWindow(rows: seq<Message>, roomId: string, limit: nat)
    ensures var r := Reversed(Page(ByNewest(RoomRows(rows, roomId), MessageAt), 0, limit));
            && (forall m :: m in r ==> m in rows && m.roomId == roomId)
            && |r| == Min(limit, |RoomRows(rows, roomId)|)
            && OldestFirst(r, MessageAt)
            && (forall m, k :: m in rows && m.roomId == roomId && m !in r && k in r
                               ==> m.createdAt <= k.createdAt)
  {
    var inRoom := RoomRows(rows, roomId);
    var page := Page(ByNewest(inRoom, MessageAt), 0, limit);
    ByNewestSameRows(inRoom, MessageAt);
    PageIsSlice(ByNewest(inRoom, MessageAt), 0, limit);
    PageNewestFirst(ByNewest(inRoom, MessageAt), 0, limit, MessageAt);
    ReversedNewestFirst(page, MessageAt);
    ReversedSameRows(page);
    NewestKept(inRoom, limit, MessageAt);
    assert forall m :: m in rows && m.roomId == roomId ==> m in inRoom;
  }

  /** The LLM role of a stored message. */
  function HistoryRole(sender: SenderRole): string
  {
    if sender == AssistantSender then "assistant" else "user"
  }

  /** `to_llm_history` as a value: the history keeps the order and content
      of the messages; a message is the assistant's exactly when the
      assistant sent it, and every other sender, teacher and CR included, is
      the user. */
  function History(msgs: seq<Message>): (r: seq<ChatMessage>)
    ensures |r| == |msgs|
    ensures forall i :: 0 <= i < |msgs| ==> r[i].content == msgs[i].content
    ensures forall i :: 0 <= i < |msgs| ==> (r[i].role == "assistant" <==> msgs[i].senderRole == AssistantSender)
    ensures forall i :: 0 <= i < |msgs| ==> (r[i].role == "user" <==> msgs[i].senderRole != AssistantSender)
  {
    seq(|msgs|, i requires 0 <= i < |msgs| => ChatMessage(HistoryRole(msgs[i].senderRole), msgs[i].content))
  }

  /** The LLM client passes the history through unchanged. */
  lemma HistorySentAsIs(msgs: seq<Message>, repr: JValue -> string)
    ensures forall i :: 0 <= i < |msgs| ==> Sent(FromChat(History(msgs)[i]), repr) == History(msgs)[i]
  {
    forall i | 0 <= i < |msgs| ensures Sent(FromChat(History(msgs)[i]), repr) == History(msgs)[i] {
      SentKeepsKnown(History(msgs)[i], repr);
    }
  }

  /** The loop of `to_llm_history`. */
  method ToLlmHistory(msgs: seq<Message>) returns (out: seq<ChatMessage>)
    ensures out == History(msgs)
  {
    out := [];
    for k := 0 to |msgs|
      invariant |out| == k
      invariant forall i :: 0 <= i < k ==> out[i] == ChatMessage(HistoryRole(msgs[i].senderRole), msgs[i].content)
    {
      var role := if msgs[k].senderRole == AssistantSender then "assistant" else "user";
      out := out + [ChatMessage(role, msgs[k].content)];
    }
  }

  datatype GateIntent = GeneralChat | Blocked | ToolQuery

  /** The gate's answer: an intent and its reason (any JSON value the LLM
      put there). */
  datatype Gate = Gate(intent: GateIntent, reason: JValue)

  const Fallback := Gate(ToolQuery, JStr("fallback"))

  function IntentNamed(v: JValue): Option<GateIntent>
  {
    match v
    case JStr(s) =>
      if s == "general_chat" then Some(GeneralChat)
      else if s == "blocked" then Some(Blocked)
      else if s == "tool_query" then Some(ToolQuery)
      else None
    case _ => None
  }

  /** A gate reply the gate takes at its word: a JSON object whose "intent"
      names one of the three intents. */
  predicate GateAccepts(reply: Option<JValue>)
  {
    reply.Some? && reply.value.JObject? && "intent" in reply.value.fields
    && IntentNamed(reply.value.fields["intent"]).Some?
  }

  /** `gate_intent` after the call: any reply that is not JSON, not an
      object, or names no known intent gives ("tool_query", "fallback");
      otherwise the intent and the reason, "" when there is none. */
  function ReadGate(reply: Option<JValue>): (g: Gate)
    ensures !GateAccepts(reply) ==> g == Fallback
    ensures GateAccepts(reply) ==> g.intent == IntentNamed(reply.value.fields["intent"]).value
    ensures GateAccepts(reply) && "reason" !in reply.value.fields ==> g.reason == JStr("")
    ensures GateAccepts(reply) && "reason" in reply.value.fields ==> g.reason == reply.value.fields["reason"]
  {
    match reply
    case Some(JObject(fields)) =>
      if "intent" in fields && IntentNamed(fields["intent"]).Some? then
        Gate(IntentNamed(fields["intent"]).value, if "reason" in fields then fields["reason"] else JStr(""))
      else Fallback
    case _ => Fallback
  }

  /** A gate that cannot be read sends the turn to the tool. */
  lemma UnreadableGateRunsTool(reply: Option<JValue>)
    requires reply.None? || !reply.value.JObject?
    ensures ReadGate(reply).intent == ToolQuery
  {
  }

  function WithUserText(history: seq<ChatMessage>, userText: string): seq<ChatMessage>
  {
    history + [ChatMessage("user", userText)]
  }

  /** The gate's `complete` call: the gate prompt over the history and the
      new text, in JSON mode. */
  function GateRequest(history: seq<ChatMessage>, userText: string): Request
  {
    Request(ToolGatePrompt, WithUserText(history, userText), true, 0.1, Some(200))
  }

  /** The reply call of a general-chat or blocked turn. */
  function ReplyRequest(intent: GateIntent, history: seq<ChatMessage>, userText: string): Request
    requires intent != ToolQuery
  {
    if intent == GeneralChat then Request(GeneralChatPrompt, WithUserText(history, userText), false, 0.5, Some(300))
    else Request(BlockedPrompt, WithUserText(history, userText), false, 0.2, Some(220))
  }

  /** A student, CR or teacher row. */
  datatype Caller = Caller(id: string)

  /** The keyword the handler gets its caller under. */
  datatype HandlerArg = AsStudent(student: Caller) | AsTeacher(teacher: Caller)

  /** What a turn did: answered on its own, answered with the reply of a
      second `complete` call, or ran the tool handler. */
  datatype Turn =
    | Replied(text: string)
    | Chatted(gate: Request, reply: Request)
    | RanTool(gate: Request, handler: Handler, arg: HandlerArg, userText: string, history: seq<ChatMessage>)

  /** The branch every turn takes after the gate. */
  function Route(gate: Gate, gateCall: Request, history: seq<ChatMessage>, userText: string,
                 toolName: string, tools: map<string, ToolSpec>, arg: HandlerArg): (r: Result<Turn>)
    ensures gate.intent != ToolQuery ==> r == Ok(Chatted(gateCall, ReplyRequest(gate.intent, history, userText)))
    ensures gate.intent == ToolQuery ==> (r.Ok? <==> toolName in tools)
    ensures gate.intent == ToolQuery && r.Ok? ==>
              r.value == RanTool(gateCall, tools[toolName].handler, arg, userText, history)
    ensures r.Err? ==> r.error == ValueError(UnknownToolMessage(toolName))
  {
    if gate.intent != ToolQuery then Ok(Chatted(gateCall, ReplyRequest(gate.intent, history, userText)))
    else
      var tool :- Lookup(tools, toolName);
      Ok(RanTool(gateCall, tool.handler, arg, userText, history))
  }

  const NoUserMessage := "Error: No user context provided."

  /** `run_tool_chat`: the CR when there is one, else the student; with
      neither the turn answers with an error text and asks the LLM nothing.
      Otherwise the last six messages of the room are the history, the gate
      is asked, and the handler gets the caller as `student`. */
  function RunToolChat(rows: seq<Message>, roomId: string, toolName: string,
                       student: Option<Caller>, cr: Option<Caller>, userText: string,
                       gateReply: Option<JValue>, tools: map<string, ToolSpec>): (r: Result<Turn>)
    ensures student.None? && cr.None? ==> r == Ok(Replied(NoUserMessage))
    ensures r.Ok? && r.value.RanTool? ==>
              && ReadGate(gateReply).intent == ToolQuery
              && toolName in tools && r.value.handler == tools[toolName].handler
              && r.value.arg == AsStudent(if cr.Some? then cr.value else student.value)
              && r.value.history == History(LastMessages(rows, roomId, HistoryWindow))
              && r.value.gate == GateRequest(r.value.history, userText)
    ensures r.Ok? && r.value.Chatted? ==> ReadGate(gateReply).intent != ToolQuery
    ensures r.Err? <==> (student.Some? || cr.Some?) && ReadGate(gateReply).intent == ToolQuery && toolName !in tools
  {
    var user := if cr.Some? then cr else student;
    if user.None? then Ok(Replied(NoUserMessage))
    else
      var history := History(LastMessages(rows, roomId, HistoryWindow));
      Route(ReadGate(gateReply), GateRequest(history, userText), history, userText, toolName, tools, AsStudent(user.value))
  }

  /** `run_tool_chat_teacher`: the same turn with no user check, and the
      handler gets the teacher as `teacher`. */
  function RunTeacherChat(rows: seq<Message>, roomId: string, toolName: string, teacher: Caller,
                          userText: string, gateReply: Option<JValue>, tools: map<string, ToolSpec>): (r: Result<Turn>)
    ensures !r.Ok? || !r.value.Replied?
    ensures r.Ok? && r.value.RanTool? ==> r.value.arg == AsTeacher(teacher)
  {
    var history := History(LastMessages(rows, roomId, HistoryWindow));
    Route(ReadGate(gateReply), GateRequest(history, userText), history, userText, toolName, tools, AsTeacher(teacher))
  }

  /** A teacher turn and a student turn on the same room, text and gate
      reply do the same thing, except for the keyword the handler gets its
      caller under. */
  lemma TeacherTurnMatchesStudentTurn(rows: seq<Message>, roomId: string, toolName: string,
                                      teacher: Caller, student: Caller, userText: string,
                                      gateReply: Option<JValue>, tools: map<string, ToolSpec>)
    ensures var t := RunTeacherChat(rows, roomId, toolName, teacher, userText, gateReply, tools);
            var s := RunToolChat(rows, roomId, toolName, Some(student), None, userText, gateReply, tools);
            && t.Ok? == s.Ok?
            && (t.Ok? ==> (t.value.Chatted? <==> s.value.Chatted?) && (t.value.RanTool? <==> s.value.RanTool?))
            && (t.Ok? && t.value.Chatted? ==> t.value == s.value)
            && (t.Ok? && t.value.RanTool? ==> t.value == s.value.(arg := AsTeacher(teacher)))
  {
  }

  /** A CR in the room takes precedence over a student. */
  lemma CrTakesPrecedence(rows: seq<Message>, roomId: string, toolName: string, student: Option<Caller>,
                          cr: Caller, userText: string, gateReply: Option<JValue>, tools: map<string, ToolSpec>)
    ensures RunToolChat(rows, roomId, toolName, student, Some(cr), userText, gateReply, tools)
            == RunToolChat(rows, roomId, toolName, None, Some(cr), userText, gateReply, tools)
  {
  }
}
