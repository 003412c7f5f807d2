/** The chat-completions client (`GroqClient`): how it turns a request into
    the JSON payload it posts, and how it reads the status of the reply. The
    HTTP exchange itself is an input: the status code, the body text and
    the reply's message content are parameters. */
module Llm {

  import opened Common
  import opened Json
  import opened Text

  const FallbackModel := "llama-3.3-70b-versatile"
  const MissingKeyMessage := "GROQ_API_KEY missing in env"

  /** `DEFAULT_MODEL`: the GROQ_MODEL environment variable when it is set. */
  function DefaultModel(env: Option<string>): string
  {
    env.GetOr(FallbackModel)
  }

  /** `GroqClient.__init__`: a client is only made when the API key is set
      and non-empty; it keeps its timeout. */
  function NewClient(apiKey: Option<string>, timeout: real): (r: Result<real>)
    ensures r.Ok? <==> Truthy(apiKey)
    ensures r.Ok? ==> r.value == timeout
    ensures r.Err? ==> r.error == RuntimeError(MissingKeyMessage)
  {
    if Truthy(apiKey) then Ok(timeout) else Err(RuntimeError(MissingKeyMessage))
  }

  /** The system prompts of the backend, by name; the router's prompt is
      built from its tool list. */
  datatype SystemPrompt = ToolGatePrompt | GeneralChatPrompt | BlockedPrompt | RouterPrompt(text: string)

  const DefaultTemperature: real := 0.2
  const DefaultMaxTokens := 800

  /** The arguments of one `complete` call. */
  datatype Request = Request(
    system: SystemPrompt,
    messages: seq<ChatMessage>,
    jsonMode: bool,
    temperature: real,
    maxTokens: Option<int>)

  /** A message as a caller hands it over: a dictionary whose "role" and
      "content" entries may be missing and may hold any value. */
  datatype InMessage = InMessage(role: Option<JValue>, content: Option<JValue>)

  /** A chat message as the caller builds it from role and content text. */
  function FromChat(c: ChatMessage): InMessage
  {
    InMessage(Some(JStr(c.role)), Some(JStr(c.content)))
  }

  predicate KnownRole(s: string)
  {
    s == "user" || s == "assistant" || s == "system"
  }

  /** The role sent: a role outside user/assistant/system, a non-text role
      or a missing one becomes "user". */
  function SentRole(role: Option<JValue>): (r: string)
    ensures KnownRole(r)
    ensures role.Some? && role.value.JStr? && KnownRole(role.value.s) ==> r == role.value.s
    ensures r != "user" ==> role == Some(JStr(r))
  {
    match role
    case Some(JStr(s)) => if KnownRole(s) then s else "user"
    case _ => "user"
  }

  /** One caller message as sent: the role as above and the content through
      `str`, "" when it is missing. */
  function Sent(m: InMessage, repr: JValue -> string): (r: ChatMessage)
    ensures KnownRole(r.role)
    ensures m.content.None? ==> r.content == ""
    ensures m.content.Some? && m.content.value.JStr? ==> r.content == m.content.value.s
  {
    ChatMessage(SentRole(m.role), if m.content.Some? then PyStr(m.content.value, repr) else "")
  }

  /** A message built from role and content text is sent unchanged when its
      role is one the API knows. */
  lemma SentKeepsKnown(c: ChatMessage, repr: JValue -> string)
    requires KnownRole(c.role)
    ensures Sent(FromChat(c), repr) == c
  {
  }

  /** The loop of `complete` that builds `chat_messages`: the system prompt
      first, then every caller message in order, sanitised. */
  method ChatMessages(systemPrompt: string, messages: seq<InMessage>, repr: JValue -> string)
    returns (out: seq<ChatMessage>)
    ensures |out| == |messages| + 1
    ensures out[0] == ChatMessage("system", systemPrompt)
    ensures forall i :: 0 <= i < |messages| ==> out[i + 1] == Sent(messages[i], repr)
    ensures forall i :: 0 <= i < |out| ==> KnownRole(out[i].role)
  {
    out := [ChatMessage("system", systemPrompt)];
    var k := 0;
    while k < |messages|
      invariant 0 <= k <= |messages|
      invariant |out| == k + 1
      invariant out[0] == ChatMessage("system", systemPrompt)
      invariant forall i :: 0 <= i < k ==> out[i + 1] == Sent(messages[i], repr)
      invariant forall i :: 0 <= i < |out| ==> KnownRole(out[i].role)
    {
      out := out + [Sent(messages[k], repr)];
      k := k + 1;
    }
  }

  function MessageJson(c: ChatMessage): JValue
  {
    JObject(map["role" := JStr(c.role), "content" := JStr(c.content)])
  }

  /** The payload posted: model (the caller's when truthy, else the
      default), messages and temperature; "max_tokens" only when a limit is
      given; "response_format" only in JSON mode. */
  function Payload(chat: seq<ChatMessage>, jsonMode: bool, temperature: real,
                   model: Option<string>, maxTokens: Option<int>, defaultModel: string): map<string, JValue>
  {
    var base := map["model" := JStr(if Truthy(model) then model.value else defaultModel),
                     "messages" := JList(seq(|chat|, i requires 0 <= i < |chat| => MessageJson(chat[i]))),
                     "temperature" := JFloat(temperature)];
    var limited := if maxTokens.Some? then base["max_tokens" := JInt(maxTokens.value)] else base;
    if jsonMode then limited["response_format" := JObject(map["type" := JStr("json_object")])] else limited
  }

  /** The keys of the payload. */
  lemma PayloadKeys(chat: seq<ChatMessage>, jsonMode: bool, temperature: real,
                    model: Option<string>, maxTokens: Option<int>, defaultModel: string)
    ensures Payload(chat, jsonMode, temperature, model, maxTokens, defaultModel).Keys
            == {"model", "messages", "temperature"}
               + (if maxTokens.Some? then {"max_tokens"} else {})
               + (if jsonMode then {"response_format"} else {})
  {
  }

  /** What the payload carries under each key. */
  lemma PayloadValues(chat: seq<ChatMessage>, jsonMode: bool, temperature: real,
                      model: Option<string>, maxTokens: Option<int>, defaultModel: string)
    ensures var p := Payload(chat, jsonMode, temperature, model, maxTokens, defaultModel);
            && p["model"] == JStr(if Truthy(model) then model.value else defaultModel)
            && p["temperature"] == JFloat(temperature)
            && (maxTokens.Some? ==> p["max_tokens"] == JInt(maxTokens.value))
            && (jsonMode ==> p["response_format"] == JObject(map["type" := JStr("json_object")]))
            && p["messages"].JList? && |p["messages"].items| == |chat|
            && (forall i :: 0 <= i < |chat| ==> p["messages"].items[i] == MessageJson(chat[i]))
  {
    PayloadKeys(chat, jsonMode, temperature, model, maxTokens, defaultModel);
  }

  /** The error text of a failed reply. */
  function FailureMessage(status: int, body: string): string
  {
    "Groq " + IntToString(status) + ": " + body
  }

  /** Reading the reply: a status of 400 or more raises RuntimeError with the
      status and body; otherwise the message content of the first choice is
      the answer. */
  function Answer(status: int, body: string, content: string): (r: Result<string>)
    ensures r.Ok? <==> status < 400
    ensures r.Ok? ==> r.value == content
    ensures r.Err? ==> r.error == RuntimeError(FailureMessage(status, body))
  {
    if status >= 400 then Err(RuntimeError(FailureMessage(status, body))) else Ok(content)
  }
}
