/** The LLM intent router: the prompt it builds from the tool names, the
    single `complete` call it makes, and the validation of the decoded
    reply as a `RouteDecision`. There is no fallback: a reply that is not
    JSON or does not validate is an error. */
module IntentRouter {

  import opened Common
  import opened Json
  import opened Text
  import opened Departments
  import opened Fields
  import opened Llm

  datatype RouteKind = UseTool | NeuraChat | BlockedRoute

  /** `RouteDecision`. */
  datatype RouteDecision = RouteDecision(
    intent: RouteKind,
    toolName: Option<string>,
    confidence: real,
    reason: Option<string>)

  const DefaultConfidence: real := 0.5

  /** The prompt up to the tool list, and after it. */
  const PromptHead: string :=
    "You are a routing system for a RUET academic assistant.\n\n"
    + "The assistant is ONLY allowed to help with RUET academic and student-app related topics:\n"
    + "- class notes, lecture slides\n- CT questions, semester questions\n- notices\n- academic results\n"
    + "- how to use the RUET student app\n- short greetings and polite conversation\n\n"
    + "If the user asks anything NOT related to RUET academics or student app usage\n"
    + "(for example: sports, celebrities, world facts, general knowledge like \"who is Messi\"),\n"
    + "set intent=\"blocked\".\n\nReturn ONLY JSON:\n{\n"
    + "  \"intent\": \"use_tool\" | \"neura_chat\" | \"blocked\",\n  \"tool_name\": string | null,\n"
    + "  \"confidence\": number,\n  \"reason\": string | null\n}\n\nRules:\n"
    + "- Greetings or polite conversation → intent=\"neura_chat\".\n"
    + "- RUET academic requests that need database access → intent=\"use_tool\"\n"
    + "  and choose tool_name from:\n"

  const PromptTail: string :=
    "\n- Anything unrelated to RUET → intent=\"blocked\".\n\nExamples:\nUser: \"hi\"\n"
    + "Output: {\"intent\":\"neura_chat\",\"tool_name\":null,\"confidence\":0.95,\"reason\":\"greeting\"}\n\n"
    + "User: \"class note on tree\"\n"
    + "Output: {\"intent\":\"use_tool\",\"tool_name\":\"find_materials\",\"confidence\":0.9,"
    + "\"reason\":\"ruet academic material search\"}\n\n"
    + "User: \"who is Messi?\"\n"
    + "Output: {\"intent\":\"blocked\",\"tool_name\":null,\"confidence\":0.98,\"reason\":\"not ruet related\"}"

  /** `build_router_prompt`: the tool list is printed as a Python list into
      the fixed text (the surrounding blank lines are stripped). */
  function BuildRouterPrompt(tools: seq<string>): string
  {
    PromptHead + ListRepr(tools) + PromptTail
  }

  /** The prompt offers every tool it is given, quoted, and the whole list. */
  lemma PromptOffersTools(tools: seq<string>)
    ensures ContainsSub(BuildRouterPrompt(tools), ListRepr(tools))
    ensures forall i :: 0 <= i < |tools| ==> ContainsSub(BuildRouterPrompt(tools), "'" + tools[i] + "'")
  {
    ListOffersTools(PromptHead, tools, PromptTail);
  }

  /** Any text around a printed list contains the list and each quoted item. */
  lemma ListOffersTools(head: string, tools: seq<string>, tail: string)
    ensures ContainsSub(head + ListRepr(tools) + tail, ListRepr(tools))
    ensures forall i :: 0 <= i < |tools| ==> ContainsSub(head + ListRepr(tools) + tail, "'" + tools[i] + "'")
  {
    ContainsInMiddle(head, ListRepr(tools), tail);
    var quoted := seq(|tools|, i requires 0 <= i < |tools| => "'" + tools[i] + "'");
    forall i | 0 <= i < |tools| ensures ContainsSub(head + ListRepr(tools) + tail, "'" + tools[i] + "'") {
      JoinContainsPart(quoted, ", ", i);
      ContainsWithin("[", Join(quoted, ", "), "]", quoted[i]);
      ContainsWithin(head, ListRepr(tools), tail, quoted[i]);
    }
  }

  /** Two tool lists give the same prompt only when they print the same. */
  lemma PromptDeterminesList(a: seq<string>, b: seq<string>)
    requires BuildRouterPrompt(a) == BuildRouterPrompt(b)
    ensures ListRepr(a) == ListRepr(b)
  {
    MiddleDetermined(PromptHead, ListRepr(a), ListRepr(b), PromptTail);
  }

  /** The same text around two middles is only equal for equal middles. */
  lemma MiddleDetermined(head: string, x: string, y: string, tail: string)
    requires head + x + tail == head + y + tail
    ensures x == y
  {
    var p := head + x + tail;
    assert |x| == |y|;
    assert x == p[|head|..|head| + |x|];
    assert y == (head + y + tail)[|head|..|head| + |y|];
  }

  /** The one `complete` call of `route_intent`: the router prompt, the user
      text alone (no history), JSON mode, temperature 0 and the client's
      default token limit. */
  function RouteRequest(tools: seq<string>, userText: string): (r: Request)
    ensures r.messages == [ChatMessage("user", userText)]
    ensures r.jsonMode && r.temperature == 0.0
    ensures r.system == RouterPrompt(BuildRouterPrompt(tools))
  {
    Request(RouterPrompt(BuildRouterPrompt(tools)), [ChatMessage("user", userText)], true, 0.0, Some(DefaultMaxTokens))
  }

  function RouteIntentNamed(v: JValue): Option<RouteKind>
  {
    match v
    case JStr(s) =>
      if s == "use_tool" then Some(UseTool)
      else if s == "neura_chat" then Some(NeuraChat)
      else if s == "blocked" then Some(BlockedRoute)
      else None
    case _ => None
  }

  /** An optional text field: absent or null is None, a string is kept, any
      other value is refused. */
  function OptionalText(field: string, fields: map<string, JValue>): (r: Result<Option<string>>)
    ensures r.Ok? <==> field !in fields || fields[field].JNull? || fields[field].JStr?
    ensures r.Ok? && r.value.Some? ==> field in fields && fields[field] == JStr(r.value.value)
  {
    if field !in fields || fields[field].JNull? then Ok(None)
    else if fields[field].JStr? then Ok(Some(fields[field].s))
    else Err(ValueError(field + ": Input should be a valid string"))
  }

  /** The number of a confidence entry, if it is one. */
  function Number(v: JValue): Option<real>
  {
    match v
    case JInt(i) => Some(i as real)
    case JFloat(x) => Some(x)
    case _ => None
  }

  /** An absent confidence, or a number in [0, 1]. */
  predicate ConfidenceOk(fields: map<string, JValue>)
  {
    "confidence" !in fields
    || (Number(fields["confidence"]).Some? && 0.0 <= Number(fields["confidence"]).value <= 1.0)
  }

  /** `RouteDecision.model_validate`: an object with a known intent, text or
      null for tool_name and reason, a confidence in [0, 1] (0.5 when
      absent); other keys are ignored. */
  function ValidateRoute(data: JValue): (r: Result<RouteDecision>)
    ensures r.Ok? <==> data.JObject? && "intent" in data.fields && RouteIntentNamed(data.fields["intent"]).Some?
                       && OptionalText("tool_name", data.fields).Ok? && OptionalText("reason", data.fields).Ok?
                       && ConfidenceOk(data.fields)
    ensures r.Ok? ==> Some(r.value.intent) == RouteIntentNamed(data.fields["intent"])
    ensures r.Ok? ==> 0.0 <= r.value.confidence <= 1.0
    ensures r.Ok? && "confidence" !in data.fields ==> r.value.confidence == DefaultConfidence
    ensures r.Ok? && "confidence" in data.fields ==> Number(data.fields["confidence"]) == Some(r.value.confidence)
    ensures r.Ok? ==> r.value.toolName == OptionalText("tool_name", data.fields).value
    ensures r.Ok? ==> r.value.reason == OptionalText("reason", data.fields).value
  {
    if !data.JObject? then Err(ValueError("Input should be a valid dictionary"))
    else
      var fields := data.fields;
      if "intent" !in fields || RouteIntentNamed(fields["intent"]).None? then
        Err(ValueError("intent: Input should be 'use_tool', 'neura_chat' or 'blocked'"))
      else
        var toolName :- OptionalText("tool_name", fields);
        var confidence :-
          if "confidence" !in fields then Ok(DefaultConfidence)
          else if Number(fields["confidence"]).None? then Err(ValueError("confidence: Input should be a valid number"))
          else if Number(fields["confidence"]).value < 0.0 then Err(ValueError("confidence: Input should be greater than or equal to 0"))
          else if Number(fields["confidence"]).value > 1.0 then Err(ValueError("confidence: Input should be less than or equal to 1"))
          else Ok(Number(fields["confidence"]).value);
        var reason :- OptionalText("reason", fields);
        Ok(RouteDecision(RouteIntentNamed(fields["intent"]).value, toolName, confidence, reason))
  }

  /** `route_intent` after the call: the reply decoded as JSON (None when it
      is not JSON), then validated; both failures are errors. */
  function RouteIntent(reply: Option<JValue>): (r: Result<RouteDecision>)
    ensures reply.None? ==> r.Err?
    ensures reply.Some? ==> r == ValidateRoute(reply.value)
  {
    if reply.None? then Err(ValueError("Expecting value")) else ValidateRoute(reply.value)
  }

  /** Unlike the chat gate, the router has no fallback: a reply that is not
      an object, or names no intent, is refused. */
  lemma RouterHasNoFallback(reply: Option<JValue>)
    requires reply.None? || !reply.value.JObject? || "intent" !in reply.value.fields
             || RouteIntentNamed(reply.value.fields["intent"]).None?
    ensures RouteIntent(reply).Err?
  {
  }

  /** A confidence outside [0, 1] is refused whatever else the reply says. */
  lemma ConfidenceOutOfRangeRefused(fields: map<string, JValue>, c: real)
    requires c < 0.0 || c > 1.0
    ensures ValidateRoute(JObject(fields["confidence" := JFloat(c)])).Err?
  {
  }
}
