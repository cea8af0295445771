/** Assembly of the outbound request of `run_flow`: the run URL, the JSON
    payload and the optional headers. The POST itself is not modelled. */
module RunFlow {
  import opened Optional
  import opened Json

  const BaseApiUrl: string := "https://api.langflow.astra.datastax.com"
  const LangflowId: string := "8abe74e8-b551-40dd-967c-3c17342f6ee1"
  const FlowId: string := "c9ba954e-3449-4d12-9a07-eec02d8c591f"
  /** The default of both `output_type` and `input_type`. */
  const Chat: string := "chat"
  const JsonContentType: string := "application/json"
  const BearerPrefix: string := "Bearer "

  /** The overrides the chat page passes: one empty override per component. */
  const AppTweaks: map<string, Json> := map[
    "ChatInput-EnnWC" := JObj(map[]),
    "ParseData-4Mivh" := JObj(map[]),
    "Prompt-qPeMa" := JObj(map[]),
    "ChatOutput-mEMTU" := JObj(map[]),
    "OpenAIEmbeddings-pxjJu" := JObj(map[]),
    "OpenAIModel-YpfiT" := JObj(map[]),
    "AstraDB-jOu2s" := JObj(map[])
  ]

  /** Everything before the endpoint in a run URL. */
  const RunPrefix: string := BaseApiUrl + "/lf/" + LangflowId + "/api/v1/run/"

  /** The arguments of one `run_flow` call. */
  datatype RunArgs = RunArgs(
    message: string,
    endpoint: string,
    outputType: string,
    inputType: string,
    tweaks: Option<map<string, Json>>,
    token: Option<string>)

  /** A call that leaves `output_type` and `input_type` at their defaults. */
  function DefaultArgs(message: string, endpoint: string, tweaks: Option<map<string, Json>>, token: Option<string>): RunArgs
  {
    RunArgs(message, endpoint, Chat, Chat, tweaks, token)
  }

  /** `if tweaks:` — the overrides are neither `None` nor an empty dict. */
  predicate TweaksGiven(tweaks: Option<map<string, Json>>)
  {
    tweaks.Some? && |tweaks.value| > 0
  }

  /** `if application_token:` — the token is neither `None` nor empty. */
  predicate TokenGiven(token: Option<string>)
  {
    token.Some? && |token.value| > 0
  }

  /** The overrides as far as the request can tell: falsy ones are dropped. */
  function SentTweaks(tweaks: Option<map<string, Json>>): Option<map<string, Json>>
  {
    if TweaksGiven(tweaks) then tweaks else None
  }

  /** The token as far as the request can tell: a falsy one is dropped. */
  function SentToken(token: Option<string>): Option<string>
  {
    if TokenGiven(token) then token else None
  }

  /* ---------------------------------------------------------------- URL */

  /** The run URL of an endpoint: the base URL and Langflow id, then the
      endpoint. */
  function RunUrl(endpoint: string): (url: string)
    ensures |url| == |RunPrefix| + |endpoint|
    ensures url[..|RunPrefix|] == RunPrefix && url[|RunPrefix|..] == endpoint
  {
    RunPrefix + endpoint
  }

  /** The endpoint a run URL addresses, or `None` for any other URL. */
  function EndpointOf(url: string): Option<string>
  {
    if |RunPrefix| <= |url| && url[..|RunPrefix|] == RunPrefix then Some(url[|RunPrefix|..]) else None
  }

  /** Every run URL is the fixed prefix followed by exactly the endpoint,
      so the endpoint can be read back and nothing else yields that URL. */
  lemma RunUrlRoundTrip(endpoint: string, url: string)
    ensures EndpointOf(RunUrl(endpoint)) == Some(endpoint)
    ensures EndpointOf(url) == Some(endpoint) ==> RunUrl(endpoint) == url
  {
    assert (RunPrefix + endpoint)[..|RunPrefix|] == RunPrefix;
    assert (RunPrefix + endpoint)[|RunPrefix|..] == endpoint;
    if EndpointOf(url) == Some(endpoint) {
      assert url == url[..|RunPrefix|] + url[|RunPrefix|..];
    }
  }

  /* ------------------------------------------------------------ payload */

  function Payload(a: RunArgs): (p: map<string, Json>)
    ensures p.Keys == {"input_value", "output_type", "input_type"} + (if TweaksGiven(a.tweaks) then {"tweaks"} else {})
  {
    var base := map["input_value" := JStr(a.message), "output_type" := JStr(a.outputType), "input_type" := JStr(a.inputType)];
    if TweaksGiven(a.tweaks) then base["tweaks" := JObj(a.tweaks.value)] else base
  }

  /** What a server can read out of a payload. */
  datatype PayloadFields = PayloadFields(
    message: string,
    outputType: string,
    inputType: string,
    tweaks: Option<map<string, Json>>)

  /** With the defaults, the payload asks for a chat reply to a chat input
      and carries the message as the input value. */
  lemma DefaultPayload(message: string, endpoint: string, tweaks: Option<map<string, Json>>, token: Option<string>)
    ensures Payload(DefaultArgs(message, endpoint, tweaks, token))["input_value"] == JStr(message)
    ensures Payload(DefaultArgs(message, endpoint, tweaks, token))["output_type"] == JStr("chat")
    ensures Payload(DefaultArgs(message, endpoint, tweaks, token))["input_type"] == JStr("chat")
  {
  }

  /** Reads a payload back: the three string fields and, when present, a
      non-empty `tweaks` mapping; `None` for anything `run_flow` cannot send. */
  function ReadPayload(p: map<string, Json>): Option<PayloadFields>
  {
    if !(p.Keys <= {"input_value", "output_type", "input_type", "tweaks"}) then None
    else if "input_value" !in p || !p["input_value"].JStr? then None
    else if "output_type" !in p || !p["output_type"].JStr? then None
    else if "input_type" !in p || !p["input_type"].JStr? then None
    else if "tweaks" !in p then
      Some(PayloadFields(p["input_value"].s, p["output_type"].s, p["input_type"].s, None))
    else if p["tweaks"].JObj? && |p["tweaks"].fields| > 0 then
      Some(PayloadFields(p["input_value"].s, p["output_type"].s, p["input_type"].s, Some(p["tweaks"].fields)))
    else None
  }

  /** The payload always carries the message and both types, and carries
      the overrides, unchanged, exactly when they are truthy. */
  lemma PayloadRoundTrip(a: RunArgs)
    ensures ReadPayload(Payload(a)) == Some(PayloadFields(a.message, a.outputType, a.inputType, SentTweaks(a.tweaks)))
  {
  }

  /** Whatever reads back from a payload is what `run_flow` sends for those fields. */
  lemma ReadPayloadSound(p: map<string, Json>, endpoint: string, token: Option<string>)
    requires ReadPayload(p).Some?
    ensures var f := ReadPayload(p).value;
      Payload(RunArgs(f.message, endpoint, f.outputType, f.inputType, f.tweaks, token)) == p
  {
    var f := ReadPayload(p).value;
    var q := Payload(RunArgs(f.message, endpoint, f.outputType, f.inputType, f.tweaks, token));
    assert q.Keys == p.Keys;
  }

  /** Two calls send the same payload exactly when they agree on the message,
      the types and the truthy overrides: no overrides, `None` and `{}` are
      indistinguishable on the wire. */
  lemma PayloadSameIff(a: RunArgs, b: RunArgs)
    ensures Payload(a) == Payload(b) <==>
      a.message == b.message && a.outputType == b.outputType && a.inputType == b.inputType
      && SentTweaks(a.tweaks) == SentTweaks(b.tweaks)
  {
    PayloadRoundTrip(a);
    PayloadRoundTrip(b);
    if a.message == b.message && a.outputType == b.outputType && a.inputType == b.inputType
      && SentTweaks(a.tweaks) == SentTweaks(b.tweaks)
    {
      ReadPayloadSound(Payload(a), a.endpoint, a.token);
      ReadPayloadSound(Payload(b), a.endpoint, a.token);
    }
  }

  /* ------------------------------------------------------------ headers */

  /** The request headers: `None` unless a token is given. */
  function Headers(token: Option<string>): (h: Option<map<string, string>>)
    ensures h.Some? <==> TokenGiven(token)
    ensures h.Some? ==> h.value.Keys == {"Authorization", "Content-Type"}
    ensures h.Some? ==> h.value["Content-Type"] == JsonContentType
  {
    if TokenGiven(token) then
      Some(map["Authorization" := BearerPrefix + token.value, "Content-Type" := JsonContentType])
    else None
  }

  /** The token a server reads from a bearer `Authorization` header. */
  function BearerToken(h: Option<map<string, string>>): Option<string>
  {
    if h.None? || "Authorization" !in h.value then None
    else
      var auth := h.value["Authorization"];
      if |BearerPrefix| <= |auth| && auth[..|BearerPrefix|] == BearerPrefix then Some(auth[|BearerPrefix|..])
      else None
  }

  /** The `Authorization` header carries exactly the truthy token. */
  lemma HeadersRoundTrip(token: Option<string>)
    ensures BearerToken(Headers(token)) == SentToken(token)
  {
    if TokenGiven(token) {
      var auth := BearerPrefix + token.value;
      assert auth[..|BearerPrefix|] == BearerPrefix;
      assert auth[|BearerPrefix|..] == token.value;
    }
  }

  /** The `headers` argument carries `Content-Type` exactly when it carries
      `Authorization`, and both exactly when the token is truthy. What the
      HTTP library adds to that argument is not modelled. */
  lemma ContentTypeOnlyWithToken(token: Option<string>)
    ensures (Headers(token).Some? && "Content-Type" in Headers(token).value) <==> TokenGiven(token)
    ensures (Headers(token).Some? && "Content-Type" in Headers(token).value)
        <==> (Headers(token).Some? && "Authorization" in Headers(token).value)
  {
  }

  /* ------------------------------------------------------------ request */

  datatype Request = Request(url: string, payload: map<string, Json>, headers: Option<map<string, string>>)

  /** Everything `run_flow` hands to the POST, decoded: the endpoint from the
      URL, the fields from the payload and the token from the headers. */
  function RunFlowRequest(a: RunArgs): (r: Request)
    ensures EndpointOf(r.url) == Some(a.endpoint)
    ensures ReadPayload(r.payload) == Some(PayloadFields(a.message, a.outputType, a.inputType, SentTweaks(a.tweaks)))
    ensures BearerToken(r.headers) == SentToken(a.token)
  {
    RunUrlRoundTrip(a.endpoint, "");
    PayloadRoundTrip(a);
    HeadersRoundTrip(a.token);
    Request(RunUrl(a.endpoint), Payload(a), Headers(a.token))
  }

  /** The request of the chat page for one prompt: the configured flow, the
      default types, the page's overrides and the configured secret. */
  function ChatRequest(prompt: string, secret: string): Request
  {
    RunFlowRequest(DefaultArgs(prompt, FlowId, Some(AppTweaks), Some(secret)))
  }

  /** The chat page always sends its overrides, even though each one is
      empty, and sends headers exactly when the secret is non-empty. */
  lemma ChatRequestShape(prompt: string, secret: string)
    ensures ChatRequest(prompt, secret).url == RunPrefix + FlowId
    ensures ChatRequest(prompt, secret).payload["tweaks"] == JObj(AppTweaks)
    ensures ChatRequest(prompt, secret).payload["input_value"] == JStr(prompt)
    ensures ChatRequest(prompt, secret).headers.Some? <==> secret != ""
  {
    assert "ChatInput-EnnWC" in AppTweaks;
  }
}
