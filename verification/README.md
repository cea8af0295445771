# PLC chat client: request assembly and reply normalisation

The chat page (`app.py`) forwards each user prompt to a hosted Langflow flow
and shows the text that comes back. Two pieces of that script are pure logic,
and this project models them and proves properties about them:

- **Request assembly** (`run_flow`). From the message, the endpoint, the
  input and output types (both `"chat"` by default), optional tweaks and an
  optional application token, it builds three things. The first is the run
  URL. The second is the JSON payload, which carries a `tweaks` key only when
  the tweaks are truthy. The third is the headers, which are `None` unless
  the token is truthy.
- **Reply normalisation**. This is the inline chain after the call, lifted
  here into `Reply.ExtractReply`. An `error` key wins outright and produces
  `"Error: "` followed by the value's text. Otherwise the first truthy of
  `response`, `output`, `result` and `data.result` wins. `data.result` is
  only looked at when `data` is a mapping. If none of them is truthy, the
  reply is the whole body written out by `str`.

Modules:

- `json.dfy`: `Optional.Option` and `Json.Json`, the parsed JSON value.
  Numbers are integers only. The module also holds Python truthiness
  (`Truthy`), `dict.get` (`Get`), and a `str`/`repr` rendering (`Str`,
  `Repr`).
- `strings.dfy`: `Strings`, with the string order, sorted key lists, joining
  and decimal numerals that the rendering needs.
- `run_flow.dfy`: `RunFlow`, with the constants of the script, the URL, the
  payload, the headers and the request of the chat page. Each piece has a
  decoder as its partner: `EndpointOf`, `ReadPayload` and `BearerToken`.
- `reply.dfy`: `Reply`, with the `or` chain as written (`ExtractReply`) and
  an independent ordered-list definition (`Candidates` + `FirstTruthy`),
  proved equal to it. `NestedResult` is the `data.result` candidate, which
  is read only when `data` is a mapping (app.py:101). `Fallback` is the
  whole body written out by `str` (app.py:102).

Three behaviours of the script are easy to misread. The model follows the
script:

- The `headers` argument that `run_flow` builds carries `Content-Type` only
  together with a token. When there is no token, that argument is `None` as
  a whole.
- The script has no retries, backoff or timeout.
- The script's reply is not always a string. The winning candidate value is
  returned as it is, so a `response` of `42` yields the integer 42.
  `ExtractReply` therefore returns a `Json` value.

## Model

| member | source | states |
|---|---|---|
| RunFlow.RunUrlRoundTrip | app.py:29 | The run URL is the fixed base/Langflow-id prefix followed by exactly the endpoint: the endpoint reads back from it, and only that endpoint yields that URL |
| RunFlow.RunUrl | app.py:29 | The run URL splits into the fixed prefix (base URL, `/lf/`, Langflow id, `/api/v1/run/`) followed by exactly the endpoint |
| RunFlow.Payload | app.py:31-38 | The payload's keys are always `input_value`, `output_type`, `input_type`, plus `tweaks` exactly when the tweaks are truthy |
| RunFlow.DefaultPayload | app.py:23-24 | Left at their defaults, `output_type` and `input_type` are both `"chat"`, and `input_value` is the message |
| RunFlow.PayloadRoundTrip | app.py:31-38 | The payload reads back as the message, both types and the tweaks. The tweaks come back as the given mapping when truthy and as absent when they were `None` or `{}` |
| RunFlow.ReadPayloadSound | app.py:31-38 | Any payload that reads back is exactly the one `run_flow` builds from the fields read, so the decoder accepts only payloads `run_flow` can send |
| RunFlow.PayloadSameIff | app.py:37-38 | Two calls send the same payload if and only if they agree on message, types and truthy tweaks, so `None` and `{}` tweaks cannot be told apart on the wire |
| RunFlow.Headers | app.py:36-40 | The headers are present if and only if the token is truthy. When present they hold exactly `Authorization` and `Content-Type`, and the latter is `application/json` |
| RunFlow.HeadersRoundTrip | app.py:39-40 | The bearer token read from the `Authorization` header is exactly the truthy token, and nothing is read when the token is `None` or empty |
| RunFlow.ContentTypeOnlyWithToken | app.py:36-40 | There is a `Content-Type` header if and only if there is an `Authorization` header, and both exist if and only if the token is truthy |
| RunFlow.RunFlowRequest | app.py:29-40 | The assembled request decodes back to the endpoint, the payload fields with the truthy tweaks, and the truthy token |
| RunFlow.ChatRequestShape | app.py:82-87 | The chat page's request targets the configured flow and carries the prompt. It always carries its seven-component tweaks, although each override is empty, and it has headers if and only if the secret is non-empty |
| Json.Repr | app.py:94 | The `repr` text of every value is non-empty. The rendering approximates Python's `str`/`repr`; see the Json.Repr line under Left out |
| Json.StrBlankIff | app.py:94 | The text of a value is empty if and only if the value is the empty string |
| Json.StrObjectBraced | app.py:102 | A mapping is written out between braces, so its text is never empty |
| Reply.ExtractReply | app.py:93-103 | The reply is always truthy, whichever branch chooses it |
| Reply.FirstTruthyPicksFirst | app.py:97-102 | The ordered search returns the candidate at the first truthy position, and returns the fallback when no candidate is truthy |
| Reply.ExtractReplyIsChain | app.py:97-103 | Without an `error` key, the nested `or` chain equals the ordered search over `response`, `output`, `result`, `data.result` with the written-out body as fallback |
| Reply.ErrorShortCircuits | app.py:93-94 | With an `error` key, whatever its value, the reply is `"Error: "` plus the value's text. Bodies with the same `error` value get the same reply, so no other field is consulted |
| Reply.ReplyIsFirstTruthyCandidate | app.py:97-101 | Without an error, the reply is the candidate at the first truthy position of `response`, `output`, `result`, `data.result` |
| Reply.ReplyFallsBackToBody | app.py:102 | Without an error, when all four candidates are absent or falsy, the reply is the whole body written out |
| Reply.FirstTruthyPrefix | app.py:97-102 | Two candidate lists that agree up to and including a truthy entry give the same result, whatever follows and whatever the fallbacks are |
| Reply.EarlierCandidateWins | app.py:97-101 | A truthy earlier candidate wins whatever later fields hold: bodies that agree up to a truthy candidate get the same reply |
| Reply.DataMustBeMapping | app.py:101 | When `data` is absent or not a mapping, the reply is chosen from `response`, `output`, `result` and the written-out body alone |
| Reply.ReplyNeverBlank | app.py:102-105 | The text of the reply is never empty |
| Reply.ResponseExample | app.py:98 | `{"response": "A"}` gives `"A"` |
| Reply.OutputExample | app.py:98-99 | `{"output": "B"}` gives `"B"`, also when `response` is present but empty |
| Reply.NestedResultExample | app.py:101 | `{"data": {"result": "C"}}` gives `"C"` |
| Reply.NullErrorExample | app.py:93-94 | An `error` key with a null value still wins, giving `"Error: None"` even though `response` is set |
| Reply.UnknownFieldsWrittenOut | app.py:102 | `{"foo": "bar"}` gives the text `{'foo': 'bar'}` rather than an error |

## Left out

- The POST, `raise_for_status` and `response.json()` (app.py:42-45) are network I/O and a foreign library. The conversion of a `RequestException` into `{"error": ...}` (app.py:46-48) is left out for the same reason. The response body is a parameter of `Reply.ExtractReply`, and such a body may carry an `error` key.
- All Streamlit calls (app.py:50-116) are UI and global session state: page setup, the transcript and its appends, the debug expander, the spinner, the sidebar, and `st.markdown` turning a non-string reply into text.
- Top-level bodies that are not JSON objects are left out. The code calls `.get` on the body, which would fail for a list.
- JSON floats are left out. Numbers are integers, so truthiness (zero is falsy) stays exact.
- Json.Repr: this does not reproduce Python's exact `repr` text. Strings inside containers are always quoted with `'` and never escaped. Entries of a mapping are listed in ascending key order, whereas Python uses insertion order, which a `map` does not keep.
- The model does not cover what `requests` adds to the arguments of the POST (app.py:43). It sets `Content-Type: application/json` itself for a `json=` body, so every request carries it on the wire, token or not. It also adds its default headers and serialises the payload with `json.dumps`. Only the `url`, `json` and `headers` arguments are modelled.
- The token is assumed to be a string. `st.secrets` could hold another type.
- Retries, backoff and timeouts are not modelled because the code has none.
