/**
 * `get_qwen_response`: the arguments of the call to the hosted model and the
 * reduction of its response to a reply text and an optional next session id.
 * The HTTP transport itself is outside the model; its response is a value.
 */
module Provider {
  import opened Wrappers

  /** `HTTPStatus.OK`. */
  const HttpOk := 200

  /** The fixed apology returned on a non-OK status (main.py line 69). */
  const ApiErrorMessage := "Произошла ошибка при обращении к API"

  /** Arguments of `Application.call`: the prompt and, when given, the session id. */
  datatype Call = Call(prompt: string, sessionId: Option<string>)

  /** What `Application.call` returns: the status code and the `output`
      dictionary's `text` and `session_id` (None when missing or null). */
  datatype Response = Response(statusCode: int, text: Option<string>, sessionId: Option<string>)

  /** Python truthiness of an optional string: present and non-empty. */
  predicate Truthy(s: Option<string>) {
    s.Some? && s.value != ""
  }

  /** main.py lines 59-62: the session id is passed on only when it is truthy. */
  function MakeCall(message: string, session: Option<string>): (c: Call)
    ensures c.prompt == message
    ensures c.sessionId.Some? <==> Truthy(session)
    ensures c.sessionId.Some? ==> c.sessionId == session
  {
    if Truthy(session) then Call(message, session) else Call(message, None)
  }

  /** main.py lines 64-73: a non-OK status gives the apology and no session;
      an OK status gives the text (empty when missing or empty) and the
      returned session id as it is. */
  function Unpack(resp: Response): (r: (string, Option<string>))
    ensures resp.statusCode != HttpOk ==> r == (ApiErrorMessage, None)
    ensures r.1.Some? ==> resp.statusCode == HttpOk && r.1 == resp.sessionId
    ensures resp.statusCode == HttpOk ==> r.1 == resp.sessionId
    ensures resp.statusCode == HttpOk ==> (r.0 == "" <==> !Truthy(resp.text))
    ensures resp.statusCode == HttpOk && Truthy(resp.text) ==> r.0 == resp.text.value
  {
    if resp.statusCode != HttpOk then (ApiErrorMessage, None)
    else ((if Truthy(resp.text) then resp.text.value else ""), resp.sessionId)
  }

  /** `get_qwen_response(user_message, session_id)` with the provider given as
      a function from call arguments to its response: the provider sees the
      message and the truthy session id, a failed call yields the apology and
      no session, and a session id only comes out of an OK response. */
  function GetQwenResponse(message: string, session: Option<string>, provider: Call -> Response): (r: (string, Option<string>))
    ensures var resp := provider(MakeCall(message, session));
            (resp.statusCode != HttpOk ==> r == (ApiErrorMessage, None)) &&
            (r.1.Some? ==> resp.statusCode == HttpOk && r.1 == resp.sessionId) &&
            (resp.statusCode == HttpOk ==> r.1 == resp.sessionId && (r.0 == "" <==> !Truthy(resp.text))) &&
            (resp.statusCode == HttpOk && Truthy(resp.text) ==> r.0 == resp.text.value)
  {
    Unpack(provider(MakeCall(message, session)))
  }
}
