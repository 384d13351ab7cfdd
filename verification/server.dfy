/**
 The serverless chat proxy: it composes the message list sent to the
 completion API and turns a request into an HTTP status and JSON body
 through a fixed order of guards. The network call, body parsing and the
 clock are inputs: the upstream outcome and the parsed body are values,
 and the model records whether the body was read and what request, if
 any, was sent upstream.
 */
module ServerChat {
  import opened Common
  import opened JsText

  // ---------------------------------------------------------------------
  // message composition

  /**
   One entry of the client-supplied history, as far as the filter can
   see it: a non-object (null, a number, ...) or an object whose `role` and
   `content` may be missing.
   */
  datatype RawItem = NonObject | Record(role: Option<string>, content: Option<string>)

  /** The `history` field: an array of entries, or anything else. */
  datatype RawHistory = NotAnArray | ArrayOf(items: seq<RawItem>)

  /** A JavaScript string value is truthy when present and non-empty. */
  predicate Truthy(o: Option<string>)
  {
    o.Some? && o.value != ""
  }

  /** `item && item.role && item.content`. */
  predicate Keeps(item: RawItem)
  {
    item.Record? && Truthy(item.role) && Truthy(item.content)
  }

  /** The turn a kept entry becomes: only its role and content survive. */
  function AsTurn(item: RawItem): Turn
    requires Keeps(item)
  {
    Turn(item.role.value, item.content.value)
  }

  /** The history entries that survive the filter, as turns, in order. */
  function KeptTurns(items: seq<RawItem>): (r: seq<Turn>)
    ensures |r| <= |items|
    ensures forall t :: t in r ==> t.role != "" && t.content != ""
  {
    if |items| == 0 then []
    else if Keeps(items[0]) then [AsTurn(items[0])] + KeptTurns(items[1..])
    else KeptTurns(items[1..])
  }

  /** Some valid entry of `items` becomes the turn `t`. */
  ghost predicate KeptFrom(items: seq<RawItem>, t: Turn)
  {
    exists i :: 0 <= i < |items| && Keeps(items[i]) && AsTurn(items[i]) == t
  }

  /** A turn is in the output exactly when some valid entry produced it. */
  lemma {:induction false} KeptTurnsMembers(items: seq<RawItem>, t: Turn)
    ensures t in KeptTurns(items) <==> KeptFrom(items, t)
  {
    if |items| > 0 {
      KeptTurnsMembers(items[1..], t);
      if KeptFrom(items[1..], t) {
        var i :| 0 <= i < |items[1..]| && Keeps(items[1..][i]) && AsTurn(items[1..][i]) == t;
        assert items[1..][i] == items[i + 1];
      }
      if KeptFrom(items, t) {
        var i :| 0 <= i < |items| && Keeps(items[i]) && AsTurn(items[i]) == t;
        if i > 0 {
          assert items[1..][i - 1] == items[i];
        }
      }
    }
  }

  /** The filter distributes over concatenation, so kept entries keep their order. */
  lemma {:induction false} KeptTurnsAppend(a: seq<RawItem>, b: seq<RawItem>)
    ensures KeptTurns(a + b) == KeptTurns(a) + KeptTurns(b)
  {
    if |a| > 0 {
      assert (a + b)[1..] == a[1..] + b;
      KeptTurnsAppend(a[1..], b);
    } else {
      assert a + b == b;
    }
  }

  /** On a single entry the filter keeps it exactly when it is valid. */
  lemma KeptTurnsSingle(item: RawItem)
    ensures KeptTurns([item]) == (if Keeps(item) then [AsTurn(item)] else [])
  {
    assert [item][1..] == [];
  }

  function HistoryTurns(history: RawHistory): seq<Turn>
  {
    match history
    case ArrayOf(items) => KeptTurns(items)
    case NotAnArray => []
  }

  /**
   `buildMessages(history, prompt)`: the persona turn, the valid history
   entries in order, then the prompt as a user turn when it is non-empty.
   */
  function BuildMessages(history: RawHistory, prompt: string): (r: seq<Turn>)
    ensures |r| == 1 + |HistoryTurns(history)| + (if prompt != "" then 1 else 0)
    ensures r[0] == ServerPersonaTurn()
    ensures r[1..1 + |HistoryTurns(history)|] == HistoryTurns(history)
    ensures prompt != "" ==> r[|r| - 1] == Turn(UserRole, prompt)
    ensures history.NotAnArray? ==> r[1..] == (if prompt != "" then [Turn(UserRole, prompt)] else [])
  {
    [ServerPersonaTurn()] + HistoryTurns(history) + (if prompt != "" then [Turn(UserRole, prompt)] else [])
  }

  /** With an empty history, a prompt gives exactly the persona and the user turn. */
  lemma EmptyHistoryMessages(prompt: string)
    requires prompt != ""
    ensures BuildMessages(ArrayOf([]), prompt) == [ServerPersonaTurn(), Turn(UserRole, prompt)]
    ensures BuildMessages(NotAnArray, prompt) == [ServerPersonaTurn(), Turn(UserRole, prompt)]
  {
  }

  // ---------------------------------------------------------------------
  // the request handler

  /** The environment: the credential and the model override; "" is unset. */
  datatype Env = Env(apiKey: string, model: string)

  /** The request body: one that fails to read or parse, or its two fields (defaults applied). */
  datatype BodyInput = Unreadable(reason: string) | Body(prompt: string, history: RawHistory)

  datatype Request = Request(verb: string, body: BodyInput)

  /**
   What the completion API does with the request: answers 2xx with the
   first choice's content (absent when any link of
   `data.choices[0].message.content` is missing), answers with a non-2xx
   status, or fails (network error, unreadable response).
   */
  datatype Upstream =
    | Completed(content: Option<string>)
    | Refused(status: int, statusText: string, text: string)
    | Broken(reason: string)

  /** The request the proxy sends to the completion API. */
  datatype Completion = Completion(model: string, messages: seq<Turn>, maxTokens: nat,
                                   temperature: real, credential: string)

  datatype Json = ErrorJson(error: string, details: Option<string>) | MessageJson(message: string, timestamp: string)

  datatype HttpReply = HttpReply(status: int, allow: Option<string>, body: Json)

  /** The reply plus what the handler consumed on the way to it. */
  datatype Handled = Handled(reply: HttpReply, bodyRead: bool, sent: Option<Completion>)

  const DefaultModel: string := "gpt-4o-mini"
  const MaxTokens: nat := 800
  const Temperature: real := 0.7
  const Placeholder: string := "NIV Scholar is reflecting on this; please try again."
  const MissingKey: string := "Missing OPENAI_API_KEY environment variable"
  const PromptRequired: string := "Prompt is required"
  const Unexpected: string := "Unexpected server error"

  /** The `message` of a 200 reply: the trimmed content, or the placeholder. */
  function ReplyMessage(content: Option<string>): (m: string)
    ensures m != ""
    ensures m == Placeholder || (content.Some? && m == Trim(content.value))
    ensures content.Some? && Trim(content.value) != "" ==> m == Trim(content.value)
  {
    match content
    case Some(c) => if Trim(c) != "" then Trim(c) else Placeholder
    case None => Placeholder
  }

  /** The upstream request for a readable body with a prompt. */
  function CompletionFor(env: Env, prompt: string, history: RawHistory): Completion
  {
    Completion(if env.model != "" then env.model else DefaultModel,
               BuildMessages(history, prompt), MaxTokens, Temperature, env.apiKey)
  }

  /** The reply to one upstream outcome. */
  function Relay(upstream: Upstream, now: string): HttpReply
  {
    match upstream
    case Refused(status, statusText, text) =>
      HttpReply(status, None, ErrorJson("OpenAI error: " + statusText, Some(text)))
    case Broken(reason) =>
      HttpReply(500, None, ErrorJson(Unexpected, Some(reason)))
    case Completed(content) =>
      HttpReply(200, None, MessageJson(ReplyMessage(content), now))
  }

  /**
   `handler(req, res)`: method, then credential, then body, then prompt,
   then the upstream call; every failure becomes a structured reply.
   */
  function Handle(req: Request, env: Env, upstream: Upstream, now: string): (h: Handled)
    // the method guard comes first and consults nothing else
    ensures req.verb != "POST" ==>
              h == Handled(HttpReply(405, Some("POST"), ErrorJson("Method Not Allowed", None)), false, None)
    ensures h.reply.allow.Some? <==> req.verb != "POST"
    // then the credential, before the body is read
    ensures req.verb == "POST" && env.apiKey == "" ==>
              h == Handled(HttpReply(500, None, ErrorJson(MissingKey, None)), false, None)
    ensures h.bodyRead <==> req.verb == "POST" && env.apiKey != ""
    // an empty prompt is refused before any upstream call
    ensures req.verb == "POST" && env.apiKey != "" && req.body.Body? && req.body.prompt == "" ==>
              h.reply == HttpReply(400, None, ErrorJson(PromptRequired, None))
    // the upstream is called exactly when every guard passed, with the composed messages
    ensures h.sent.Some? <==>
              req.verb == "POST" && env.apiKey != "" && req.body.Body? && req.body.prompt != ""
    ensures h.sent.Some? ==>
              h.sent.value.messages == BuildMessages(req.body.history, req.body.prompt) &&
              h.sent.value.credential == env.apiKey &&
              h.sent.value.model == (if env.model != "" then env.model else DefaultModel) &&
              h.sent.value.maxTokens == MaxTokens && h.sent.value.temperature == Temperature
    // a completed call answers 200 with the trimmed content (or the placeholder) and the time
    ensures h.sent.Some? && upstream.Completed? ==>
              h.reply == HttpReply(200, None, MessageJson(ReplyMessage(upstream.content), now))
    // a non-2xx answer is relayed with its status, its status text and its body text
    ensures h.sent.Some? && upstream.Refused? ==>
              h.reply == HttpReply(upstream.status, None,
                                   ErrorJson("OpenAI error: " + upstream.statusText, Some(upstream.text)))
    // an unreadable body and a failed call both land in the catch-all 500
    ensures h.bodyRead && req.body.Unreadable? ==>
              h.reply == HttpReply(500, None, ErrorJson(Unexpected, Some(req.body.reason)))
    ensures h.sent.Some? && upstream.Broken? ==>
              h.reply == HttpReply(500, None, ErrorJson(Unexpected, Some(upstream.reason)))
    // a 200 reply happens only after a completed upstream call
    ensures h.reply.body.MessageJson? <==> h.sent.Some? && upstream.Completed?
    ensures h.reply.body.MessageJson? ==>
              h.reply.status == 200 && h.reply.body.message != "" && h.reply.body.timestamp == now
  {
    if req.verb != "POST" then
      Handled(HttpReply(405, Some("POST"), ErrorJson("Method Not Allowed", None)), false, None)
    else if env.apiKey == "" then
      Handled(HttpReply(500, None, ErrorJson(MissingKey, None)), false, None)
    else
      match req.body
      case Unreadable(reason) =>
        Handled(HttpReply(500, None, ErrorJson(Unexpected, Some(reason))), true, None)
      case Body(prompt, history) =>
        if prompt == "" then
          Handled(HttpReply(400, None, ErrorJson(PromptRequired, None)), true, None)
        else
          Handled(Relay(upstream, now), true, Some(CompletionFor(env, prompt, history)))
  }

  /** A non-POST reply does not depend on the environment, the body or the upstream. */
  lemma MethodGuardFirst(verb: string, b1: BodyInput, b2: BodyInput, e1: Env, e2: Env,
                         u1: Upstream, u2: Upstream, t1: string, t2: string)
    requires verb != "POST"
    ensures Handle(Request(verb, b1), e1, u1, t1) == Handle(Request(verb, b2), e2, u2, t2)
    ensures Handle(Request(verb, b1), e1, u1, t1).reply.status == 405
  {
  }

  /** A missing credential yields the same 500 whatever the body and upstream. */
  lemma CredentialGuardBeforeBody(env: Env, b1: BodyInput, b2: BodyInput,
                                  u1: Upstream, u2: Upstream, t1: string, t2: string)
    requires env.apiKey == ""
    ensures Handle(Request("POST", b1), env, u1, t1) == Handle(Request("POST", b2), env, u2, t2)
    ensures Handle(Request("POST", b1), env, u1, t1).reply.status == 500
  {
  }

  /** A missing prompt yields 400 whatever the upstream would have answered. */
  lemma PromptGuardBeforeUpstream(env: Env, history: RawHistory, u1: Upstream, u2: Upstream, now: string)
    requires env.apiKey != ""
    ensures Handle(Request("POST", Body("", history)), env, u1, now)
         == Handle(Request("POST", Body("", history)), env, u2, now)
    ensures Handle(Request("POST", Body("", history)), env, u1, now).reply.status == 400
  {
  }

  /** An upstream 429 is relayed as 429 with the upstream body as details. */
  lemma RateLimitRelayed(env: Env, prompt: string, history: RawHistory, statusText: string, text: string, now: string)
    requires env.apiKey != "" && prompt != ""
    ensures var h := Handle(Request("POST", Body(prompt, history)), env, Refused(429, statusText, text), now);
            h.reply.status == 429 && h.reply.body == ErrorJson("OpenAI error: " + statusText, Some(text))
  {
  }
}
