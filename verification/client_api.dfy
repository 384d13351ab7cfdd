/**
 The browser-side API client: it keeps the session's conversation log,
 annotates prompts with the verse context, and turns one completion
 attempt into a result. The network answer, the random choice of a canned
 reply and the clock are parameters.
 */
module ScholarApi {
  import opened Common
  import opened JsText

  /**
   The client's state: the persona turn its constructor stores as
   `scholarContext`, and the conversation log of this session.
   */
  datatype ApiState = ApiState(scholarContext: Turn, history: seq<Turn>)

  /** A fresh client carries the client's persona and an empty log. */
  function NewApi(): ApiState
  {
    ApiState(ClientPersonaTurn(), [])
  }

  const ClientModel: string := "gpt-4"
  const ClientMaxTokens: nat := 1000
  const ClientTemperature: real := 0.7

  /** The body posted to the completion API. */
  datatype ClientRequest = ClientRequest(model: string, messages: seq<Turn>, maxTokens: nat,
                                         temperature: real, stream: bool)

  /**
   How the completion attempt ends: a reply's first-choice content; a
   non-2xx status; or a thrown error (network failure, unreadable JSON,
   a response without `choices`) with its message.
   */
  datatype Fetched = Reply(content: string) | HttpFailure(status: nat, statusText: string) | Thrown(message: string)

  /** The result object: `success: true` with a message, or `success: false` with an error and a fallback. */
  datatype ApiResult =
    | Answer(message: string, timestamp: string, simulated: bool)
    | Failure(error: string, fallbackMessage: string)

  const VersePreamble: string := "In the context of "

  /** `buildUserPrompt(message, verseContext)`. */
  function BuildUserPrompt(message: string, ctx: Option<VerseContext>): (p: string)
    ensures EndsWith(p, message)
    ensures ctx.None? ==> p == message
    ensures ctx.Some? ==> p[..|p| - |message|] == VersePreamble + VerseLabel(ctx.value) + ", "
  {
    match ctx
    case None => message
    case Some(v) => VersePreamble + VerseLabel(v) + ", " + message
  }

  /** Under a fixed verse context the prompt determines the message. */
  lemma BuildUserPromptInjective(m1: string, m2: string, ctx: Option<VerseContext>)
    requires BuildUserPrompt(m1, ctx) == BuildUserPrompt(m2, ctx)
    ensures m1 == m2
  {
    var p := BuildUserPrompt(m1, ctx);
    assert |m1| == |m2|;
    assert m1 == p[|p| - |m1|..] == m2;
  }

  const Fallbacks: seq<string> := [
    "That's an excellent question for our study together. Let me reflect on the biblical context and historical background to provide you with a thoughtful response.",
    "I appreciate your inquiry. This is a rich area of biblical study that deserves careful consideration from both historical and theological perspectives.",
    "Your question touches on important aspects of biblical scholarship. Let me gather the relevant historical and textual information to address this thoroughly."
  ]

  /** `getFallbackResponse`, with the random draw given as an index. */
  function FallbackResponse(draw: nat): (r: string)
    requires draw < |Fallbacks|
    ensures r in Fallbacks
  {
    Fallbacks[draw]
  }

  /** The `error` text of a failed attempt. */
  function ErrorText(f: Fetched): string
    requires !f.Reply?
  {
    match f
    case HttpFailure(status, statusText) => "API Error: " + Decimal(status) + " " + statusText
    case Thrown(message) => message
  }

  /** What one `sendMessage` call leaves behind. */
  datatype Sent = Sent(api: ApiState, request: ClientRequest, result: ApiResult)

  /**
   `sendMessage(userMessage, verseContext)`: the annotated user turn is
   logged before the request, whose messages are the persona followed by
   the whole log; the assistant turn is logged only when a reply arrives.
   */
  function SendMessage(api: ApiState, userMessage: string, ctx: Option<VerseContext>,
                       fetched: Fetched, draw: nat, now: string): (s: Sent)
    requires draw < |Fallbacks|
    ensures var userTurn := Turn(UserRole, BuildUserPrompt(userMessage, ctx));
            && s.request.messages == [api.scholarContext] + api.history + [userTurn]
            && s.request.model == ClientModel
            && s.request.maxTokens == ClientMaxTokens && s.request.temperature == ClientTemperature
            && !s.request.stream
            && s.api.scholarContext == api.scholarContext
            && |s.api.history| >= |api.history| + 1
            && s.api.history[..|api.history| + 1] == api.history + [userTurn]
    ensures fetched.Reply? <==> s.result.Answer?
    ensures fetched.Reply? ==>
              && s.api.history == api.history + [Turn(UserRole, BuildUserPrompt(userMessage, ctx)),
                                                 Turn(AssistantRole, fetched.content)]
              && s.result == Answer(fetched.content, now, false)
    ensures !fetched.Reply? ==>
              && s.api.history == api.history + [Turn(UserRole, BuildUserPrompt(userMessage, ctx))]
              && s.result.error == ErrorText(fetched)
              && s.result.fallbackMessage in Fallbacks
  {
    var logged := api.history + [Turn(UserRole, BuildUserPrompt(userMessage, ctx))];
    var request := ClientRequest(ClientModel, [api.scholarContext] + logged, ClientMaxTokens, ClientTemperature, false);
    match fetched
    case Reply(content) =>
      Sent(api.(history := logged + [Turn(AssistantRole, content)]), request, Answer(content, now, false))
    case _ =>
      Sent(api.(history := logged), request, Failure(ErrorText(fetched), FallbackResponse(draw)))
  }

  /**
   The log only holds user and assistant turns, and every assistant turn
   directly answers a user turn.
   */
  predicate WellFormedLog(h: seq<Turn>)
  {
    && (forall i :: 0 <= i < |h| ==> h[i].role == UserRole || h[i].role == AssistantRole)
    && (forall i :: 0 <= i < |h| && h[i].role == AssistantRole ==> i > 0 && h[i - 1].role == UserRole)
  }

  /** Sending keeps the log well formed; no system turn, so no persona, ever enters it. */
  lemma SendKeepsLogWellFormed(api: ApiState, userMessage: string, ctx: Option<VerseContext>,
                               fetched: Fetched, draw: nat, now: string)
    requires draw < |Fallbacks|
    requires WellFormedLog(api.history)
    ensures WellFormedLog(SendMessage(api, userMessage, ctx, fetched, draw, now).api.history)
    ensures forall t :: t in SendMessage(api, userMessage, ctx, fetched, draw, now).api.history ==> t.role != SystemRole
  {
    var u := Turn(UserRole, BuildUserPrompt(userMessage, ctx));
    AppendKeepsLogWellFormed(api.history, u);
    if fetched.Reply? {
      AppendKeepsLogWellFormed(api.history + [u], Turn(AssistantRole, fetched.content));
    }
    WellFormedLogHasNoPersona(SendMessage(api, userMessage, ctx, fetched, draw, now).api.history);
  }

  /** A user turn, or an assistant turn answering a user turn, extends a well-formed log. */
  lemma AppendKeepsLogWellFormed(h: seq<Turn>, t: Turn)
    requires WellFormedLog(h)
    requires t.role == UserRole || (t.role == AssistantRole && |h| > 0 && h[|h| - 1].role == UserRole)
    ensures WellFormedLog(h + [t])
  {
  }

  /** A well-formed log holds no system turn. */
  lemma WellFormedLogHasNoPersona(h: seq<Turn>)
    requires WellFormedLog(h)
    ensures forall t :: t in h ==> t.role != SystemRole
  {
    forall t | t in h ensures t.role != SystemRole {
      var i :| 0 <= i < |h| && h[i] == t;
    }
  }

  /** `clearConversation`. */
  function ClearConversation(api: ApiState): (r: ApiState)
    ensures r.history == []
    ensures r.scholarContext == api.scholarContext
  {
    api.(history := [])
  }

  /** `getConversationHistory`. */
  function GetConversationHistory(api: ApiState): seq<Turn>
  {
    api.history
  }

  /** After a reset the next request carries only the stored persona and the new prompt. */
  lemma SendAfterClear(api: ApiState, userMessage: string, ctx: Option<VerseContext>,
                       fetched: Fetched, draw: nat, now: string)
    requires draw < |Fallbacks|
    ensures var s := SendMessage(ClearConversation(api), userMessage, ctx, fetched, draw, now);
            && s.request.messages == [api.scholarContext, Turn(UserRole, BuildUserPrompt(userMessage, ctx))]
            && GetConversationHistory(s.api)[0] == Turn(UserRole, BuildUserPrompt(userMessage, ctx))
            && |GetConversationHistory(s.api)| == (if fetched.Reply? then 2 else 1)
  {
  }

  // ---------------------------------------------------------------------
  // a session as a sequence of send calls

  /** The inputs of one `sendMessage` call and how it ended. */
  datatype Call = Call(userMessage: string, ctx: Option<VerseContext>, fetched: Fetched, draw: nat, now: string)

  predicate ValidCalls(calls: seq<Call>)
  {
    forall i :: 0 <= i < |calls| ==> calls[i].draw < |Fallbacks|
  }

  /** The client after a sequence of calls, one after another. */
  function Run(api: ApiState, calls: seq<Call>): ApiState
    requires ValidCalls(calls)
    decreases |calls|
  {
    if |calls| == 0 then api
    else
      var c := calls[0];
      Run(SendMessage(api, c.userMessage, c.ctx, c.fetched, c.draw, c.now).api, calls[1..])
  }

  function CountRole(h: seq<Turn>, role: string): nat
  {
    if |h| == 0 then 0 else (if h[0].role == role then 1 else 0) + CountRole(h[1..], role)
  }

  function Successes(calls: seq<Call>): nat
  {
    if |calls| == 0 then 0 else (if calls[0].fetched.Reply? then 1 else 0) + Successes(calls[1..])
  }

  lemma {:induction false} CountRoleAppend(a: seq<Turn>, b: seq<Turn>, role: string)
    ensures CountRole(a + b, role) == CountRole(a, role) + CountRole(b, role)
  {
    if |a| == 0 {
      assert a + b == b;
    } else {
      assert (a + b)[1..] == a[1..] + b;
      CountRoleAppend(a[1..], b, role);
    }
  }

  /** One call adds one user turn, and one assistant turn exactly when it succeeds. */
  lemma SendCounts(api: ApiState, c: Call)
    requires c.draw < |Fallbacks|
    ensures var h := SendMessage(api, c.userMessage, c.ctx, c.fetched, c.draw, c.now).api.history;
            && CountRole(h, UserRole) == CountRole(api.history, UserRole) + 1
            && CountRole(h, AssistantRole)
               == CountRole(api.history, AssistantRole) + (if c.fetched.Reply? then 1 else 0)
  {
    var userTurn := Turn(UserRole, BuildUserPrompt(c.userMessage, c.ctx));
    if c.fetched.Reply? {
      var added := [userTurn, Turn(AssistantRole, c.fetched.content)];
      CountRoleAppend(api.history, added, UserRole);
      CountRoleAppend(api.history, added, AssistantRole);
      assert added[1..] == [Turn(AssistantRole, c.fetched.content)];
      assert added[1..][1..] == [];
      assert |UserRole| != |AssistantRole|;
      assert CountRole(added[1..], UserRole) == 0;
      assert CountRole(added[1..], AssistantRole) == 1;
      assert CountRole(added, UserRole) == 1;
      assert CountRole(added, AssistantRole) == 1;
    } else {
      CountRoleAppend(api.history, [userTurn], UserRole);
      CountRoleAppend(api.history, [userTurn], AssistantRole);
      assert [userTurn][1..] == [];
      assert CountRole([userTurn], UserRole) == 1;
      assert CountRole([userTurn], AssistantRole) == 0;
    }
  }

  /**
   Over a session, the log gains one user turn per call and one assistant
   turn per successful call, and stays well formed.
   */
  lemma {:induction false} RunCounts(api: ApiState, calls: seq<Call>)
    requires ValidCalls(calls)
    requires WellFormedLog(api.history)
    decreases |calls|
    ensures CountRole(Run(api, calls).history, UserRole)
         == CountRole(api.history, UserRole) + |calls|
    ensures CountRole(Run(api, calls).history, AssistantRole)
         == CountRole(api.history, AssistantRole) + Successes(calls)
    ensures WellFormedLog(Run(api, calls).history)
  {
    if |calls| > 0 {
      var c := calls[0];
      var next := SendMessage(api, c.userMessage, c.ctx, c.fetched, c.draw, c.now).api;
      SendKeepsLogWellFormed(api, c.userMessage, c.ctx, c.fetched, c.draw, c.now);
      SendCounts(api, c);
      assert ValidCalls(calls[1..]) by {
        forall i | 0 <= i < |calls[1..]| ensures calls[1..][i].draw < |Fallbacks| {
          assert calls[1..][i] == calls[i + 1];
        }
      }
      RunCounts(next, calls[1..]);
      assert Run(api, calls) == Run(next, calls[1..]);
    }
  }

  // ---------------------------------------------------------------------
  // the offline source

  const FascinatingLead: string := "That's a fascinating question about "
  const FascinatingTail: string := ". From a scholarly perspective, we need to consider both the historical context and the original languages. The Hebrew word used here carries rich meaning that illuminates our understanding of this passage."
  const ThoughtfulInquiry: string := "I appreciate your thoughtful inquiry. This passage has been the subject of considerable scholarly discussion. The archaeological evidence from the period helps us understand the cultural background that informs this text."
  const CrucialAspect: string := "Your question touches on a crucial aspect of biblical interpretation. The Greek manuscript tradition offers some interesting variations that shed light on how the early church understood this passage."
  const RichArea: string := "This is indeed a rich area of study. The cross-references throughout Scripture reveal a consistent pattern that helps us understand the theological significance of this passage."
  const ImportantPoint: string := "You've raised an important point for consideration. The historical context of the period, combined with insights from recent archaeological discoveries, provides valuable perspective on this passage."

  /** The five canned replies; only the first mentions the user's message. */
  function SimulatedReplies(userMessage: string): seq<string>
  {
    [FascinatingLead + userMessage + FascinatingTail, ThoughtfulInquiry, CrucialAspect, RichArea, ImportantPoint]
  }

  const SimulatedReplyCount: nat := 5

  /**
   `simulateResponse(userMessage, verseContext)`, with the random draw as
   an index: always a simulated success carrying one of the canned replies.
   */
  function SimulateResponse(userMessage: string, ctx: Option<VerseContext>, draw: nat, now: string): (r: ApiResult)
    requires draw < SimulatedReplyCount
    ensures r.Answer? && r.simulated && r.timestamp == now
    ensures r.message in SimulatedReplies(userMessage)
  {
    Answer(SimulatedReplies(userMessage)[draw], now, true)
  }

  /**
   The offline reply ignores the verse context, and every draw but the
   first ignores the message as well.
   */
  lemma SimulateResponseInputs(m1: string, m2: string, c1: Option<VerseContext>, c2: Option<VerseContext>,
                               draw: nat, now: string)
    requires draw < SimulatedReplyCount
    ensures SimulateResponse(m1, c1, draw, now) == SimulateResponse(m1, c2, draw, now)
    ensures draw != 0 ==> SimulateResponse(m1, c1, draw, now) == SimulateResponse(m2, c2, draw, now)
    ensures draw == 0 ==> SimulateResponse(m1, c1, draw, now).message == FascinatingLead + m1 + FascinatingTail
  {
  }
}
