/**
 The chat panel (`ChatInterface`): the send guard and the `isTyping`
 lifecycle, the transcript of user, scholar and error entries, the welcome
 greeting, the verse context, looking up a clicked reference, and saving a
 revealed reply to the notebook. The panel answers with the offline `simulateResponse`;
 the awaited promise's outcome, the random draw and the clock are
 parameters, and timers fire as explicit steps.
 */
module ChatUi {
  import opened Common
  import opened JsText
  import opened ScholarApi
  import References
  import opened Typewriter
  import opened Notebook

  /** One transcript entry. User text is kept raw; HTML escaping is left out. */
  datatype Entry = UserEntry(text: string) | ScholarEntry(progress: Reveal) | ErrorEntry(error: string)

  /** The panel's state, together with the browser storage it saves into. */
  datatype Chat = Chat(api: ApiState, currentVerse: Option<VerseContext>, isTyping: bool,
                       input: string, transcript: seq<Entry>, storage: Storage,
                       notices: seq<string>)

  /** Every scholar entry's typewriter is in a consistent state. */
  predicate ValidChat(c: Chat)
  {
    forall i :: 0 <= i < |c.transcript| && c.transcript[i].ScholarEntry? ==> Valid(c.transcript[i].progress)
  }

  /** A fresh panel, with a fresh API client, over the page's storage. */
  function NewChat(storage: Storage): (c: Chat)
    ensures ValidChat(c) && !c.isTyping && c.currentVerse.None? && c.transcript == []
    ensures c.api == NewApi() && c.input == "" && c.notices == [] && c.storage == storage
  {
    Chat(NewApi(), None, false, "", [], storage, [])
  }

  const ConnectionError: string := "Unable to connect to NIV Scholar. Please try again."
  const SavedNotice: string := "Insight saved to your study notebook"
  const DiscussingPrefix: string := "Now discussing "

  // ---------------------------------------------------------------------
  // sending

  /** The panel after the synchronous part of `sendMessage`, and the message sent if any. */
  datatype Begun = Begun(chat: Chat, message: Option<string>)

  /**
   The synchronous part of `sendMessage`: nothing happens when the trimmed
   input is empty or a reply is pending; otherwise the input is cleared,
   the trimmed text becomes a user entry and `isTyping` is set.
   */
  function BeginSend(c: Chat): (b: Begun)
    ensures b.message.None? <==> Trim(c.input) == "" || c.isTyping
    ensures b.message.None? ==> b.chat == c
    ensures b.message.Some? ==>
              && b.message.value == Trim(c.input) && b.message.value != ""
              && b.chat == c.(isTyping := true, input := "",
                              transcript := c.transcript + [UserEntry(Trim(c.input))])
  {
    var message := Trim(c.input);
    if message == "" || c.isTyping then Begun(c, None)
    else Begun(c.(isTyping := true, input := "", transcript := c.transcript + [UserEntry(message)]), Some(message))
  }

  /** How the awaited response settles: a result object, or a thrown error. */
  datatype Settled = Resolved(result: ApiResult) | Rejected

  /**
   The rest of `sendMessage`: a success starts typing out its message,
   a failure adds an error entry with its error text, a thrown error adds
   the fixed connection notice; on every path `isTyping` is cleared.
   */
  function CompleteSend(c: Chat, s: Settled): (c': Chat)
    requires ValidChat(c)
    ensures ValidChat(c')
    ensures !c'.isTyping
    ensures c' == c.(isTyping := false, transcript := c'.transcript)
    ensures |c'.transcript| == |c.transcript| + 1 && c'.transcript[..|c.transcript|] == c.transcript
    ensures s.Resolved? && s.result.Answer? ==> c'.transcript[|c.transcript|] == ScholarEntry(Start(s.result.message))
    ensures s.Resolved? && s.result.Failure? ==> c'.transcript[|c.transcript|] == ErrorEntry(s.result.error)
    ensures s.Rejected? ==> c'.transcript[|c.transcript|] == ErrorEntry(ConnectionError)
  {
    var entry := match s
      case Resolved(Answer(message, _, _)) => ScholarEntry(Start(message))
      case Resolved(Failure(error, _)) => ErrorEntry(error)
      case Rejected => ErrorEntry(ConnectionError);
    var t := c.transcript + [entry];
    assert t[..|c.transcript|] == c.transcript;
    c.(isTyping := false, transcript := t)
  }

  /**
   A whole `sendMessage` answered by `simulateResponse` (which never
   fails): the user entry, then the typewriter starting on a canned
   reply. The API client's log is not touched.
   */
  function Send(c: Chat, draw: nat, now: string): (c': Chat)
    requires ValidChat(c) && draw < SimulatedReplyCount
    ensures ValidChat(c')
    ensures Trim(c.input) == "" || c.isTyping ==> c' == c
    ensures !(Trim(c.input) == "" || c.isTyping) ==>
              && c' == c.(input := "", transcript := c'.transcript)
              && |c'.transcript| == |c.transcript| + 2
              && c'.transcript[..|c.transcript|] == c.transcript
              && c'.transcript[|c.transcript|] == UserEntry(Trim(c.input))
              && c'.transcript[|c.transcript| + 1].ScholarEntry?
              && c'.transcript[|c.transcript| + 1].progress.message in SimulatedReplies(Trim(c.input))
              && c'.transcript[|c.transcript| + 1] == ScholarEntry(Start(SimulatedReplies(Trim(c.input))[draw]))
  {
    var b := BeginSend(c);
    match b.message
    case None => c
    case Some(m) =>
      var c' := CompleteSend(b.chat, Resolved(SimulateResponse(m, c.currentVerse, draw, now)));
      assert c'.transcript[..|c.transcript|] == b.chat.transcript[..|c.transcript|];
      c'
  }

  /** While a reply is pending a second send does nothing. */
  lemma NoSendWhileTyping(c: Chat)
    requires BeginSend(c).message.Some?
    ensures BeginSend(BeginSend(c).chat) == Begun(BeginSend(c).chat, None)
  {
  }

  /** `isTyping` is set for exactly the time between the two halves of a send. */
  lemma TypingLifecycle(c: Chat, s: Settled)
    requires ValidChat(c) && BeginSend(c).message.Some?
    ensures BeginSend(c).chat.isTyping
    ensures !CompleteSend(BeginSend(c).chat, s).isTyping
  {
    assert ValidChat(BeginSend(c).chat) by {
      var t := BeginSend(c).chat.transcript;
      forall i | 0 <= i < |t| && t[i].ScholarEntry? ensures Valid(t[i].progress) {
        assert t[i] == c.transcript[i];
      }
    }
  }

  // ---------------------------------------------------------------------
  // the welcome

  const WelcomeStudy: string :=
    "Welcome to NIV Scholar. I'm here to help you explore the depths of biblical scripture with scholarly insight and historical context. What would you like to study today?"
  const WelcomeGreetings: string :=
    "Greetings, fellow student of scripture. I'm NIV Scholar, ready to guide you through the rich tapestry of biblical text, from historical context to original languages. What questions are on your heart?"
  const WelcomeSession: string :=
    "Welcome to our study session. I'm here to provide scholarly perspectives on biblical passages, historical backgrounds, and theological themes. How may I assist your exploration of God's word?"

  /** The three greetings `welcomeMessage` draws from. */
  const WelcomeMessages: seq<string> := [WelcomeStudy, WelcomeGreetings, WelcomeSession]

  /**
   `welcomeMessage()` once its one-second timer fires: the drawn greeting
   starts revealing as a scholar entry, exactly as a reply does. The
   greeting does not set `isTyping`.
   */
  function Welcome(c: Chat, draw: nat): (c': Chat)
    requires ValidChat(c) && draw < |WelcomeMessages|
    ensures ValidChat(c')
    ensures c' == c.(transcript := c'.transcript)
    ensures |c'.transcript| == |c.transcript| + 1 && c'.transcript[..|c.transcript|] == c.transcript
    ensures c'.transcript[|c.transcript|] == ScholarEntry(Start(WelcomeMessages[draw]))
  {
    var t := c.transcript + [ScholarEntry(Start(WelcomeMessages[draw]))];
    assert t[..|c.transcript|] == c.transcript;
    c.(transcript := t)
  }

  /** The greeting's reveal does not hold back a send. */
  lemma WelcomeLeavesSendOpen(c: Chat, draw: nat)
    requires ValidChat(c) && draw < |WelcomeMessages|
    ensures BeginSend(Welcome(c, draw)).message == BeginSend(c).message
  {
  }

  /**
   A message sent in the second before the timer fires is answered first:
   the greeting lands after the user's entry and the reply.
   */
  lemma SendBeforeWelcome(c: Chat, draw: nat, now: string, greeting: nat)
    requires ValidChat(c) && draw < SimulatedReplyCount && greeting < |WelcomeMessages|
    requires Trim(c.input) != "" && !c.isTyping
    ensures Welcome(Send(c, draw, now), greeting).transcript
            == c.transcript + [UserEntry(Trim(c.input)),
                               ScholarEntry(Start(SimulatedReplies(Trim(c.input))[draw])),
                               ScholarEntry(Start(WelcomeMessages[greeting]))]
  {
    var n := |c.transcript|;
    var s := Send(c, draw, now).transcript;
    assert s == s[..n] + [s[n], s[n + 1]];
    var t := Welcome(Send(c, draw, now), greeting).transcript;
    assert t == t[..n + 2] + [t[n + 2]];
  }

  // ---------------------------------------------------------------------
  // the typewriter

  /** One interval tick of the typewriter in entry `i`; other entries are untouched. */
  function TickEntry(c: Chat, i: nat): (c': Chat)
    requires ValidChat(c) && i < |c.transcript|
    ensures ValidChat(c')
    ensures c' == c.(transcript := c'.transcript) && |c'.transcript| == |c.transcript|
    ensures forall j :: 0 <= j < |c.transcript| && j != i ==> c'.transcript[j] == c.transcript[j]
    ensures c.transcript[i].ScholarEntry? ==> c'.transcript[i] == ScholarEntry(Tick(c.transcript[i].progress))
    ensures !c.transcript[i].ScholarEntry? ==> c' == c
  {
    match c.transcript[i]
    case ScholarEntry(r) => c.(transcript := c.transcript[i := ScholarEntry(Tick(r))])
    case _ => c
  }

  /** `k` ticks of the typewriter in entry `i`. */
  function TickEntryTimes(c: Chat, i: nat, k: nat): (c': Chat)
    requires ValidChat(c) && i < |c.transcript|
    ensures ValidChat(c')
    ensures c' == c.(transcript := c'.transcript) && |c'.transcript| == |c.transcript|
    ensures forall j :: 0 <= j < |c.transcript| && j != i ==> c'.transcript[j] == c.transcript[j]
    ensures c.transcript[i].ScholarEntry? ==> c'.transcript[i] == ScholarEntry(Ticks(c.transcript[i].progress, k))
    ensures !c.transcript[i].ScholarEntry? ==> c' == c
    decreases k
  {
    if k == 0 then c
    else
      var c1 := TickEntry(c, i);
      assert c.transcript[i].ScholarEntry? ==> Ticks(c.transcript[i].progress, k) == Ticks(c1.transcript[i].progress, k - 1);
      TickEntryTimes(c1, i, k - 1)
  }

  // ---------------------------------------------------------------------
  // verse context and lookup

  /** `setVerseContext(book, chapter, verse)`: replace the context wholesale and announce it. */
  function SetVerseContext(c: Chat, book: string, chapter: string, verse: Option<string>): (c': Chat)
    ensures c'.currentVerse == Some(VerseContext(book, chapter, verse))
    ensures c'.notices == c.notices + [DiscussingPrefix + VerseLabel(VerseContext(book, chapter, verse))]
    ensures c' == c.(currentVerse := c'.currentVerse, notices := c'.notices)
  {
    var v := VerseContext(book, chapter, verse);
    c.(currentVerse := Some(v), notices := c.notices + [DiscussingPrefix + VerseLabel(v)])
  }

  const LookUpLead: string := "I'd be happy to explore "
  const LookUpTail: string := " with you. This passage offers rich insights when we consider its historical and cultural context."

  /** The reply scheduled after a lookup. */
  function LookUpReply(reference: string): string
  {
    LookUpLead + reference + LookUpTail
  }

  /**
   `lookUpVerse(reference)`: set the context parsed from the reference,
   then (when the timer fires) start revealing the contextual reply.
   */
  function LookUpVerse(c: Chat, reference: string): (c': Chat)
    requires ValidChat(c)
    ensures ValidChat(c')
    ensures c'.currentVerse == Some(References.LookUpVerse(reference))
    ensures c'.transcript == c.transcript + [ScholarEntry(Start(LookUpReply(reference)))]
    ensures c'.notices == c.notices + [DiscussingPrefix + VerseLabel(References.LookUpVerse(reference))]
    // nothing else changes: not the API log, the pending flag, the input or the storage
    ensures c' == c.(currentVerse := c'.currentVerse, transcript := c'.transcript, notices := c'.notices)
  {
    var v := References.LookUpVerse(reference);
    var c1 := SetVerseContext(c, v.book, v.chapter, v.verse);
    c1.(transcript := c1.transcript + [ScholarEntry(Start(LookUpReply(reference)))])
  }

  /** Looking up a well-formed label sets exactly the verse it names. */
  lemma LookUpSetsLabelledVerse(c: Chat, book: string, chapter: string, verse: string)
    requires ValidChat(c)
    requires ' ' !in chapter && ' ' !in verse && ':' !in chapter && ':' !in verse
    ensures LookUpVerse(c, book + " " + chapter + ":" + verse).currentVerse
            == Some(VerseContext(book, chapter, Some(verse)))
  {
    References.LookUpVerseInvertsLabel(book, chapter, verse);
  }

  // ---------------------------------------------------------------------
  // saving

  /**
   A click on the save control of entry `i`. Only a finished scholar
   entry has the control; a click stores its visible text under the
   current verse context, every time it is clicked.
   */
  function SaveClick(c: Chat, i: nat, now: int, iso: string): (c': Chat)
    requires ValidChat(c) && i < |c.transcript|
    ensures ValidChat(c')
    ensures !(c.transcript[i].ScholarEntry? && Finished(c.transcript[i].progress)) ==> c' == c
    ensures c.transcript[i].ScholarEntry? && Finished(c.transcript[i].progress) ==>
              && c' == c.(storage := c'.storage, notices := c.notices + [SavedNotice])
              && StoredInsights(c'.storage)
                 == StoredInsights(c.storage) + [NewInsight(c.transcript[i].progress.message, c.currentVerse, now, iso)]
              && c'.storage == SaveInsight(c.storage, c.transcript[i].progress.message, c.currentVerse, now, iso)
  {
    match c.transcript[i]
    case ScholarEntry(r) =>
      if Finished(r) then
        VisibleTextIsPrefix(r);
        var st := SaveInsight(c.storage, VisibleText(r), c.currentVerse, now, iso);
        assert StoredInsights(st) == StoredInsights(c.storage) + [NewInsight(r.message, c.currentVerse, now, iso)];
        c.(storage := st, notices := c.notices + [SavedNotice])
      else c
    case _ => c
  }

  /** Two clicks on the same finished entry save the reply twice. */
  lemma SaveClickTwice(c: Chat, i: nat, t1: int, iso1: string, t2: int, iso2: string)
    requires ValidChat(c) && i < |c.transcript|
    requires c.transcript[i].ScholarEntry? && Finished(c.transcript[i].progress)
    ensures var m := c.transcript[i].progress.message;
            StoredInsights(SaveClick(SaveClick(c, i, t1, iso1), i, t2, iso2).storage)
            == StoredInsights(c.storage) + [NewInsight(m, c.currentVerse, t1, iso1),
                                            NewInsight(m, c.currentVerse, t2, iso2)]
  {
    var c1 := SaveClick(c, i, t1, iso1);
    assert c1.transcript == c.transcript && c1.currentVerse == c.currentVerse;
  }

  /**
   The full life of one reply: sent, revealed tick by tick until linked,
   then saved. The stored insight holds the canned reply exactly.
   */
  lemma SendRevealSave(c: Chat, draw: nat, now: string, t: int, iso: string)
    requires ValidChat(c) && draw < SimulatedReplyCount
    requires Trim(c.input) != "" && !c.isTyping
    ensures var c1 := Send(c, draw, now);
            var i := |c.transcript| + 1;
            var m := c1.transcript[i].progress.message;
            var c3 := SaveClick(TickEntryTimes(c1, i, |m| + 1), i, t, iso);
            && m in SimulatedReplies(Trim(c.input))
            && StoredInsights(c3.storage) == StoredInsights(c.storage) + [NewInsight(m, c.currentVerse, t, iso)]
  {
    var c1 := Send(c, draw, now);
    var i := |c.transcript| + 1;
    var r := c1.transcript[i].progress;
    assert r == Start(r.message);
    RevealFinishes(r.message);
    var c2 := TickEntryTimes(c1, i, |r.message| + 1);
    assert c2.transcript[i] == ScholarEntry(Ticks(r, |r.message| + 1));
    assert Ticks(r, |r.message| + 1).message == r.message;
  }

  /**
   The greeting, revealed to the end and saved, is stored as an insight like
   any reply: saving is not limited to answers.
   */
  lemma WelcomeRevealSave(c: Chat, greeting: nat, t: int, iso: string)
    requires ValidChat(c) && greeting < |WelcomeMessages|
    ensures var c1 := Welcome(c, greeting);
            var i := |c.transcript|;
            var m := WelcomeMessages[greeting];
            var c3 := SaveClick(TickEntryTimes(c1, i, |m| + 1), i, t, iso);
            StoredInsights(c3.storage) == StoredInsights(c.storage) + [NewInsight(m, c.currentVerse, t, iso)]
  {
    var c1 := Welcome(c, greeting);
    var i := |c.transcript|;
    var m := WelcomeMessages[greeting];
    RevealFinishes(m);
    var c2 := TickEntryTimes(c1, i, |m| + 1);
    assert c2.transcript[i] == ScholarEntry(Ticks(Start(m), |m| + 1));
  }
}
