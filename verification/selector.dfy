/**
 The verse selector of the application controller: the three select
 elements' options (books, then chapters and verses counted from the
 simplified tables), their change handlers as a state machine, and the
 hand-off of a chosen verse to the chat panel.
 */
module VerseSelector {
  import opened Common
  import opened JsText
  import Canon
  import opened Typewriter
  import opened ChatUi
  import Notebook

  /** One `<option>`: its value and its visible text. */
  datatype SelectOpt = SelectOpt(value: string, caption: string)

  const BookPlaceholder: string := "Select Book"
  const ChapterPlaceholder: string := "Select Chapter"
  const VersePlaceholder: string := "Select Verse"

  /** The leading option with the empty value. */
  function Placeholder(caption: string): SelectOpt
  {
    SelectOpt("", caption)
  }

  /** `populateBooks`: the placeholder, then one option per canonical book, valued and labelled by its name. */
  function BookOptions(): (opts: seq<SelectOpt>)
    ensures |opts| == |Canon.Books| + 1
    ensures opts[0] == Placeholder(BookPlaceholder)
    ensures forall k :: 0 <= k < |Canon.Books| ==> opts[k + 1] == SelectOpt(Canon.Books[k], Canon.Books[k])
  {
    [Placeholder(BookPlaceholder)] + NameOptions(Canon.Books)
  }

  function NameOptions(names: seq<string>): (opts: seq<SelectOpt>)
    ensures |opts| == |names|
    ensures forall k :: 0 <= k < |names| ==> opts[k] == SelectOpt(names[k], names[k])
  {
    seq(|names|, k requires 0 <= k < |names| => SelectOpt(names[k], names[k]))
  }

  /** The book list has the 66 names, Old Testament first, in canonical order. */
  lemma BookOptionsCanon()
    ensures |BookOptions()| == 67
    ensures forall k :: 0 <= k < 39 ==> BookOptions()[k + 1].value == Canon.OldTestament[k]
    ensures forall k :: 0 <= k < 27 ==> BookOptions()[k + 40].value == Canon.NewTestament[k]
  {
    Canon.CanonShape();
    var opts := BookOptions();
    forall k | 0 <= k < 39 ensures opts[k + 1].value == Canon.OldTestament[k] {
      assert Canon.Books[k] == Canon.Books[..39][k];
    }
    forall k | 0 <= k < 27 ensures opts[k + 40].value == Canon.NewTestament[k] {
      assert Canon.Books[k + 39] == Canon.Books[39..][k];
    }
  }

  /**
   A placeholder followed by the options 1..count, each valued and
   labelled by its decimal form (the loop `for (i = 1; i <= count; i++)`).
   */
  function NumberedOptions(placeholder: string, count: nat): (opts: seq<SelectOpt>)
    ensures |opts| == count + 1
    ensures opts[0] == Placeholder(placeholder)
    ensures forall i :: 1 <= i <= count ==> opts[i] == SelectOpt(Decimal(i), Decimal(i))
  {
    [Placeholder(placeholder)] + seq(count, k requires 0 <= k < count => SelectOpt(Decimal(k + 1), Decimal(k + 1)))
  }

  /** The numbered options read back as 1, 2, ..., count: ascending and without repeats. */
  lemma NumberedOptionsAscending(placeholder: string, count: nat)
    ensures forall i :: 1 <= i <= count ==> DecimalValue(NumberedOptions(placeholder, count)[i].value) == i
    ensures forall i, j :: 1 <= i < j <= count ==>
              NumberedOptions(placeholder, count)[i].value != NumberedOptions(placeholder, count)[j].value
  {
    var opts := NumberedOptions(placeholder, count);
    forall i | 1 <= i <= count ensures DecimalValue(opts[i].value) == i {
      DecimalRoundTrip(i);
    }
  }

  /** `populateChapters(book)`. */
  function ChapterOptions(book: string): (opts: seq<SelectOpt>)
    ensures |opts| == Canon.ChapterCount(book) + 1
    ensures book in Canon.ChapterCounts ==> |opts| == Canon.ChapterCounts[book] + 1
    ensures book !in Canon.ChapterCounts ==> |opts| == Canon.DefaultChapterCount + 1
    ensures opts[0] == Placeholder(ChapterPlaceholder)
    ensures forall i :: 1 <= i < |opts| ==> opts[i].value == Decimal(i)
  {
    NumberedOptions(ChapterPlaceholder, Canon.ChapterCount(book))
  }

  /** `populateVerses(book, chapter)`. */
  function VerseOptions(book: string, chapter: string): (opts: seq<SelectOpt>)
    ensures |opts| == Canon.VerseCount(book, chapter) + 1
    ensures book in Canon.VerseCounts && chapter in Canon.VerseCounts[book] ==>
              |opts| == Canon.VerseCounts[book][chapter] + 1
    ensures !(book in Canon.VerseCounts && chapter in Canon.VerseCounts[book]) ==>
              |opts| == Canon.DefaultVerseCount + 1
    ensures opts[0] == Placeholder(VersePlaceholder)
    ensures forall i :: 1 <= i < |opts| ==> opts[i].value == Decimal(i)
  {
    NumberedOptions(VersePlaceholder, Canon.VerseCount(book, chapter))
  }

  /** Counts from the tables, and their defaults. */
  lemma OptionCounts()
    ensures |ChapterOptions("Psalms")| == 151
    ensures |ChapterOptions("Ruth")| == 11
    ensures |VerseOptions("John", "3")| == 37
    ensures |VerseOptions("John", "2")| == 26
    ensures |VerseOptions("Ruth", "1")| == 26
  {
    assert "Ruth" !in Canon.ChapterCounts;
    assert "Ruth" !in Canon.VerseCounts;
    assert "2" !in Canon.VerseCounts["John"];
  }

  /** The three select elements: their options and their current values. */
  datatype Selector = Selector(bookOptions: seq<SelectOpt>, book: string,
                               chapterOptions: seq<SelectOpt>, chapter: string,
                               verseOptions: seq<SelectOpt>, verse: string)

  /**
   The selector after `setupVerseSelector`: the books are populated;
   the chapter and verse selects start with only their placeholders.
   */
  function InitialSelector(): (s: Selector)
    ensures s.book == "" && s.chapter == "" && s.verse == ""
    ensures s.bookOptions == BookOptions()
  {
    Selector(BookOptions(), "", [Placeholder(ChapterPlaceholder)], "", [Placeholder(VersePlaceholder)], "")
  }

  /**
   A change of the book select. A non-empty book repopulates the chapters
   and resets the verses to the placeholder alone; both selects then sit
   on their placeholder. Choosing the placeholder changes nothing else.
   */
  function ChooseBook(s: Selector, value: string): (s': Selector)
    ensures s'.book == value && s'.bookOptions == s.bookOptions
    ensures value != "" ==>
              && s'.chapterOptions == ChapterOptions(value) && s'.chapter == ""
              && s'.verseOptions == [Placeholder(VersePlaceholder)] && s'.verse == ""
    ensures value == "" ==> s' == s.(book := "")
  {
    if value != "" then
      s.(book := value, chapterOptions := ChapterOptions(value), chapter := "",
         verseOptions := [Placeholder(VersePlaceholder)], verse := "")
    else s.(book := value)
  }

  /**
   A change of the chapter select. With a book and a chapter chosen the
   verses are repopulated (the verse select sits on its placeholder);
   otherwise only the chapter value changes.
   */
  function ChooseChapter(s: Selector, value: string): (s': Selector)
    ensures s'.chapter == value && s'.book == s.book
    ensures s'.bookOptions == s.bookOptions && s'.chapterOptions == s.chapterOptions
    ensures s.book != "" && value != "" ==>
              s'.verseOptions == VerseOptions(s.book, value) && s'.verse == ""
    ensures !(s.book != "" && value != "") ==> s' == s.(chapter := value)
  {
    if s.book != "" && value != "" then
      s.(chapter := value, verseOptions := VerseOptions(s.book, value), verse := "")
    else s.(chapter := value)
  }

  /** The page: the selector, and the chat panel when `window.chatInterface` is set. */
  datatype App = App(selector: Selector, chat: Option<Chat>)

  const ExploreLead: string := "Let's explore "
  const ExploreTail: string := " together. This passage offers profound insights when we examine its historical and cultural context."
  const ChoiceLead: string := "Excellent choice. "
  const ChoiceTail: string := " is a rich text for study. Let me share some scholarly perspectives on this passage."
  const ContemplateTail: string := " provides us with much to contemplate. The original language here reveals deeper layers of meaning."

  /** The three contextual replies around a verse label, in the handler's order. */
  function ContextualMessages(verseLabel: string): (ms: seq<string>)
    ensures |ms| == 3
  {
    [ExploreLead + verseLabel + ExploreTail,
     ChoiceLead + verseLabel + ChoiceTail,
     verseLabel + ContemplateTail]
  }

  /** Each contextual reply names the verse: it is a lead, the label and a tail. */
  lemma ContextualMessagesNameVerse(verseLabel: string, draw: nat)
    requires draw < 3
    ensures exists lead: string, tail: string :: ContextualMessages(verseLabel)[draw] == lead + verseLabel + tail
  {
    var ms := ContextualMessages(verseLabel);
    if draw == 2 {
      assert ms[2] == "" + verseLabel + ContemplateTail;
    } else if draw == 0 {
      assert ms[0] == ExploreLead + verseLabel + ExploreTail;
    } else {
      assert ms[1] == ChoiceLead + verseLabel + ChoiceTail;
    }
  }

  predicate ValidApp(a: App)
  {
    a.chat.Some? ==> ValidChat(a.chat.value)
  }

  /**
   A change of the verse select. A non-empty verse, with the chat panel
   present, sets the context to the selected book and chapter plus that
   verse and then (when the timer fires) starts revealing the contextual
   reply drawn by `draw`. An empty verse changes nothing but the value.
   */
  function ChooseVerse(a: App, value: string, draw: nat): (a': App)
    requires ValidApp(a) && draw < 3
    ensures ValidApp(a')
    ensures a'.selector == a.selector.(verse := value)
    ensures value == "" || a.chat.None? ==> a'.chat == a.chat
    ensures value != "" && a.chat.Some? ==>
              var v := VerseContext(a.selector.book, a.selector.chapter, Some(value));
              && a'.chat.Some?
              && a'.chat.value.currentVerse == Some(v)
              && a'.chat.value.transcript
                 == a.chat.value.transcript + [ScholarEntry(Start(ContextualMessages(VerseLabel(v))[draw]))]
              && a'.chat.value.notices == a.chat.value.notices + [DiscussingPrefix + VerseLabel(v)]
              // the input, storage, API log and pending flag are untouched
              && a'.chat.value == a.chat.value.(currentVerse := Some(v),
                                                transcript := a'.chat.value.transcript,
                                                notices := a'.chat.value.notices)
  {
    var sel := a.selector.(verse := value);
    if value != "" && a.chat.Some? then
      var v := VerseContext(a.selector.book, a.selector.chapter, Some(value));
      var c := SetVerseContext(a.chat.value, v.book, v.chapter, v.verse);
      var reply := ContextualMessages(VerseLabel(v))[draw];
      App(sel, Some(c.(transcript := c.transcript + [ScholarEntry(Start(reply))])))
    else App(sel, a.chat)
  }

  /**
   Choosing a book, a chapter and a verse in turn (with the chat panel
   present) discusses exactly that verse, and the verse list is the one
   counted for that book and chapter.
   */
  lemma ChooseInTurn(a: App, book: string, chapter: string, verse: string, draw: nat)
    requires ValidApp(a) && a.chat.Some? && draw < 3
    requires book != "" && chapter != "" && verse != ""
    ensures var s1 := ChooseChapter(ChooseBook(a.selector, book), chapter);
            var a2 := ChooseVerse(a.(selector := s1), verse, draw);
            && s1.verseOptions == VerseOptions(book, chapter)
            && a2.chat.value.currentVerse == Some(VerseContext(book, chapter, Some(verse)))
  {
  }

  // ---------------------------------------------------------------------
  // page wiring

  /**
   The two globals the page scripts see: the script-level `chatInterface`
   binding, and the `window.chatInterface` property the selector handlers
   read.
   */
  datatype Globals = Globals(chatInterface: Option<Chat>, windowChat: Option<Chat>)

  /**
   The wiring as written: the property is copied from the binding when
   the script runs, and the panel is only built later, on
   `DOMContentLoaded`; the copy is never refreshed.
   */
  function LoadAsWritten(storage: Notebook.Storage): (g: Globals)
    ensures g.chatInterface == Some(NewChat(storage))
    ensures g.windowChat.None?
  {
    var loaded := Globals(None, None);
    var copied := loaded.(windowChat := loaded.chatInterface);
    copied.(chatInterface := Some(NewChat(storage)))
  }

  /** The evidently intended wiring: the property is set once the panel exists. */
  function LoadWired(storage: Notebook.Storage): (g: Globals)
    ensures g.chatInterface == Some(NewChat(storage))
    ensures g.windowChat == g.chatInterface
  {
    var built := Globals(Some(NewChat(storage)), None);
    built.(windowChat := built.chatInterface)
  }

  /** As written, choosing a verse never reaches the chat panel: no context is set and nothing is said. */
  lemma VerseChoiceLostAsWritten(storage: Notebook.Storage, s: Selector, value: string, draw: nat)
    requires draw < 3
    ensures ChooseVerse(App(s, LoadAsWritten(storage).windowChat), value, draw).chat.None?
  {
  }

  /** With the panel wired, choosing a verse sets the context to the selected book, chapter and verse. */
  lemma VerseChoiceReachesChatWired(storage: Notebook.Storage, s: Selector, value: string, draw: nat)
    requires draw < 3 && value != ""
    ensures var a := ChooseVerse(App(s, LoadWired(storage).windowChat), value, draw);
            && a.chat.Some?
            && a.chat.value.currentVerse == Some(VerseContext(s.book, s.chapter, Some(value)))
  {
  }
}
