/**
 The study notebook: saved insights live in browser storage under one key
 as a list; saving appends one record, and loading shows either the
 empty-notebook state or one card per stored insight. Storage is a map
 from key to the decoded list; its JSON encoding is left out.
 */
module Notebook {
  import opened Common

  /** One saved insight. `id` is the save time in milliseconds, `timestamp` its ISO form. */
  datatype Insight = Insight(id: int, content: string, timestamp: string,
                             verseContext: Option<VerseContext>, kind: string)

  const InsightKind: string := "insight"

  /** The storage key that holds the insight list. */
  const InsightsKey: string := "niv-scholar-insights"

  /** Browser storage, with every value already decoded. */
  type Storage = map<string, seq<Insight>>

  /** The stored list, where an absent key reads as the empty list. */
  function StoredInsights(st: Storage): (r: seq<Insight>)
    ensures InsightsKey !in st ==> r == []
    ensures InsightsKey in st ==> r == st[InsightsKey]
  {
    if InsightsKey in st then st[InsightsKey] else []
  }

  /** The record `saveInsight(content)` builds at time `now` (`iso` is its ISO text). */
  function NewInsight(content: string, currentVerse: Option<VerseContext>, now: int, iso: string): Insight
  {
    Insight(now, content, iso, currentVerse, InsightKind)
  }

  /**
   `saveInsight(content)`: read the list, append exactly one insight and
   write it back; earlier insights and every other key are unchanged.
   */
  function SaveInsight(st: Storage, content: string, currentVerse: Option<VerseContext>,
                       now: int, iso: string): (st': Storage)
    ensures InsightsKey in st'
    ensures |StoredInsights(st')| == |StoredInsights(st)| + 1
    ensures StoredInsights(st')[..|StoredInsights(st)|] == StoredInsights(st)
    ensures var added := StoredInsights(st')[|StoredInsights(st)|];
            && added.content == content && added.verseContext == currentVerse
            && added.kind == InsightKind && added.id == now && added.timestamp == iso
    ensures forall k :: k != InsightsKey ==> (k in st' <==> k in st)
    ensures forall k :: k != InsightsKey && k in st ==> st'[k] == st[k]
  {
    var saved := StoredInsights(st) + [NewInsight(content, currentVerse, now, iso)];
    assert saved[..|StoredInsights(st)|] == StoredInsights(st);
    st[InsightsKey := saved]
  }

  /** Saving twice stores two insights, in order: nothing is deduplicated. */
  lemma SaveTwiceStoresTwo(st: Storage, content: string, v: Option<VerseContext>,
                           t1: int, iso1: string, t2: int, iso2: string)
    ensures var st2 := SaveInsight(SaveInsight(st, content, v, t1, iso1), content, v, t2, iso2);
            StoredInsights(st2) == StoredInsights(st) + [NewInsight(content, v, t1, iso1),
                                                         NewInsight(content, v, t2, iso2)]
  {
    var st1 := SaveInsight(st, content, v, t1, iso1);
    var st2 := SaveInsight(st1, content, v, t2, iso2);
    assert StoredInsights(st1) == StoredInsights(st) + [NewInsight(content, v, t1, iso1)];
    assert StoredInsights(st2) == StoredInsights(st1) + [NewInsight(content, v, t2, iso2)];
  }

  /** An insight card: the content, the date, and the verse label when a context was saved. */
  datatype Card = Card(content: string, date: string, verseLabel: Option<string>)

  /** What the notebook container shows. */
  datatype NotebookView = NoContainer | EmptyNotebook | Cards(cards: seq<Card>)

  /** The card for one insight; the label appears only when the insight has a verse context. */
  function CardFor(i: Insight): (c: Card)
    ensures c.content == i.content && c.date == i.timestamp
    ensures c.verseLabel.Some? <==> i.verseContext.Some?
    ensures i.verseContext.Some? ==> c.verseLabel.value == VerseLabel(i.verseContext.value)
  {
    Card(i.content, i.timestamp,
         match i.verseContext case Some(v) => Some(VerseLabel(v)) case None => None)
  }

  /**
   `displaySavedInsights(insights)`: nothing without a container, the
   empty-notebook state for an empty list, otherwise one card per insight
   in order.
   */
  function DisplaySavedInsights(insights: seq<Insight>, containerPresent: bool): (v: NotebookView)
    ensures !containerPresent ==> v == NoContainer
    ensures containerPresent && |insights| == 0 ==> v == EmptyNotebook
    ensures containerPresent && |insights| > 0 ==>
              && v.Cards? && |v.cards| == |insights|
              && forall k :: 0 <= k < |insights| ==> v.cards[k] == CardFor(insights[k])
  {
    if !containerPresent then NoContainer
    else if |insights| == 0 then EmptyNotebook
    else Cards(seq(|insights|, k requires 0 <= k < |insights| => CardFor(insights[k])))
  }

  /** `loadSavedContent`: display what storage holds under the insights key. */
  function LoadSavedContent(st: Storage, containerPresent: bool): (v: NotebookView)
    ensures !containerPresent ==> v == NoContainer
    ensures containerPresent && InsightsKey !in st ==> v == EmptyNotebook
    ensures containerPresent && InsightsKey in st && |st[InsightsKey]| == 0 ==> v == EmptyNotebook
    ensures containerPresent && InsightsKey in st && |st[InsightsKey]| > 0 ==>
              && v.Cards? && |v.cards| == |st[InsightsKey]|
              && forall k :: 0 <= k < |v.cards| ==> v.cards[k] == CardFor(st[InsightsKey][k])
  {
    DisplaySavedInsights(StoredInsights(st), containerPresent)
  }

  /**
   After a save, loading shows the earlier cards unchanged followed by the
   new insight's card.
   */
  lemma SaveThenLoad(st: Storage, content: string, v: Option<VerseContext>, now: int, iso: string)
    ensures var view := LoadSavedContent(SaveInsight(st, content, v, now, iso), true);
            && view.Cards?
            && |view.cards| == |StoredInsights(st)| + 1
            && view.cards[|StoredInsights(st)|] == CardFor(NewInsight(content, v, now, iso))
            && forall k :: 0 <= k < |StoredInsights(st)| ==> view.cards[k] == CardFor(StoredInsights(st)[k])
  {
    var before := StoredInsights(st);
    var after := StoredInsights(SaveInsight(st, content, v, now, iso));
    assert after == before + [NewInsight(content, v, now, iso)];
    assert forall k :: 0 <= k < |before| ==> after[k] == before[k];
  }
}
