/**
 The fixed biblical data the UI works from: the 66 book names in canonical
 order (shared by the book selector and the reference linkifier) and the
 simplified chapter and verse count tables with their defaults.
 */
module Canon {

  const OldTestament: seq<string> := [
    "Genesis", "Exodus", "Leviticus", "Numbers", "Deuteronomy",
    "Joshua", "Judges", "Ruth", "1 Samuel", "2 Samuel",
    "1 Kings", "2 Kings", "1 Chronicles", "2 Chronicles", "Ezra",
    "Nehemiah", "Esther", "Job", "Psalms", "Proverbs",
    "Ecclesiastes", "Song of Solomon", "Isaiah", "Jeremiah", "Lamentations",
    "Ezekiel", "Daniel", "Hosea", "Joel", "Amos",
    "Obadiah", "Jonah", "Micah", "Nahum", "Habakkuk",
    "Zephaniah", "Haggai", "Zechariah", "Malachi"
  ]

  const NewTestament: seq<string> := [
    "Matthew", "Mark", "Luke", "John", "Acts",
    "Romans", "1 Corinthians", "2 Corinthians", "Galatians", "Ephesians",
    "Philippians", "Colossians", "1 Thessalonians", "2 Thessalonians", "1 Timothy",
    "2 Timothy", "Titus", "Philemon", "Hebrews", "James",
    "1 Peter", "2 Peter", "1 John", "2 John", "3 John",
    "Jude", "Revelation"
  ]

  /** The canon in order: the Old Testament, then the New Testament. */
  const Books: seq<string> := OldTestament + NewTestament

  /** Chapter counts for the books the table lists. */
  const ChapterCounts: map<string, nat> := map[
    "Genesis" := 50, "Exodus" := 40, "Leviticus" := 27, "Numbers" := 36, "Deuteronomy" := 34,
    "Matthew" := 28, "Mark" := 16, "Luke" := 24, "John" := 21, "Acts" := 28,
    "Romans" := 16, "1 Corinthians" := 16, "2 Corinthians" := 13, "Galatians" := 6,
    "Ephesians" := 6, "Philippians" := 4, "Colossians" := 4, "Psalms" := 150
  ]

  const DefaultChapterCount: nat := 10

  /** Verse counts, keyed by book and then by the chapter's option value. */
  const VerseCounts: map<string, map<string, nat>> := map[
    "Genesis" := map["1" := 31, "2" := 25],
    "John" := map["3" := 36, "1" := 51],
    "Matthew" := map["5" := 48, "6" := 34]
  ]

  const DefaultVerseCount: nat := 25

  /**
   `chapterCounts[book] || 10`: every table entry is positive, so the
   default applies exactly when the book is not listed.
   */
  function ChapterCount(book: string): (n: nat)
    ensures book in ChapterCounts ==> n == ChapterCounts[book]
    ensures book !in ChapterCounts ==> n == DefaultChapterCount
    ensures n >= 1
  {
    if book in ChapterCounts && ChapterCounts[book] != 0 then ChapterCounts[book]
    else DefaultChapterCount
  }

  /**
   `(verseCounts[book] && verseCounts[book][chapter]) || 25`: the table
   value when both keys are present, 25 otherwise.
   */
  function VerseCount(book: string, chapter: string): (n: nat)
    ensures book in VerseCounts && chapter in VerseCounts[book] ==> n == VerseCounts[book][chapter]
    ensures !(book in VerseCounts && chapter in VerseCounts[book]) ==> n == DefaultVerseCount
    ensures n >= 1
  {
    if book in VerseCounts && chapter in VerseCounts[book] && VerseCounts[book][chapter] != 0
    then VerseCounts[book][chapter]
    else DefaultVerseCount
  }

  /** The canon has 66 books: 39 of the Old Testament, then 27 of the New. */
  lemma CanonShape()
    ensures |OldTestament| == 39 && |NewTestament| == 27 && |Books| == 66
    ensures Books[..39] == OldTestament && Books[39..] == NewTestament
    ensures Books[0] == "Genesis" && Books[1] == "Exodus" && Books[38] == "Malachi"
    ensures Books[39] == "Matthew" && Books[65] == "Revelation"
  {
  }

  /** A name's first character: a capital letter, or the '1'-'3' of a numbered book. */
  predicate Initial(c: char)
  {
    ('A' <= c <= 'Z') || ('1' <= c <= '3')
  }

  /** Every name is non-empty and begins with an initial. */
  lemma BookInitials()
    ensures forall j :: 0 <= j < |Books| ==> |Books[j]| > 0 && Initial(Books[j][0])
  {
    assert forall j :: 0 <= j < |OldTestament| ==> |OldTestament[j]| > 0 && Initial(OldTestament[j][0]);
    assert forall j :: 0 <= j < |NewTestament| ==> |NewTestament[j]| > 0 && Initial(NewTestament[j][0]);
  }
}
