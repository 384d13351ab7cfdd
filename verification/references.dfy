/**
 Scripture references in a revealed reply: the pattern
 `\b(Book)\s\d+:\d+(?:-\d+)?` over the 66 canonical names, applied
 globally (leftmost match first, scanning on after each match), the
 rendering that wraps each match in an anchor, and `lookUpVerse`, which
 turns an anchor's label back into a verse context.
 */
module References {
  import opened Common
  import opened JsText
  import Canon

  // ---------------------------------------------------------------------
  // the pattern

  /** `\w`: the characters a word boundary looks at. */
  predicate IsWordChar(c: char)
  {
    ('a' <= c <= 'z') || ('A' <= c <= 'Z') || ('0' <= c <= '9') || c == '_'
  }

  /** `\b` at position `p`: word-ness changes between `p - 1` and `p`. */
  predicate Boundary(s: string, p: nat)
    requires p <= |s|
  {
    (p > 0 && IsWordChar(s[p - 1])) != (p < |s| && IsWordChar(s[p]))
  }

  /** Length of the (greedy, maximal) run of digits starting at `i`. */
  function DigitRun(s: string, i: nat): (n: nat)
    requires i <= |s|
    ensures i + n <= |s|
    ensures AllDigits(s[i..i + n])
    ensures i + n == |s| || !IsDigit(s[i + n])
    decreases |s| - i
  {
    if i == |s| || !IsDigit(s[i]) then 0
    else
      var n := DigitRun(s, i + 1);
      assert s[i..i + 1 + n] == [s[i]] + s[i + 1..i + 1 + n];
      1 + n
  }

  /** One match: where it ends and its parts. `verse` includes a `-N` range when present. */
  datatype Found = Found(end: nat, book: string, sep: char, chapter: string, verse: string)

  /** A verse part: digits, optionally followed by '-' and more digits. */
  predicate VersePart(v: string)
  {
    && |v| > 0 && IsDigit(v[0]) && IsDigit(v[|v| - 1])
    && forall i :: 0 <= i < |v| ==> IsDigit(v[i]) || v[i] == '-'
  }

  /** The shape every match has. */
  predicate WellShaped(s: string, p: nat, f: Found)
  {
    && p < f.end <= |s|
    && IsWhitespace(f.sep)
    && |f.chapter| > 0 && AllDigits(f.chapter)
    && VersePart(f.verse)
    && s[p..f.end] == f.book + [f.sep] + f.chapter + ":" + f.verse
  }

  /** Where the optional `-\d+` that may follow position `e` ends. */
  function RangeEnd(s: string, e: nat): (end: nat)
    requires e <= |s|
    ensures e <= end <= |s|
    ensures end == e || (s[e] == '-' && e + 1 < end && AllDigits(s[e + 1..end]))
  {
    if e < |s| && s[e] == '-' && DigitRun(s, e + 1) > 0 then e + 1 + DigitRun(s, e + 1) else e
  }

  // ---------------------------------------------------------------------
  // the tail `\s\d+:\d+(?:-\d+)?` read by an automaton

  /** Where a reading of `\d+:\d+(?:-\d+)?` stands: before or inside the chapter, verse or range digits. */
  datatype TailState = ChapterStart | InChapter | VerseStart | InVerse | RangeStart | InRange

  /** One character of the tail: the state it leads to, or `None` when the pattern fails there. */
  function TailStep(st: TailState, c: char): Option<TailState>
  {
    match st
    case ChapterStart => if IsDigit(c) then Some(InChapter) else None
    case InChapter => if IsDigit(c) then Some(InChapter) else if c == ':' then Some(VerseStart) else None
    case VerseStart => if IsDigit(c) then Some(InVerse) else None
    case InVerse => if IsDigit(c) then Some(InVerse) else if c == '-' then Some(RangeStart) else None
    case RangeStart => if IsDigit(c) then Some(InRange) else None
    case InRange => if IsDigit(c) then Some(InRange) else None
  }

  /** Reading `s[i..e]` from `st` ends inside the verse or the range digits. */
  predicate TailAccepts(s: string, i: nat, e: nat, st: TailState)
    requires i <= e <= |s|
    decreases e - i
  {
    if i == e then st == InVerse || st == InRange
    else
      match TailStep(st, s[i])
      case None => false
      case Some(next) => TailAccepts(s, i + 1, e, next)
  }

  /** `s[q..e]` is exactly one tail: a whitespace, then `\d+:\d+(?:-\d+)?`. */
  predicate IsTail(s: string, q: nat, e: nat)
  {
    q < e <= |s| && IsWhitespace(s[q]) && TailAccepts(s, q + 1, e, ChapterStart)
  }

  /** `e` ends the longest tail starting at `q`: the greedy quantifiers take every digit they can. */
  ghost predicate LongestTail(s: string, q: nat, e: nat)
  {
    IsTail(s, q, e) && forall e': nat :: IsTail(s, q, e') ==> e' <= e
  }

  /** Some tail starts at `q`. */
  ghost predicate HasTail(s: string, q: nat)
  {
    exists e: nat :: IsTail(s, q, e)
  }

  /** Where the chapter digits after the whitespace at `q` stop. */
  function ColonAt(s: string, q: nat): nat
    requires q < |s|
  {
    q + 1 + DigitRun(s, q + 1)
  }

  /** The checks a tail needs after the whitespace: digits, ':', digits. */
  predicate TailChecks(s: string, q: nat)
    requires q < |s|
  {
    var colon := ColonAt(s, q);
    colon > q + 1 && colon < |s| && s[colon] == ':' && DigitRun(s, colon + 1) > 0
  }

  /** Where the tail ends when every run of digits is read greedily. */
  function GreedyEnd(s: string, q: nat): nat
    requires q < |s| && TailChecks(s, q)
  {
    var colon := ColonAt(s, q);
    RangeEnd(s, colon + 1 + DigitRun(s, colon + 1))
  }

  lemma RunDigits(s: string, i: nat)
    requires i <= |s|
    ensures forall k :: i <= k < i + DigitRun(s, i) ==> IsDigit(s[k])
  {
    var n := DigitRun(s, i);
    forall k | i <= k < i + n ensures IsDigit(s[k]) {
      assert s[i..i + n][k - i] == s[k];
    }
  }

  /** Reading one character of a non-empty rest. */
  lemma TailUnfold(s: string, i: nat, e: nat, st: TailState)
    requires i < e <= |s|
    ensures TailAccepts(s, i, e, st) <==>
              TailStep(st, s[i]).Some? && TailAccepts(s, i + 1, e, TailStep(st, s[i]).value)
  {
  }

  /** Inside a run of digits the digit states read on unchanged. */
  lemma {:induction false} DigitsStay(s: string, i: nat, j: nat, e: nat, st: TailState)
    requires i <= j <= e <= |s|
    requires forall k :: i <= k < j ==> IsDigit(s[k])
    requires st == InChapter || st == InVerse || st == InRange
    ensures TailAccepts(s, i, e, st) == TailAccepts(s, j, e, st)
    decreases j - i
  {
    if i < j {
      TailUnfold(s, i, e, st);
      DigitsStay(s, i + 1, j, e, st);
    }
  }

  /** The chapter digits run to a ':', after which the verse is read. */
  lemma ChapterPhase(s: string, i: nat, e: nat)
    requires i <= e <= |s| && TailAccepts(s, i, e, ChapterStart)
    ensures var j := i + DigitRun(s, i);
            && j > i && j < e && s[j] == ':'
            && TailAccepts(s, j + 1, e, VerseStart)
  {
    TailUnfold(s, i, e, ChapterStart);
    RunDigits(s, i);
    var j := i + DigitRun(s, i);
    assert j == i + 1 + DigitRun(s, i + 1);
    if e <= j {
      DigitsStay(s, i + 1, e, e, InChapter);
      assert false;
    }
    DigitsStay(s, i + 1, j, e, InChapter);
    TailUnfold(s, j, e, InChapter);
  }

  /** An optional range ends no later than the digit run after its '-'. */
  lemma RangePhase(s: string, r: nat, e: nat)
    requires r <= e <= |s| && TailAccepts(s, r, e, RangeStart)
    ensures DigitRun(s, r) > 0 && e <= r + DigitRun(s, r)
  {
    TailUnfold(s, r, e, RangeStart);
    RunDigits(s, r);
    var re := r + DigitRun(s, r);
    assert re == r + 1 + DigitRun(s, r + 1);
    if e > re {
      DigitsStay(s, r + 1, re, e, InRange);
      TailUnfold(s, re, e, InRange);
      assert false;
    }
  }

  /** The verse digits, with an optional range, end no later than `RangeEnd`. */
  lemma VersePhase(s: string, v: nat, e: nat)
    requires v <= e <= |s| && TailAccepts(s, v, e, VerseStart)
    ensures DigitRun(s, v) > 0 && e <= RangeEnd(s, v + DigitRun(s, v))
  {
    TailUnfold(s, v, e, VerseStart);
    RunDigits(s, v);
    var ve := v + DigitRun(s, v);
    assert ve == v + 1 + DigitRun(s, v + 1);
    if e > ve {
      AfterVerse(s, v, e);
    }
  }

  /** Past the verse digits only a '-' and the range digits can follow. */
  lemma AfterVerse(s: string, v: nat, e: nat)
    requires v < |s| && IsDigit(s[v])
    requires v + DigitRun(s, v) < e <= |s| && TailAccepts(s, v + 1, e, InVerse)
    ensures e <= RangeEnd(s, v + DigitRun(s, v))
  {
    RunDigits(s, v);
    var ve := v + DigitRun(s, v);
    assert ve == v + 1 + DigitRun(s, v + 1);
    DigitsStay(s, v + 1, ve, e, InVerse);
    TailUnfold(s, ve, e, InVerse);
    RangePhase(s, ve + 1, e);
  }

  /** Every tail at `q` passes the checks, and ends no later than the greedy end. */
  lemma TailLongest(s: string, q: nat, e: nat)
    requires IsTail(s, q, e)
    ensures q < |s| && TailChecks(s, q) && e <= GreedyEnd(s, q)
  {
    ChapterPhase(s, q + 1, e);
    VersePhase(s, ColonAt(s, q) + 1, e);
  }

  /** A '-' and a non-empty digit run are accepted from `InVerse`. */
  lemma RangeSound(s: string, ve: nat)
    requires ve < |s| && s[ve] == '-' && DigitRun(s, ve + 1) > 0
    ensures TailAccepts(s, ve, ve + 1 + DigitRun(s, ve + 1), InVerse)
  {
    RunDigits(s, ve + 1);
    var end := ve + 1 + DigitRun(s, ve + 1);
    assert end == ve + 2 + DigitRun(s, ve + 2);
    DigitsStay(s, ve + 2, end, end, InRange);
    TailUnfold(s, ve + 1, end, RangeStart);
    TailUnfold(s, ve, end, InVerse);
  }

  /** The verse digits and the greedy range after them are accepted from `VerseStart`. */
  lemma VerseSound(s: string, v: nat)
    requires v <= |s| && DigitRun(s, v) > 0
    ensures TailAccepts(s, v, RangeEnd(s, v + DigitRun(s, v)), VerseStart)
  {
    RunDigits(s, v);
    var ve := v + DigitRun(s, v);
    var end := RangeEnd(s, ve);
    assert ve == v + 1 + DigitRun(s, v + 1);
    if end > ve {
      RangeSound(s, ve);
    }
    assert TailAccepts(s, ve, end, InVerse);
    DigitsStay(s, v + 1, ve, end, InVerse);
    TailUnfold(s, v, end, VerseStart);
  }

  /** The chapter digits and ':' lead into an accepted verse. */
  lemma ChapterSound(s: string, i: nat, e: nat)
    requires i <= |s| && DigitRun(s, i) > 0
    requires i + DigitRun(s, i) < e <= |s| && s[i + DigitRun(s, i)] == ':'
    requires TailAccepts(s, i + DigitRun(s, i) + 1, e, VerseStart)
    ensures TailAccepts(s, i, e, ChapterStart)
  {
    RunDigits(s, i);
    var j := i + DigitRun(s, i);
    assert j == i + 1 + DigitRun(s, i + 1);
    TailUnfold(s, j, e, InChapter);
    DigitsStay(s, i + 1, j, e, InChapter);
    TailUnfold(s, i, e, ChapterStart);
  }

  /** The greedy end does end a tail. */
  lemma TailFound(s: string, q: nat)
    requires q < |s| && IsWhitespace(s[q]) && TailChecks(s, q)
    ensures IsTail(s, q, GreedyEnd(s, q))
  {
    var colon := ColonAt(s, q);
    var end := GreedyEnd(s, q);
    assert colon == q + 1 + DigitRun(s, q + 1);
    assert end == RangeEnd(s, colon + 1 + DigitRun(s, colon + 1));
    VerseSound(s, colon + 1);
    ChapterSound(s, q + 1, end);
  }

  /** The greedy reading gives the longest tail. */
  lemma GreedyTailIsLongest(s: string, q: nat)
    requires q < |s| && IsWhitespace(s[q]) && TailChecks(s, q)
    ensures LongestTail(s, q, GreedyEnd(s, q))
  {
    TailFound(s, q);
    forall e: nat | IsTail(s, q, e) ensures e <= GreedyEnd(s, q) {
      TailLongest(s, q, e);
    }
  }

  lemma VersePartOf(s: string, v0: nat, e: nat, end: nat)
    requires v0 < e <= end <= |s| && AllDigits(s[v0..e])
    requires end == e || (s[e] == '-' && e + 1 < end && AllDigits(s[e + 1..end]))
    ensures VersePart(s[v0..end])
  {
    var v := s[v0..end];
    assert v[0] == s[v0..e][0];
    forall i | 0 <= i < |v| ensures IsDigit(v[i]) || v[i] == '-' {
      if i < e - v0 {
        assert v[i] == s[v0..e][i];
      } else if i > e - v0 {
        assert v[i] == s[e + 1..end][i - (e - v0) - 1];
      }
    }
    if end == e {
      assert v[|v| - 1] == s[v0..e][e - v0 - 1];
    } else {
      assert v[|v| - 1] == s[e + 1..end][end - e - 2];
    }
  }

  lemma SlicePieces(s: string, p: nat, q: nat, colon: nat, end: nat)
    requires p <= q < colon < end <= |s| && s[colon] == ':'
    ensures s[p..end] == s[p..q] + [s[q]] + s[q + 1..colon] + ":" + s[colon + 1..end]
  {
    var a, b, c, d, e := s[p..q], [s[q]], s[q + 1..colon], ":", s[colon + 1..end];
    calc {
      s[p..end];
      { SliceSplit(s, p, q, end); }
      a + s[q..end];
      { SliceSplit(s, q, q + 1, end); assert s[q..q + 1] == b; }
      a + (b + s[q + 1..end]);
      { SliceSplit(s, q + 1, colon, end); }
      a + (b + (c + s[colon..end]));
      { SliceSplit(s, colon, colon + 1, end); assert s[colon..colon + 1] == d; }
      a + (b + (c + (d + e)));
      { Associative(a, b, c + (d + e)); }
      (a + b) + (c + (d + e));
      { Associative(a + b, c, d + e); }
      ((a + b) + c) + (d + e);
      { Associative((a + b) + c, d, e); }
      (((a + b) + c) + d) + e;
    }
  }

  lemma Associative(a: string, b: string, c: string)
    ensures a + (b + c) == (a + b) + c
  {
  }

  lemma SliceSplit(s: string, i: nat, j: nat, k: nat)
    requires i <= j <= k <= |s|
    ensures s[i..k] == s[i..j] + s[j..k]
  {
  }

  /**
   The end of the tail `\s\d+:\d+(?:-\d+)?` at `q`, reading each run of
   digits greedily: there is one exactly when some tail starts at `q`,
   and it is the longest.
   */
  function GreedyTailEnd(s: string, q: nat): (r: Option<nat>)
    ensures r.Some? <==> HasTail(s, q)
    ensures r.Some? ==> LongestTail(s, q, r.value)
    ensures r.Some? ==> q < |s| && IsWhitespace(s[q]) && TailChecks(s, q) && r.value == GreedyEnd(s, q)
  {
    if q < |s| && IsWhitespace(s[q]) && TailChecks(s, q) then
      GreedyTailIsLongest(s, q);
      Some(GreedyEnd(s, q))
    else
      NoTail(s, q);
      None
  }

  /** The tail after the book name `book` that starts at `p`, split into its pieces. */
  function TailAt(s: string, p: nat, q: nat, book: string): (m: Option<Found>)
    requires p + |book| == q <= |s| && s[p..q] == book
    ensures m.Some? ==> WellShaped(s, p, m.value) && m.value.book == book
    ensures m.Some? <==> HasTail(s, q)
    ensures m.Some? ==> LongestTail(s, q, m.value.end)
  {
    match GreedyTailEnd(s, q)
    case None => None
    case Some(end) =>
      var colon := ColonAt(s, q);
      TailShape(s, p, q, colon, colon + 1 + DigitRun(s, colon + 1), end);
      Some(Found(end, s[p..q], s[q], s[q + 1..colon], s[colon + 1..end]))
  }

  /** Where the checks fail, no tail starts. */
  lemma NoTail(s: string, q: nat)
    requires q < |s| && IsWhitespace(s[q]) ==> !TailChecks(s, q)
    ensures !HasTail(s, q)
  {
    if HasTail(s, q) {
      var e: nat :| IsTail(s, q, e);
      TailLongest(s, q, e);
      assert false;
    }
  }

  /** The pieces `TailAt` found make a well-shaped match. */
  lemma TailShape(s: string, p: nat, q: nat, colon: nat, e: nat, end: nat)
    requires p <= q < |s| && IsWhitespace(s[q])
    requires q + 1 < colon < |s| && AllDigits(s[q + 1..colon]) && s[colon] == ':'
    requires colon + 1 < e <= end <= |s| && AllDigits(s[colon + 1..e])
    requires end == e || (s[e] == '-' && e + 1 < end && AllDigits(s[e + 1..end]))
    ensures WellShaped(s, p, Found(end, s[p..q], s[q], s[q + 1..colon], s[colon + 1..end]))
  {
    VersePartOf(s, colon + 1, e, end);
    SlicePieces(s, p, q, colon, end);
  }

  /** The name `b` at `p`, followed by a well-formed tail. */
  function BookAt(s: string, p: nat, b: string): (m: Option<Found>)
    requires p <= |s|
    ensures m.Some? ==> WellShaped(s, p, m.value) && m.value.book == b
    ensures m.Some? <==> p + |b| <= |s| && s[p..p + |b|] == b && HasTail(s, p + |b|)
    ensures m.Some? ==> LongestTail(s, p + |b|, m.value.end)
  {
    if p + |b| <= |s| && s[p..p + |b|] == b then TailAt(s, p, p + |b|, b) else None
  }

  /**
   The alternation over the names `books` (the canon, in the program),
   tried in list order from book `k`: the first name present at `p` whose
   tail also matches.
   */
  function FirstBookMatch(books: seq<string>, s: string, p: nat, k: nat): (m: Option<Found>)
    requires p <= |s| && k <= |books|
    ensures m.Some? ==> WellShaped(s, p, m.value) && m.value.book in books[k..]
    ensures m.Some? ==> LongestTail(s, p + |m.value.book|, m.value.end)
    decreases |books| - k
  {
    if k == |books| then None
    else
      match BookAt(s, p, books[k])
      case Some(f) =>
        assert books[k..][0] == books[k];
        Some(f)
      case None =>
        assert books[k..] == [books[k]] + books[k + 1..];
        FirstBookMatch(books, s, p, k + 1)
  }

  /** The match of the reference pattern at position `p`, if any. */
  function MatchAt(books: seq<string>, s: string, p: nat): (m: Option<Found>)
    requires p <= |s|
    ensures m.Some? ==> WellShaped(s, p, m.value) && m.value.book in books
    ensures m.Some? ==> LongestTail(s, p + |m.value.book|, m.value.end)
    ensures m.Some? ==> Boundary(s, p)
  {
    if Boundary(s, p) then FirstBookMatch(books, s, p, 0) else None
  }

  /**
   A listed name at a word boundary, followed by a tail, is always found:
   the alternation misses no candidate.
   */
  lemma MatchAtComplete(books: seq<string>, s: string, p: nat, j: nat, e: nat)
    requires p <= |s| && j < |books| && Boundary(s, p)
    requires p + |books[j]| <= |s| && s[p..p + |books[j]|] == books[j]
    requires IsTail(s, p + |books[j]|, e)
    ensures MatchAt(books, s, p).Some?
  {
    FirstBookMatchFinds(books, s, p, 0, j, e);
  }

  lemma {:induction false} FirstBookMatchFinds(books: seq<string>, s: string, p: nat, k: nat, j: nat, e: nat)
    requires p <= |s| && k <= j < |books|
    requires p + |books[j]| <= |s| && s[p..p + |books[j]|] == books[j]
    requires IsTail(s, p + |books[j]|, e)
    ensures FirstBookMatch(books, s, p, k).Some?
    decreases j - k
  {
    assert BookAt(s, p, books[j]).Some?;
    if k < j && BookAt(s, p, books[k]).None? {
      FirstBookMatchFinds(books, s, p, k + 1, j, e);
    }
  }

  // ---------------------------------------------------------------------
  // the global scan

  datatype Span = Span(start: nat, end: nat)

  /** Position `i` lies inside one of the spans. */
  predicate Covers(spans: seq<Span>, i: int)
  {
    exists k :: 0 <= k < |spans| && spans[k].start <= i < spans[k].end
  }

  /** The span is exactly the match that starts where it starts. */
  predicate IsMatchSpan(books: seq<string>, s: string, sp: Span)
  {
    && sp.start < sp.end <= |s|
    && MatchAt(books, s, sp.start).Some?
    && MatchAt(books, s, sp.start).value.end == sp.end
  }

  /** Every span is a match of the pattern at its start, and the spans are in order. */
  predicate MatchedSpans(books: seq<string>, s: string, lo: nat, spans: seq<Span>)
  {
    && (forall k :: 0 <= k < |spans| ==> lo <= spans[k].start && IsMatchSpan(books, s, spans[k]))
    && (forall j, k :: 0 <= j < k < |spans| ==> spans[j].end <= spans[k].start)
  }

  /** No position of `s[lo..]` outside the spans starts a match. */
  predicate NothingMissed(books: seq<string>, s: string, lo: nat, spans: seq<Span>)
  {
    forall i :: lo <= i < |s| && !Covers(spans, i) ==> MatchAt(books, s, i).None?
  }

  lemma TakeMatch(books: seq<string>, s: string, p: nat, rest: seq<Span>)
    requires p < |s| && MatchAt(books, s, p).Some?
    requires MatchedSpans(books, s, MatchAt(books, s, p).value.end, rest)
    requires NothingMissed(books, s, MatchAt(books, s, p).value.end, rest)
    ensures MatchedSpans(books, s, p, [Span(p, MatchAt(books, s, p).value.end)] + rest)
    ensures NothingMissed(books, s, p, [Span(p, MatchAt(books, s, p).value.end)] + rest)
  {
    var e := MatchAt(books, s, p).value.end;
    TakeMatchOrdered(books, s, p, e, rest);
    TakeMatchCovers(books, s, p, e, rest);
  }

  lemma TakeMatchOrdered(books: seq<string>, s: string, p: nat, e: nat, rest: seq<Span>)
    requires p < e <= |s| && MatchAt(books, s, p).Some? && MatchAt(books, s, p).value.end == e
    requires MatchedSpans(books, s, e, rest)
    ensures MatchedSpans(books, s, p, [Span(p, e)] + rest)
  {
    var spans := [Span(p, e)] + rest;
    PrependSorted(e, rest, Span(p, e));
    assert IsMatchSpan(books, s, spans[0]);
    forall k | 0 <= k < |spans| ensures p <= spans[k].start && IsMatchSpan(books, s, spans[k]) {
      if k > 0 { assert spans[k] == rest[k - 1]; }
    }
  }

  /** Spans that start at or after `lo` stay in order behind one that ends by `lo`. */
  lemma PrependSorted(lo: nat, rest: seq<Span>, first: Span)
    requires first.end <= lo
    requires forall k :: 0 <= k < |rest| ==> lo <= rest[k].start
    requires forall j, k :: 0 <= j < k < |rest| ==> rest[j].end <= rest[k].start
    ensures var spans := [first] + rest;
            forall j, k :: 0 <= j < k < |spans| ==> spans[j].end <= spans[k].start
  {
    var spans := [first] + rest;
    forall j, k | 0 <= j < k < |spans| ensures spans[j].end <= spans[k].start {
      assert spans[k] == rest[k - 1];
      if j > 0 { assert spans[j] == rest[j - 1]; }
    }
  }

  lemma TakeMatchCovers(books: seq<string>, s: string, p: nat, e: nat, rest: seq<Span>)
    requires p < e <= |s|
    requires NothingMissed(books, s, e, rest)
    ensures NothingMissed(books, s, p, [Span(p, e)] + rest)
  {
    var spans := [Span(p, e)] + rest;
    forall i | p <= i < e ensures Covers(spans, i) {
      assert spans[0].start <= i < spans[0].end;
    }
    forall i | e <= i < |s| && Covers(rest, i) ensures Covers(spans, i) {
      var k :| 0 <= k < |rest| && rest[k].start <= i < rest[k].end;
      assert spans[k + 1] == rest[k];
    }
  }

  lemma SkipPosition(books: seq<string>, s: string, p: nat, rest: seq<Span>)
    requires p < |s| && MatchAt(books, s, p).None?
    requires MatchedSpans(books, s, p + 1, rest)
    requires NothingMissed(books, s, p + 1, rest)
    ensures MatchedSpans(books, s, p, rest)
    ensures NothingMissed(books, s, p, rest)
  {
  }

  /**
   The global `replace` scan from position `p`: take the match at `p` and
   continue after it, or move on one character. The result is the
   leftmost, non-overlapping set of matches: every position outside the
   spans has no match.
   */
  function Scan(books: seq<string>, s: string, p: nat): (spans: seq<Span>)
    requires p <= |s|
    ensures MatchedSpans(books, s, p, spans)
    ensures NothingMissed(books, s, p, spans)
    decreases |s| - p
  {
    if p == |s| then []
    else
      match MatchAt(books, s, p)
      case None =>
        var rest := Scan(books, s, p + 1);
        SkipPosition(books, s, p, rest);
        rest
      case Some(f) =>
        var rest := Scan(books, s, f.end);
        TakeMatch(books, s, p, rest);
        [Span(p, f.end)] + rest
  }

  // ---------------------------------------------------------------------
  // rendering and the text behind it

  /** A piece of the rendered reply: plain text, or an anchor showing its label. */
  datatype Segment = Text(text: string) | Anchor(caption: string)

  /** The text a reader sees, with the anchors stripped to their labels (`textContent`). */
  function Strip(segs: seq<Segment>): string
  {
    if |segs| == 0 then ""
    else (match segs[0] case Text(t) => t case Anchor(l) => l) + Strip(segs[1..])
  }

  /** The anchors' labels, in order. */
  function AnchorLabels(segs: seq<Segment>): seq<string>
  {
    if |segs| == 0 then []
    else (if segs[0].Anchor? then [segs[0].caption] else []) + AnchorLabels(segs[1..])
  }

  /** The text each span covers, in order. */
  function SpanTexts(s: string, spans: seq<Span>): seq<string>
    requires forall k :: 0 <= k < |spans| ==> spans[k].start <= spans[k].end <= |s|
  {
    if |spans| == 0 then []
    else [s[spans[0].start..spans[0].end]] + SpanTexts(s, spans[1..])
  }

  /** Where each anchor begins in the stripped text, counting from `offset`. */
  function AnchorOffsets(segs: seq<Segment>, offset: nat): seq<nat>
  {
    if |segs| == 0 then []
    else
      match segs[0]
      case Text(t) => AnchorOffsets(segs[1..], offset + |t|)
      case Anchor(l) => [offset] + AnchorOffsets(segs[1..], offset + |l|)
  }

  /** Where each span begins, in order. */
  function SpanStarts(spans: seq<Span>): seq<nat>
  {
    if |spans| == 0 then [] else [spans[0].start] + SpanStarts(spans[1..])
  }

  lemma {:induction false} OffsetsDistribute(a: seq<Segment>, b: seq<Segment>, offset: nat)
    ensures AnchorOffsets(a + b, offset) == AnchorOffsets(a, offset) + AnchorOffsets(b, offset + |Strip(a)|)
  {
    if |a| == 0 {
      assert a + b == b;
    } else {
      assert (a + b)[0] == a[0];
      assert (a + b)[1..] == a[1..] + b;
      var w := match a[0] case Text(t) => t case Anchor(l) => l;
      assert Strip(a) == w + Strip(a[1..]);
      OffsetsDistribute(a[1..], b, offset + |w|);
    }
  }

  lemma StripAppend(a: seq<Segment>, b: seq<Segment>)
    ensures Strip(a + b) == Strip(a) + Strip(b)
    ensures AnchorLabels(a + b) == AnchorLabels(a) + AnchorLabels(b)
  {
    StripDistributes(a, b);
    LabelsDistribute(a, b);
  }

  lemma {:induction false} StripDistributes(a: seq<Segment>, b: seq<Segment>)
    ensures Strip(a + b) == Strip(a) + Strip(b)
  {
    if |a| == 0 {
      assert a + b == b;
    } else {
      assert (a + b)[0] == a[0];
      assert (a + b)[1..] == a[1..] + b;
      StripDistributes(a[1..], b);
    }
  }

  lemma {:induction false} LabelsDistribute(a: seq<Segment>, b: seq<Segment>)
    ensures AnchorLabels(a + b) == AnchorLabels(a) + AnchorLabels(b)
  {
    if |a| == 0 {
      assert a + b == b;
    } else {
      assert (a + b)[0] == a[0];
      assert (a + b)[1..] == a[1..] + b;
      LabelsDistribute(a[1..], b);
    }
  }

  /** No text segment is empty. */
  predicate NonEmptyTexts(segs: seq<Segment>)
  {
    forall k :: 0 <= k < |segs| && segs[k].Text? ==> segs[k].text != ""
  }

  /** The plain text `s[a..b]` as at most one segment. */
  function Plain(s: string, a: nat, b: nat): (segs: seq<Segment>)
    requires a <= b <= |s|
    ensures Strip(segs) == s[a..b] && AnchorLabels(segs) == [] && NonEmptyTexts(segs)
  {
    if a < b then
      assert [Text(s[a..b])][1..] == [];
      [Text(s[a..b])]
    else []
  }

  lemma RenderStep(s: string, pos: nat, sp: Span, before: seq<Segment>, rest: seq<Segment>)
    requires pos <= sp.start < sp.end <= |s|
    requires Strip(before) == s[pos..sp.start] && AnchorLabels(before) == [] && NonEmptyTexts(before)
    requires Strip(rest) == s[sp.end..] && NonEmptyTexts(rest)
    ensures Strip(before + [Anchor(s[sp.start..sp.end])] + rest) == s[pos..]
    ensures AnchorLabels(before + [Anchor(s[sp.start..sp.end])] + rest)
         == [s[sp.start..sp.end]] + AnchorLabels(rest)
    ensures NonEmptyTexts(before + [Anchor(s[sp.start..sp.end])] + rest)
  {
    var anchor := [Anchor(s[sp.start..sp.end])];
    assert before + anchor + rest == before + (anchor + rest);
    StripAppend(before, anchor + rest);
    StripAppend(anchor, rest);
    assert anchor[1..] == [];
    SliceSplit(s, pos, sp.start, |s|);
    SliceSplit(s, sp.start, sp.end, |s|);
    NonEmptyAppend(before, anchor + rest);
    NonEmptyAppend(anchor, rest);
  }

  lemma NonEmptyAppend(a: seq<Segment>, b: seq<Segment>)
    requires NonEmptyTexts(a) && NonEmptyTexts(b)
    ensures NonEmptyTexts(a + b)
  {
    forall k | 0 <= k < |a + b| && (a + b)[k].Text? ensures (a + b)[k].text != "" {
      if k >= |a| {
        assert (a + b)[k] == b[k - |a|];
      }
    }
  }

  /** Plain text holds no anchor. */
  lemma PlainOffsets(s: string, a: nat, b: nat, offset: nat)
    requires a <= b <= |s|
    ensures AnchorOffsets(Plain(s, a, b), offset) == []
  {
    if a < b {
      assert Plain(s, a, b)[1..] == [];
    }
  }

  /** The anchor of a span begins, in the stripped text, where the span begins. */
  lemma RenderOffsets(s: string, pos: nat, sp: Span, before: seq<Segment>, rest: seq<Segment>, tail: seq<Span>)
    requires pos <= sp.start < sp.end <= |s|
    requires before == Plain(s, pos, sp.start)
    requires AnchorOffsets(rest, sp.end) == SpanStarts(tail)
    ensures AnchorOffsets(before + [Anchor(s[sp.start..sp.end])] + rest, pos) == SpanStarts([sp] + tail)
  {
    var anchor := [Anchor(s[sp.start..sp.end])];
    assert before + anchor + rest == before + (anchor + rest);
    OffsetsDistribute(before, anchor + rest, pos);
    PlainOffsets(s, pos, sp.start, pos);
    assert (anchor + rest)[0] == anchor[0] && (anchor + rest)[1..] == rest;
    assert ([sp] + tail)[0] == sp && ([sp] + tail)[1..] == tail;
  }

  lemma DropFirstSpan(books: seq<string>, s: string, pos: nat, spans: seq<Span>)
    requires |spans| > 0 && MatchedSpans(books, s, pos, spans)
    ensures MatchedSpans(books, s, spans[0].end, spans[1..])
  {
    forall k | 0 <= k < |spans[1..]| ensures spans[0].end <= spans[1..][k].start {
      assert spans[1..][k] == spans[k + 1];
    }
  }

  /**
   The segments for `s[pos..]`: text between matches unchanged, each match
   as an anchor labelled with exactly the matched text.
   */
  function RenderSpans(books: seq<string>, s: string, spans: seq<Span>, pos: nat): (segs: seq<Segment>)
    requires pos <= |s|
    requires MatchedSpans(books, s, pos, spans)
    ensures Strip(segs) == s[pos..]
    ensures AnchorLabels(segs) == SpanTexts(s, spans)
    ensures NonEmptyTexts(segs)
    ensures AnchorOffsets(segs, pos) == SpanStarts(spans)
    decreases |spans|
  {
    if |spans| == 0 then
      PlainOffsets(s, pos, |s|, pos);
      Plain(s, pos, |s|)
    else
      var sp := spans[0];
      DropFirstSpan(books, s, pos, spans);
      var rest := RenderSpans(books, s, spans[1..], sp.end);
      SpansInBounds(books, s, pos, spans);
      assert IsMatchSpan(books, s, sp);
      RenderCons(s, pos, spans, rest);
      Plain(s, pos, sp.start) + [Anchor(s[sp.start..sp.end])] + rest
  }

  /** One rendering step: the text before the first span, its anchor, then the rest. */
  lemma RenderCons(s: string, pos: nat, spans: seq<Span>, rest: seq<Segment>)
    requires |spans| > 0 && pos <= spans[0].start < spans[0].end
    requires forall k :: 0 <= k < |spans| ==> spans[k].start <= spans[k].end <= |s|
    requires Strip(rest) == s[spans[0].end..] && NonEmptyTexts(rest)
    requires AnchorLabels(rest) == SpanTexts(s, spans[1..])
    requires AnchorOffsets(rest, spans[0].end) == SpanStarts(spans[1..])
    ensures var sp := spans[0];
            var segs := Plain(s, pos, sp.start) + [Anchor(s[sp.start..sp.end])] + rest;
            && Strip(segs) == s[pos..]
            && AnchorLabels(segs) == SpanTexts(s, spans)
            && NonEmptyTexts(segs)
            && AnchorOffsets(segs, pos) == SpanStarts(spans)
  {
    var sp := spans[0];
    RenderStep(s, pos, sp, Plain(s, pos, sp.start), rest);
    RenderConsLabels(s, spans, AnchorLabels(rest));
    assert spans == [sp] + spans[1..];
    RenderOffsets(s, pos, sp, Plain(s, pos, sp.start), rest, spans[1..]);
  }

  lemma RenderConsLabels(s: string, spans: seq<Span>, restLabels: seq<string>)
    requires |spans| > 0
    requires forall k :: 0 <= k < |spans| ==> spans[k].start <= spans[k].end <= |s|
    requires restLabels == SpanTexts(s, spans[1..])
    ensures [s[spans[0].start..spans[0].end]] + restLabels == SpanTexts(s, spans)
  {
  }

  /**
   `processMessageContent`: the reply with every reference wrapped in an
   anchor. Stripping the anchors gives back the reply, and the anchors are
   exactly the scan's matches, in order.
   */
  function Linkify(message: string): (segs: seq<Segment>)
    ensures Strip(segs) == message
    ensures AnchorLabels(segs) == SpanTexts(message, Scan(Canon.Books, message, 0))
    ensures AnchorOffsets(segs, 0) == SpanStarts(Scan(Canon.Books, message, 0))
  {
    RenderSpans(Canon.Books, message, Scan(Canon.Books, message, 0), 0)
  }

  lemma {:induction false} SpanTextsLength(s: string, spans: seq<Span>)
    requires forall j :: 0 <= j < |spans| ==> spans[j].start <= spans[j].end <= |s|
    ensures |SpanTexts(s, spans)| == |spans|
    decreases |spans|
  {
    if |spans| > 0 {
      SpanTextsLength(s, spans[1..]);
    }
  }

  /** The `k`-th span text is the slice the `k`-th span covers. */
  lemma {:induction false} SpanTextsAt(s: string, spans: seq<Span>, k: nat)
    requires forall j :: 0 <= j < |spans| ==> spans[j].start <= spans[j].end <= |s|
    requires k < |spans|
    ensures |SpanTexts(s, spans)| == |spans|
    ensures SpanTexts(s, spans)[k] == s[spans[k].start..spans[k].end]
    decreases k
  {
    SpanTextsLength(s, spans);
    if k > 0 {
      SpanTextsAt(s, spans[1..], k - 1);
    }
  }

  // ---------------------------------------------------------------------
  // a worked reply

  lemma {:induction false} FirstBookMatchNone(books: seq<string>, s: string, p: nat, k: nat)
    requires p < |s| && k <= |books|
    requires forall j :: k <= j < |books| ==> |books[j]| > 0 && books[j][0] != s[p]
    ensures FirstBookMatch(books, s, p, k).None?
    decreases |books| - k
  {
    if k < |books| {
      var b := books[k];
      if p + |b| <= |s| {
        assert s[p..p + |b|][0] != b[0];
      }
      FirstBookMatchNone(books, s, p, k + 1);
    }
  }

  /** No match starts at a character no name begins with. */
  lemma NoMatchAt(books: seq<string>, s: string, p: nat)
    requires p < |s|
    requires forall j :: 0 <= j < |books| ==> |books[j]| > 0 && books[j][0] != s[p]
    ensures MatchAt(books, s, p).None?
  {
    FirstBookMatchNone(books, s, p, 0);
  }

  /** The scan passes over positions where nothing matches. */
  lemma {:induction false} ScanSkip(books: seq<string>, s: string, p: nat, q: nat)
    requires p <= q <= |s|
    requires forall i :: p <= i < q ==> MatchAt(books, s, i).None?
    ensures Scan(books, s, p) == Scan(books, s, q)
    decreases q - p
  {
    if p < q {
      ScanPass(books, s, p);
      ScanSkip(books, s, p + 1, q);
    }
  }

  lemma ScanPass(books: seq<string>, s: string, p: nat)
    requires p < |s| && MatchAt(books, s, p).None?
    ensures Scan(books, s, p) == Scan(books, s, p + 1)
  {
  }

  lemma ScanTake(books: seq<string>, s: string, p: nat)
    requires p < |s| && MatchAt(books, s, p).Some?
    ensures Scan(books, s, p) == [Span(p, MatchAt(books, s, p).value.end)] + Scan(books, s, MatchAt(books, s, p).value.end)
  {
  }

  /** A reply with a single reference and one with a verse range. */
  const ExampleReply: string := "see Genesis 1:1 and Exodus 20:3-17."

  /** No character of the example outside its references begins a name. */
  lemma ExampleGaps(i: nat)
    requires 0 <= i < 4 || 15 <= i < 20 || 34 <= i < 35
    ensures MatchAt(Canon.Books, ExampleReply, i).None?
  {
    Canon.BookInitials();
    assert !Canon.Initial(ExampleReply[i]);
    NoMatchAt(Canon.Books, ExampleReply, i);
  }

  /** `t` stands in `s` at `i`, character by character. */
  predicate StandsAt(s: string, i: nat, t: string)
  {
    i + |t| <= |s| && forall k :: 0 <= k < |t| ==> s[i + k] == t[k]
  }

  lemma SliceOf(s: string, i: nat, t: string)
    requires StandsAt(s, i, t)
    ensures s[i..i + |t|] == t
  {
    forall k | 0 <= k < |t| ensures s[i..i + |t|][k] == t[k] {
      assert s[i..i + |t|][k] == s[i + k];
    }
  }

  /** A digit run of length `n` that is known character by character. */
  lemma {:induction false} DigitRunIs(s: string, i: nat, n: nat)
    requires i + n <= |s|
    requires forall k :: i <= k < i + n ==> IsDigit(s[k])
    requires i + n == |s| || !IsDigit(s[i + n])
    ensures DigitRun(s, i) == n
    decreases n
  {
    if n > 0 {
      DigitRunIs(s, i + 1, n - 1);
    }
  }

  /** The name `b` at `p` followed by a longest tail ending at `e` is matched up to `e`. */
  lemma BookAtLongest(s: string, p: nat, b: string, e: nat)
    requires p + |b| < |s| && s[p..p + |b|] == b
    requires LongestTail(s, p + |b|, e)
    ensures BookAt(s, p, b).Some? && BookAt(s, p, b).value.end == e
  {
    assert HasTail(s, p + |b|);
    var m := BookAt(s, p, b);
    assert LongestTail(s, p + |b|, m.value.end);
  }

  /** A name followed by the greedy tail is matched up to the tail's greedy end. */
  lemma GreedyBookAt(s: string, p: nat, b: string)
    requires p + |b| < |s| && s[p..p + |b|] == b && IsWhitespace(s[p + |b|])
    requires TailChecks(s, p + |b|)
    ensures BookAt(s, p, b).Some? && BookAt(s, p, b).value.end == GreedyEnd(s, p + |b|)
  {
    GreedyTailIsLongest(s, p + |b|);
    BookAtLongest(s, p, b, GreedyEnd(s, p + |b|));
  }

  lemma ExampleSeparators()
    ensures IsWhitespace(ExampleReply[11]) && ExampleReply[13] == ':'
    ensures IsWhitespace(ExampleReply[26]) && ExampleReply[29] == ':'
  {
  }

  lemma GenesisChapter()
    ensures DigitRun(ExampleReply, 12) == 1
  {
    DigitRunIs(ExampleReply, 12, 1);
  }

  lemma GenesisVerse()
    ensures DigitRun(ExampleReply, 14) == 1 && RangeEnd(ExampleReply, 15) == 15
  {
    DigitRunIs(ExampleReply, 14, 1);
  }

  lemma ExodusChapter()
    ensures DigitRun(ExampleReply, 27) == 2
  {
    DigitRunIs(ExampleReply, 27, 2);
  }

  lemma ExodusVerse()
    ensures DigitRun(ExampleReply, 30) == 1
  {
    DigitRunIs(ExampleReply, 30, 1);
  }

  lemma ExodusRange()
    ensures DigitRun(ExampleReply, 32) == 2 && RangeEnd(ExampleReply, 31) == 34
  {
    DigitRunIs(ExampleReply, 32, 2);
  }

  lemma ExampleGenesis()
    ensures BookAt(ExampleReply, 4, "Genesis").Some? && BookAt(ExampleReply, 4, "Genesis").value.end == 15
  {
    SliceOf(ExampleReply, 4, "Genesis");
    GenesisGreedy();
    GreedyBookAt(ExampleReply, 4, "Genesis");
  }

  lemma GenesisGreedy()
    ensures IsWhitespace(ExampleReply[11]) && TailChecks(ExampleReply, 11)
    ensures GreedyEnd(ExampleReply, 11) == 15
  {
    GenesisColon();
    GenesisVerse();
  }

  lemma GenesisColon()
    ensures ColonAt(ExampleReply, 11) == 13 && ExampleReply[13] == ':'
    ensures IsWhitespace(ExampleReply[11])
  {
    GenesisChapter();
    ExampleSeparators();
  }

  lemma ExodusGreedy()
    ensures IsWhitespace(ExampleReply[26]) && TailChecks(ExampleReply, 26)
    ensures GreedyEnd(ExampleReply, 26) == 34
  {
    ExodusColon();
    ExodusVerse();
    ExodusRange();
  }

  lemma ExodusColon()
    ensures ColonAt(ExampleReply, 26) == 29 && ExampleReply[29] == ':'
    ensures IsWhitespace(ExampleReply[26])
  {
    ExodusChapter();
    ExampleSeparators();
  }

  lemma ExampleExodus()
    ensures BookAt(ExampleReply, 20, "Genesis").None?
    ensures BookAt(ExampleReply, 20, "Exodus").Some? && BookAt(ExampleReply, 20, "Exodus").value.end == 34
  {
    assert ExampleReply[20..27][0] != "Genesis"[0];
    SliceOf(ExampleReply, 20, "Exodus");
    ExodusGreedy();
    GreedyBookAt(ExampleReply, 20, "Exodus");
  }

  /** The first name present wins the alternation. */
  lemma MatchFirstName(books: seq<string>, s: string, p: nat)
    requires p <= |s| && Boundary(s, p) && |books| > 0
    requires BookAt(s, p, books[0]).Some?
    ensures MatchAt(books, s, p) == BookAt(s, p, books[0])
  {
  }

  lemma MatchSecondName(books: seq<string>, s: string, p: nat)
    requires p <= |s| && Boundary(s, p) && |books| > 1
    requires BookAt(s, p, books[0]).None? && BookAt(s, p, books[1]).Some?
    ensures MatchAt(books, s, p) == BookAt(s, p, books[1])
  {
    assert FirstBookMatch(books, s, p, 0) == FirstBookMatch(books, s, p, 1);
  }

  lemma ExampleBoundaries()
    ensures Boundary(ExampleReply, 4) && Boundary(ExampleReply, 20)
  {
  }

  /** The example's first reference: "Genesis", the first name, and the tail " 1:1". */
  lemma ExampleFirst()
    ensures MatchAt(Canon.Books, ExampleReply, 4).Some?
    ensures MatchAt(Canon.Books, ExampleReply, 4).value.end == 15
  {
    Canon.CanonShape();
    ExampleGenesis();
    ExampleBoundaries();
    MatchFirstName(Canon.Books, ExampleReply, 4);
  }

  /** The example's second reference: "Exodus", the second name, and the tail " 20:3-17", range included. */
  lemma ExampleSecond()
    ensures MatchAt(Canon.Books, ExampleReply, 20).Some?
    ensures MatchAt(Canon.Books, ExampleReply, 20).value.end == 34
  {
    Canon.CanonShape();
    ExampleExodus();
    ExampleBoundaries();
    MatchSecondName(Canon.Books, ExampleReply, 20);
  }

  lemma ExampleScanTail()
    ensures Scan(Canon.Books, ExampleReply, 34) == []
  {
    ExampleGaps(34);
    ScanPass(Canon.Books, ExampleReply, 34);
  }

  lemma ExampleScanSecond()
    ensures Scan(Canon.Books, ExampleReply, 15) == [Span(20, 34)]
  {
    forall i | 15 <= i < 20 ensures MatchAt(Canon.Books, ExampleReply, i).None? {
      ExampleGaps(i);
    }
    ScanSkip(Canon.Books, ExampleReply, 15, 20);
    ExampleSecond();
    ScanTake(Canon.Books, ExampleReply, 20);
    ExampleScanTail();
  }

  /** The scan of the example finds both references, the range in full. */
  lemma ExampleScan()
    ensures Scan(Canon.Books, ExampleReply, 0) == [Span(4, 15), Span(20, 34)]
  {
    forall i | 0 <= i < 4 ensures MatchAt(Canon.Books, ExampleReply, i).None? {
      ExampleGaps(i);
    }
    ScanSkip(Canon.Books, ExampleReply, 0, 4);
    ExampleFirst();
    ScanTake(Canon.Books, ExampleReply, 4);
    ExampleScanSecond();
  }

  /** What linking shows is fixed by the scan alone. */
  lemma LinkifyBySpans(message: string, spans: seq<Span>)
    requires Scan(Canon.Books, message, 0) == spans
    ensures AnchorLabels(Linkify(message)) == SpanTexts(message, spans)
    ensures AnchorOffsets(Linkify(message), 0) == SpanStarts(spans)
  {
  }

  lemma ExampleFirstText()
    ensures ExampleReply[4..15] == "Genesis 1:1"
  {
    SliceOf(ExampleReply, 4, "Genesis 1:1");
  }

  lemma ExampleSecondText()
    ensures ExampleReply[20..34] == "Exodus 20:3-17"
  {
    SliceOf(ExampleReply, 20, "Exodus 20:3-17");
  }

  lemma ExampleTexts()
    ensures SpanTexts(ExampleReply, [Span(4, 15), Span(20, 34)]) == ["Genesis 1:1", "Exodus 20:3-17"]
    ensures SpanStarts([Span(4, 15), Span(20, 34)]) == [4, 20]
  {
    var spans := [Span(4, 15), Span(20, 34)];
    assert spans[1..] == [Span(20, 34)] && spans[1..][1..] == [];
    ExampleFirstText();
    ExampleSecondText();
  }

  /**
   Linking the example wraps "Genesis 1:1" and the whole range
   "Exodus 20:3-17" in anchors at offsets 4 and 20, and nothing else.
   */
  lemma LinkifyExample()
    ensures AnchorLabels(Linkify(ExampleReply)) == ["Genesis 1:1", "Exodus 20:3-17"]
    ensures AnchorOffsets(Linkify(ExampleReply), 0) == [4, 20]
  {
    ExampleScan();
    LinkifyBySpans(ExampleReply, [Span(4, 15), Span(20, 34)]);
    ExampleTexts();
  }

  // ---------------------------------------------------------------------
  // lookUpVerse

  /** `parts.join(' ')`, where an empty array joins to "". */
  function JoinWords(parts: seq<string>): string
  {
    if |parts| == 0 then "" else Join(parts, ' ')
  }

  /**
   `lookUpVerse(reference)`: the book is every space-separated word but
   the last, rejoined; chapter and verse are the last word's pieces around
   ':' (the verse is undefined when there is no ':').
   */
  function LookUpVerse(reference: string): (v: VerseContext)
    ensures ':' !in v.chapter
    ensures v.verse.Some? ==> ':' !in v.verse.value
  {
    var parts := Split(reference, ' ');
    var book := JoinWords(parts[..|parts| - 1]);
    var pieces := Split(parts[|parts| - 1], ':');
    VerseContext(book, pieces[0], if |pieces| >= 2 then Some(pieces[1]) else None)
  }

  /**
   `lookUpVerse` inverts the "book chapter:verse" label whenever chapter and
   verse contain neither a space nor a colon; the book may contain spaces.
   */
  lemma LookUpVerseInvertsLabel(book: string, chapter: string, verse: string)
    requires ' ' !in chapter && ' ' !in verse && ':' !in chapter && ':' !in verse
    ensures LookUpVerse(book + " " + chapter + ":" + verse) == VerseContext(book, chapter, Some(verse))
    ensures VerseLabel(LookUpVerse(book + " " + chapter + ":" + verse)) == book + " " + chapter + ":" + verse
  {
    var last := chapter + [':'] + verse;
    assert ' ' !in last;
    assert book + " " + chapter + ":" + verse == book + [' '] + last;
    SplitBeforeLastPiece(book, last, ' ');
    var parts := Split(book, ' ') + [last];
    assert parts[..|parts| - 1] == Split(book, ' ');
    JoinSplit(book, ' ');
    SplitAfterPiece(chapter, verse, ':');
    SplitWithoutSeparator(verse, ':');
  }

  lemma {:induction false} NoSeparatorIn(s: string, c: char)
    requires forall i :: 0 <= i < |s| ==> IsDigit(s[i]) || s[i] == '-'
    requires c == ' ' || c == ':'
    ensures c !in s
  {
    assert forall i :: 0 <= i < |s| ==> s[i] != c;
  }

  /**
   Clicking an anchor whose book and numbers are separated by a plain
   space sets exactly the matched book, chapter and verse.
   */
  lemma LookUpVerseOfMatch(books: seq<string>, s: string, p: nat)
    requires p <= |s| && MatchAt(books, s, p).Some? && MatchAt(books, s, p).value.sep == ' '
    ensures var f := MatchAt(books, s, p).value;
            LookUpVerse(s[p..f.end]) == VerseContext(f.book, f.chapter, Some(f.verse))
  {
    var f := MatchAt(books, s, p).value;
    NoSeparatorIn(f.chapter, ' ');
    NoSeparatorIn(f.chapter, ':');
    NoSeparatorIn(f.verse, ' ');
    NoSeparatorIn(f.verse, ':');
    LookUpVerseInvertsLabel(f.book, f.chapter, f.verse);
  }

  /** The two worked examples: a multi-word book and a verse range. */
  lemma LookUpVerseExamples()
    ensures LookUpVerse("1 John 4:9") == VerseContext("1 John", "4", Some("9"))
    ensures LookUpVerse("Ephesians 2:8-9") == VerseContext("Ephesians", "2", Some("8-9"))
  {
    LookUpVerseInvertsLabel("1 John", "4", "9");
    assert "1 John" + " " + "4" + ":" + "9" == "1 John 4:9";
    LookUpVerseInvertsLabel("Ephesians", "2", "8-9");
    assert "Ephesians" + " " + "2" + ":" + "8-9" == "Ephesians 2:8-9";
  }

  lemma SpansInBounds(books: seq<string>, s: string, lo: nat, spans: seq<Span>)
    requires MatchedSpans(books, s, lo, spans)
    ensures forall j :: 0 <= j < |spans| ==> spans[j].start <= spans[j].end <= |s|
  {
    forall j | 0 <= j < |spans| ensures spans[j].start <= spans[j].end <= |s| {
      assert IsMatchSpan(books, s, spans[j]);
    }
  }

  /**
   Clicking the `k`-th anchor of a reply rendered over the names `books`
   looks up the text of the `k`-th match; when its book and numbers are
   separated by a plain space, that sets exactly the matched book, chapter
   and verse.
   */
  lemma AnchorLookUpIn(books: seq<string>, message: string, k: nat)
    requires k < |Scan(books, message, 0)|
    ensures var spans := Scan(books, message, 0);
            var anchors := AnchorLabels(RenderSpans(books, message, spans, 0));
            var f := MatchAt(books, message, spans[k].start).value;
            && |anchors| == |spans|
            && anchors[k] == message[spans[k].start..spans[k].end]
            && (f.sep == ' ' ==> LookUpVerse(anchors[k]) == VerseContext(f.book, f.chapter, Some(f.verse)))
  {
    var spans := Scan(books, message, 0);
    SpansInBounds(books, message, 0, spans);
    SpanTextsLength(message, spans);
    SpanTextsAt(message, spans, k);
    var f := MatchAt(books, message, spans[k].start).value;
    if f.sep == ' ' {
      LookUpVerseOfMatch(books, message, spans[k].start);
    }
  }
}
