/**
 The typewriter effect on a scholar reply (`typeMessage`): every tick of
 the interval appends the next character to the entry's text; the tick
 after the last character stops the interval, replaces the text by the
 linkified reply and attaches the save control. Wall-clock time is left
 out: the text advances by explicit ticks.
 */
module Typewriter {
  import opened References

  /** While typing the entry holds plain text; once linked it holds the linkified reply. */
  datatype Phase = Typing | Linked

  /** One revealing entry: the full reply, the interval's index and the text shown so far. */
  datatype Reveal = Reveal(message: string, index: nat, shown: string, phase: Phase)

  /** The shown text is the first `index` characters; linking happens only at the end. */
  predicate Valid(r: Reveal)
  {
    && r.index <= |r.message|
    && r.shown == r.message[..r.index]
    && (r.phase.Linked? ==> r.index == |r.message|)
  }

  /** The save control exists only once the interval has stopped and the text is linked. */
  predicate Finished(r: Reveal)
  {
    r.phase.Linked?
  }

  /** The entry's content: the typed text, or the reply with its references as anchors. */
  function Content(r: Reveal): seq<Segment>
  {
    match r.phase
    case Typing => if r.shown == "" then [] else [Text(r.shown)]
    case Linked => Linkify(r.message)
  }

  /** What a reader sees in the entry (`textContent`). */
  function VisibleText(r: Reveal): string
  {
    Strip(Content(r))
  }

  /** A fresh entry with empty text; the interval has not ticked yet. */
  function Start(message: string): (r: Reveal)
    ensures Valid(r) && !Finished(r)
    ensures r.message == message && r.shown == ""
  {
    Reveal(message, 0, "", Typing)
  }

  /**
   One tick of the interval: append `message[index]` while characters
   remain; otherwise stop, linkify and finish. A finished typewriter no longer
   ticks.
   */
  function Tick(r: Reveal): (r': Reveal)
    requires Valid(r)
    ensures Valid(r') && r'.message == r.message
    ensures Finished(r) ==> r' == r
    ensures !Finished(r) && r.index < |r.message| ==>
              !Finished(r') && r'.index == r.index + 1 && r'.shown == r.shown + [r.message[r.index]]
    ensures !Finished(r) && r.index == |r.message| ==> Finished(r') && r'.shown == r.shown
  {
    match r.phase
    case Linked => r
    case Typing =>
      if r.index < |r.message| then
        assert r.message[..r.index + 1] == r.message[..r.index] + [r.message[r.index]];
        Reveal(r.message, r.index + 1, r.shown + [r.message[r.index]], Typing)
      else
        Reveal(r.message, r.index, r.shown, Linked)
  }

  /** `k` ticks in a row. */
  function Ticks(r: Reveal, k: nat): (r': Reveal)
    requires Valid(r)
    ensures Valid(r') && r'.message == r.message
    decreases k
  {
    if k == 0 then r else Ticks(Tick(r), k - 1)
  }

  function Min(a: nat, b: nat): nat
  {
    if a <= b then a else b
  }

  /**
   From a typing entry at index `i`, `k` ticks leave the index at
   `min(i + k, |message|)`, and the entry is linked exactly when more
   ticks were given than characters remained.
   */
  lemma {:induction false} TicksAdvance(r: Reveal, k: nat)
    requires Valid(r) && !Finished(r)
    ensures Ticks(r, k).index == Min(r.index + k, |r.message|)
    ensures Finished(Ticks(r, k)) <==> r.index + k > |r.message|
    decreases k
  {
    if k > 0 {
      var t := Tick(r);
      assert Ticks(r, k) == Ticks(t, k - 1);
      if r.index < |r.message| {
        assert t.index == r.index + 1 && !Finished(t);
        TicksAdvance(t, k - 1);
      } else {
        assert Finished(t) && t.index == r.index;
        FinishedStays(t, k - 1);
      }
    }
  }

  /** A finished typewriter stays as it is. */
  lemma {:induction false} FinishedStays(r: Reveal, k: nat)
    requires Valid(r) && Finished(r)
    ensures Ticks(r, k) == r
    decreases k
  {
    if k > 0 {
      FinishedStays(Tick(r), k - 1);
    }
  }

  /**
   The typewriter invariant: after `k` ticks the entry shows the first
   `min(k, |message|)` characters, and it is linked iff `k > |message|`.
   */
  lemma RevealAfter(message: string, k: nat)
    ensures Ticks(Start(message), k).shown == message[..Min(k, |message|)]
    ensures Finished(Ticks(Start(message), k)) <==> k > |message|
  {
    TicksAdvance(Start(message), k);
  }

  /**
   What the reader sees is always a prefix of the reply, and once the
   typewriter is finished it is the whole reply. The linked text is only
   the reply when the reply holds no markup of its own.
   */
  lemma VisibleTextIsPrefix(r: Reveal)
    requires Valid(r)
    ensures |VisibleText(r)| <= |r.message| && VisibleText(r) == r.message[..|VisibleText(r)|]
    ensures Finished(r) ==> VisibleText(r) == r.message
  {
    if Finished(r) {
      assert r.message[..|r.message|] == r.message;
    } else if r.shown != "" {
      assert [Text(r.shown)][1..] == [];
      assert Strip([Text(r.shown)]) == r.shown + Strip([]);
    }
  }

  /** `|message| + 1` ticks always finish the typewriter, with the whole reply shown. */
  lemma RevealFinishes(message: string)
    ensures Finished(Ticks(Start(message), |message| + 1))
    ensures VisibleText(Ticks(Start(message), |message| + 1)) == message
  {
    RevealAfter(message, |message| + 1);
    VisibleTextIsPrefix(Ticks(Start(message), |message| + 1));
  }
}
