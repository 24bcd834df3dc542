/** Chapter two: four poems typed out on tap.

    A `TypewriterQuote` runs an interval every 40 ms once tapped. The
    interval's counter i starts at 0; while i is at most the text's length a
    tick shows the first i characters and advances i, and the tick after that
    stops the interval, marks the quote completed and calls `onComplete`. The
    section counts completions and lights one progress bar per completed poem. */
module PoetrySection {
  import opened Lists

  const TickMillis: nat := 40
  const PoemCount: nat := 4

  /** The text typed out: the poem's line, a space, then its second line. */
  function FullText(text: string, subtext: string): (r: string)
    ensures |r| == |text| + 1 + |subtext|
    ensures r[..|text|] == text && r[|text|] == ' ' && r[|text| + 1..] == subtext
  {
    text + " " + subtext
  }

  /** One poem's typewriter: the displayText, isTyping and completed states and
      the interval's counter. The interval runs exactly while isTyping holds. */
  class TypewriterQuote {
    const fullText: string
    var displayText: string
    var isTyping: bool
    var completed: bool
    var cursor: nat
    /** Every value displayText has taken during the run, in order. */
    ghost var shown: seq<string>

    /** The i-th value shown is the prefix of length i; the display is the latest one. */
    ghost predicate Valid()
      reads this
    {
      && cursor <= |fullText| + 1
      && |shown| == cursor
      && (forall k :: 0 <= k < cursor ==> shown[k] == fullText[..k])
      && displayText == (if cursor == 0 then "" else fullText[..cursor - 1])
      && (completed ==> !isTyping && cursor == |fullText| + 1)
      && (!isTyping && !completed ==> cursor == 0)
    }

    /** The blinking caret. */
    predicate CaretShown()
      reads this
    {
      isTyping
    }

    /** The "Tap to reveal" placeholder. */
    predicate PlaceholderShown()
      reads this
    {
      !isTyping && !completed
    }

    constructor (text: string, subtext: string)
      ensures Valid()
      ensures fullText == FullText(text, subtext)
      ensures displayText == "" && !isTyping && !completed && shown == []
    {
      fullText := FullText(text, subtext);
      displayText, isTyping, completed, cursor := "", false, false, 0;
      shown := [];
    }

    /** A tap: starts the interval from i = 0, unless it is running or done. */
    method StartTyping()
      requires Valid()
      modifies this
      ensures Valid()
      ensures old(isTyping) || old(completed) ==> unchanged(this)
      ensures !old(isTyping) && !old(completed) ==>
        isTyping && !completed && cursor == 0 && displayText == old(displayText)
    {
      if isTyping || completed {
        return;
      }
      isTyping := true;
      cursor := 0;
      shown := [];
    }

    /** One 40 ms tick of the running interval; returns whether it finished
        the run (and so called `onComplete`). */
    method Tick() returns (done: bool)
      requires Valid() && isTyping
      modifies this
      ensures Valid()
      ensures done <==> old(cursor) == |fullText| + 1
      ensures !done ==>
        && isTyping && !completed
        && displayText == fullText[..old(cursor)]
        && cursor == old(cursor) + 1
        && shown == old(shown) + [displayText]
      ensures done ==> completed && !isTyping && displayText == fullText && shown == old(shown)
    {
      if cursor <= |fullText| {
        displayText := fullText[..cursor];
        shown := shown + [displayText];
        cursor := cursor + 1;
        done := false;
      } else {
        isTyping := false;
        completed := true;
        done := true;
      }
    }

    /** The interval ticking until it clears itself. From a fresh start it
        shows the len + 1 prefixes in order, then finishes on tick len + 2
        with exactly one call of `onComplete`. */
    method RunInterval() returns (ticks: nat, completions: nat)
      requires Valid() && isTyping
      modifies this
      ensures Valid()
      ensures completed && !isTyping && displayText == fullText
      ensures ticks == |fullText| + 2 - old(cursor)
      ensures completions == 1
      ensures |shown| == |fullText| + 1 && old(shown) <= shown
    {
      ticks, completions := 0, 0;
      while isTyping
        invariant Valid()
        invariant old(shown) <= shown
        invariant isTyping ==> completions == 0 && ticks == cursor - old(cursor)
        invariant !isTyping ==> completed && completions == 1 && ticks == |fullText| + 2 - old(cursor)
        decreases if isTyping then |fullText| + 2 - cursor else 0
      {
        var done := Tick();
        ticks := ticks + 1;
        if done {
          completions := completions + 1;
        }
      }
    }
  }

  /** The section: its four quotes and the completedCount state. */
  class Poems {
    const quotes: seq<TypewriterQuote>
    var completedCount: nat

    /** Indices of the quotes that have completed. */
    ghost function CompletedQuotes(): set<nat>
      reads set q | q in quotes
    {
      set i: nat | i < |quotes| && quotes[i].completed
    }

    /** completedCount counts the completed quotes, one `onComplete` each;
        a completed quote is no longer typing. (Each quote's own invariant is
        required and ensured per call, quote by quote.) */
    ghost predicate Valid()
      reads this, set q | q in quotes
    {
      && |quotes| == PoemCount
      && (forall i, j :: 0 <= i < j < |quotes| ==> quotes[i] != quotes[j])
      && (forall i :: 0 <= i < |quotes| ==> quotes[i].completed ==> !quotes[i].isTyping)
      && completedCount == |CompletedQuotes()|
    }

    /** Progress bar i is lit once more than i poems are complete. */
    predicate BarLit(i: nat)
      reads this
    {
      i < completedCount
    }

    /** The closing "Beautiful" message. */
    predicate AllCompleted()
      reads this
    {
      completedCount == |quotes|
    }

    constructor (q0: TypewriterQuote, q1: TypewriterQuote, q2: TypewriterQuote, q3: TypewriterQuote)
      requires !q0.isTyping && !q1.isTyping && !q2.isTyping && !q3.isTyping
      requires !q0.completed && !q1.completed && !q2.completed && !q3.completed
      requires q0 != q1 && q0 != q2 && q0 != q3 && q1 != q2 && q1 != q3 && q2 != q3
      ensures Valid() && quotes == [q0, q1, q2, q3] && completedCount == 0
    {
      quotes := [q0, q1, q2, q3];
      completedCount := 0;
      new;
      assert CompletedQuotes() == {};
    }

    /** Tapping quote i: its `startTyping`. */
    method TapQuote(i: nat)
      requires Valid() && i < |quotes| && quotes[i].Valid()
      modifies quotes[i]
      ensures Valid() && quotes[i].Valid()
      ensures completedCount == old(completedCount)
      ensures old(quotes[i].isTyping) || old(quotes[i].completed) ==> unchanged(quotes[i])
      ensures !old(quotes[i].isTyping) && !old(quotes[i].completed) ==>
        && quotes[i].isTyping && !quotes[i].completed && quotes[i].cursor == 0
        && quotes[i].displayText == old(quotes[i].displayText)
    {
      ghost var before := CompletedQuotes();
      var q := quotes[i];
      q.StartTyping();
      forall k: nat ensures k in CompletedQuotes() <==> k in before {
        if k < |quotes| && k != i {
          assert quotes[k] != q;
        }
      }
      assert CompletedQuotes() == before;
    }

    /** One tick of quote i's interval; a finishing tick calls the quote's
        `onComplete`, which adds one to completedCount. */
    method TickQuote(i: nat) returns (done: bool)
      requires Valid() && i < |quotes| && quotes[i].Valid() && quotes[i].isTyping
      modifies this, quotes[i]
      ensures Valid() && quotes[i].Valid()
      ensures completedCount == old(completedCount) + (if done then 1 else 0)
      ensures quotes[i].completed == done
      ensures done <==> old(quotes[i].cursor) == |quotes[i].fullText| + 1
      ensures !done ==>
        && quotes[i].isTyping
        && quotes[i].displayText == quotes[i].fullText[..old(quotes[i].cursor)]
        && quotes[i].cursor == old(quotes[i].cursor) + 1
      ensures done ==> !quotes[i].isTyping && quotes[i].displayText == quotes[i].fullText
    {
      ghost var before := CompletedQuotes();
      assert i !in before;
      var q := quotes[i];
      done := q.Tick();
      ghost var after := if done then before + {i} else before;
      forall k: nat ensures k in CompletedQuotes() <==> k in after {
        if k < |quotes| && k != i {
          assert quotes[k] != q;
        }
      }
      assert CompletedQuotes() == after;
      assert |after| == |before| + (if done then 1 else 0);
      if done {
        completedCount := completedCount + 1;
      }
    }

    /** The count never exceeds the number of poems, and the closing message
        shows exactly when every quote has completed. */
    lemma CountBounded()
      requires Valid()
      ensures completedCount <= PoemCount
      ensures AllCompleted() <==> forall i :: 0 <= i < |quotes| ==> quotes[i].completed
    {
      var all: set<nat> := {0, 1, 2, 3};
      assert CompletedQuotes() <= all;
      SubsetCard(CompletedQuotes(), all);
      if forall i :: 0 <= i < |quotes| ==> quotes[i].completed {
        assert CompletedQuotes() == all;
      }
      if CompletedQuotes() == all {
        forall i | 0 <= i < |quotes| ensures quotes[i].completed {
          assert i in all;
        }
      }
    }
  }
}
