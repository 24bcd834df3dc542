/** The birthday reveal: wish lines that leave sparkles where the pointer
    moves, a clap button, and confetti that stops ten seconds after the
    section scrolls into view.

    Each wish keeps only its six newest sparkles: an interaction keeps the
    last five (or fewer) of the old list and appends the new one. */
module BirthdayReveal {
  import opened Lists

  const SparklesKept: nat := 5
  const MaxEmojis: nat := 20
  const ConfettiMillis: nat := 10000

  /** A sparkle: its id (the interaction's timestamp) and its position in the wish's box. */
  datatype Sparkle = Sparkle(id: int, x: int, y: int)

  /** `slice(-k)` for k > 0: the last min(k, |s|) elements. */
  function LastN<T>(s: seq<T>, k: nat): (r: seq<T>)
    ensures |r| == Min(k, |s|)
    ensures r == s[|s| - |r|..]
  {
    s[|s| - Min(k, |s|)..]
  }

  /** One interaction: the old list's last five, then the new sparkle. */
  function AddSparkle(prev: seq<Sparkle>, s: Sparkle): (r: seq<Sparkle>)
    ensures |r| == Min(|prev|, SparklesKept) + 1 && |r| <= SparklesKept + 1
    ensures r[|r| - 1] == s
    ensures r[..|r| - 1] == prev[|prev| - (|r| - 1)..]
  {
    LastN(prev, SparklesKept) + [s]
  }

  /** The sparkle list after a run of interactions from the empty list. */
  function SparklesAfter(xs: seq<Sparkle>): seq<Sparkle> {
    if xs == [] then [] else AddSparkle(SparklesAfter(xs[..|xs| - 1]), xs[|xs| - 1])
  }

  /** One interaction on the last six of a history gives the last six of the
      history extended by the new sparkle. */
  lemma AddSparkleKeepsLastSix(h: seq<Sparkle>, s: Sparkle)
    ensures AddSparkle(LastN(h, SparklesKept + 1), s) == LastN(h + [s], SparklesKept + 1)
  {
    var l := LastN(h, SparklesKept + 1);
    var r := AddSparkle(l, s);
    var e := LastN(h + [s], SparklesKept + 1);
    assert |r| == |e|;
    forall i | 0 <= i < |r| ensures r[i] == e[i] {
      if i < |r| - 1 {
        assert r[i] == l[|l| - (|r| - 1) + i];
      }
    }
  }

  /** After any run of interactions the list holds exactly the last
      min(n, 6) sparkles, in the order they were made. */
  lemma {:induction false} SparklesAfterIsLastSix(xs: seq<Sparkle>)
    ensures SparklesAfter(xs) == LastN(xs, SparklesKept + 1)
  {
    if xs != [] {
      var init, last := xs[..|xs| - 1], xs[|xs| - 1];
      assert init + [last] == xs;
      calc {
        SparklesAfter(xs);
        AddSparkle(SparklesAfter(init), last);
        { SparklesAfterIsLastSix(init); }
        AddSparkle(LastN(init, SparklesKept + 1), last);
        { AddSparkleKeepsLastSix(init, last); }
        LastN(init + [last], SparklesKept + 1);
      }
    }
  }

  /** One wish line's sparkles, with the ghost history of every sparkle made on it. */
  class InteractiveWish {
    var sparkles: seq<Sparkle>
    ghost var history: seq<Sparkle>

    /** The list is the newest six of the history. */
    ghost predicate Valid()
      reads this
    {
      sparkles == LastN(history, SparklesKept + 1)
    }

    constructor ()
      ensures Valid() && sparkles == [] && history == []
    {
      sparkles, history := [], [];
    }

    /** Pointer or touch move at (clientX, clientY) over a box whose corner is
        (rectLeft, rectTop), at time `now`. */
    method HandleInteraction(clientX: int, clientY: int, rectLeft: int, rectTop: int, now: int)
      requires Valid()
      modifies this
      ensures Valid()
      ensures sparkles == AddSparkle(old(sparkles), Sparkle(now, clientX - rectLeft, clientY - rectTop))
      ensures history == old(history) + [Sparkle(now, clientX - rectLeft, clientY - rectTop)]
    {
      var s := Sparkle(now, clientX - rectLeft, clientY - rectTop);
      AddSparkleKeepsLastSix(history, s);
      sparkles := AddSparkle(sparkles, s);
      history := history + [s];
    }
  }

  /** The number of flying emojis drawn for a clap count. */
  function EmojiCount(clapCount: nat): (n: nat)
    ensures n <= MaxEmojis && n <= clapCount
    ensures n == clapCount || n == MaxEmojis
  {
    Min(clapCount, MaxEmojis)
  }

  /** Whether the "n claps sent!" line shows. */
  predicate ClapMessageShown(clapCount: nat) {
    clapCount > 0
  }

  /** The noun of that line: plural exactly above one clap. */
  function ClapNoun(clapCount: nat): (w: string)
    ensures w == "claps" <==> clapCount > 1
    ensures w == "clap" <==> clapCount <= 1
  {
    if clapCount > 1 then "claps" else "clap"
  }

  /** The section: the showConfetti and clapCount states, whether it has been
      in view (latched once), and the pending 10 s confetti timer. */
  class RevealSection {
    var showConfetti: bool
    var clapCount: nat
    var inView: bool
    var timerPending: bool

    /** The confetti timer exists only after the section came into view, and
        the confetti stops only after that. */
    ghost predicate Valid()
      reads this
    {
      (timerPending ==> inView && showConfetti) && (!inView ==> showConfetti)
    }

    constructor ()
      ensures Valid() && showConfetti && clapCount == 0 && !inView && !timerPending
    {
      showConfetti, clapCount, inView, timerPending := true, 0, false, false;
    }

    /** The clap button. */
    method Clap()
      requires Valid()
      modifies this
      ensures Valid()
      ensures clapCount == old(clapCount) + 1 && ClapMessageShown(clapCount)
      ensures showConfetti == old(showConfetti) && inView == old(inView) && timerPending == old(timerPending)
    {
      clapCount := clapCount + 1;
    }

    /** The section scrolls into view; only the first time schedules the timer. */
    method EnterView()
      requires Valid()
      modifies this
      ensures Valid()
      ensures old(inView) ==> unchanged(this)
      ensures !old(inView) ==> inView && timerPending && showConfetti == old(showConfetti)
      ensures clapCount == old(clapCount)
    {
      if inView {
        return;
      }
      inView := true;
      timerPending := true;
    }

    /** The 10 s timer: the confetti stops. */
    method ConfettiTimerFires()
      requires Valid() && timerPending
      modifies this
      ensures Valid()
      ensures !showConfetti && !timerPending && inView
      ensures clapCount == old(clapCount)
    {
      showConfetti := false;
      timerPending := false;
    }

    /** Unmount: the pending timer is cleared; the confetti state is kept. */
    method Teardown()
      requires Valid()
      modifies this
      ensures Valid()
      ensures !timerPending
      ensures showConfetti == old(showConfetti) && inView == old(inView) && clapCount == old(clapCount)
    {
      timerPending := false;
    }
  }

  /** What a wish line renders as: a spacer for an empty line, a wish otherwise. */
  datatype Row = Spacer | WishItem(text: string)

  function Layout(lines: seq<string>): (rows: seq<Row>)
    ensures |rows| == |lines|
    ensures forall i :: 0 <= i < |lines| ==> (rows[i] == Spacer <==> lines[i] == "")
    ensures forall i :: 0 <= i < |lines| && lines[i] != "" ==> rows[i] == WishItem(lines[i])
  {
    if lines == [] then []
    else [if lines[0] == "" then Spacer else WishItem(lines[0])] + Layout(lines[1..])
  }

  /** The texts of the wish items, in order. */
  function WishTexts(rows: seq<Row>): seq<string> {
    if rows == [] then []
    else (match rows[0] case Spacer => [] case WishItem(t) => [t]) + WishTexts(rows[1..])
  }

  /** The non-empty lines, in order. */
  function NonEmptyLines(lines: seq<string>): seq<string> {
    if lines == [] then []
    else (if lines[0] == "" then [] else [lines[0]]) + NonEmptyLines(lines[1..])
  }

  /** Every non-empty line shows as a wish, in order, and nothing else does. */
  lemma {:induction false} LayoutKeepsEveryWish(lines: seq<string>)
    ensures WishTexts(Layout(lines)) == NonEmptyLines(lines)
  {
    if lines != [] {
      LayoutKeepsEveryWish(lines[1..]);
      assert Layout(lines)[1..] == Layout(lines[1..]);
    }
  }
}
