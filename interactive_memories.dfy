/** Chapter three: scratch cards behind six orbs.

    A `ScratchCard` is opened for one orb. While a stroke is active every
    scratch event clears one segment and raises the progress by 2 (capped at
    100); the card reveals once the progress is strictly above 40. Closing
    the card records the orb in the section's registry of revealed orbs. */
module InteractiveMemories {
  import opened Lists

  /** A canvas position, already scaled to canvas pixels. */
  datatype Point = Point(x: int, y: int)

  /** One cleared stroke segment, from the previous pointer position to the current one. */
  datatype Segment = Segment(from: Point, to: Point)

  const ScratchStep: nat := 2
  const ProgressCap: nat := 100
  const RevealThreshold: nat := 40
  /** The progress at which a card reveals: the first multiple of the step above the threshold. */
  const RevealProgress: nat := 42
  const OrbCount: nat := 6

  /** Progress after one accepted scratch: two more, never above the cap. */
  function NextScratchProgress(p: nat): (r: nat)
    ensures p + ScratchStep <= ProgressCap ==> r == p + ScratchStep
    ensures p + ScratchStep > ProgressCap ==> r == ProgressCap
  {
    Min(p + ScratchStep, ProgressCap)
  }

  /** Progress after n accepted scratches on a fresh card, ignoring the reveal. */
  function ScratchProgressAfter(n: nat): nat {
    if n == 0 then 0 else NextScratchProgress(ScratchProgressAfter(n - 1))
  }

  /** n accepted scratches raise the progress by exactly 2 each, capped at 100. */
  lemma {:induction false} ScratchProgressClosedForm(n: nat)
    ensures ScratchProgressAfter(n) == Min(ScratchStep * n, ProgressCap)
  {
    if n > 0 {
      ScratchProgressClosedForm(n - 1);
    }
  }

  /** Progress never decreases from one scratch to the next. */
  lemma ScratchProgressMonotone(m: nat, n: nat)
    requires m <= n
    ensures ScratchProgressAfter(m) <= ScratchProgressAfter(n)
  {
    ScratchProgressClosedForm(m);
    ScratchProgressClosedForm(n);
  }

  /** The card reveals on the 21st accepted scratch (progress 42), not the
      20th (progress 40): the threshold comparison is strict. */
  lemma RevealsOnTwentyFirstScratch(n: nat)
    ensures ScratchProgressAfter(n) > RevealThreshold <==> n >= 21
    ensures ScratchProgressAfter(20) == 40 && ScratchProgressAfter(21) == RevealProgress
  {
    ScratchProgressClosedForm(n);
    ScratchProgressClosedForm(20);
    ScratchProgressClosedForm(21);
  }

  /** The state of one open scratch card: the progress and revealed states and
      the two refs `isDrawing` and `lastPos`. */
  class ScratchCard {
    var progress: nat
    var revealed: bool
    var isDrawing: bool
    var lastPos: Point

    /** Progress moves in steps of 2 and stops at 42, the value at which the card reveals. */
    ghost predicate Valid()
      reads this
    {
      progress % ScratchStep == 0 && progress <= RevealProgress &&
      (revealed <==> progress > RevealThreshold)
    }

    /** The scratch canvas and the progress bar are rendered only before the reveal. */
    predicate CanvasShown()
      reads this
    {
      !revealed
    }

    constructor ()
      ensures Valid()
      ensures progress == 0 && !revealed && !isDrawing && lastPos == Point(0, 0)
    {
      progress, revealed, isDrawing, lastPos := 0, false, false, Point(0, 0);
    }

    /** Pointer down: starts a stroke anchored at the press point, unless the card is revealed. */
    method StartScratch(pos: Point)
      requires Valid()
      modifies this
      ensures Valid()
      ensures old(revealed) ==> unchanged(this)
      ensures !old(revealed) ==> isDrawing && lastPos == pos
      ensures progress == old(progress) && revealed == old(revealed)
    {
      if revealed {
        return;
      }
      isDrawing := true;
      lastPos := pos;
    }

    /** Pointer up or leave: ends the stroke. */
    method StopScratch()
      requires Valid()
      modifies this
      ensures Valid()
      ensures !isDrawing
      ensures progress == old(progress) && revealed == old(revealed) && lastPos == old(lastPos)
    {
      isDrawing := false;
    }

    /** Pointer move: ignored on a revealed card or outside a stroke; otherwise
        clears the segment from the previous position to `pos`, moves the
        anchor to `pos` and steps the progress, revealing above 40. */
    method Scratch(pos: Point) returns (segment: Option<Segment>)
      requires Valid()
      modifies this
      ensures Valid()
      ensures old(revealed) || !old(isDrawing) ==> segment == None && unchanged(this)
      ensures !old(revealed) && old(isDrawing) ==>
        && segment == Some(Segment(old(lastPos), pos))
        && lastPos == pos && isDrawing
        && progress == NextScratchProgress(old(progress))
        && progress == old(progress) + ScratchStep
        && revealed == (progress > RevealThreshold)
      ensures old(progress) <= progress
      ensures old(revealed) ==> revealed
    {
      if revealed || !isDrawing {
        return None;
      }
      segment := Some(Segment(lastPos, pos));
      lastPos := pos;
      progress := NextScratchProgress(progress);
      if progress > RevealThreshold && !revealed {
        revealed := true;
      }
    }
  }

  /** The ids recorded when a card closes: the active orb's id is appended
      unless it is already there. */
  function RecordClosed(revealedOrbs: seq<int>, activeOrb: Option<int>): (r: seq<int>)
    ensures revealedOrbs <= r
    ensures activeOrb == None ==> r == revealedOrbs
    ensures activeOrb.Some? ==> activeOrb.value in r
    ensures activeOrb.Some? ==>
      |r| == |revealedOrbs| + (if activeOrb.value in revealedOrbs then 0 else 1)
    ensures Distinct(revealedOrbs) ==> Distinct(r)
  {
    match activeOrb
    case None => revealedOrbs
    case Some(id) =>
      if id in revealedOrbs then revealedOrbs
      else
        AppendFresh(revealedOrbs, id);
        revealedOrbs + [id]
  }

  /** The section's state: the orb whose card is open and the ids of the orbs revealed so far. */
  class MemoriesSection {
    var activeOrb: Option<int>
    var revealedOrbs: seq<int>

    /** Orb ids are 1..6 and none is recorded twice. */
    ghost predicate Valid()
      reads this
    {
      Distinct(revealedOrbs) &&
      (forall i :: 0 <= i < |revealedOrbs| ==> 1 <= revealedOrbs[i] <= OrbCount) &&
      (activeOrb.Some? ==> 1 <= activeOrb.value <= OrbCount)
    }

    /** The "All cards revealed!" message. */
    predicate AllRevealed()
      reads this
    {
      |revealedOrbs| == OrbCount
    }

    constructor ()
      ensures Valid() && activeOrb == None && revealedOrbs == []
    {
      activeOrb, revealedOrbs := None, [];
    }

    /** Tapping an orb opens its card. Only the six orbs of the grid can be tapped. */
    method HandleOrbClick(id: int)
      requires Valid() && 1 <= id <= OrbCount
      modifies this
      ensures Valid()
      ensures activeOrb == Some(id) && revealedOrbs == old(revealedOrbs)
    {
      activeOrb := Some(id);
    }

    /** Closing the card (the backdrop, or a tap on a revealed card) records the
        active orb, scratched or not, and closes the card. */
    method HandleClose()
      requires Valid()
      modifies this
      ensures Valid()
      ensures revealedOrbs == RecordClosed(old(revealedOrbs), old(activeOrb))
      ensures activeOrb == None
    {
      if activeOrb.Some? && activeOrb.value !in revealedOrbs {
        AppendFresh(revealedOrbs, activeOrb.value);
        revealedOrbs := revealedOrbs + [activeOrb.value];
      }
      activeOrb := None;
    }

    /** The message shows exactly when every one of the six orbs has been revealed. */
    lemma AllRevealedMeansEveryOrb()
      requires Valid()
      ensures |revealedOrbs| <= OrbCount
      ensures AllRevealed() <==> forall id :: 1 <= id <= OrbCount ==> id in revealedOrbs
    {
      DistinctIdsBounded(revealedOrbs, OrbCount);
    }
  }
}
