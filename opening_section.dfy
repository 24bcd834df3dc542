/** The opening screen: every tap leaves a ripple and schedules its removal
    1000 ms later; the first tap also hides the TAP hint and shows the
    scroll indicator.

    Each removal timer drops the front of the ripple list. All timers have
    the same delay, so they fire in tap order and the list behaves as a
    first-in first-out queue. */
module OpeningSection {
  import opened Lists

  const RippleMillis: nat := 1000
  /** Half the ripple's 80-unit box: ripples are drawn centred on the tap. */
  const RippleRadius: int := 40

  /** A ripple: its id (the tap's timestamp) and the tap's position in the section's box. */
  datatype Ripple = Ripple(id: int, x: int, y: int)

  /** `slice(1)`: everything but the front; an empty list stays empty. */
  function DropFront<T>(s: seq<T>): (r: seq<T>)
    ensures s == [] ==> r == []
    ensures s != [] ==> [s[0]] + r == s
  {
    if s == [] then [] else s[1..]
  }

  /** n removals from a queue. */
  function DropFrontTimes<T>(s: seq<T>, n: nat): seq<T> {
    if n == 0 then s else DropFront(DropFrontTimes(s, n - 1))
  }

  /** n removals leave the suffix after the first n elements, or nothing. */
  lemma {:induction false} DropFrontTimesIsSuffix<T>(s: seq<T>, n: nat)
    ensures DropFrontTimes(s, n) == s[Min(n, |s|)..]
  {
    if n > 0 {
      DropFrontTimesIsSuffix(s, n - 1);
    }
  }

  /** The top-left corner of a ripple's box. */
  function RippleCorner(r: Ripple): (p: (int, int))
    ensures p.0 + RippleRadius == r.x && p.1 + RippleRadius == r.y
  {
    (r.x - RippleRadius, r.y - RippleRadius)
  }

  /** The section: the tapped and ripples states, the removal timers pending,
      and, as ghost state, every ripple ever made and how many were removed. */
  class Opening {
    var tapped: bool
    var ripples: seq<Ripple>
    var pendingRemovals: nat
    ghost var taps: seq<Ripple>
    ghost var removed: nat

    /** The list holds the taps not yet removed, oldest first, one pending
        timer each; any tap at all sets tapped. */
    ghost predicate Valid()
      reads this
    {
      && removed <= |taps|
      && ripples == taps[removed..]
      && pendingRemovals == |ripples|
      && (taps != [] ==> tapped)
    }

    /** The TAP hint fades out once tapped. */
    predicate TapHintVisible()
      reads this
    {
      !tapped
    }

    /** The scroll indicator fades in once tapped. */
    predicate ScrollIndicatorVisible()
      reads this
    {
      tapped
    }

    constructor ()
      ensures Valid() && !tapped && ripples == [] && pendingRemovals == 0 && taps == []
    {
      tapped, ripples, pendingRemovals := false, [], 0;
      taps, removed := [], 0;
    }

    /** A tap at (clientX, clientY) on a box whose corner is (rectLeft, rectTop), at time `now`. */
    method HandleTap(clientX: int, clientY: int, rectLeft: int, rectTop: int, now: int)
      requires Valid()
      modifies this
      ensures Valid()
      ensures ripples == old(ripples) + [Ripple(now, clientX - rectLeft, clientY - rectTop)]
      ensures tapped && !TapHintVisible() && ScrollIndicatorVisible()
      ensures pendingRemovals == old(pendingRemovals) + 1
      ensures taps == old(taps) + [Ripple(now, clientX - rectLeft, clientY - rectTop)] && removed == old(removed)
    {
      var r := Ripple(now, clientX - rectLeft, clientY - rectTop);
      ripples := ripples + [r];
      tapped := true;
      pendingRemovals := pendingRemovals + 1;
      taps := taps + [r];
    }

    /** A 1000 ms timer: the oldest ripple goes. */
    method RemovalTimerFires()
      requires Valid() && pendingRemovals > 0
      modifies this
      ensures Valid()
      ensures ripples == DropFront(old(ripples)) && |ripples| == |old(ripples)| - 1
      ensures old(ripples)[0] == old(taps)[old(removed)]
      ensures tapped == old(tapped) && pendingRemovals == old(pendingRemovals) - 1
      ensures taps == old(taps) && removed == old(removed) + 1
    {
      ripples := DropFront(ripples);
      pendingRemovals := pendingRemovals - 1;
      removed := removed + 1;
    }

    /** Once every scheduled timer has fired the list is empty, and the
        ripples on screen are always the most recent taps in tap order. */
    lemma QueueState()
      requires Valid()
      ensures pendingRemovals == 0 ==> ripples == []
      ensures ripples == DropFrontTimes(taps, removed)
      ensures forall i :: 0 <= i < |ripples| ==> ripples[i] == taps[removed + i]
    {
      DropFrontTimesIsSuffix(taps, removed);
    }
  }
}
