/** Chapter four: six wish lanterns released by dragging them upward.

    A `Lantern` follows a vertical drag: its offset is the upward pointer
    displacement, never more than 100 upward. On drag end an offset above 50
    units upward releases the lantern; anything less snaps it back. The
    section keeps the list of released lantern ids. */
module WishLanterns {

  /** How far up a lantern can be pulled before it stops following the pointer. */
  const MaxLift: int := 100
  /** The upward displacement a drag must exceed to release the lantern. */
  const ReleaseLift: int := 50
  const WishCount: nat := 6

  /** The vertical offset during a drag, screen y growing downward: minus the
      upward displacement `startY - currentY`, but never above 100 units upward. */
  function DragOffset(startY: int, currentY: int): (r: int)
    ensures r >= -MaxLift
    ensures startY - currentY <= MaxLift ==> r == currentY - startY
    ensures startY - currentY > MaxLift ==> r == -MaxLift
    ensures r < -ReleaseLift <==> startY - currentY > ReleaseLift
  {
    var deltaY := startY - currentY;
    if -deltaY < -MaxLift then -MaxLift else -deltaY
  }

  /** Whether an offset at drag end releases the lantern: strictly more than 50 units up. */
  predicate ReleasesAt(offsetY: int) {
    offsetY < -ReleaseLift
  }

  /** A drag of exactly 50 units up does not release; 51 does. */
  lemma ReleaseBoundary(startY: int)
    ensures !ReleasesAt(DragOffset(startY, startY - ReleaseLift))
    ensures ReleasesAt(DragOffset(startY, startY - ReleaseLift - 1))
  {
  }

  /** One lantern's drag state. The horizontal jitter is random and not modelled;
      `isReleased` is the parent's list membership and is passed to each handler. */
  class Lantern {
    var isDragging: bool
    var offsetY: int
    var startY: int

    ghost predicate Valid()
      reads this
    {
      offsetY >= -MaxLift
    }

    constructor ()
      ensures Valid() && !isDragging && offsetY == 0 && startY == 0
    {
      isDragging, offsetY, startY := false, 0, 0;
    }

    /** Pointer down: starts a drag from `pointerY` unless the lantern is released. */
    method HandleDragStart(isReleased: bool, pointerY: int)
      requires Valid()
      modifies this
      ensures Valid()
      ensures isReleased ==> unchanged(this)
      ensures !isReleased ==> isDragging && startY == pointerY && offsetY == old(offsetY)
    {
      if isReleased {
        return;
      }
      isDragging := true;
      startY := pointerY;
    }

    /** Pointer move: follows the pointer while a drag is in progress. */
    method HandleDrag(isReleased: bool, pointerY: int)
      requires Valid()
      modifies this
      ensures Valid()
      ensures !old(isDragging) || isReleased ==> unchanged(this)
      ensures old(isDragging) && !isReleased ==>
        offsetY == DragOffset(startY, pointerY) && isDragging && startY == old(startY)
    {
      if !isDragging || isReleased {
        return;
      }
      offsetY := DragOffset(startY, pointerY);
    }

    /** Pointer up or leave: ends the drag; returns whether `onRelease` is
        called. Without a release the lantern snaps back to rest. */
    method HandleDragEnd(isReleased: bool) returns (release: bool)
      requires Valid()
      modifies this
      ensures Valid()
      ensures isReleased ==> !release && unchanged(this)
      ensures !isReleased ==> !isDragging && release == ReleasesAt(old(offsetY))
      ensures !isReleased ==> offsetY == (if release then old(offsetY) else 0)
      ensures startY == old(startY)
    {
      if isReleased {
        return false;
      }
      isDragging := false;
      if offsetY < -ReleaseLift {
        release := true;
      } else {
        release := false;
        offsetY := 0;
      }
    }
  }

  /** The section's list of released lantern ids, in release order. */
  class LanternSection {
    var releasedLanterns: seq<int>

    constructor ()
      ensures releasedLanterns == []
    {
      releasedLanterns := [];
    }

    /** A lantern is released when its id is in the list. */
    predicate IsReleased(id: int)
      reads this
    {
      id in releasedLanterns
    }

    /** The "n / 6 wishes released" counter. */
    function ReleasedCount(): nat
      reads this
    {
      |releasedLanterns|
    }

    /** The "All wishes have risen" message. */
    predicate AllReleased()
      reads this
    {
      ReleasedCount() == WishCount
    }

    /** A lantern's `onRelease`: appends its id with no membership check, so a
        second call for the same id counts twice. Nothing is ever removed. */
    method HandleRelease(id: int)
      modifies this
      ensures releasedLanterns == old(releasedLanterns) + [id]
      ensures ReleasedCount() == old(ReleasedCount()) + 1
      ensures IsReleased(id)
      ensures forall other :: old(IsReleased(other)) ==> IsReleased(other)
    {
      releasedLanterns := releasedLanterns + [id];
    }
  }
}
