/** The grand finale: a drawing canvas whose progress unlocks a timed
    explosion animation.

    Progress moves in steps of 0.5 %, so it is kept here in half-percent
    units: 200 units are 100 %. Every accepted draw adds one unit up to 200,
    and every draw that leaves the progress at 100 % calls the canvas's
    completion callback, not only the first. */
module MagicRevealSection {
  import opened Lists

  /** 100 % in half-percent units. */
  const FullProgress: nat := 200
  const UnlockDelayMillis: nat := 500
  const Phase1Millis: nat := 200
  const Phase2Millis: nat := 800
  const Phase3Millis: nat := 1500
  const ExplosionMillis: nat := 4500

  /** Progress after one accepted draw: half a percent more, never above 100 %. */
  function NextDrawProgress(halves: nat): (r: nat)
    ensures halves < FullProgress ==> r == halves + 1
    ensures halves >= FullProgress ==> r == FullProgress
  {
    Min(halves + 1, FullProgress)
  }

  /** The stroke hue, in half-degrees: (progress * 3) mod 360 degrees, from
      the progress before the draw. */
  function HueHalfDegrees(halves: nat): (r: int)
    ensures 0 <= r < 720
    ensures (3 * halves - r) % 720 == 0
  {
    (3 * halves) % 720
  }

  /** Whether a draw that leaves the progress at `halves` calls the canvas's `onComplete`. */
  predicate CompletesAt(halves: nat) {
    halves >= FullProgress
  }

  /** Progress after n accepted draws from an empty canvas. */
  function DrawProgressAfter(n: nat): nat {
    if n == 0 then 0 else NextDrawProgress(DrawProgressAfter(n - 1))
  }

  /** n accepted draws give min(n, 200) half-percent units: 100 % on the 200th draw. */
  lemma {:induction false} DrawProgressClosedForm(n: nat)
    ensures DrawProgressAfter(n) == Min(n, FullProgress)
  {
    if n > 0 {
      DrawProgressClosedForm(n - 1);
    }
  }

  /** The completion callback fires on draw n exactly when n >= 200: first on
      the 200th and again on every later one. */
  lemma CompletionFiresFrom200(n: nat)
    requires n >= 1
    ensures CompletesAt(DrawProgressAfter(n)) <==> n >= FullProgress
  {
    DrawProgressClosedForm(n);
  }

  /** The drawing canvas: the isDrawing, progress and strokeCount states. */
  class DrawingCanvas {
    var isDrawing: bool
    var progress: nat
    var strokeCount: nat

    ghost predicate Valid()
      reads this
    {
      progress <= FullProgress
    }

    constructor ()
      ensures Valid() && !isDrawing && progress == 0 && strokeCount == 0
    {
      isDrawing, progress, strokeCount := false, 0, 0;
    }

    /** Pointer move: outside a stroke nothing happens. Otherwise the segment is
        drawn in hue `hue` and the progress steps; returns whether `onComplete` is called. */
    method Draw() returns (complete: bool, hue: int)
      requires Valid()
      modifies this
      ensures Valid()
      ensures !old(isDrawing) ==> !complete && unchanged(this)
      ensures old(isDrawing) ==>
        && progress == NextDrawProgress(old(progress))
        && hue == HueHalfDegrees(old(progress))
        && complete == CompletesAt(progress)
      ensures isDrawing == old(isDrawing) && strokeCount == old(strokeCount)
      ensures old(progress) <= progress
    {
      complete, hue := false, 0;
      if !isDrawing {
        return;
      }
      hue := HueHalfDegrees(progress);
      progress := NextDrawProgress(progress);
      complete := progress >= FullProgress;
    }

    /** Pointer down: a new stroke. */
    method StartDrawing()
      requires Valid()
      modifies this
      ensures Valid()
      ensures isDrawing && strokeCount == old(strokeCount) + 1 && progress == old(progress)
    {
      isDrawing := true;
      strokeCount := strokeCount + 1;
    }

    /** Pointer up or leave. */
    method StopDrawing()
      requires Valid()
      modifies this
      ensures Valid()
      ensures !isDrawing && strokeCount == old(strokeCount) && progress == old(progress)
    {
      isDrawing := false;
    }
  }

  /** The explosion's phase after `elapsed` ms: 1 from 200 ms, 2 from 800 ms, 3 from 1500 ms. */
  function PhaseAt(elapsed: nat): (phase: nat)
    ensures phase <= 3
    ensures phase == 0 <==> elapsed < Phase1Millis
    ensures phase == 3 <==> elapsed >= Phase3Millis
  {
    if elapsed < Phase1Millis then 0
    else if elapsed < Phase2Millis then 1
    else if elapsed < Phase3Millis then 2
    else 3
  }

  /** The phase never goes back. */
  lemma PhaseMonotone(t1: nat, t2: nat)
    requires t1 <= t2
    ensures PhaseAt(t1) <= PhaseAt(t2)
  {
  }

  /** The explosion's four timers (three phase steps and the final callback at
      4500 ms), driven by an explicit clock. Teardown clears the timers. */
  class GrandExplosion {
    var phase: nat
    var now: nat
    var cleared: bool
    /** How many times the final `onComplete` has been called. */
    var completions: nat

    /** While the timers run the phase is the one reached by the elapsed time,
        and the final callback has fired once if and only if 4500 ms have passed. */
    ghost predicate Valid()
      reads this
    {
      completions <= 1 &&
      (!cleared ==> phase == PhaseAt(now) && (completions == 1 <==> now >= ExplosionMillis))
    }

    constructor ()
      ensures Valid() && phase == 0 && now == 0 && !cleared && completions == 0
    {
      phase, now, cleared, completions := 0, 0, false, 0;
    }

    /** The clock advances to `t`; every timer due by then fires, in order.
        Returns whether the final `onComplete` fired during this advance. */
    method AdvanceTo(t: nat) returns (fired: bool)
      requires Valid() && now <= t
      modifies this
      ensures Valid()
      ensures now == t && cleared == old(cleared)
      ensures fired <==> !cleared && old(now) < ExplosionMillis <= t
      ensures !cleared ==> phase == PhaseAt(t)
      ensures cleared ==> phase == old(phase)
      ensures old(phase) <= phase || cleared
      ensures completions == old(completions) + (if fired then 1 else 0)
    {
      fired := false;
      if !cleared {
        PhaseMonotone(now, t);
        phase := PhaseAt(t);
        if now < ExplosionMillis <= t {
          fired := true;
          completions := completions + 1;
        }
      }
      now := t;
    }

    /** Unmount: all pending timers are cleared; nothing fires afterwards. */
    method Teardown()
      requires Valid()
      modifies this
      ensures Valid()
      ensures cleared && phase == old(phase) && now == old(now) && completions == old(completions)
    {
      cleared := true;
    }
  }

  /** The section: the drawingComplete and showExplosion states, the pending
      500 ms timers that show the explosion, and the calls of the parent's `onComplete`. */
  class RevealSection {
    var drawingComplete: bool
    var showExplosion: bool
    var pendingExplosionTimers: nat
    var parentNotified: nat

    /** The explosion is only scheduled after the drawing completes. */
    ghost predicate Valid()
      reads this
    {
      (showExplosion || pendingExplosionTimers > 0 || parentNotified > 0) ==> drawingComplete
    }

    /** The drawing canvas is shown until the drawing completes. */
    predicate CanvasShown()
      reads this
    {
      !drawingComplete
    }

    /** The "Magic unlocked!" message. */
    predicate UnlockedShown()
      reads this
    {
      drawingComplete && !showExplosion
    }

    constructor ()
      ensures Valid()
      ensures !drawingComplete && !showExplosion && pendingExplosionTimers == 0 && parentNotified == 0
    {
      drawingComplete, showExplosion, pendingExplosionTimers, parentNotified := false, false, 0, 0;
    }

    /** The canvas's `onComplete`: the drawing is complete and the explosion is
        scheduled 500 ms later. Every call schedules another timer. */
    method HandleDrawingComplete()
      requires Valid()
      modifies this
      ensures Valid()
      ensures drawingComplete && !CanvasShown()
      ensures pendingExplosionTimers == old(pendingExplosionTimers) + 1
      ensures showExplosion == old(showExplosion) && parentNotified == old(parentNotified)
    {
      drawingComplete := true;
      pendingExplosionTimers := pendingExplosionTimers + 1;
    }

    /** A 500 ms timer fires: the explosion shows. */
    method ExplosionTimerFires()
      requires Valid() && pendingExplosionTimers > 0
      modifies this
      ensures Valid()
      ensures showExplosion && !UnlockedShown() && drawingComplete
      ensures pendingExplosionTimers == old(pendingExplosionTimers) - 1
      ensures parentNotified == old(parentNotified)
    {
      showExplosion := true;
      pendingExplosionTimers := pendingExplosionTimers - 1;
    }

    /** The explosion's own `onComplete` (only while it is shown): it is hidden
        and the parent's `onComplete` is called. The "Magic unlocked!" message shows again. */
    method ExplosionFinished()
      requires Valid() && showExplosion
      modifies this
      ensures Valid()
      ensures !showExplosion && UnlockedShown()
      ensures parentNotified == old(parentNotified) + 1
      ensures drawingComplete && pendingExplosionTimers == old(pendingExplosionTimers)
    {
      showExplosion := false;
      parentNotified := parentNotified + 1;
    }
  }
}
