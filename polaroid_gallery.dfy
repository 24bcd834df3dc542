/** Chapter five: five polaroids that flip on tap, and a hidden sixth one
    revealed by shaking the device (or tapping, on devices without motion
    sensors) five times.

    `ShakeToReveal` compares every motion sample with the previous one: a
    jump of more than 30 in the summed absolute differences is a spike.
    Spikes and fallback taps share one counter, and the reveal callback fires
    on every increment that brings the count to 5 or more. */
module PolaroidGallery {
  import opened Lists

  /** An acceleration reading (`accelerationIncludingGravity`). */
  datatype Accel = Accel(x: real, y: real, z: real)

  const SpikeThreshold: real := 30.0
  const RevealShakes: nat := 5
  const DotCount: nat := 5
  const PhotoCount: nat := 5

  function Abs(r: real): (a: real)
    ensures a >= 0.0 && (a == r || a == -r)
  {
    if r < 0.0 then -r else r
  }

  /** A missing reading counts as all zeros. */
  function ReadingOf(reading: Option<Accel>): (a: Accel)
    ensures reading.Some? ==> a == reading.value
    ensures reading.None? ==> a == Accel(0.0, 0.0, 0.0)
  {
    match reading
    case Some(v) => v
    case None => Accel(0.0, 0.0, 0.0)
  }

  /** The L1 distance between two consecutive samples. */
  function Jolt(prev: Accel, cur: Accel): (d: real)
    ensures d >= 0.0
    ensures d == 0.0 <==> prev == cur
    ensures d >= Abs(cur.x - prev.x) && d >= Abs(cur.y - prev.y) && d >= Abs(cur.z - prev.z)
  {
    Abs(cur.x - prev.x) + Abs(cur.y - prev.y) + Abs(cur.z - prev.z)
  }

  /** A spike: the jolt strictly exceeds 30. */
  predicate IsSpike(prev: Accel, cur: Accel) {
    Jolt(prev, cur) > SpikeThreshold
  }

  /** The spike test does not depend on the direction of the change; an
      unchanged reading is never a spike, and a single-axis jump above 30 always is. */
  lemma SpikeFacts(prev: Accel, cur: Accel)
    ensures IsSpike(prev, cur) <==> IsSpike(cur, prev)
    ensures prev == cur ==> !IsSpike(prev, cur)
    ensures Abs(cur.x - prev.x) > SpikeThreshold ==> IsSpike(prev, cur)
  {
  }

  /** Whether an increment that brings the counter to `newCount` calls `onShake`. */
  predicate FiresOnShake(newCount: nat) {
    newCount >= RevealShakes
  }

  /** The `onShake` decisions of n counted shakes (spikes or taps) in a row,
      starting from a count of `start`: entry k belongs to the shake that
      brings the count to start + k + 1. */
  function FiringsAfter(start: nat, n: nat): (r: seq<bool>)
    ensures |r| == n
    decreases n
  {
    if n == 0 then [] else [FiresOnShake(start + 1)] + FiringsAfter(start + 1, n - 1)
  }

  /** Shake k of the run (counting from 0) calls `onShake` exactly when it
      brings the count to 5 or more: from a fresh widget the first four never
      do and every later one does. */
  lemma {:induction false} NthShakeFires(start: nat, n: nat)
    ensures forall k :: 0 <= k < n ==> (FiringsAfter(start, n)[k] <==> start + k + 1 >= RevealShakes)
    decreases n
  {
    if n > 0 {
      NthShakeFires(start + 1, n - 1);
      var r := FiringsAfter(start, n);
      assert r[1..] == FiringsAfter(start + 1, n - 1);
    }
  }

  /** One more shake extends the run by its own decision. */
  lemma {:induction false} FiringsAfterSnoc(start: nat, n: nat)
    ensures FiringsAfter(start, n + 1) == FiringsAfter(start, n) + [FiresOnShake(start + n + 1)]
    decreases n
  {
    if n > 0 {
      FiringsAfterSnoc(start + 1, n - 1);
    }
  }

  /** The shake-to-reveal widget: the shakeCount, lastAccel and isShaking states.
      `pendingShakeClears` counts the 200 ms timers that will clear isShaking;
      `firings` records, as ghost state, every `onShake` decision so far. */
  class ShakeToReveal {
    var shakeCount: nat
    var lastAccel: Accel
    var isShaking: bool
    var pendingShakeClears: nat
    ghost var firings: seq<bool>

    /** Every spike or tap schedules one clearing timer, so the widget is
        shaking only while one is pending; the decisions so far are those of
        shakeCount shakes from zero. */
    ghost predicate Valid()
      reads this
    {
      (isShaking ==> pendingShakeClears > 0) && firings == FiringsAfter(0, shakeCount)
    }

    /** Dot i of the five progress dots is filled once more than i shakes are counted. */
    predicate DotFilled(i: nat)
      requires i < DotCount
      reads this
    {
      i < shakeCount
    }

    constructor ()
      ensures Valid()
      ensures shakeCount == 0 && lastAccel == Accel(0.0, 0.0, 0.0) && !isShaking && pendingShakeClears == 0
      ensures firings == []
    {
      shakeCount, lastAccel, isShaking, pendingShakeClears := 0, Accel(0.0, 0.0, 0.0), false, 0;
      firings := [];
    }

    /** A `devicemotion` sample: a spike against the previous sample counts one
        shake; the sample then becomes the previous one, spike or not.
        Returns whether `onShake` is called. */
    method HandleMotion(reading: Option<Accel>) returns (shake: bool)
      requires Valid()
      modifies this
      ensures Valid()
      ensures lastAccel == ReadingOf(reading)
      ensures IsSpike(old(lastAccel), ReadingOf(reading)) ==>
        && shakeCount == old(shakeCount) + 1
        && isShaking && pendingShakeClears == old(pendingShakeClears) + 1
        && shake == FiresOnShake(shakeCount)
        && firings == old(firings) + [shake]
      ensures !IsSpike(old(lastAccel), ReadingOf(reading)) ==>
        && !shake && shakeCount == old(shakeCount)
        && isShaking == old(isShaking) && pendingShakeClears == old(pendingShakeClears)
        && firings == old(firings)
    {
      var cur := ReadingOf(reading);
      shake := false;
      if Jolt(lastAccel, cur) > SpikeThreshold {
        FiringsAfterSnoc(0, shakeCount);
        isShaking := true;
        shakeCount := shakeCount + 1;
        shake := shakeCount >= RevealShakes;
        pendingShakeClears := pendingShakeClears + 1;
        firings := firings + [shake];
      }
      lastAccel := cur;
    }

    /** The fallback tap: exactly one shake. Returns whether `onShake` is called. */
    method HandleClick() returns (shake: bool)
      requires Valid()
      modifies this
      ensures Valid()
      ensures shakeCount == old(shakeCount) + 1 && shake == FiresOnShake(shakeCount)
      ensures isShaking && pendingShakeClears == old(pendingShakeClears) + 1
      ensures lastAccel == old(lastAccel) && firings == old(firings) + [shake]
    {
      FiringsAfterSnoc(0, shakeCount);
      isShaking := true;
      shakeCount := shakeCount + 1;
      shake := shakeCount >= RevealShakes;
      pendingShakeClears := pendingShakeClears + 1;
      firings := firings + [shake];
    }

    /** One of the 200 ms timers fires and clears isShaking. */
    method ShakeTimerFires()
      requires Valid() && pendingShakeClears > 0
      modifies this
      ensures Valid()
      ensures !isShaking && pendingShakeClears == old(pendingShakeClears) - 1
      ensures shakeCount == old(shakeCount) && lastAccel == old(lastAccel) && firings == old(firings)
    {
      isShaking := false;
      pendingShakeClears := pendingShakeClears - 1;
    }

    /** Over the widget's whole life, counted shake k (from 0, spike or tap)
        called `onShake` exactly when it was the fifth or a later one. */
    lemma OnShakeFromFifth()
      requires Valid()
      ensures |firings| == shakeCount
      ensures forall k :: 0 <= k < |firings| ==> (firings[k] <==> k + 1 >= RevealShakes)
    {
      NthShakeFires(0, shakeCount);
    }
  }

  /** A polaroid's id: one of the five photos (ids 1..5) or the hidden one. */
  datatype CardId = Photo(n: int) | HiddenPhoto

  /** `handleFlip`: removes the id from the flipped list if it is there,
      appends it otherwise. */
  function Toggle(flipped: seq<CardId>, id: CardId): (r: seq<CardId>)
    ensures id in r <==> id !in flipped
    ensures forall i :: 0 <= i < |flipped| && flipped[i] != id ==> flipped[i] in r
    ensures forall i :: 0 <= i < |r| && r[i] != id ==> r[i] in flipped
    ensures Distinct(flipped) ==> Distinct(r)
    ensures Distinct(flipped) ==> |r| == if id in flipped then |flipped| - 1 else |flipped| + 1
  {
    if id in flipped then
      RemoveFromDistinctIfAny(flipped, id);
      RemoveAll(flipped, id)
    else
      AppendFresh(flipped, id);
      flipped + [id]
  }

  lemma RemoveFromDistinctIfAny(s: seq<CardId>, x: CardId)
    ensures Distinct(s) ==> Distinct(RemoveAll(s, x)) && |RemoveAll(s, x)| == if x in s then |s| - 1 else |s|
  {
    if Distinct(s) {
      RemoveFromDistinct(s, x);
    }
  }

  /** Flipping an unflipped card and flipping it back restores the list exactly. */
  lemma ToggleTwiceFromAbsent(flipped: seq<CardId>, id: CardId)
    requires id !in flipped
    ensures Toggle(Toggle(flipped, id), id) == flipped
  {
    RemoveAppended(flipped, id);
  }

  lemma {:induction false} RemoveAppended(s: seq<CardId>, x: CardId)
    requires x !in s
    ensures RemoveAll(s + [x], x) == s
  {
    if s == [] {
      assert [] + [x] == [x];
      assert [x][1..] == [];
    } else {
      assert (s + [x])[1..] == s[1..] + [x];
      RemoveAppended(s[1..], x);
    }
  }

  /** Flipping twice always restores which cards are flipped and how many. */
  lemma ToggleTwiceRestoresMembership(flipped: seq<CardId>, id: CardId, other: CardId)
    requires Distinct(flipped)
    ensures other in Toggle(Toggle(flipped, id), id) <==> other in flipped
    ensures |Toggle(Toggle(flipped, id), id)| == |flipped|
  {
    var once := Toggle(flipped, id);
    if other != id {
      if other in flipped {
        var i :| 0 <= i < |flipped| && flipped[i] == other;
        var j :| 0 <= j < |once| && once[j] == other;
      }
      if other in Toggle(once, id) {
        var i :| 0 <= i < |Toggle(once, id)| && Toggle(once, id)[i] == other;
        var j :| 0 <= j < |once| && once[j] == other;
      }
    }
  }

  /** It does not restore the order: a card flipped back moves to the end. */
  lemma ToggleTwiceReordersPresent()
    ensures Toggle(Toggle([Photo(1), Photo(2)], Photo(1)), Photo(1)) == [Photo(2), Photo(1)]
  {
    assert RemoveAll([Photo(1), Photo(2)], Photo(1)) == [Photo(2)] by {
      assert [Photo(1), Photo(2)][1..] == [Photo(2)];
      assert [Photo(2)][1..] == [];
    }
  }

  /** A card's position in the counter: photos 1..5, the hidden one 6. */
  function CardIndex(c: CardId): int {
    match c
    case Photo(n) => n
    case HiddenPhoto => PhotoCount + 1
  }

  predicate ShownCard(c: CardId, hiddenRevealed: bool) {
    match c
    case Photo(n) => 1 <= n <= PhotoCount
    case HiddenPhoto => hiddenRevealed
  }

  /** The gallery's state: the flipped cards and whether the hidden polaroid is revealed. */
  class Gallery {
    var flippedCards: seq<CardId>
    var hiddenRevealed: bool

    /** Only cards on display can be flipped, each at most once in the list. */
    ghost predicate Valid()
      reads this
    {
      Distinct(flippedCards) &&
      forall i :: 0 <= i < |flippedCards| ==> ShownCard(flippedCards[i], hiddenRevealed)
    }

    /** The shake widget stands in for the hidden polaroid until it is revealed. */
    predicate ShakeWidgetShown()
      reads this
    {
      !hiddenRevealed
    }

    /** The total in "n / total messages revealed". */
    function CounterTotal(): nat
      reads this
    {
      if hiddenRevealed then PhotoCount + 1 else PhotoCount
    }

    constructor ()
      ensures Valid() && flippedCards == [] && !hiddenRevealed
    {
      flippedCards, hiddenRevealed := [], false;
    }

    /** Tapping a polaroid on display flips it. */
    method HandleFlip(id: CardId)
      requires Valid() && ShownCard(id, hiddenRevealed)
      modifies this
      ensures Valid()
      ensures flippedCards == Toggle(old(flippedCards), id) && hiddenRevealed == old(hiddenRevealed)
    {
      flippedCards := Toggle(flippedCards, id);
    }

    /** The widget's `onShake`: the hidden polaroid replaces the widget, for good. */
    method RevealHidden()
      requires Valid()
      modifies this
      ensures Valid()
      ensures hiddenRevealed && !ShakeWidgetShown() && flippedCards == old(flippedCards)
    {
      hiddenRevealed := true;
    }

    /** The counter never exceeds its total, and reaches it exactly when every
        polaroid on display is flipped. */
    lemma CounterWithinTotal()
      requires Valid()
      ensures |flippedCards| <= CounterTotal()
      ensures |flippedCards| == CounterTotal() <==>
        forall n :: 1 <= n <= CounterTotal() ==> CardOf(n) in flippedCards
    {
      var cards := flippedCards;
      var indices := seq(|cards|, i requires 0 <= i < |cards| => CardIndex(cards[i]));
      forall i | 0 <= i < |cards|
        ensures indices[i] == CardIndex(cards[i]) && 1 <= indices[i] <= CounterTotal()
        ensures CardOf(indices[i]) == cards[i]
      {
        assert ShownCard(cards[i], hiddenRevealed);
      }
      assert Distinct(indices) by {
        forall i, j | 0 <= i < j < |indices| ensures indices[i] != indices[j] {
          assert cards[i] != cards[j];
          assert CardOf(indices[i]) == cards[i] && CardOf(indices[j]) == cards[j];
        }
      }
      DistinctIdsBounded(indices, CounterTotal());
      forall n | 1 <= n <= CounterTotal() ensures CardOf(n) in cards <==> n in indices {
        if CardOf(n) in cards {
          var i :| 0 <= i < |cards| && cards[i] == CardOf(n);
          assert indices[i] == n;
        }
        if n in indices {
          var i :| 0 <= i < |indices| && indices[i] == n;
          assert cards[i] == CardOf(n);
        }
      }
    }
  }

  /** The card at counter position n. */
  function CardOf(n: int): (c: CardId)
    ensures 1 <= n <= PhotoCount + 1 ==> CardIndex(c) == n
  {
    if n == PhotoCount + 1 then HiddenPhoto else Photo(n)
  }
}
