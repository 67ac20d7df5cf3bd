/**
 The per-face look-away rule of the head-pose detector.

 For every detected face the detector reads one yaw value and one clock
 reading and updates four tracking variables: a counter per side, the
 latched direction and the time of the last counted look-away. A look-away
 is counted only when the yaw is strictly beyond the threshold, points to a
 side other than the latched one, and strictly more than the cooldown has
 passed since the last counted look-away. A yaw inside the closed band only
 re-arms the latch; anything else is ignored.
 */
module Gaze {

  /** The direction the tracker has latched. */
  datatype Dir = Forward | Left | Right

  /** One detected face: the yaw of its rotation vector and the clock reading taken for it. */
  datatype FaceReading = FaceReading(yaw: real, time: real)

  /** The detector's tracking variables. */
  datatype Tracker = Tracker(leftCount: nat, rightCount: nat, lastDir: Dir, lastLookAwayTime: real)
  {
    /** Look-aways counted so far, on either side. */
    function Total(): nat {
      leftCount + rightCount
    }
  }

  /** Yaw magnitude beyond which the head counts as turned. */
  const Threshold: real := 0.2

  /** Seconds that must strictly elapse between two counted look-aways. */
  const CooldownPeriod: real := 1.0

  /** The tracker as the detector starts: nothing counted, facing forward, clock at `start`. */
  function Init(start: real): (t: Tracker)
    ensures t.Total() == 0 && t.lastDir == Forward
    ensures forall now :: !CooledDown(t, now) <==> now <= start + CooldownPeriod
  {
    Tracker(0, 0, Forward, start)
  }

  /** Where a yaw points; the band [-Threshold, Threshold] is forward (the comparisons are strict). */
  function Classify(yaw: real): Dir {
    if yaw > Threshold then Right
    else if yaw < -Threshold then Left
    else Forward
  }

  /** Strictly more than the cooldown has passed since the last counted look-away. */
  predicate CooledDown(t: Tracker, now: real) {
    now - t.lastLookAwayTime > CooldownPeriod
  }

  /** The event condition as a transition table: a turn to a side that is not latched, once cooled down. */
  predicate Fires(t: Tracker, yaw: real, now: real) {
    Classify(yaw) != Forward && Classify(yaw) != t.lastDir && CooledDown(t, now)
  }

  /**
   One pass of the per-face rule, branch for branch as the detector writes it.
   The contract characterises the result entirely through `Classify` and `Fires`.
   */
  function Step(t: Tracker, yaw: real, now: real): (t': Tracker)
    ensures t'.leftCount >= t.leftCount && t'.rightCount >= t.rightCount
    ensures t'.Total() <= t.Total() + 1
    ensures t'.Total() == t.Total() + 1 <==> Fires(t, yaw, now)
    ensures Fires(t, yaw, now) ==>
              && t'.lastDir == Classify(yaw)
              && t'.lastLookAwayTime == now
              && (Classify(yaw) == Right ==> t'.rightCount == t.rightCount + 1 && t'.leftCount == t.leftCount)
              && (Classify(yaw) == Left ==> t'.leftCount == t.leftCount + 1 && t'.rightCount == t.rightCount)
    ensures !Fires(t, yaw, now) ==>
              && t'.leftCount == t.leftCount
              && t'.rightCount == t.rightCount
              && t'.lastLookAwayTime == t.lastLookAwayTime
              && t'.lastDir == (if Classify(yaw) == Forward then Forward else t.lastDir)
  {
    if yaw > Threshold && t.lastDir != Right && now - t.lastLookAwayTime > CooldownPeriod then
      t.(rightCount := t.rightCount + 1, lastDir := Right, lastLookAwayTime := now)
    else if yaw < -Threshold && t.lastDir != Left && now - t.lastLookAwayTime > CooldownPeriod then
      t.(leftCount := t.leftCount + 1, lastDir := Left, lastLookAwayTime := now)
    else if -Threshold <= yaw <= Threshold then
      t.(lastDir := Forward)
    else
      t
  }

  /** A turn to the right, not latched right, after the cooldown: right count +1, latch right, clock moved. */
  lemma RightTurnCounts(t: Tracker, yaw: real, now: real)
    requires yaw > Threshold && t.lastDir != Right && CooledDown(t, now)
    ensures Step(t, yaw, now) == t.(rightCount := t.rightCount + 1, lastDir := Right, lastLookAwayTime := now)
  {
  }

  /** The mirror image for a turn to the left. */
  lemma LeftTurnCounts(t: Tracker, yaw: real, now: real)
    requires yaw < -Threshold && t.lastDir != Left && CooledDown(t, now)
    ensures Step(t, yaw, now) == t.(leftCount := t.leftCount + 1, lastDir := Left, lastLookAwayTime := now)
  {
  }

  /** A yaw in the closed band, the ends included, only re-arms the latch. */
  lemma BandOnlyResetsLatch(t: Tracker, yaw: real, now: real)
    requires -Threshold <= yaw <= Threshold
    ensures Step(t, yaw, now) == t.(lastDir := Forward)
    ensures Step(t, Threshold, now) == t.(lastDir := Forward)
    ensures Step(t, -Threshold, now) == t.(lastDir := Forward)
  {
  }

  /** Outside the band, a turn to the latched side or one inside the cooldown changes nothing at all. */
  lemma SuppressedTurnIsInert(t: Tracker, yaw: real, now: real)
    requires yaw > Threshold || yaw < -Threshold
    requires Classify(yaw) == t.lastDir || !CooledDown(t, now)
    ensures Step(t, yaw, now) == t
  {
  }

  /** Switching straight from one side to the other, with no forward reading between, still counts. */
  lemma DirectSwitchCounts(t: Tracker, yaw: real, now: real)
    requires t.lastDir != Forward && CooledDown(t, now)
    requires Classify(yaw) != Forward && Classify(yaw) != t.lastDir
    ensures Step(t, yaw, now).Total() == t.Total() + 1
    ensures Step(t, yaw, now).lastDir == Classify(yaw)
  {
  }
}
