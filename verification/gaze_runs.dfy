/**
 Runs of the head-pose detector: the per-face rule folded over the faces of a
 frame, and over a sequence of frames. A frame in which no face was detected
 is the empty sequence of readings.
 */
module GazeRuns {
  import opened Gaze

  /** The faces of one frame, processed in detection order. */
  function ProcessFaces(t: Tracker, faces: seq<FaceReading>): (t': Tracker)
    ensures t'.leftCount >= t.leftCount && t'.rightCount >= t.rightCount
    ensures t'.Total() <= t.Total() + |faces|
    decreases |faces|
  {
    if |faces| == 0 then t
    else ProcessFaces(Step(t, faces[0].yaw, faces[0].time), faces[1..])
  }

  /** The detector's frame loop over a sequence of frames. */
  function Monitor(t: Tracker, frames: seq<seq<FaceReading>>): (t': Tracker)
    ensures t'.leftCount >= t.leftCount && t'.rightCount >= t.rightCount
    ensures t'.Total() <= t.Total() + |Flatten(frames)|
    decreases |frames|
  {
    if |frames| == 0 then t
    else Monitor(ProcessFaces(t, frames[0]), frames[1..])
  }

  /** All readings of a sequence of frames, in order. */
  ghost function Flatten(frames: seq<seq<FaceReading>>): seq<FaceReading>
    decreases |frames|
  {
    if |frames| == 0 then [] else frames[0] + Flatten(frames[1..])
  }

  /** The frames in which at least one face was detected. */
  ghost function WithFaces(frames: seq<seq<FaceReading>>): seq<seq<FaceReading>>
    decreases |frames|
  {
    if |frames| == 0 then []
    else if |frames[0]| == 0 then WithFaces(frames[1..])
    else [frames[0]] + WithFaces(frames[1..])
  }

  /** The clock readings at which a look-away was counted, in order. */
  ghost function EventTimes(t: Tracker, faces: seq<FaceReading>): seq<real>
    decreases |faces|
  {
    if |faces| == 0 then []
    else
      (if Fires(t, faces[0].yaw, faces[0].time) then [faces[0].time] else [])
      + EventTimes(Step(t, faces[0].yaw, faces[0].time), faces[1..])
  }

  /** Every event lies strictly more than the cooldown after `since`, and after the event before it. */
  ghost predicate Spaced(since: real, times: seq<real>) {
    && (|times| > 0 ==> times[0] - since > CooldownPeriod)
    && forall i :: 0 <= i < |times| - 1 ==> times[i + 1] - times[i] > CooldownPeriod
  }

  /** How often the classification of the readings changes, starting from `prev`. */
  ghost function Changes(prev: Dir, faces: seq<FaceReading>): nat
    decreases |faces|
  {
    if |faces| == 0 then 0
    else (if Classify(faces[0].yaw) != prev then 1 else 0) + Changes(Classify(faces[0].yaw), faces[1..])
  }

  /** Processing readings in two pieces is processing them in one. */
  lemma {:induction false} ProcessFacesAppend(t: Tracker, a: seq<FaceReading>, b: seq<FaceReading>)
    ensures ProcessFaces(t, a + b) == ProcessFaces(ProcessFaces(t, a), b)
    decreases |a|
  {
    if |a| > 0 {
      assert (a + b)[1..] == a[1..] + b;
      ProcessFacesAppend(Step(t, a[0].yaw, a[0].time), a[1..], b);
    } else {
      assert a + b == b;
    }
  }

  /** Frame boundaries do not matter: monitoring frames is processing all their readings in order. */
  lemma {:induction false} MonitorIsFlatRun(t: Tracker, frames: seq<seq<FaceReading>>)
    ensures Monitor(t, frames) == ProcessFaces(t, Flatten(frames))
    decreases |frames|
  {
    if |frames| > 0 {
      MonitorIsFlatRun(ProcessFaces(t, frames[0]), frames[1..]);
      ProcessFacesAppend(t, frames[0], Flatten(frames[1..]));
    }
  }

  /** Frames without a detected face leave every tracking variable as it was. */
  lemma {:induction false} FacelessFramesIgnored(t: Tracker, frames: seq<seq<FaceReading>>)
    ensures Monitor(t, frames) == Monitor(t, WithFaces(frames))
    decreases |frames|
  {
    if |frames| > 0 {
      if |frames[0]| == 0 {
        FacelessFramesIgnored(t, frames[1..]);
      } else {
        var w := [frames[0]] + WithFaces(frames[1..]);
        assert w[0] == frames[0] && w[1..] == WithFaces(frames[1..]);
        FacelessFramesIgnored(ProcessFaces(t, frames[0]), frames[1..]);
      }
    }
  }

  /** One clock reading is recorded per counted look-away. */
  lemma {:induction false} EventCount(t: Tracker, faces: seq<FaceReading>)
    ensures |EventTimes(t, faces)| == ProcessFaces(t, faces).Total() - t.Total()
    decreases |faces|
  {
    if |faces| > 0 {
      EventCount(Step(t, faces[0].yaw, faces[0].time), faces[1..]);
    }
  }

  /** After a run, the last-look-away clock is the last event time, or untouched when nothing was counted. */
  lemma {:induction false} LastEventIsClock(t: Tracker, faces: seq<FaceReading>)
    ensures var es := EventTimes(t, faces);
            ProcessFaces(t, faces).lastLookAwayTime == if |es| == 0 then t.lastLookAwayTime else es[|es| - 1]
    decreases |faces|
  {
    if |faces| > 0 {
      LastEventIsClock(Step(t, faces[0].yaw, faces[0].time), faces[1..]);
    }
  }

  /**
   Any two consecutive counted look-aways are strictly more than the cooldown
   apart, and the first lies strictly more than the cooldown after the clock
   the run starts from. No ordering of the clock readings is needed.
   */
  lemma {:induction false} EventSpacing(t: Tracker, faces: seq<FaceReading>)
    ensures Spaced(t.lastLookAwayTime, EventTimes(t, faces))
    decreases |faces|
  {
    if |faces| > 0 {
      var t' := Step(t, faces[0].yaw, faces[0].time);
      var rest := EventTimes(t', faces[1..]);
      EventSpacing(t', faces[1..]);
      if Fires(t, faces[0].yaw, faces[0].time) {
        var es := [faces[0].time] + rest;
        assert EventTimes(t, faces) == es;
        forall i | 0 <= i < |es| - 1
          ensures es[i + 1] - es[i] > CooldownPeriod
        {
          if i > 0 {
            assert es[i + 1] == rest[i] && es[i] == rest[i - 1];
          }
        }
      }
    }
  }

  /** Counted look-aways never outnumber the classification changes, with one credit if the latch differs from `prev`. */
  lemma {:induction false} EventsBoundedByChangesFrom(t: Tracker, prev: Dir, faces: seq<FaceReading>)
    ensures |EventTimes(t, faces)| <= Changes(prev, faces) + (if t.lastDir == prev then 0 else 1)
    decreases |faces|
  {
    if |faces| > 0 {
      var c := Classify(faces[0].yaw);
      var t' := Step(t, faces[0].yaw, faces[0].time);
      EventsBoundedByChangesFrom(t', c, faces[1..]);
    }
  }

  /** A run counts at most as many look-aways as there are direction changes, measured from the latched direction. */
  lemma EventsBoundedByChanges(t: Tracker, faces: seq<FaceReading>)
    ensures ProcessFaces(t, faces).Total() - t.Total() <= Changes(t.lastDir, faces)
  {
    EventCount(t, faces);
    EventsBoundedByChangesFrom(t, t.lastDir, faces);
  }

  /** Nothing can be counted until strictly more than the cooldown after the detector starts. */
  lemma {:induction false} NoEarlyLookAway(start: real, faces: seq<FaceReading>)
    requires forall i :: 0 <= i < |faces| ==> faces[i].time <= start + CooldownPeriod
    ensures ProcessFaces(Init(start), faces) == Init(start)
    decreases |faces|
  {
    if |faces| > 0 {
      assert Step(Init(start), faces[0].yaw, faces[0].time) == Init(start);
      NoEarlyLookAway(start, faces[1..]);
    }
  }

  /** Spacing holds across frame boundaries too. */
  lemma MonitorEventSpacing(t: Tracker, frames: seq<seq<FaceReading>>)
    ensures Spaced(t.lastLookAwayTime, EventTimes(t, Flatten(frames)))
    ensures |EventTimes(t, Flatten(frames))| == Monitor(t, frames).Total() - t.Total()
  {
    EventSpacing(t, Flatten(frames));
    EventCount(t, Flatten(frames));
    MonitorIsFlatRun(t, frames);
  }

  /** From any start, a right turn then a left turn, each past the cooldown, count once each. */
  lemma OppositeTurnsBothCount(start: real)
    ensures var t := ProcessFaces(Init(start), [FaceReading(0.3, start + 1.5), FaceReading(-0.3, start + 2.6)]);
            t.leftCount == 1 && t.rightCount == 1
  {
    var faces := [FaceReading(0.3, start + 1.5), FaceReading(-0.3, start + 2.6)];
    var t1 := Tracker(0, 1, Right, start + 1.5);
    RightTurnCounts(Init(start), 0.3, start + 1.5);
    var t2 := Tracker(1, 1, Left, start + 2.6);
    LeftTurnCounts(t1, -0.3, start + 2.6);
    calc {
      ProcessFaces(Init(start), faces);
      ProcessFaces(t1, faces[1..]);
      ProcessFaces(t2, faces[2..]);
      t2;
    }
  }

  /** From any start, two right turns half a second apart count once, even with a forward reading between them. */
  lemma QuickRepeatCountsOnce(start: real)
    ensures var t := ProcessFaces(Init(start), [FaceReading(0.3, start + 1.5), FaceReading(0.0, start + 1.7), FaceReading(0.3, start + 2.0)]);
            t.rightCount == 1 && t.leftCount == 0
  {
    var faces := [FaceReading(0.3, start + 1.5), FaceReading(0.0, start + 1.7), FaceReading(0.3, start + 2.0)];
    var t1 := Tracker(0, 1, Right, start + 1.5);
    RightTurnCounts(Init(start), 0.3, start + 1.5);
    var t2 := Tracker(0, 1, Forward, start + 1.5);
    BandOnlyResetsLatch(t1, 0.0, start + 1.7);
    SuppressedTurnIsInert(t2, 0.3, start + 2.0);
    calc {
      ProcessFaces(Init(start), faces);
      ProcessFaces(t1, faces[1..]);
      ProcessFaces(t2, faces[2..]);
      ProcessFaces(t2, faces[3..]);
      t2;
    }
  }
}
