/**
 * The gesture recogniser (src/lib/hand-tracking.ts): a process-wide session that,
 * once per animation frame, turns the landmarks of one detected hand into a cursor,
 * a pinch flag with hysteresis, an open-palm flag and a wrist velocity taken from
 * a bounded buffer of recent wrist heights.
 *
 * Landmark coordinates are reals. The landmark model, the camera and the video
 * element are inputs: a detection result per frame and an abstract start outcome.
 * The pinch test compares the squared thumb-index distance with the squared
 * thresholds, which for a non-negative distance is the same test without a root.
 */
module HandTracking {
  import opened Wrappers

  datatype Landmark = Landmark(x: real, y: real, z: real)

  datatype Point = Point(x: real, y: real)

  /** What one processed frame reports. */
  datatype HandState = HandState(
    cursorX: real,
    cursorY: real,
    screenX: real,
    screenY: real,
    isPinching: bool,
    isOpenPalm: bool,
    wristVelocityY: real,
    landmarks: Option<seq<Point>>,
    detected: bool)

  /** The part of a HandState computed from the landmarks alone. */
  datatype Gestures = Gestures(
    cursorX: real,
    cursorY: real,
    isPinching: bool,
    isOpenPalm: bool,
    wristVelocityY: real)

  const PINCH_THRESHOLD_ON: real := 0.045
  const PINCH_THRESHOLD_OFF: real := 0.065
  const WRIST_HISTORY_SIZE: nat := 8

  /** A hand has 21 landmarks; the recogniser reads indices 0 to 20. */
  const LANDMARK_COUNT: nat := 21
  const WRIST: nat := 0
  const THUMB_TIP: nat := 4
  const INDEX_TIP: nat := 8
  const TIP_INDICES: seq<nat> := [4, 8, 12, 16, 20]
  const MCP_INDICES: seq<nat> := [2, 5, 9, 13, 17]

  /** The video readyState from which a decoded frame is available. */
  const HAVE_CURRENT_DATA: int := 2

  /** The state reported for a frame with no hand in it. */
  const NO_HAND: HandState := HandState(0.0, 0.0, 0.0, 0.0, false, false, 0.0, None, false)

  // ---------------------------------------------------------------------------
  // Pinch with hysteresis
  // ---------------------------------------------------------------------------

  /** Squared 3D distance between thumb tip and index tip. */
  function PinchDistanceSquared(lm: seq<Landmark>): (d2: real)
    requires |lm| >= LANDMARK_COUNT
    ensures d2 >= 0.0
  {
    var dx := lm[THUMB_TIP].x - lm[INDEX_TIP].x;
    var dy := lm[THUMB_TIP].y - lm[INDEX_TIP].y;
    var dz := lm[THUMB_TIP].z - lm[INDEX_TIP].z;
    dx * dx + dy * dy + dz * dz
  }

  /** The pinch flag for this frame, given the previous frame's flag. */
  function NextPinch(wasPinching: bool, d2: real): (pinching: bool)
    ensures d2 < PINCH_THRESHOLD_ON * PINCH_THRESHOLD_ON ==> pinching
    ensures d2 >= PINCH_THRESHOLD_OFF * PINCH_THRESHOLD_OFF ==> !pinching
    ensures PINCH_THRESHOLD_ON * PINCH_THRESHOLD_ON <= d2 < PINCH_THRESHOLD_OFF * PINCH_THRESHOLD_OFF ==>
      pinching == wasPinching
  {
    if wasPinching then d2 < PINCH_THRESHOLD_OFF * PINCH_THRESHOLD_OFF
    else d2 < PINCH_THRESHOLD_ON * PINCH_THRESHOLD_ON
  }

  /** For a non-negative distance, comparing squares is comparing distances. */
  lemma SquaredComparisonAgrees(d: real, t: real)
    requires d >= 0.0 && t > 0.0
    ensures d * d < t * t <==> d < t
  {
    if d < t {
      assert d * t - d * d == d * (t - d) >= 0.0;
      assert t * t - d * t == t * (t - d) > 0.0;
    } else {
      assert d * d - t * d == d * (d - t) >= 0.0;
      assert t * d - t * t == t * (d - t) >= 0.0;
    }
  }

  /** History only matters inside the band: below ON always pinching, at or above OFF never. */
  lemma PinchOutsideBandIgnoresHistory(d2: real)
    ensures d2 < PINCH_THRESHOLD_ON * PINCH_THRESHOLD_ON ==> NextPinch(true, d2) && NextPinch(false, d2)
    ensures d2 >= PINCH_THRESHOLD_OFF * PINCH_THRESHOLD_OFF ==> !NextPinch(true, d2) && !NextPinch(false, d2)
    ensures PINCH_THRESHOLD_ON * PINCH_THRESHOLD_ON <= d2 < PINCH_THRESHOLD_OFF * PINCH_THRESHOLD_OFF ==>
      NextPinch(true, d2) && !NextPinch(false, d2)
  {
  }

  /** The pinch flag after a run of frames with squared distances ds. */
  function PinchRun(wasPinching: bool, ds: seq<real>): bool
    decreases |ds|
  {
    if ds == [] then wasPinching else PinchRun(NextPinch(wasPinching, ds[0]), ds[1..])
  }

  lemma {:induction false} PinchRunLast(wasPinching: bool, ds: seq<real>)
    requires ds != []
    ensures PinchRun(wasPinching, ds) == NextPinch(PinchRun(wasPinching, ds[..|ds| - 1]), ds[|ds| - 1])
    decreases |ds|
  {
    if |ds| > 1 {
      PinchRunLast(NextPinch(wasPinching, ds[0]), ds[1..]);
      assert ds[1..][..|ds| - 2] == ds[..|ds| - 1][1..];
    }
  }

  /** A pinch is held for as long as the distance stays below the OFF threshold. */
  lemma {:induction false} PinchHeldBelowOff(ds: seq<real>)
    requires forall k :: 0 <= k < |ds| ==> ds[k] < PINCH_THRESHOLD_OFF * PINCH_THRESHOLD_OFF
    ensures PinchRun(true, ds)
    decreases |ds|
  {
    if ds != [] {
      PinchHeldBelowOff(ds[1..]);
    }
  }

  /** Dropping below ON engages the pinch, whatever came before, and it then holds below OFF. */
  lemma PinchEngagesThenHolds(wasPinching: bool, ds: seq<real>)
    requires |ds| > 0 && ds[0] < PINCH_THRESHOLD_ON * PINCH_THRESHOLD_ON
    requires forall k :: 1 <= k < |ds| ==> ds[k] < PINCH_THRESHOLD_OFF * PINCH_THRESHOLD_OFF
    ensures PinchRun(wasPinching, ds)
  {
    assert NextPinch(wasPinching, ds[0]);
    PinchHeldBelowOff(ds[1..]);
  }

  /** Without a pinch, distances at or above ON never engage one. */
  lemma {:induction false} NoPinchAboveOn(ds: seq<real>)
    requires forall k :: 0 <= k < |ds| ==> ds[k] >= PINCH_THRESHOLD_ON * PINCH_THRESHOLD_ON
    ensures !PinchRun(false, ds)
    decreases |ds|
  {
    if ds != [] {
      NoPinchAboveOn(ds[1..]);
    }
  }

  /** A frame at or above OFF clears the pinch, whatever the history. */
  lemma PinchClearsAtOff(wasPinching: bool, ds: seq<real>)
    requires |ds| > 0 && ds[|ds| - 1] >= PINCH_THRESHOLD_OFF * PINCH_THRESHOLD_OFF
    ensures !PinchRun(wasPinching, ds)
  {
    PinchRunLast(wasPinching, ds);
  }

  // ---------------------------------------------------------------------------
  // Open palm
  // ---------------------------------------------------------------------------

  /** Every fingertip is above (smaller y than) its paired knuckle. */
  function IsOpenPalm(lm: seq<Landmark>): bool
    requires |lm| >= LANDMARK_COUNT
  {
    forall k :: 0 <= k < |TIP_INDICES| ==> lm[TIP_INDICES[k]].y < lm[MCP_INDICES[k]].y
  }

  /** Open palm holds exactly when tips 4, 8, 12, 16, 20 are above joints 2, 5, 9, 13, 17. */
  lemma OpenPalmPairs(lm: seq<Landmark>)
    requires |lm| >= LANDMARK_COUNT
    ensures IsOpenPalm(lm) <==>
      && lm[4].y < lm[2].y
      && lm[8].y < lm[5].y
      && lm[12].y < lm[9].y
      && lm[16].y < lm[13].y
      && lm[20].y < lm[17].y
  {
    if lm[4].y < lm[2].y && lm[8].y < lm[5].y && lm[12].y < lm[9].y && lm[16].y < lm[13].y && lm[20].y < lm[17].y {
      forall k | 0 <= k < |TIP_INDICES|
        ensures lm[TIP_INDICES[k]].y < lm[MCP_INDICES[k]].y
      {
        assert k == 0 || k == 1 || k == 2 || k == 3 || k == 4;
      }
    }
    if IsOpenPalm(lm) {
      assert TIP_INDICES[0] == 4 && MCP_INDICES[0] == 2;
      assert TIP_INDICES[1] == 8 && MCP_INDICES[1] == 5;
      assert TIP_INDICES[2] == 12 && MCP_INDICES[2] == 9;
      assert TIP_INDICES[3] == 16 && MCP_INDICES[3] == 13;
      assert TIP_INDICES[4] == 20 && MCP_INDICES[4] == 17;
    }
  }

  // ---------------------------------------------------------------------------
  // Wrist buffer and velocity
  // ---------------------------------------------------------------------------

  /** Appends a wrist height and evicts the oldest one when the buffer overflows. */
  function PushWrist(h: seq<real>, y: real): (r: seq<real>)
    ensures |h| < WRIST_HISTORY_SIZE ==> r == h + [y]
    ensures |h| == WRIST_HISTORY_SIZE ==> r == h[1..] + [y]
    ensures |h| <= WRIST_HISTORY_SIZE ==> 0 < |r| <= WRIST_HISTORY_SIZE
  {
    var pushed := h + [y];
    if |pushed| > WRIST_HISTORY_SIZE then pushed[1..] else pushed
  }

  /** The buffer after pushing ys, one at a time, onto h. */
  function PushAll(h: seq<real>, ys: seq<real>): seq<real>
    decreases |ys|
  {
    if ys == [] then h else PushWrist(PushAll(h, ys[..|ys| - 1]), ys[|ys| - 1])
  }

  function Min(a: int, b: int): int
  {
    if a <= b then a else b
  }

  /** The last min(|s|, WRIST_HISTORY_SIZE) elements of s, in order. */
  function Recent(s: seq<real>): seq<real>
  {
    s[|s| - Min(|s|, WRIST_HISTORY_SIZE)..]
  }

  /**
   * Starting from a buffer of at most eight heights, the buffer always holds the
   * most recent samples of everything pushed, in arrival order, at most eight of them.
   */
  lemma {:induction false} BufferHoldsRecentSamples(h: seq<real>, ys: seq<real>)
    requires |h| <= WRIST_HISTORY_SIZE
    ensures PushAll(h, ys) == Recent(h + ys)
    decreases |ys|
  {
    if ys != [] {
      var init, y := ys[..|ys| - 1], ys[|ys| - 1];
      BufferHoldsRecentSamples(h, init);
      assert h + ys == (h + init) + [y];
      var s := h + init;
      if |s| < WRIST_HISTORY_SIZE {
        assert Recent(s) == s;
      } else {
        assert Recent(s)[1..] + [y] == Recent(s + [y]);
      }
    }
  }

  /** Finite-difference velocity over the buffer: (newest - oldest) / (length - 1). */
  function WristVelocity(h: seq<real>): (v: real)
    ensures |h| < 2 ==> v == 0.0
  {
    if |h| >= 2 then (h[|h| - 1] - h[0]) / ((|h| - 1) as real) else 0.0
  }

  ghost predicate StrictlyDecreasing(s: seq<real>)
  {
    forall i, j :: 0 <= i < j < |s| ==> s[i] > s[j]
  }

  /** A hand that keeps rising on screen (y decreasing) has a negative velocity. */
  lemma DecreasingGivesNegativeVelocity(h: seq<real>)
    requires |h| >= 2 && StrictlyDecreasing(h)
    ensures WristVelocity(h) < 0.0
  {
    assert h[|h| - 1] - h[0] < 0.0;
  }

  /**
   * From a buffer of at most eight heights, any stream of pushes gives the velocity of
   * the last min(n, 8) heights seen: (newest - oldest of them) / (count - 1), or 0 when
   * fewer than two; with at least eight, (last - eighth from last) / 7.
   */
  lemma VelocityOfStream(h: seq<real>, ys: seq<real>)
    requires |h| <= WRIST_HISTORY_SIZE
    ensures var s, n := h + ys, Min(|h + ys|, WRIST_HISTORY_SIZE);
      WristVelocity(PushAll(h, ys)) == if n >= 2 then (s[|s| - 1] - s[|s| - n]) / ((n - 1) as real) else 0.0
    ensures var s := h + ys;
      |s| >= WRIST_HISTORY_SIZE ==> WristVelocity(PushAll(h, ys)) == (s[|s| - 1] - s[|s| - 8]) / 7.0
  {
    BufferHoldsRecentSamples(h, ys);
    var s := h + ys;
    var r := Recent(s);
    var n := Min(|s|, WRIST_HISTORY_SIZE);
    assert |r| == n;
    if n >= 2 {
      assert r[0] == s[|s| - n] && r[n - 1] == s[|s| - 1];
    }
  }

  /**
   * After a reset, a strictly decreasing stream of at least eight heights gives the
   * velocity of its last eight samples: (last - eighth from last) / 7, which is negative.
   */
  lemma VelocityOfDecreasingStream(ys: seq<real>)
    requires |ys| >= WRIST_HISTORY_SIZE && StrictlyDecreasing(ys)
    ensures WristVelocity(PushAll([], ys)) == (ys[|ys| - 1] - ys[|ys| - 8]) / 7.0
    ensures WristVelocity(PushAll([], ys)) < 0.0
  {
    VelocityAfterReset(ys);
    assert ys[|ys| - 1] < ys[|ys| - 8];
  }

  lemma VelocityAfterReset(ys: seq<real>)
    requires |ys| >= WRIST_HISTORY_SIZE
    ensures WristVelocity(PushAll([], ys)) == (ys[|ys| - 1] - ys[|ys| - 8]) / 7.0
  {
    assert [] + ys == ys;
    VelocityOfStream([], ys);
  }

  // ---------------------------------------------------------------------------
  // Reported state
  // ---------------------------------------------------------------------------

  function Points(lm: seq<Landmark>): (ps: seq<Point>)
    ensures |ps| == |lm|
    ensures forall k :: 0 <= k < |lm| ==> ps[k] == Point(lm[k].x, lm[k].y)
  {
    seq(|lm|, k requires 0 <= k < |lm| => Point(lm[k].x, lm[k].y))
  }

  /** The state reported for a detected hand: the gestures plus the cursor scaled to the viewport. */
  function DetectedState(g: Gestures, lm: seq<Landmark>, innerWidth: real, innerHeight: real): (s: HandState)
    ensures s.detected && s.landmarks == Some(Points(lm))
    ensures s.isPinching == g.isPinching && s.isOpenPalm == g.isOpenPalm && s.wristVelocityY == g.wristVelocityY
    ensures 0.0 <= g.cursorX <= 1.0 && innerWidth >= 0.0 ==> 0.0 <= s.screenX <= innerWidth
    ensures 0.0 <= g.cursorY <= 1.0 && innerHeight >= 0.0 ==> 0.0 <= s.screenY <= innerHeight
  {
    ScaledInViewport(g.cursorX, innerWidth);
    ScaledInViewport(g.cursorY, innerHeight);
    HandState(g.cursorX, g.cursorY, g.cursorX * innerWidth, g.cursorY * innerHeight,
              g.isPinching, g.isOpenPalm, g.wristVelocityY, Some(Points(lm)), true)
  }

  /** A fraction of the viewport, scaled by its extent, lands inside it. */
  lemma ScaledInViewport(f: real, extent: real)
    ensures 0.0 <= f <= 1.0 && extent >= 0.0 ==> 0.0 <= f * extent <= extent
  {
    if 0.0 <= f <= 1.0 && extent >= 0.0 {
      assert extent - f * extent == (1.0 - f) * extent;
    }
  }

  /**
   * What the detection tick run at the end of a successful start reports: nothing while
   * the video has no current frame, the no-hand state for an empty frame, and otherwise
   * the hand's gestures from a cleared pinch memory and a one-sample wrist buffer.
   */
  function FirstTick(readyState: int, hands: seq<seq<Landmark>>, innerWidth: real, innerHeight: real): (e: Option<HandState>)
    requires |hands| > 0 ==> |hands[0]| >= LANDMARK_COUNT
    ensures e.None? <==> readyState < HAVE_CURRENT_DATA
    ensures e.Some? && |hands| == 0 ==> e.value == NO_HAND
    ensures e.Some? && |hands| > 0 ==>
      && e.value.detected && e.value.landmarks == Some(Points(hands[0]))
      && (e.value.isPinching <==> PinchDistanceSquared(hands[0]) < PINCH_THRESHOLD_ON * PINCH_THRESHOLD_ON)
      && e.value.wristVelocityY == 0.0
  {
    if readyState < HAVE_CURRENT_DATA then None
    else if |hands| == 0 then Some(NO_HAND)
    else
      var lm := hands[0];
      var history := PushWrist([], lm[WRIST].y);
      Some(DetectedState(
        Gestures(1.0 - lm[INDEX_TIP].x, lm[INDEX_TIP].y, NextPinch(false, PinchDistanceSquared(lm)),
                 IsOpenPalm(lm), WristVelocity(history)),
        lm, innerWidth, innerHeight))
  }

  /** How starting the session ends: the model, the camera or playback may fail. */
  datatype StartOutcome = ModelLoadFails | CameraFails | PlaybackFails | Succeeds

  /** The module-level state of hand-tracking.ts. */
  class GestureSession {
    var running: bool
    var wasPinching: bool
    var wristHistory: seq<real>
    var hasLandmarker: bool
    var hasVideo: bool
    var hasStream: bool
    var hasCallback: bool
    /** Whether a detection tick is requested for the next animation frame. */
    var tickScheduled: bool
    /**
     * Models and camera streams a later start replaced while they were still held:
     * nothing refers to them any more, so no stop can release them.
     */
    var orphanedModels: nat
    var orphanedStreams: nat

    ghost predicate Valid()
      reads this
    {
      |wristHistory| <= WRIST_HISTORY_SIZE
    }

    /** Nothing held, nothing running, no memory of earlier frames. */
    ghost predicate IsReset()
      reads this
    {
      && !running && !wasPinching && wristHistory == []
      && !hasLandmarker && !hasVideo && !hasStream && !hasCallback && !tickScheduled
    }

    constructor ()
      ensures Valid() && IsReset()
      ensures orphanedModels == 0 && orphanedStreams == 0
    {
      running, wasPinching, wristHistory := false, false, [];
      hasLandmarker, hasVideo, hasStream, hasCallback := false, false, false, false;
      tickScheduled := false;
      orphanedModels, orphanedStreams := 0, 0;
    }

    /** Gestures of one detected hand; updates the pinch memory and the wrist buffer. */
    method ComputeGestures(lm: seq<Landmark>) returns (g: Gestures)
      requires Valid() && |lm| >= LANDMARK_COUNT
      modifies this`wasPinching, this`wristHistory
      ensures Valid()
      ensures g.cursorX == 1.0 - lm[INDEX_TIP].x && g.cursorY == lm[INDEX_TIP].y
      ensures g.isPinching == NextPinch(old(wasPinching), PinchDistanceSquared(lm))
      ensures wasPinching == g.isPinching
      ensures g.isOpenPalm == IsOpenPalm(lm)
      ensures wristHistory == PushWrist(old(wristHistory), lm[WRIST].y)
      ensures g.wristVelocityY == WristVelocity(wristHistory)
    {
      var cursorX := 1.0 - lm[INDEX_TIP].x;
      var cursorY := lm[INDEX_TIP].y;

      var pinchDist2 := PinchDistanceSquared(lm);
      var isPinching: bool;
      if wasPinching {
        isPinching := pinchDist2 < PINCH_THRESHOLD_OFF * PINCH_THRESHOLD_OFF;
      } else {
        isPinching := pinchDist2 < PINCH_THRESHOLD_ON * PINCH_THRESHOLD_ON;
      }
      wasPinching := isPinching;

      var isOpenPalm := IsOpenPalm(lm);

      wristHistory := wristHistory + [lm[WRIST].y];
      if |wristHistory| > WRIST_HISTORY_SIZE {
        wristHistory := wristHistory[1..];
      }
      var wristVelocityY := 0.0;
      if |wristHistory| >= 2 {
        wristVelocityY := (wristHistory[|wristHistory| - 1] - wristHistory[0]) / ((|wristHistory| - 1) as real);
      }

      g := Gestures(cursorX, cursorY, isPinching, isOpenPalm, wristVelocityY);
    }

    /**
     * One run of the detection loop. `hands` is what the landmark model returns for
     * the current frame; `emitted` is what the registered callback receives, if any.
     */
    method DetectionTick(readyState: int, hands: seq<seq<Landmark>>, innerWidth: real, innerHeight: real)
      returns (emitted: Option<HandState>)
      requires Valid()
      requires |hands| > 0 ==> |hands[0]| >= LANDMARK_COUNT
      modifies this`wasPinching, this`wristHistory, this`tickScheduled
      ensures Valid()
      ensures tickScheduled == old(running)
      ensures !old(running) || readyState < HAVE_CURRENT_DATA || |hands| == 0 ==>
        wasPinching == old(wasPinching) && wristHistory == old(wristHistory)
      ensures !old(running) || readyState < HAVE_CURRENT_DATA ==> emitted == None
      ensures old(running) && readyState >= HAVE_CURRENT_DATA && |hands| == 0 ==>
        emitted == (if hasCallback then Some(NO_HAND) else None)
      ensures old(running) && readyState >= HAVE_CURRENT_DATA && |hands| > 0 ==>
        && wasPinching == NextPinch(old(wasPinching), PinchDistanceSquared(hands[0]))
        && wristHistory == PushWrist(old(wristHistory), hands[0][WRIST].y)
        && emitted == (if hasCallback then
                         Some(DetectedState(
                           Gestures(1.0 - hands[0][INDEX_TIP].x, hands[0][INDEX_TIP].y, wasPinching,
                                    IsOpenPalm(hands[0]), WristVelocity(wristHistory)),
                           hands[0], innerWidth, innerHeight))
                       else None)
    {
      emitted := None;
      if !running {
        tickScheduled := false;
        return;
      }

      if readyState >= HAVE_CURRENT_DATA {
        if |hands| > 0 {
          var lm := hands[0];
          var gestures := ComputeGestures(lm);
          if hasCallback {
            emitted := Some(DetectedState(gestures, lm, innerWidth, innerHeight));
          }
        } else if hasCallback {
          emitted := Some(NO_HAND);
        }
      }

      tickScheduled := true;
    }

    /**
     * startHandTracking: registers the callback, loads the model, opens the camera and
     * starts playback; on success clears the gesture memory, sets the running flag and
     * runs the first detection tick at once, on the frame described by `readyState`,
     * `hands` and the viewport; `emitted` is what that tick hands to the callback. A
     * failing step stops it where it is, keeping what the earlier steps acquired; a
     * model or stream still held from an earlier start is replaced without release.
     */
    method Start(outcome: StartOutcome, readyState: int, hands: seq<seq<Landmark>>, innerWidth: real, innerHeight: real)
      returns (ok: bool, emitted: Option<HandState>)
      requires Valid()
      requires |hands| > 0 ==> |hands[0]| >= LANDMARK_COUNT
      modifies this
      ensures Valid()
      ensures ok <==> outcome == Succeeds
      ensures hasCallback
      ensures hasLandmarker == (outcome != ModelLoadFails || old(hasLandmarker))
      ensures hasStream == (outcome == PlaybackFails || outcome == Succeeds || old(hasStream))
      ensures hasVideo == (outcome == PlaybackFails || outcome == Succeeds || old(hasVideo))
      ensures orphanedModels == old(orphanedModels) + (if outcome != ModelLoadFails && old(hasLandmarker) then 1 else 0)
      ensures orphanedStreams ==
        old(orphanedStreams) + (if (outcome == PlaybackFails || outcome == Succeeds) && old(hasStream) then 1 else 0)
      ensures ok ==> running && tickScheduled && emitted == FirstTick(readyState, hands, innerWidth, innerHeight)
      ensures ok && (readyState < HAVE_CURRENT_DATA || |hands| == 0) ==> !wasPinching && wristHistory == []
      ensures ok && readyState >= HAVE_CURRENT_DATA && |hands| > 0 ==>
        && wasPinching == NextPinch(false, PinchDistanceSquared(hands[0]))
        && wristHistory == [hands[0][WRIST].y]
      ensures !ok ==>
        && emitted == None
        && running == old(running) && wasPinching == old(wasPinching)
        && wristHistory == old(wristHistory) && tickScheduled == old(tickScheduled)
    {
      emitted := None;
      hasCallback := true;
      if outcome == ModelLoadFails {
        return false, emitted;
      }
      if hasLandmarker {
        orphanedModels := orphanedModels + 1;
      }
      hasLandmarker := true;
      if outcome == CameraFails {
        return false, emitted;
      }
      if hasStream {
        orphanedStreams := orphanedStreams + 1;
      }
      hasStream := true;
      hasVideo := true;
      if outcome == PlaybackFails {
        return false, emitted;
      }

      wasPinching := false;
      wristHistory := [];

      running := true;
      emitted := DetectionTick(readyState, hands, innerWidth, innerHeight);
      ok := true;
    }

    /**
     * stopHandTracking: cancels the pending tick, releases the camera, the video and the
     * model, and clears the gesture memory. The resulting state does not depend on the
     * state before, so stopping twice is the same as stopping once. Handles already
     * orphaned stay orphaned.
     */
    method Stop()
      modifies this
      ensures Valid() && IsReset()
      ensures orphanedModels == old(orphanedModels) && orphanedStreams == old(orphanedStreams)
    {
      running := false;
      tickScheduled := false;
      hasStream := false;
      hasVideo := false;
      hasLandmarker := false;
      hasCallback := false;
      wasPinching := false;
      wristHistory := [];
    }

    /**
     * A start that leaves no partial session behind: it runs `Start` and, when a step
     * fails, releases whatever the failed start holds, as `Stop` does. Started from a
     * session that holds nothing, it never orphans a model or a stream.
     */
    method StartOrRelease(outcome: StartOutcome, readyState: int, hands: seq<seq<Landmark>>,
                          innerWidth: real, innerHeight: real)
      returns (ok: bool, emitted: Option<HandState>)
      requires Valid()
      requires |hands| > 0 ==> |hands[0]| >= LANDMARK_COUNT
      modifies this
      ensures Valid()
      ensures ok <==> outcome == Succeeds
      ensures ok ==> && running && tickScheduled && hasCallback && hasLandmarker && hasStream && hasVideo
                     && emitted == FirstTick(readyState, hands, innerWidth, innerHeight)
      ensures !ok ==> IsReset() && emitted == None
      ensures !old(hasLandmarker) ==> orphanedModels == old(orphanedModels)
      ensures !old(hasStream) ==> orphanedStreams == old(orphanedStreams)
    {
      ok, emitted := Start(outcome, readyState, hands, innerWidth, innerHeight);
      if !ok {
        Stop();
      }
    }
  }

  /** With the releasing start, a retry after a failed camera orphans nothing. */
  method ReleasedFailureOrphansNothing() returns (modelHeld: bool, orphaned: nat)
    ensures !modelHeld && orphaned == 0
  {
    var session := new GestureSession();
    var ok, emitted := session.StartOrRelease(CameraFails, 0, [], 0.0, 0.0);
    modelHeld := session.hasLandmarker;
    ok, emitted := session.StartOrRelease(Succeeds, 0, [], 0.0, 0.0);
    orphaned := session.orphanedModels + session.orphanedStreams;
  }
}
