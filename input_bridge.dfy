/**
 * The input bridge (src/context/HandTrackingContext.tsx): turns each reported
 * HandState into an ordered list of synthetic pointer events (a window-level move,
 * then leave / enter / move / click on the element under the cursor), remembering
 * the hovered element and the previous pinch flag; and the enable toggle that
 * starts and stops the gesture session.
 *
 * The page is abstract: the element under the cursor is an input (what
 * `elementFromPoint` returns) and the events are returned instead of dispatched.
 */
module InputBridge {
  import opened Wrappers
  import opened HandTracking

  /** An element of the page. */
  type ElemId = nat

  datatype Event =
    | WindowMove(x: real, y: real)
    | Leave(target: ElemId, x: real, y: real)
    | Enter(target: ElemId, x: real, y: real)
    | Move(target: ElemId, x: real, y: real)
    | Click(target: ElemId, x: real, y: real)

  /** The coordinates of the leave sent when the hand disappears. */
  const OFFSCREEN: real := -1000.0

  /** The bridge's memory between frames. */
  datatype Bridge = Bridge(lastHovered: Option<ElemId>, wasPinching: bool)

  /** The events one frame produces and the memory after it. */
  datatype Dispatch = Dispatch(events: seq<Event>, next: Bridge)

  /** What dispatchSyntheticEvents does with one HandState, given the element under the cursor. */
  function Dispatched(b: Bridge, state: HandState, hit: Option<ElemId>): Dispatch
  {
    if !state.detected then
      if b.lastHovered.Some? then
        Dispatch([Leave(b.lastHovered.value, OFFSCREEN, OFFSCREEN)], Bridge(None, b.wasPinching))
      else
        Dispatch([], b)
    else
      var x := state.screenX;
      var y := state.screenY;
      if hit.None? then
        Dispatch([WindowMove(x, y)], Bridge(b.lastHovered, state.isPinching))
      else
        var el := hit.value;
        var leave := if hit != b.lastHovered && b.lastHovered.Some? then [Leave(b.lastHovered.value, x, y)] else [];
        var enter := if hit != b.lastHovered then [Enter(el, x, y)] else [];
        var click := if state.isPinching && !b.wasPinching then [Click(el, x, y)] else [];
        Dispatch([WindowMove(x, y)] + leave + enter + [Move(el, x, y)] + click, Bridge(hit, state.isPinching))
  }

  function CountClicks(events: seq<Event>): nat
  {
    if events == [] then 0 else (if events[0].Click? then 1 else 0) + CountClicks(events[1..])
  }

  lemma {:induction false} CountClicksAppend(a: seq<Event>, b: seq<Event>)
    ensures CountClicks(a + b) == CountClicks(a) + CountClicks(b)
    decreases |a|
  {
    if a == [] {
      assert a + b == b;
    } else {
      CountClicksAppend(a[1..], b);
      assert (a + b)[1..] == a[1..] + b;
    }
  }

  lemma CountClicksNone(events: seq<Event>)
    requires forall k :: 0 <= k < |events| ==> !events[k].Click?
    ensures CountClicks(events) == 0
    decreases |events|
  {
    if events != [] {
      CountClicksNone(events[1..]);
    }
  }

  /**
   * Without a hand: exactly one leave, off screen, on the hovered element if there
   * was one, and nothing otherwise; the hover is cleared and the pinch memory kept.
   */
  lemma NoHandDispatch(b: Bridge, state: HandState, hit: Option<ElemId>)
    requires !state.detected
    ensures var d := Dispatched(b, state, hit);
      && |d.events| == (if b.lastHovered.Some? then 1 else 0)
      && (forall k :: 0 <= k < |d.events| ==> d.events[k] == Leave(b.lastHovered.value, OFFSCREEN, OFFSCREEN))
      && d.next == Bridge(None, b.wasPinching)
  {
  }

  /**
   * With a hand: the first event is the window-level move at the screen position,
   * it is the only window-level event, and the pinch memory becomes the frame's flag.
   */
  lemma DetectedStartsWithWindowMove(b: Bridge, state: HandState, hit: Option<ElemId>)
    requires state.detected
    ensures var d := Dispatched(b, state, hit);
      && |d.events| >= 1
      && d.events[0] == WindowMove(state.screenX, state.screenY)
      && (forall k :: 1 <= k < |d.events| ==> !d.events[k].WindowMove?)
      && d.next.wasPinching == state.isPinching
  {
  }

  /** With a hand but no element under it: only the window move, and the hover is kept. */
  lemma NoElementOnlyWindowMove(b: Bridge, state: HandState)
    requires state.detected
    ensures var d := Dispatched(b, state, None);
      d.events == [WindowMove(state.screenX, state.screenY)] && d.next.lastHovered == b.lastHovered
  {
  }

  /**
   * With a hand over element e: a change of element sends leave on the old one (if any)
   * strictly before enter on e, then a move on e; the same element sends only the move.
   * The click, if any, comes last, and the hover becomes e.
   */
  lemma HoverTransitionOrder(b: Bridge, state: HandState, e: ElemId)
    requires state.detected
    ensures var d := Dispatched(b, state, Some(e));
      var x, y := state.screenX, state.screenY;
      var moveAt := if b.lastHovered == Some(e) then 1 else if b.lastHovered.None? then 2 else 3;
      && moveAt < |d.events|
      && (b.lastHovered.Some? && b.lastHovered != Some(e) ==>
            d.events[1] == Leave(b.lastHovered.value, x, y) && d.events[2] == Enter(e, x, y))
      && (b.lastHovered.None? ==> d.events[1] == Enter(e, x, y))
      && d.events[moveAt] == Move(e, x, y)
      && (forall k :: 0 <= k < |d.events| && k != moveAt ==> !d.events[k].Move?)
      && (forall k :: moveAt < k < |d.events| ==> d.events[k] == Click(e, x, y))
      && d.next.lastHovered == Some(e)
  {
  }

  /** A click is sent exactly when a hand pinches over an element and did not pinch before; never two. */
  lemma ClickOnPinchEdge(b: Bridge, state: HandState, hit: Option<ElemId>)
    ensures CountClicks(Dispatched(b, state, hit).events) ==
      if state.detected && hit.Some? && state.isPinching && !b.wasPinching then 1 else 0
  {
    var d := Dispatched(b, state, hit);
    if !state.detected || hit.None? {
      CountClicksNone(d.events);
    } else {
      var x, y := state.screenX, state.screenY;
      var el := hit.value;
      var leave := if hit != b.lastHovered && b.lastHovered.Some? then [Leave(b.lastHovered.value, x, y)] else [];
      var enter := if hit != b.lastHovered then [Enter(el, x, y)] else [];
      var click := if state.isPinching && !b.wasPinching then [Click(el, x, y)] else [];
      var head := [WindowMove(x, y)] + leave + enter + [Move(el, x, y)];
      assert d.events == head + click;
      CountClicksNone(head);
      CountClicksAppend(head, click);
    }
  }

  /** One frame of input: the reported state and the element under its cursor. */
  datatype Frame = Frame(state: HandState, hit: Option<ElemId>)

  /** The events of a run of frames, in order, and the memory after them. */
  function RunFrames(b: Bridge, frames: seq<Frame>): Dispatch
    decreases |frames|
  {
    if frames == [] then Dispatch([], b)
    else
      var first := Dispatched(b, frames[0].state, frames[0].hit);
      var rest := RunFrames(first.next, frames[1..]);
      Dispatch(first.events + rest.events, rest.next)
  }

  ghost predicate PinchingOverElement(f: Frame)
  {
    f.state.detected && f.state.isPinching && f.hit.Some?
  }

  /**
   * A pinch held over elements for any number of frames clicks once, on its first
   * frame, when the bridge was not already pinching, and never otherwise.
   */
  lemma {:induction false} SustainedPinchClicksOnce(b: Bridge, frames: seq<Frame>)
    requires forall k :: 0 <= k < |frames| ==> PinchingOverElement(frames[k])
    ensures CountClicks(RunFrames(b, frames).events) ==
      if |frames| > 0 && !b.wasPinching then 1 else 0
    decreases |frames|
  {
    if frames != [] {
      var first := Dispatched(b, frames[0].state, frames[0].hit);
      ClickOnPinchEdge(b, frames[0].state, frames[0].hit);
      assert first.next.wasPinching;
      SustainedPinchClicksOnce(first.next, frames[1..]);
      CountClicksAppend(first.events, RunFrames(first.next, frames[1..]).events);
    }
  }

  /** The provider's state: the toggle flags, the shared hand state and the bridge memory. */
  class HandTrackingProvider {
    var enabled: bool
    var loading: bool
    var tracking: bool
    var handState: Option<HandState>
    /** The module-level reference read by the flow field. */
    var sharedHandState: Option<HandState>
    var hasVideoElement: bool
    var lastHovered: Option<ElemId>
    var wasPinching: bool
    /** A start begun by the toggle that has not settled yet. */
    var startPending: bool

    constructor ()
      ensures !enabled && !loading && !tracking && !startPending
      ensures handState == None && sharedHandState == None && !hasVideoElement
      ensures lastHovered == None && !wasPinching
    {
      enabled, loading, tracking, startPending := false, false, false, false;
      handState, sharedHandState, hasVideoElement := None, None, false;
      lastHovered, wasPinching := None, false;
    }

    function Memory(): Bridge
      reads this
    {
      Bridge(lastHovered, wasPinching)
    }

    method DispatchSyntheticEvents(state: HandState, hit: Option<ElemId>) returns (events: seq<Event>)
      modifies this`lastHovered, this`wasPinching
      ensures Dispatch(events, Memory()) == Dispatched(old(Memory()), state, hit)
    {
      events := [];
      if !state.detected {
        if lastHovered.Some? {
          events := events + [Leave(lastHovered.value, OFFSCREEN, OFFSCREEN)];
          lastHovered := None;
        }
        return;
      }

      var screenX, screenY := state.screenX, state.screenY;
      events := [WindowMove(screenX, screenY)];

      if hit.Some? {
        var el := hit.value;
        if hit != lastHovered {
          if lastHovered.Some? {
            events := events + [Leave(lastHovered.value, screenX, screenY)];
          }
          events := events + [Enter(el, screenX, screenY)];
          lastHovered := hit;
        }

        events := events + [Move(el, screenX, screenY)];

        if state.isPinching && !wasPinching {
          events := events + [Click(el, screenX, screenY)];
        }
      }

      wasPinching := state.isPinching;
    }

    /** The callback the gesture session calls with each frame's state. */
    method HandleHandState(state: HandState, hit: Option<ElemId>) returns (events: seq<Event>)
      modifies this`sharedHandState, this`handState, this`lastHovered, this`wasPinching
      ensures sharedHandState == Some(state) && handState == Some(state)
      ensures Dispatch(events, Memory()) == Dispatched(old(Memory()), state, hit)
    {
      sharedHandState := Some(state);
      handState := Some(state);
      events := DispatchSyntheticEvents(state, hit);
    }

    /**
     * The toggle. When enabled it stops the session and clears every flag, the shared
     * state and the bridge memory; otherwise it raises the loading flag and begins a start.
     */
    method Toggle(session: GestureSession)
      modifies this, session
      ensures old(enabled) ==>
        && session.IsReset() && session.Valid()
        && session.orphanedModels == old(session.orphanedModels)
        && session.orphanedStreams == old(session.orphanedStreams)
        && !enabled && !tracking && handState == None && sharedHandState == None
        && !hasVideoElement && lastHovered == None && !wasPinching
        && loading == old(loading) && startPending == old(startPending)
      ensures !old(enabled) ==>
        && loading && startPending
        && enabled == old(enabled) && tracking == old(tracking) && handState == old(handState)
        && sharedHandState == old(sharedHandState) && hasVideoElement == old(hasVideoElement)
        && lastHovered == old(lastHovered) && wasPinching == old(wasPinching)
        && unchanged(session)
    {
      if enabled {
        session.Stop();
        enabled := false;
        tracking := false;
        handState := None;
        hasVideoElement := false;
        sharedHandState := None;
        lastHovered := None;
        wasPinching := false;
        return;
      }

      loading := true;
      startPending := true;
    }

    /**
     * The begun start settles. On success the session's first detection tick has already
     * handed its state to the callback (`hit` is the element under that state's cursor);
     * then success sets enabled and tracking, failure clears both, and loading ends
     * false either way.
     */
    method StartSettled(session: GestureSession, outcome: StartOutcome, readyState: int, hands: seq<seq<Landmark>>,
                        innerWidth: real, innerHeight: real, hit: Option<ElemId>)
      returns (ok: bool, events: seq<Event>)
      requires startPending && session.Valid()
      requires |hands| > 0 ==> |hands[0]| >= LANDMARK_COUNT
      modifies this, session
      ensures session.Valid()
      ensures ok <==> outcome == Succeeds
      ensures enabled == ok && tracking == ok && hasVideoElement == (ok || old(hasVideoElement))
      ensures !loading && !startPending
      ensures session.hasCallback
      ensures session.hasLandmarker == (outcome != ModelLoadFails || old(session.hasLandmarker))
      ensures session.hasStream == (outcome == PlaybackFails || outcome == Succeeds || old(session.hasStream))
      ensures session.hasVideo == (outcome == PlaybackFails || outcome == Succeeds || old(session.hasVideo))
      ensures session.orphanedModels ==
        old(session.orphanedModels) + (if outcome != ModelLoadFails && old(session.hasLandmarker) then 1 else 0)
      ensures session.orphanedStreams == old(session.orphanedStreams) +
        (if (outcome == PlaybackFails || outcome == Succeeds) && old(session.hasStream) then 1 else 0)
      ensures ok ==> session.running && session.tickScheduled
      ensures ok && (readyState < HAVE_CURRENT_DATA || |hands| == 0) ==> !session.wasPinching && session.wristHistory == []
      ensures ok && readyState >= HAVE_CURRENT_DATA && |hands| > 0 ==>
        && session.wasPinching == NextPinch(false, PinchDistanceSquared(hands[0]))
        && session.wristHistory == [hands[0][WRIST].y]
      ensures !ok ==>
        && session.running == old(session.running) && session.wasPinching == old(session.wasPinching)
        && session.wristHistory == old(session.wristHistory) && session.tickScheduled == old(session.tickScheduled)
      ensures var first := FirstTick(readyState, hands, innerWidth, innerHeight);
        ok && first.Some? ==>
          && handState == first && sharedHandState == first
          && Dispatch(events, Memory()) == Dispatched(old(Memory()), first.value, hit)
      ensures !ok || FirstTick(readyState, hands, innerWidth, innerHeight).None? ==>
        && events == [] && Memory() == old(Memory())
        && handState == old(handState) && sharedHandState == old(sharedHandState)
    {
      var first;
      ok, first := session.Start(outcome, readyState, hands, innerWidth, innerHeight);
      events := [];
      if first.Some? {
        events := HandleHandState(first.value, hit);
      }
      if ok {
        hasVideoElement := true;
        enabled := true;
        tracking := true;
      } else {
        enabled := false;
        tracking := false;
      }
      loading := false;
      startPending := false;
    }
  }

  /**
   * A start whose camera fails leaves the model loaded while the provider is disabled;
   * the toggle then begins a new start instead of stopping, and a successful retry
   * replaces the model without releasing it.
   */
  method FailedStartOrphansModel() returns (enabledAfterFailure: bool, modelHeld: bool, orphaned: nat)
    ensures !enabledAfterFailure && modelHeld && orphaned == 1
  {
    var session := new GestureSession();
    var provider := new HandTrackingProvider();
    provider.Toggle(session);
    var ok, events := provider.StartSettled(session, CameraFails, 0, [], 0.0, 0.0, None);
    enabledAfterFailure, modelHeld := provider.enabled, session.hasLandmarker;
    provider.Toggle(session);
    ok, events := provider.StartSettled(session, Succeeds, 0, [], 0.0, 0.0, None);
    orphaned := session.orphanedModels;
  }
}
