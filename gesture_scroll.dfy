/**
 * Section scrolling by swipe (src/hooks/useHandGestureScroll.ts): on each new hand
 * state, a fast enough vertical wrist movement outside the cool-down moves the page
 * one section up or down, clamped at the first and last section.
 *
 * The page is abstract: `offsets[i]` is the top offset of the i-th section's element,
 * or None when that element is missing; the clock reading is an input.
 */
module GestureScroll {
  import opened Wrappers
  import HandTracking

  /** intro, work, code, about, contact. */
  const SECTION_COUNT: nat := 5
  const LAST_SECTION: nat := SECTION_COUNT - 1
  /** Normalised wrist velocity a swipe must reach. */
  const SWIPE_THRESHOLD: real := 0.012
  const COOLDOWN_MS: int := 1000
  /** The cool-down reference before any scroll. */
  const INITIAL_SCROLL_TIME: int := 0

  predicate Reached(offsets: seq<Option<real>>, i: nat, mid: real)
    requires i < |offsets|
  {
    offsets[i].Some? && mid >= offsets[i].value
  }

  /**
   * The section containing the middle of the viewport: the last section whose element
   * exists and starts at or above `mid`, else the first section.
   */
  function CurrentSection(offsets: seq<Option<real>>, mid: real): (c: nat)
    requires |offsets| > 0
    ensures c < |offsets|
    ensures Reached(offsets, c, mid) || c == 0
    ensures forall j :: c < j < |offsets| ==> !Reached(offsets, j, mid)
  {
    LastReachedBelow(offsets, mid, |offsets| - 1)
  }

  /** The last reached index at or below `n`, else 0. */
  function LastReachedBelow(offsets: seq<Option<real>>, mid: real, n: nat): (c: nat)
    requires n < |offsets|
    ensures c <= n
    ensures Reached(offsets, c, mid) || c == 0
    ensures forall j :: c < j <= n ==> !Reached(offsets, j, mid)
    decreases n
  {
    if Reached(offsets, n, mid) || n == 0 then n
    else LastReachedBelow(offsets, mid, n - 1)
  }

  /** When no section is reached, the current section is the first. */
  lemma NothingReachedMeansFirst(offsets: seq<Option<real>>, mid: real)
    requires |offsets| > 0
    requires forall j :: 0 <= j < |offsets| ==> !Reached(offsets, j, mid)
    ensures CurrentSection(offsets, mid) == 0
  {
  }

  /** The backward search with early exit. */
  method FindCurrentSection(offsets: seq<Option<real>>, mid: real) returns (current: nat)
    requires |offsets| > 0
    ensures current == CurrentSection(offsets, mid)
  {
    current := 0;
    var i := |offsets|;
    while i > 0
      invariant 0 <= i <= |offsets|
      invariant current == 0
      invariant forall j :: i <= j < |offsets| ==> !Reached(offsets, j, mid)
      decreases i
    {
      i := i - 1;
      if offsets[i].Some? && mid >= offsets[i].value {
        current := i;
        CurrentSectionIsLastReached(offsets, mid, i);
        return;
      }
    }
    NothingReachedMeansFirst(offsets, mid);
  }

  /** The current section is the only reached index with nothing reached after it. */
  lemma CurrentSectionIsLastReached(offsets: seq<Option<real>>, mid: real, i: nat)
    requires i < |offsets| && Reached(offsets, i, mid)
    requires forall j :: i < j < |offsets| ==> !Reached(offsets, j, mid)
    ensures CurrentSection(offsets, mid) == i
  {
  }

  /** The section a swipe asks for: one further in its direction, clamped to the range. */
  function NextIndex(current: nat, velocity: real): (n: nat)
    requires current < SECTION_COUNT
    ensures n < SECTION_COUNT
    ensures velocity > 0.0 ==> n == current || n == current + 1
    ensures velocity <= 0.0 ==> n == current || n + 1 == current
    ensures n == current <==> (velocity > 0.0 && current == LAST_SECTION) || (velocity <= 0.0 && current == 0)
  {
    if velocity > 0.0 then
      if current + 1 < LAST_SECTION then current + 1 else LAST_SECTION
    else
      if current >= 1 then current - 1 else 0
  }

  /** The viewport, the section elements and the clock at one hand-state update. */
  datatype Page = Page(scrollY: real, innerHeight: real, offsets: seq<Option<real>>, now: int)

  /** The section scrolled to (if any) and the cool-down reference afterwards. */
  datatype Step = Step(scrollTo: Option<nat>, lastScrollTime: int)

  /** One run of the effect. */
  function ScrollStep(lastScrollTime: int, enabled: bool, handState: Option<HandTracking.HandState>, page: Page): (s: Step)
    requires |page.offsets| == SECTION_COUNT
    ensures s.scrollTo.Some? ==> s.lastScrollTime == page.now
    ensures s.scrollTo.None? ==> s.lastScrollTime == lastScrollTime
  {
    if !enabled || handState.None? || !handState.value.detected then Step(None, lastScrollTime)
    else
      var v := handState.value.wristVelocityY;
      if Abs(v) < SWIPE_THRESHOLD || page.now - lastScrollTime < COOLDOWN_MS then Step(None, lastScrollTime)
      else
        var current := CurrentSection(page.offsets, page.scrollY + page.innerHeight / 2.0);
        var next := NextIndex(current, v);
        if next != current && page.offsets[next].Some? then Step(Some(next), page.now)
        else Step(None, lastScrollTime)
  }

  /** The section the middle of the page's viewport lies in. */
  function MiddleSection(page: Page): (c: nat)
    requires |page.offsets| == SECTION_COUNT
    ensures c < SECTION_COUNT
  {
    CurrentSection(page.offsets, page.scrollY + page.innerHeight / 2.0)
  }

  /** A swipe with velocity `v` has a section to go to: it is not clamped, and the element exists. */
  predicate HasTarget(page: Page, v: real)
    requires |page.offsets| == SECTION_COUNT
  {
    var current := MiddleSection(page);
    var next := NextIndex(current, v);
    next != current && page.offsets[next].Some?
  }

  /**
   * A scroll happens exactly for an enabled, detected hand moving at least the threshold,
   * at least a cool-down after the last scroll, with a section to go to; it targets the
   * section adjacent to the current one in the direction of the swipe and restarts the
   * cool-down.
   */
  lemma ScrollConditions(lastScrollTime: int, enabled: bool, handState: Option<HandTracking.HandState>, page: Page)
    requires |page.offsets| == SECTION_COUNT
    ensures var s := ScrollStep(lastScrollTime, enabled, handState, page);
      s.scrollTo.Some? <==>
        && enabled && handState.Some? && handState.value.detected
        && (handState.value.wristVelocityY >= SWIPE_THRESHOLD || handState.value.wristVelocityY <= -SWIPE_THRESHOLD)
        && page.now >= lastScrollTime + COOLDOWN_MS
        && HasTarget(page, handState.value.wristVelocityY)
    ensures var s := ScrollStep(lastScrollTime, enabled, handState, page);
      s.scrollTo.Some? ==>
        var v := handState.value.wristVelocityY;
        var current := MiddleSection(page);
        && s.scrollTo.value < SECTION_COUNT && page.offsets[s.scrollTo.value].Some?
        && (v > 0.0 ==> s.scrollTo.value == current + 1)
        && (v < 0.0 ==> s.scrollTo.value + 1 == current)
        && s.lastScrollTime == page.now
  {
  }

  /** A detected hand moving at least the threshold, in either direction. */
  predicate QualifyingSwipe(hand: HandTracking.HandState)
  {
    hand.detected && (hand.wristVelocityY >= SWIPE_THRESHOLD || hand.wristVelocityY <= -SWIPE_THRESHOLD)
  }

  /** Two qualifying swipes a full cool-down apart, each with a section to go to, both scroll. */
  lemma SpacedSwipesBothScroll(last: int, hand1: HandTracking.HandState, page1: Page,
                               hand2: HandTracking.HandState, page2: Page)
    requires |page1.offsets| == SECTION_COUNT && |page2.offsets| == SECTION_COUNT
    requires QualifyingSwipe(hand1) && QualifyingSwipe(hand2)
    requires HasTarget(page1, hand1.wristVelocityY) && HasTarget(page2, hand2.wristVelocityY)
    requires page1.now >= last + COOLDOWN_MS && page2.now >= page1.now + COOLDOWN_MS
    ensures var s1 := ScrollStep(last, true, Some(hand1), page1);
      var s2 := ScrollStep(s1.lastScrollTime, true, Some(hand2), page2);
      && s1 == Step(Some(NextIndex(MiddleSection(page1), hand1.wristVelocityY)), page1.now)
      && s2 == Step(Some(NextIndex(MiddleSection(page2), hand2.wristVelocityY)), page2.now)
  {
    ScrollConditions(last, true, Some(hand1), page1);
    ScrollConditions(page1.now, true, Some(hand2), page2);
  }

  /**
   * Both gates are inclusive: a swipe at exactly the threshold, exactly one cool-down
   * after the last scroll, scrolls (sections at 0, 800, 1600, 2400 and 3200, middle at 1700).
   */
  lemma GateEdgesPass(hand: HandTracking.HandState)
    requires hand.detected && hand.wristVelocityY == SWIPE_THRESHOLD
    ensures var page := Page(1200.0, 1000.0, [Some(0.0), Some(800.0), Some(1600.0), Some(2400.0), Some(3200.0)], 5000);
      ScrollStep(5000 - COOLDOWN_MS, true, Some(hand), page) == Step(Some(3), 5000)
  {
    var page := Page(1200.0, 1000.0, [Some(0.0), Some(800.0), Some(1600.0), Some(2400.0), Some(3200.0)], 5000);
    CurrentSectionExample();
    assert MiddleSection(page) == 2;
  }

  /** The state reported by the first tick of a fresh session never scrolls: its wrist buffer holds one sample. */
  lemma FirstTickNeverScrolls(last: int, enabled: bool, readyState: int, hands: seq<seq<HandTracking.Landmark>>,
                              innerWidth: real, innerHeight: real, page: Page)
    requires |page.offsets| == SECTION_COUNT
    requires |hands| > 0 ==> |hands[0]| >= HandTracking.LANDMARK_COUNT
    ensures ScrollStep(last, enabled, HandTracking.FirstTick(readyState, hands, innerWidth, innerHeight), page) == Step(None, last)
  {
  }

  /** Two updates less than a cool-down apart scroll at most once. */
  lemma CooldownAllowsOneScroll(last: int, enabled1: bool, hand1: Option<HandTracking.HandState>, page1: Page,
                                enabled2: bool, hand2: Option<HandTracking.HandState>, page2: Page)
    requires |page1.offsets| == SECTION_COUNT && |page2.offsets| == SECTION_COUNT
    requires page1.now <= page2.now < page1.now + COOLDOWN_MS
    ensures var s1 := ScrollStep(last, enabled1, hand1, page1);
      var s2 := ScrollStep(s1.lastScrollTime, enabled2, hand2, page2);
      !(s1.scrollTo.Some? && s2.scrollTo.Some?)
  {
  }

  /** A swipe down at the last section, or up at the first, does nothing. */
  lemma ClampedAtEnds(last: int, hand: HandTracking.HandState, page: Page)
    requires |page.offsets| == SECTION_COUNT
    requires var current := CurrentSection(page.offsets, page.scrollY + page.innerHeight / 2.0);
      (hand.wristVelocityY > 0.0 && current == LAST_SECTION) || (hand.wristVelocityY <= 0.0 && current == 0)
    ensures ScrollStep(last, true, Some(hand), page) == Step(None, last)
  {
  }

  /**
   * Sections at 0, 800, 1600, 2400 and 3200 with the page scrolled to 1200 in a
   * 1000-high viewport: the middle (1700) lies in the third section.
   */
  lemma CurrentSectionExample()
    ensures CurrentSection([Some(0.0), Some(800.0), Some(1600.0), Some(2400.0), Some(3200.0)], 1200.0 + 1000.0 / 2.0) == 2
  {
    var offsets := [Some(0.0), Some(800.0), Some(1600.0), Some(2400.0), Some(3200.0)];
    assert !Reached(offsets, 4, 1700.0) && !Reached(offsets, 3, 1700.0) && Reached(offsets, 2, 1700.0);
    CurrentSectionIsLastReached(offsets, 1700.0, 2);
  }

  /** The hook's cool-down reference. */
  class SwipeScroller {
    var lastScrollTime: int

    constructor ()
      ensures lastScrollTime == INITIAL_SCROLL_TIME
    {
      lastScrollTime := INITIAL_SCROLL_TIME;
    }

    /** The effect run on every change of `enabled` or the hand state. */
    method OnHandState(enabled: bool, handState: Option<HandTracking.HandState>, page: Page) returns (scrollTo: Option<nat>)
      requires |page.offsets| == SECTION_COUNT
      modifies this
      ensures Step(scrollTo, lastScrollTime) == ScrollStep(old(lastScrollTime), enabled, handState, page)
    {
      scrollTo := None;
      if !enabled || handState.None? || !handState.value.detected {
        return;
      }

      var wristVelocityY := handState.value.wristVelocityY;
      var now := page.now;

      if Abs(wristVelocityY) < SWIPE_THRESHOLD || now - lastScrollTime < COOLDOWN_MS {
        return;
      }

      var currentIndex := FindCurrentSection(page.offsets, page.scrollY + page.innerHeight / 2.0);

      var nextIndex := NextIndex(currentIndex, wristVelocityY);

      if nextIndex != currentIndex {
        var target := page.offsets[nextIndex];
        if target.Some? {
          scrollTo := Some(nextIndex);
          lastScrollTime := now;
        }
      }
    }
  }
}
