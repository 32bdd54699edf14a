# Portfolio gesture input and particle background — a Dafny model

This project models the interactive core of a portfolio web site. The core has two halves.

**Gesture input.** A webcam hand tracker becomes a pointer:

- `src/lib/hand-tracking.ts` turns hand landmarks into a `HandState`:
  - a cursor;
  - a pinch flag with hysteresis;
  - an open-palm flag;
  - a wrist velocity taken from a rolling buffer.
- `src/context/HandTrackingContext.tsx` turns each `HandState` into synthetic pointer events: a window move, then leave, enter, move and click on the element under the cursor. It also owns the enable toggle.
- `src/hooks/useHandGestureScroll.ts` turns a fast vertical wrist swipe into a one-section scroll, with a cool-down.

**Visual background.**

- `src/components/canvas/FlowField.tsx` animates a fixed pool of particles along a curl-noise field. It fades them through their lifetime, replaces dead ones in their slot, wraps them at the edges, pulls them toward the mouse and reacts to scrolling.
- `src/lib/noise.ts` holds the seeded permutation and gradient tables, the lattice indexing of the simplex noise, and the curl sampler.
- `src/hooks/useDeviceCapability.ts` classifies the device into a tier, which sets the particle count.
- `src/components/sections/IntroSection.tsx` holds the name scramble and the mouse glitch.

One Dafny module models each source file:

| file | module |
|---|---|
| `hand_tracking.dfy` | `HandTracking` |
| `input_bridge.dfy` | `InputBridge` |
| `gesture_scroll.dfy` | `GestureScroll` |
| `flow_field.dfy` | `FlowField` |
| `noise.dfy` | `Noise` |
| `device_capability.dfy` | `DeviceCapability` |
| `text_scramble.dfy` | `TextScramble` |

`wrappers.dfy` holds the `Option` type and `Abs`, the absolute value of a real.

The model follows each source file's own form:

- State that the code updates in place is a class whose methods are proved against specification functions:
  - the hand-tracking session;
  - the provider's refs and flags;
  - the scroll cool-down;
  - the particle pool (an array updated slot by slot);
  - the noise tables;
  - the scramble state.
- Pure code is functions and lemmas.

What the browser supplies becomes a parameter:

- the clock;
- `Math.random`;
- the landmark model's output;
- `elementFromPoint`;
- section offsets;
- the curl field and the square root.

Events and scroll targets are returned instead of dispatched.

## Model

| member | source | states |
|---|---|---|
| DeviceCapability.EffectiveCores | src/hooks/useDeviceCapability.ts:11 | A missing or zero core count becomes 4; a reported count is kept; the result is at least 1 |
| DeviceCapability.EffectiveMemory | src/hooks/useDeviceCapability.ts:12 | A missing or zero memory size becomes 4; a reported size is kept |
| DeviceCapability.Classify | src/hooks/useDeviceCapability.ts:20-26 | High iff WebGL, not mobile, cores ≥ 8 and memory ≥ 8; low iff no WebGL, or mobile with fewer than 4 cores, or memory < 4; medium iff not low and (mobile or cores < 8 or memory < 8) |
| DeviceCapability.TierOf | src/hooks/useDeviceCapability.ts:20-26 | The decision chain on the effective readings: low is tested first, then medium, else high; `Classify` states the result as three iffs |
| DeviceCapability.Capability | src/hooks/useDeviceCapability.ts:8-27 | Before the probe has run the hook reports high; once it has, the tier its readings classify to |
| DeviceCapability.ProbeNeverRaisesTier | src/hooks/useDeviceCapability.ts:8-26 | Whatever the device, running the probe never reports a tier above the initial one |
| DeviceCapability.MissingMemoryNeverHigh | src/hooks/useDeviceCapability.ts:12-26 | A browser without `deviceMemory` is never classed high |
| DeviceCapability.ZeroCoresAsFour | src/hooks/useDeviceCapability.ts:11-26 | Reporting 0 cores classifies exactly like reporting 4 |
| DeviceCapability.ZeroMemoryAsFour | src/hooks/useDeviceCapability.ts:12-26 | Reporting 0 memory classifies exactly like reporting 4 |
| DeviceCapability.TierMonotone | src/hooks/useDeviceCapability.ts:20-26 | More cores, more memory or a desktop never lowers the tier |
| HandTracking.PinchDistanceSquared | src/lib/hand-tracking.ts:47-50 | The squared thumb-to-index distance is non-negative |
| HandTracking.SquaredComparisonAgrees | src/lib/hand-tracking.ts:50-57 | For a non-negative distance, comparing squares with squared thresholds is the source's comparison of the root |
| HandTracking.NextPinch | src/lib/hand-tracking.ts:52-57 | Below the squared ON threshold the pinch is on, at or above the squared OFF threshold it is off, and in between it keeps the previous flag |
| HandTracking.PinchOutsideBandIgnoresHistory | src/lib/hand-tracking.ts:52-57 | Below ON the pinch is on and at or above OFF it is off, whatever the previous flag; in between it keeps the previous flag |
| HandTracking.PinchHeldBelowOff | src/lib/hand-tracking.ts:52-58 | A pinch stays on for every frame whose distance stays below OFF |
| HandTracking.PinchEngagesThenHolds | src/lib/hand-tracking.ts:52-58 | A frame below ON engages the pinch from any history, and it holds while later frames stay below OFF |
| HandTracking.NoPinchAboveOn | src/lib/hand-tracking.ts:52-58 | Without a pinch, distances at or above ON never engage one |
| HandTracking.PinchClearsAtOff | src/lib/hand-tracking.ts:52-58 | A last frame at or above OFF leaves the pinch off after any run |
| HandTracking.IsOpenPalm | src/lib/hand-tracking.ts:60-65 | Defined as every fingertip lying above its paired knuckle; `OpenPalmPairs` spells out the five pairs |
| HandTracking.OpenPalmPairs | src/lib/hand-tracking.ts:60-65 | Open palm iff tips 4, 8, 12, 16, 20 are each above knuckles 2, 5, 9, 13, 17 |
| HandTracking.PushWrist | src/lib/hand-tracking.ts:68-71 | A push appends the sample, and evicts the oldest exactly when the buffer was full; the buffer stays within 1..8 |
| HandTracking.BufferHoldsRecentSamples | src/lib/hand-tracking.ts:68-71 | After any stream of pushes the buffer is the last min(n, 8) samples, in arrival order |
| HandTracking.WristVelocity | src/lib/hand-tracking.ts:72-77 | With fewer than two samples the velocity is 0 |
| HandTracking.DecreasingGivesNegativeVelocity | src/lib/hand-tracking.ts:72-77 | A strictly falling buffer has a negative velocity |
| HandTracking.VelocityOfStream | src/lib/hand-tracking.ts:67-77 | From a buffer of at most eight samples, any stream of pushes gives (newest − oldest) / (count − 1) over the last min(n, 8) samples seen, or 0 for fewer than two; with at least eight, (last − eighth-from-last) / 7 |
| HandTracking.VelocityOfDecreasingStream | src/lib/hand-tracking.ts:67-77 | From an empty buffer, a strictly falling stream of at least eight samples gives (last − eighth-from-last) / 7, which is negative for a rising hand |
| HandTracking.Points | src/lib/hand-tracking.ts:101 | The reported landmarks keep count, order and x, y of every landmark |
| HandTracking.DetectedState | src/lib/hand-tracking.ts:91-103 | The reported state is detected and carries the landmark points and the gestures' pinch, palm and wrist velocity; a cursor within [0, 1] lands on a screen point inside the viewport |
| HandTracking.GestureSession.constructor | src/lib/hand-tracking.ts:26-37 | The module starts not running, with no pinch, an empty buffer and no handles |
| HandTracking.GestureSession.ComputeGestures | src/lib/hand-tracking.ts:39-80 | Mirrored cursor from landmark 8; pinch by hysteresis from the previous flag, which it then stores; open palm; the buffer pushed; the velocity of the new buffer |
| HandTracking.GestureSession.DetectionTick | src/lib/hand-tracking.ts:82-120 | Not running: nothing emitted and no new frame requested. Frame not ready: nothing emitted, state kept. No hand: the all-zero undetected state. A hand: the gestures scaled to the viewport, detected. A new tick is requested exactly when running |
| HandTracking.FirstTick | src/lib/hand-tracking.ts:82-116 | The first tick of a fresh session reports nothing iff the video has no current frame; an empty frame gives the undetected state; a hand is detected, pinching iff closer than the engage threshold, with zero wrist velocity |
| HandTracking.GestureSession.Start | src/lib/hand-tracking.ts:122-165 | The callback is registered first; each failing step stops where it is, with the handles acquired so far and nothing reported; a model or stream still held from an earlier start is replaced and counted as orphaned; success clears pinch and buffer, runs, and runs the first detection tick at once, so the pinch memory, the one-sample wrist buffer and the reported state are those of that tick; ok iff success |
| HandTracking.GestureSession.Stop | src/lib/hand-tracking.ts:167-189 | Whatever the state before, everything held is released and cleared, so stopping twice is stopping once; handles already orphaned stay orphaned |
| HandTracking.GestureSession.StartOrRelease | src/lib/hand-tracking.ts:122-189 | The corrected start: success as `Start`; a failure leaves the session fully reset; a session that held no model or stream orphans none |
| HandTracking.ReleasedFailureOrphansNothing | src/lib/hand-tracking.ts:122-189 | With the corrected start, a failed camera leaves no model held and the successful retry orphans nothing |
| InputBridge.NoHandDispatch | src/context/HandTrackingContext.tsx:51-60 | Without a hand: one off-screen leave on the hovered element if any, else nothing; the hover is cleared and the pinch memory kept |
| InputBridge.Dispatched | src/context/HandTrackingContext.tsx:50-118 | Defined as the events of one dispatch and the new hover and pinch memory; the dispatch lemmas in this table state its behaviour |
| InputBridge.DetectedStartsWithWindowMove | src/context/HandTrackingContext.tsx:62-71 | With a hand the first event is the window move at the screen point, and no other window move follows; the pinch memory becomes the frame's flag |
| InputBridge.NoElementOnlyWindowMove | src/context/HandTrackingContext.tsx:73-117 | With a hand over no element, only the window move, and the hover is kept |
| InputBridge.HoverTransitionOrder | src/context/HandTrackingContext.tsx:73-115 | A new element gets leave on the old one (if any) before enter on the new one, then exactly one move; the same element gets only the move; a click can only come last; the hover becomes the element |
| InputBridge.ClickOnPinchEdge | src/context/HandTrackingContext.tsx:105-117 | One click exactly when a detected hand pinches over an element and was not pinching before; otherwise none |
| InputBridge.SustainedPinchClicksOnce | src/context/HandTrackingContext.tsx:105-117 | A pinch held over elements for any number of frames clicks once in total, or never if it was already pinching |
| InputBridge.HandTrackingProvider.constructor | src/context/HandTrackingContext.tsx:39-48 | Everything starts disabled, empty and not hovering |
| InputBridge.HandTrackingProvider.DispatchSyntheticEvents | src/context/HandTrackingContext.tsx:50-118 | The events appended and the new hover and pinch memory are those of the frame's dispatch function |
| InputBridge.HandTrackingProvider.HandleHandState | src/context/HandTrackingContext.tsx:120-127 | The shared reference and the state both hold the frame, and the events are dispatched |
| InputBridge.HandTrackingProvider.Toggle | src/context/HandTrackingContext.tsx:129-145 | When enabled: the session is stopped and reset and every flag, the state, the shared reference and the bridge memory are cleared. Otherwise loading is raised and a start begins, and the session is untouched |
| InputBridge.HandTrackingProvider.StartSettled | src/context/HandTrackingContext.tsx:120-158 | Enabled and tracking iff the session started; loading ends false either way; the session's handles, orphan counts and first-tick memory are those of the start; on success the first tick's state, if any, is stored and its events dispatched, otherwise the bridge memory and the stored state are untouched |
| InputBridge.FailedStartOrphansModel | src/context/HandTrackingContext.tsx:129-158 | After a start whose camera fails, the provider is disabled while the model is still loaded; toggling again starts instead of stopping, and the successful retry orphans that model |
| GestureScroll.CurrentSection | src/hooks/useHandGestureScroll.ts:28-36 | The last section whose element exists and starts at or above the viewport middle, or the first if none does |
| GestureScroll.NothingReachedMeansFirst | src/hooks/useHandGestureScroll.ts:29-36 | When no section is reached, the current section is 0 |
| GestureScroll.CurrentSectionIsLastReached | src/hooks/useHandGestureScroll.ts:30-36 | A reached section with nothing reached after it is the current section |
| GestureScroll.FindCurrentSection | src/hooks/useHandGestureScroll.ts:28-36 | The backward search with early exit returns the current section |
| GestureScroll.MiddleSection | src/hooks/useHandGestureScroll.ts:27-36 | The section at the middle of the viewport is always a valid section index |
| GestureScroll.NextIndex | src/hooks/useHandGestureScroll.ts:38-42 | One section further in the swipe's direction, within range; it stays put iff clamped at the last or first section |
| GestureScroll.HasTarget | src/hooks/useHandGestureScroll.ts:38-46 | Defined as: the next index differs from the current one and its element exists; `ScrollConditions` uses it as the last scroll condition |
| GestureScroll.ScrollStep | src/hooks/useHandGestureScroll.ts:14-51 | The cool-down reference moves to now exactly when a scroll is issued |
| GestureScroll.ScrollConditions | src/hooks/useHandGestureScroll.ts:14-51 | A scroll happens iff enabled, a detected hand, speed at least the threshold, a full cool-down and an unclamped existing target; it targets the adjacent section in the swipe's direction and restarts the cool-down |
| GestureScroll.SpacedSwipesBothScroll | src/hooks/useHandGestureScroll.ts:14-51 | Two qualifying swipes a full cool-down apart, each with a target, both scroll to the next section |
| GestureScroll.GateEdgesPass | src/hooks/useHandGestureScroll.ts:20-25 | A swipe at exactly 0.012, exactly 1000 ms after the last scroll, scrolls |
| GestureScroll.FirstTickNeverScrolls | src/hooks/useHandGestureScroll.ts:20-25 | The first state of a fresh session never scrolls, its wrist velocity being 0 |
| GestureScroll.CooldownAllowsOneScroll | src/hooks/useHandGestureScroll.ts:20-25 | Two updates less than a cool-down apart scroll at most once |
| GestureScroll.ClampedAtEnds | src/hooks/useHandGestureScroll.ts:38-44 | Swiping down at the last section or up at the first does nothing |
| GestureScroll.CurrentSectionExample | src/hooks/useHandGestureScroll.ts:28-36 | Sections at 0, 800, 1600, 2400 and 3200 with the middle at 1700 give the third section |
| GestureScroll.SwipeScroller.constructor | src/hooks/useHandGestureScroll.ts:12 | The cool-down reference starts at 0 |
| GestureScroll.SwipeScroller.OnHandState | src/hooks/useHandGestureScroll.ts:14-51 | The scroll issued and the new reference are those of the scroll step |
| FlowField.CreateParticle | src/components/canvas/FlowField.tsx:20-35 | A fresh particle is in the viewport, invisible, with no trail; lifetime in [200, 600), life below it, speed in [0.15, 0.5); red iff forced or the draw is below 0.12 |
| FlowField.CreatedParticleValid | src/components/canvas/FlowField.tsx:20-35 | A fresh particle satisfies the pool invariant |
| FlowField.ParticleCount | src/components/canvas/FlowField.tsx:45-52 | Zero iff reduced motion; otherwise between 500 and 2500 |
| FlowField.ParticleCountMonotone | src/components/canvas/FlowField.tsx:45-52 | A better tier never gets fewer particles |
| FlowField.ScrollProgress | src/components/canvas/FlowField.tsx:94-95 | 0 when the page cannot scroll; in [0, 1] for a scroll position within range |
| FlowField.Smoothed | src/components/canvas/FlowField.tsx:109 | The average moves between its old value and the new reading, and stays non-negative |
| FlowField.ScrollEnergy | src/components/canvas/FlowField.tsx:110 | The energy of a non-negative average is in [0, 1] |
| FlowField.EnergyStaysInUnit | src/components/canvas/FlowField.tsx:96-110 | From 0, any run of absolute scroll readings keeps the average non-negative and the energy in [0, 1] |
| FlowField.ParamsMonotoneInEnergy | src/components/canvas/FlowField.tsx:112-126 | More energy never shortens the fade, the clock speed or the speed multiplier |
| FlowField.ParamsRanges | src/components/canvas/FlowField.tsx:112-126 | For energy in [0, 1]: fade in [0.04, 0.1], clock speed in [0.0003, 0.0023], multiplier in [1, 2.2] |
| FlowField.FrameParams | src/components/canvas/FlowField.tsx:112-126 | The energy is kept; for progress in [0, 1] the noise scale is in [0.002, 0.003] and the red boost in [0, 0.4] |
| FlowField.LifeAlpha | src/components/canvas/FlowField.tsx:139-147 | Strictly inside the lifetime the alpha is in (0, 1], and exactly 1 in the middle 80% |
| FlowField.Force | src/components/canvas/FlowField.tsx:174 | Strictly inside the radius the force is strictly between 0 and 1 |
| FlowField.MouseDistance | src/components/canvas/FlowField.tsx:170-172 | Defined as the square root (a parameter) of the squared offset from the particle to the mouse |
| FlowField.Drift | src/components/canvas/FlowField.tsx:159-162 | Defined as the flow vector scaled by the particle's speed and the frame's multiplier |
| FlowField.Pull | src/components/canvas/FlowField.tsx:169-178 | Defined as the unit offset times the attraction, strictly inside the radius only; `NoPullOutsideRadius` and `PullInsideRadius` state its behaviour |
| FlowField.Velocity | src/components/canvas/FlowField.tsx:158-178 | Defined as the drift, plus the downward push on the y axis, plus the pull |
| FlowField.Moved | src/components/canvas/FlowField.tsx:155-187 | The old position becomes the trail start, the new position lies inside the viewport, and life, lifetime, speed, alpha and colour are kept |
| FlowField.SegmentOf | src/components/canvas/FlowField.tsx:194-210 | The segment runs from the old to the new position in the particle's colour; its width is at least 1.5 (red) or 0.8 (grey) for non-negative energy, and at most 2.3 or 1.2 for energy in [0, 1] |
| FlowField.Advance | src/components/canvas/FlowField.tsx:134-192 | Defined as: age the particle, replace it when dead, otherwise move it and draw only short steps; `AdvanceLifecycle` and `AdvanceDrawsShortSteps` state it |
| FlowField.Attraction | src/components/canvas/FlowField.tsx:173-175 | Inside the radius the pull strength is in (0, 2) |
| FlowField.AttractionDecreasesWithDistance | src/components/canvas/FlowField.tsx:173-175 | A closer mouse never pulls less |
| FlowField.Wrap | src/components/canvas/FlowField.tsx:183-187 | The result is in [0, extent]; inside it nothing moves, below 0 it goes to the far edge, past the extent to 0 |
| FlowField.Push | src/components/canvas/FlowField.tsx:164-167 | The downward push is positive iff the energy exceeds 0.05 |
| FlowField.NoPullOutsideRadius | src/components/canvas/FlowField.tsx:169-178 | At or beyond 350 pixels, or on the mouse itself, there is no pull |
| FlowField.PullInsideRadius | src/components/canvas/FlowField.tsx:169-178 | Inside the radius the pull points strictly toward the mouse along each axis where the particle is off the mouse, is zero along an axis where it is level, and has strength in (0, 2) |
| FlowField.AdvanceLifecycle | src/components/canvas/FlowField.tsx:134-187 | A particle whose life reaches its maximum is replaced in its slot by a fresh one and not drawn. A survivor's life grows by one, its alpha is the lifecycle fade of the new life fraction (in (0, 1]), its old position is kept as the trail start and its identity is kept. Both stay valid |
| FlowField.AdvanceDrawsShortSteps | src/components/canvas/FlowField.tsx:189-210 | A segment is drawn iff the particle survives and moved at most half the viewport on each axis; it runs from the old to the new position |
| FlowField.FreshPool | src/components/canvas/FlowField.tsx:68-74 | One fresh particle per draw record |
| FlowField.SegmentsBounded | src/components/canvas/FlowField.tsx:134-211 | A frame draws no more segments than there are particles |
| FlowField.AdvancedPoolValid | src/components/canvas/FlowField.tsx:134-211 | Every slot keeps the particle invariant across a frame |
| FlowField.Canvas.constructor | src/components/canvas/FlowField.tsx:54-91 | The clock, scroll and velocity readings start at 0 and the mouse away; the pool is built for the viewport and satisfies the invariant |
| FlowField.Canvas.Init | src/components/canvas/FlowField.tsx:68-74 | A new pool, one fresh particle per draw, satisfying the invariant |
| FlowField.Canvas.Resize | src/components/canvas/FlowField.tsx:76-91 | The viewport takes the window size and the pool is rebuilt for it; the clock, scroll and mouse readings are kept |
| FlowField.Canvas.HandleScroll | src/components/canvas/FlowField.tsx:93-99 | Progress is the scroll fraction; velocity is the absolute distance from the last position, which becomes the new last position |
| FlowField.Canvas.HandleMouse | src/components/canvas/FlowField.tsx:216-218 | The mouse is at the event's point |
| FlowField.Canvas.HandleMouseLeave | src/components/canvas/FlowField.tsx:220-222 | The mouse is sent away to (−1000, −1000) |
| FlowField.Canvas.NextFrame | src/components/canvas/FlowField.tsx:105-132 | The frame's viewport and mouse are the canvas's; the clock advances by the frame's time speed; with non-negative scroll readings the energy is in [0, 1] |
| FlowField.Canvas.Animate | src/components/canvas/FlowField.tsx:101-214 | The average is smoothed and the energy is in [0, 1]; the clock advances; every slot is advanced in place in the same array; the segments are drawn in slot order; the invariant is kept |
| FlowField.AdvancePool | src/components/canvas/FlowField.tsx:134-211 | The loop leaves every slot advanced and collects the segments in slot order |
| FlowField.AdvanceSlot | src/components/canvas/FlowField.tsx:134-211 | One iteration of the loop: with the slots before i advanced and the rest untouched, slot i is advanced in place and its segment, if any, is appended to those of the slots before it |
| FlowField.FadeAlpha | src/components/canvas/FlowField.tsx:139-147 | The branch chain computes the lifecycle fade |
| FlowField.WrapAround | src/components/canvas/FlowField.tsx:183-187 | The two sequential tests compute the wrap |
| FlowField.StepParticle | src/components/canvas/FlowField.tsx:135-210 | The field-by-field loop body gives the particle and segment of one advance |
| Noise.LatticeIndexIsEuclideanMod | src/lib/noise.ts:65-66 | `n & 255` with JavaScript's 32-bit semantics is n mod 256, always in 0..255, negative n included |
| Noise.SeedInteger | src/lib/noise.ts:17-18 | A seed strictly between 0 and 1 becomes an integer in [0, 65536); any other seed is floored |
| Noise.SeedMasks | src/lib/noise.ts:16-27 | A seed below 256 gives both parities the same mask, the seed itself |
| Noise.DefaultSeedMasks | src/lib/noise.ts:16-40 | Seed 42 is copied into the second byte, so both parities are masked with 42 |
| Noise.ScrambleRoundTrip | src/lib/noise.ts:30 | The byte scramble is invertible: unscramble undoes it and vice versa |
| Noise.SameParityMasksPermute | src/lib/noise.ts:21-32 | When both masks have the same low bit, the 256-byte table is a permutation of 0..255 |
| Noise.DifferentParityMasksCollide | src/lib/noise.ts:21-32 | When the masks differ in their low bit, two positions collide and the table is no permutation |
| Noise.DefaultTableIsPermutation | src/lib/noise.ts:16-40 | The table built at load time is a permutation of 0..255 |
| Noise.PermEntry | src/lib/noise.ts:34-36 | Every entry of the doubled table is a byte |
| Noise.TablesDoubled | src/lib/noise.ts:34-37 | The second half repeats the first; every gradient is one of the eight directions |
| Noise.Tables.constructor | src/lib/noise.ts:13-40 | Loading allocates both tables and seeds them with 42 |
| Noise.Tables.Seed | src/lib/noise.ts:16-38 | After seeding, each entry of both tables is the one the seed's masks determine |
| Noise.Tables.FillTables | src/lib/noise.ts:21-37 | Once the masks are known, both loops leave every entry of both tables as those masks determine |
| Noise.Tables.FillEntry | src/lib/noise.ts:33-36 | One iteration of the second loop: entry i of the permutation table is the base byte at i modulo 256 and its gradient is the one that byte selects, with the earlier entries kept |
| Noise.BaseBytes | src/lib/noise.ts:21-32 | The first loop fills all 256 base bytes: each position masked by its parity's mask, then scrambled |
| Noise.MaskAndScramble | src/lib/noise.ts:23-31 | One position's byte: masked by the odd or even mask by its parity, then scrambled |
| Noise.BaseEntry | src/lib/noise.ts:23-31 | Defined as masking a byte by its parity's mask, then scrambling it; `SameParityMasksPermute` and `DifferentParityMasksCollide` state when this is a permutation |
| Noise.GradEntry | src/lib/noise.ts:36 | Every gradient entry is one of the eight directions |
| Noise.LookUpBase | src/lib/noise.ts:34 | `perm[i]` reads the base byte at i modulo 256 |
| Noise.PermEntriesFromBase | src/lib/noise.ts:33-35 | Every entry of the 512-entry table is the base byte at its index modulo 256 |
| Noise.SimplexCell | src/lib/noise.ts:43-66 | The wrapped lattice coordinates are the Euclidean remainders mod 256; the middle corner is (1, 0) iff x0 > y0, else (0, 1) |
| Noise.GradientIndices | src/lib/noise.ts:72-86 | All three gradient lookups stay below 512 |
| Noise.Skewed | src/lib/noise.ts:43-51 | Defined as the skewed cell and the offsets within it; `SimplexCell` states its properties |
| Noise.Curl2 | src/lib/noise.ts:97-108 | Defined as the source's sampler over a noise function given as a parameter; `Curl2OfLinearField` states what it returns |
| Noise.RotatedCurl2 | src/lib/noise.ts:106-107 | Defined as the gradient turned by 90 degrees, (∂N/∂y, −∂N/∂x); `RotatedCurl2PerpendicularToGradient` states it |
| Noise.Curl2OfLinearField | src/lib/noise.ts:97-108 | On a field a·x + b·y + c the sampler returns (a, −b) |
| Noise.Curl2NotPerpendicularToGradient | src/lib/noise.ts:106-107 | The sampler's dot product with the gradient is a² − b², so it is perpendicular only when abs(a) = abs(b) |
| Noise.Curl2AlongGradientOfX | src/lib/noise.ts:97-107 | On N(x, y) = x the sampler returns (1, 0), parallel to the gradient |
| Noise.RotatedCurl2OfLinearField | src/lib/noise.ts:106-107 | The rotated sampler returns (b, −a) on a linear field |
| Noise.RotatedCurl2PerpendicularToGradient | src/lib/noise.ts:106-107 | The rotated sampler is perpendicular to every linear field's gradient |
| TextScramble.NextWordIndex | src/components/sections/IntroSection.tsx:19-21 | The next index is one further, or 0 after the last word |
| TextScramble.CyclingReturnsToStart | src/components/sections/IntroSection.tsx:18-21 | As many cycles as there are words bring back the same word |
| TextScramble.NamesAlternate | src/components/sections/IntroSection.tsx:7-20 | With the two names the index alternates between 0 and 1 |
| TextScramble.Resolved | src/components/sections/IntroSection.tsx:29-35 | Defined as the progress test of a position; `ResolvedPrefix`, `ResolvedMonotone` and `ResolvedIffInPrefix` state its shape |
| TextScramble.ResolvedPrefix | src/components/sections/IntroSection.tsx:31-35 | Left of a resolved position, every position is resolved |
| TextScramble.ResolvedMonotone | src/components/sections/IntroSection.tsx:28-35 | A resolved position stays resolved at later steps |
| TextScramble.AllResolvedAtLastStep | src/components/sections/IntroSection.tsx:24-35 | At step 12 every position below maxLen is resolved |
| TextScramble.NoneResolvedEarly | src/components/sections/IntroSection.tsx:28-35 | At steps 0 to 2 no position is resolved |
| TextScramble.ResolvedIffInPrefix | src/components/sections/IntroSection.tsx:31-35 | A position is resolved iff it lies below the resolved count |
| TextScramble.ResolvedCountMonotone | src/components/sections/IntroSection.tsx:27-35 | The resolved prefix never shrinks as the step grows |
| TextScramble.ResolvedCountExample | src/components/sections/IntroSection.tsx:28-35 | At step 6 of a nine-wide frame, four positions are resolved |
| TextScramble.Glyph | src/components/sections/IntroSection.tsx:40 | A draw picks a character of the glitch alphabet |
| TextScramble.GlyphRun | src/components/sections/IntroSection.tsx:37-41 | One glitch character per unresolved position |
| TextScramble.Cell | src/components/sections/IntroSection.tsx:33-41 | At most one character: once resolved, the target's character, or nothing past the target's end; before that, one glitch character |
| TextScramble.Frame | src/components/sections/IntroSection.tsx:31-42 | Defined as the cells of all positions up to the longer word; `FrameShape` and `FinalFrameIsTarget` state it |
| TextScramble.FrameShape | src/components/sections/IntroSection.tsx:31-42 | A frame is the target's first min(count, length) characters followed by one glyph per unresolved position |
| TextScramble.FinalFrameIsTarget | src/components/sections/IntroSection.tsx:24-50 | At step 12 the frame equals the target word, whatever the draws |
| TextScramble.Scrambler.constructor | src/components/sections/IntroSection.tsx:13-14 | The display starts on the first word, at index 0 |
| TextScramble.Scrambler.Cycle | src/components/sections/IntroSection.tsx:18-53 | The index moves to the next word; `from` is the old word and `to` the new; the first frame is shown and more are due |
| TextScramble.Scrambler.Scramble | src/components/sections/IntroSection.tsx:27-51 | The step grows by one; before step 12 the display is that step's frame and another call is due; at step 12 the display is the target and nothing more is due |
| TextScramble.RenderFrame | src/components/sections/IntroSection.tsx:31-43 | The loop over positions builds exactly the frame of the current step |
| TextScramble.RenderCell | src/components/sections/IntroSection.tsx:34-42 | One position gives the target character (or nothing past its end) once resolved, else one glyph |
| TextScramble.RandomGlitchFrame | src/components/sections/IntroSection.tsx:74-82 | clipTop in [0, 60), the band height in [15, 45), x offsets in [−7, 7), y offsets in [−3, 3) |
| TextScramble.EveryFrameInRangeIsDrawn | src/components/sections/IntroSection.tsx:74-82 | Every frame within those bounds comes from some draws, so the bounds are exact |

## Findings

| source | as written | input that shows it | evidently intended | confidence | as-written member | corrected member |
|---|---|---|---|---|---|---|
| src/lib/noise.ts:97-107 | `dx` is the difference along y and `dy` the one along x, and (dy, −dx) = (∂N/∂x, −∂N/∂y) is returned | N(x, y) = x gives (1, 0), parallel to the gradient (1, 0) | the gradient turned by 90 degrees, (∂N/∂y, −∂N/∂x), as the comment says | medium, not executed | Noise.Curl2AlongGradientOfX | Noise.RotatedCurl2PerpendicularToGradient |
| src/context/HandTrackingContext.tsx:129-158 | the toggle stops the session only when enabled, and a failed start leaves it disabled with the handles acquired before the failing step still held; the next start then replaces them without releasing them | a start whose camera fails, then a successful retry: the first model is never closed | a failed start releases what it acquired, so no partial session persists | medium, not executed | InputBridge.FailedStartOrphansModel | HandTracking.GestureSession.StartOrRelease |

The flow field takes its curl field as a parameter, so its properties hold for either sampler. The provider keeps the start as written, since it models the provider as it is; `StartOrRelease` is the start it evidently means, and `ReleasedFailureOrphansNothing` runs the same retry with it.

## Left out

- PullInsideRadius: states the pull's direction per axis and its strength range. It does not state that the pull vector's length equals the attraction. The square root is a parameter, so `dx / dist` is a unit vector only for a true square root.
- WristVelocity: its own contract covers only a short buffer. The value after any stream of pushes is stated by `VelocityOfStream`, and `ComputeGestures` ties it to the buffer.
- Floating point: all numbers are reals, so rounding is not modelled. This matters for the pinch thresholds, the resolve rule of the scramble and `Math.floor` of the glyph index.
- The value of the simplex noise (√3 skew constants, falloff polynomials) is not modelled. The skew factors are parameters of `SimplexCell`, and the curl field is a parameter of the flow field.
- The pinch test compares squared distances with squared thresholds instead of taking a square root. `SquaredComparisonAgrees` shows this is the same test.
- Camera, model and network I/O are abstract: the MediaPipe import, the CDN model URLs, `getUserMedia`, the video element and `play`.
  - Starting is an abstract outcome (`StartOutcome`).
  - A failing start keeps the handles acquired before the failing step, as the code does. The provider stops the session only while it is enabled, and a failed start leaves it disabled, so nothing stops that session afterwards. A retry replaces the held model and stream without releasing them; the boolean handle flags cannot show this, so the counters `orphanedModels` and `orphanedStreams` record each replaced handle (see "## Findings").
- A failure of the dynamic `import` in the toggle is not a separate outcome; it behaves as a failed start.
- Concurrency is not modelled: a toggle while a start is in flight, and the unmount cleanup effect.
  - `startPending` marks the begun start.
  - Its completion is `StartSettled`.
- DOM calls become inputs and outputs: `elementFromPoint`, `getElementById`, `dispatchEvent` and `scrollIntoView`.
  - Events are returned in order.
  - The scroll target is returned.
- Element identity is a number.
- Clocks are parameters: `Date.now` and `performance.now`.
- `requestAnimationFrame` is a flag (`tickScheduled`) or the caller invoking the next frame. The first tick, which the start runs directly, is part of `Start`; its frame (`readyState`, the detected hands, the viewport) and the element under its cursor are inputs of `Start` and `StartSettled`.
- The timers of the scramble are the caller invoking `Cycle` and `Scramble`:
  - `setInterval`;
  - `setTimeout`;
  - `clearTimeout` on unmount.
  - A scramble still running from an earlier cycle when the next cycle starts is not modelled. The interval (3000 ms) is longer than a scramble (600 ms).
- The mouse-move glitch trigger (`useGlitch`) is timers and a random threshold around `randomGlitchFrame`; only the frame is modelled.
- Canvas drawing is left out:
  - the fill of the trail fade;
  - stroke colours and the random grey;
  - device-pixel-ratio sizing;
  - a missing 2D context;
  - adding and removing listeners.
  - Segments carry the opacity and width the code would stroke with.
- Each particle is a value in an array slot. The source mutates particle objects in place; no two slots share a particle, so no aliasing is lost.
- The glyph draws are one per position, indexed by position. The source draws only for unresolved positions, in order; both give one independent draw per unresolved position.
- `curl2`'s evaluation of `simplex2` at four points is a noise function parameter of `Curl2`.
