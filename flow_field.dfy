/**
 * The particle background (src/components/canvas/FlowField.tsx): a fixed pool of
 * particles advected by a curl-noise field, with lifecycle fading, replacement of
 * dead particles in their slot, toroidal wrap, mouse attraction and scroll-driven
 * parameters, drawn as short trail segments.
 *
 * Randomness, the curl field and the square root are inputs: a particle is created
 * from a record of uniform draws in [0, 1), the flow vector comes from a function
 * argument and so does the distance. Drawing is returned as a list of segments.
 */
module FlowField {
  import opened Wrappers
  import DeviceCapability

  /** A draw of Math.random(). */
  type Unit = r: real | 0.0 <= r < 1.0

  datatype Particle = Particle(
    x: real,
    y: real,
    prevX: real,
    prevY: real,
    speed: real,
    life: real,
    maxLife: real,
    isRed: bool,
    alpha: real)

  /** The random draws createParticle makes, in order. */
  datatype Draws = Draws(x: Unit, y: Unit, maxLife: Unit, speed: Unit, life: Unit, red: Unit)

  const MIN_LIFE: real := 200.0
  const LIFE_SPREAD: real := 400.0
  const MIN_SPEED: real := 0.15
  const SPEED_SPREAD: real := 0.35
  const RED_CHANCE: real := 0.12
  /** The mouse position while the pointer is outside the page. */
  const MOUSE_AWAY: real := -1000.0
  const ATTRACT_RADIUS: real := 350.0
  const PUSH_THRESHOLD: real := 0.05

  /** A draw scaled by a non-negative extent stays within it. */
  lemma UnitScale(u: Unit, extent: real)
    ensures extent >= 0.0 ==> 0.0 <= u * extent <= extent
    ensures extent > 0.0 ==> u * extent < extent
  {
    if extent > 0.0 {
      assert extent - u * extent == (1.0 - u) * extent;
    }
  }

  /** A fresh particle somewhere in the w x h viewport, not yet visible. */
  function CreateParticle(w: real, h: real, forceRed: bool, d: Draws): (p: Particle)
    ensures p.prevX == p.x && p.prevY == p.y && p.alpha == 0.0
    ensures MIN_LIFE <= p.maxLife < MIN_LIFE + LIFE_SPREAD
    ensures 0.0 <= p.life < p.maxLife
    ensures MIN_SPEED <= p.speed < MIN_SPEED + SPEED_SPREAD
    ensures w >= 0.0 ==> 0.0 <= p.x <= w
    ensures h >= 0.0 ==> 0.0 <= p.y <= h
    ensures p.isRed <==> forceRed || d.red < RED_CHANCE
  {
    UnitScale(d.x, w);
    UnitScale(d.y, h);
    UnitScale(d.maxLife, LIFE_SPREAD);
    UnitScale(d.speed, SPEED_SPREAD);
    var x := d.x * w;
    var y := d.y * h;
    var maxLife := MIN_LIFE + d.maxLife * LIFE_SPREAD;
    UnitScale(d.life, maxLife);
    Particle(x, y, x, y, MIN_SPEED + d.speed * SPEED_SPREAD, d.life * maxLife, maxLife,
             forceRed || d.red < RED_CHANCE, 0.0)
  }

  /** getParticleCount: none under reduced motion, otherwise by tier. */
  function ParticleCount(prefersReducedMotion: bool, tier: DeviceCapability.Tier): (n: nat)
    ensures prefersReducedMotion <==> n == 0
    ensures !prefersReducedMotion ==> 500 <= n <= 2500
  {
    if prefersReducedMotion then 0
    else
      match tier
      case High => 2500
      case Medium => 1200
      case Low => 500
  }

  /** A better tier never gets fewer particles. */
  lemma ParticleCountMonotone(reduced: bool, t1: DeviceCapability.Tier, t2: DeviceCapability.Tier)
    requires DeviceCapability.Rank(t1) <= DeviceCapability.Rank(t2)
    ensures ParticleCount(reduced, t1) <= ParticleCount(reduced, t2)
  {
  }

  /** The page's scroll position as a fraction of the scrollable height, 0 when nothing scrolls. */
  function ScrollProgress(scrollY: real, scrollHeight: real, innerHeight: real): (r: real)
    ensures scrollHeight - innerHeight <= 0.0 ==> r == 0.0
    ensures 0.0 <= scrollY <= scrollHeight - innerHeight ==> 0.0 <= r <= 1.0
  {
    var maxScroll := scrollHeight - innerHeight;
    if maxScroll > 0.0 then scrollY / maxScroll else 0.0
  }

  /** The exponential moving average of the scroll velocity. */
  function Smoothed(smoothVelocity: real, velocity: real): (s: real)
    ensures 0.0 <= smoothVelocity && 0.0 <= velocity ==> 0.0 <= s
    ensures smoothVelocity <= velocity ==> smoothVelocity <= s <= velocity
    ensures velocity <= smoothVelocity ==> velocity <= s <= smoothVelocity
  {
    smoothVelocity + (velocity - smoothVelocity) * 0.08
  }

  /** `min(smoothVelocity / 40, 1)`. */
  function ScrollEnergy(smoothVelocity: real): (e: real)
    ensures smoothVelocity >= 0.0 ==> 0.0 <= e <= 1.0
  {
    var e := smoothVelocity / 40.0;
    if e < 1.0 then e else 1.0
  }

  /** The average after a run of scroll velocity readings, starting from `start`. */
  function SmoothedRun(start: real, velocities: seq<real>): real
    decreases |velocities|
  {
    if velocities == [] then start
    else SmoothedRun(Smoothed(start, velocities[0]), velocities[1..])
  }

  /**
   * Velocities are absolute scroll distances, so from the initial 0 the average
   * never goes negative and the energy stays in [0, 1].
   */
  lemma {:induction false} EnergyStaysInUnit(start: real, velocities: seq<real>)
    requires start >= 0.0
    requires forall k :: 0 <= k < |velocities| ==> velocities[k] >= 0.0
    ensures SmoothedRun(start, velocities) >= 0.0
    ensures 0.0 <= ScrollEnergy(SmoothedRun(start, velocities)) <= 1.0
    decreases |velocities|
  {
    if velocities != [] {
      EnergyStaysInUnit(Smoothed(start, velocities[0]), velocities[1..]);
    }
  }

  /** The scroll-reactive parameters of one frame. */
  datatype Params = Params(
    energy: real,
    trailFade: real,
    noiseScale: real,
    timeSpeed: real,
    speedMult: real,
    redBoost: real)

  function FrameParams(energy: real, progress: real): (params: Params)
    ensures params.energy == energy
    ensures 0.0 <= progress <= 1.0 ==> 0.002 <= params.noiseScale <= 0.003 && 0.0 <= params.redBoost <= 0.4
  {
    Params(energy, 0.04 + energy * 0.06, 0.002 + progress * 0.001, 0.0003 + energy * 0.002,
           1.0 + energy * 1.2, progress * 0.4)
  }

  /** More energy fades trails faster, runs time faster and moves particles faster. */
  lemma ParamsMonotoneInEnergy(e1: real, e2: real, progress: real)
    requires e1 <= e2
    ensures FrameParams(e1, progress).trailFade <= FrameParams(e2, progress).trailFade
    ensures FrameParams(e1, progress).timeSpeed <= FrameParams(e2, progress).timeSpeed
    ensures FrameParams(e1, progress).speedMult <= FrameParams(e2, progress).speedMult
  {
  }

  /** With energy in [0, 1] the parameters stay in their designed ranges. */
  lemma ParamsRanges(energy: real, progress: real)
    requires 0.0 <= energy <= 1.0
    ensures 0.04 <= FrameParams(energy, progress).trailFade <= 0.1
    ensures 0.0003 <= FrameParams(energy, progress).timeSpeed <= 0.0023
    ensures 1.0 <= FrameParams(energy, progress).speedMult <= 2.2
  {
  }

  /** What one frame's particle update reads. */
  datatype Frame = Frame(params: Params, time: real, mouseX: real, mouseY: real, w: real, h: real)

  /** The lifecycle fade: ramp in over the first tenth, out over the last tenth. */
  function LifeAlpha(f: real): (a: real)
    ensures 0.0 < f < 1.0 ==> 0.0 < a <= 1.0
    ensures 0.1 <= f <= 0.9 ==> a == 1.0
  {
    if f < 0.1 then f / 0.1
    else if f > 0.9 then (1.0 - f) / 0.1
    else 1.0
  }

  lemma PositiveFactor(x: real, b: real)
    requires b > 0.0 && x * b > 0.0
    ensures x > 0.0
  {
  }

  /** A ratio of positives below one. */
  lemma FractionInUnit(a: real, b: real)
    requires 0.0 < a < b
    ensures 0.0 < a / b < 1.0
  {
    var q := a / b;
    assert q * b == a;
    PositiveFactor(q, b);
    var r := 1.0 - q;
    assert r * b == b - q * b;
    PositiveFactor(r, b);
  }

  /** How close the mouse is, relative to the radius: 1 at the centre, 0 at the rim. */
  function Force(dist: real): (f: real)
    requires 0.0 < dist < ATTRACT_RADIUS
    ensures 0.0 < f < 1.0
  {
    (ATTRACT_RADIUS - dist) / ATTRACT_RADIUS
  }

  /** The pull strength toward the mouse at distance `dist`. */
  function Attraction(dist: real): (a: real)
    requires 0.0 < dist < ATTRACT_RADIUS
    ensures 0.0 < a < 2.0
  {
    var force := Force(dist);
    SquareInUnit(force);
    force * force * 2.0
  }

  function Square(x: real): real
  {
    x * x
  }

  /** A product of positives, named, with its sign. */
  lemma Product(x: real, y: real) returns (c: real)
    requires 0.0 < x && 0.0 < y
    ensures c == x * y && 0.0 < c
  {
    c := x * y;
  }

  lemma SquareInUnit(f: real)
    requires 0.0 < f < 1.0
    ensures 0.0 < Square(f) < 1.0
  {
    var sq := Product(f, f);
    var rest := Product(f, 1.0 - f);
    assert rest == f - sq;
  }

  lemma SquarePositive(u: real)
    requires u != 0.0
    ensures 0.0 < Square(u)
  {
    if u < 0.0 {
      var sq := Product(-u, -u);
    } else {
      var sq := Product(u, u);
    }
  }

  lemma DoubleSquareMonotone(a: real, b: real)
    requires 0.0 <= a <= b
    ensures a * a * 2.0 <= b * b * 2.0
  {
    assert b * b - a * a == (b - a) * (b + a);
  }

  /** A closer mouse pulls harder. */
  lemma AttractionDecreasesWithDistance(d1: real, d2: real)
    requires 0.0 < d1 <= d2 < ATTRACT_RADIUS
    ensures Attraction(d2) <= Attraction(d1)
  {
    DoubleSquareMonotone(Force(d2), Force(d1));
  }

  /** The wrap onto the other edge when a coordinate leaves [0, extent]. */
  function Wrap(v: real, extent: real): (r: real)
    ensures extent >= 0.0 ==> 0.0 <= r <= extent
    ensures 0.0 <= v <= extent ==> r == v
    ensures v < 0.0 && extent >= 0.0 ==> r == extent
    ensures v > extent && extent >= 0.0 ==> r == 0.0
  {
    var a := if v < 0.0 then extent else v;
    if a > extent then 0.0 else a
  }

  /** The distance to the mouse, as the supplied square root computes it. */
  function MouseDistance(p: Particle, fr: Frame, sqrt: real -> real): real
  {
    var dx := fr.mouseX - p.x;
    var dy := fr.mouseY - p.y;
    sqrt(dx * dx + dy * dy)
  }

  /** The flow vector scaled by the particle's speed and the frame's multiplier. */
  function Drift(p: Particle, params: Params, flow: (real, real)): (real, real)
  {
    (flow.0 * p.speed * params.speedMult, flow.1 * p.speed * params.speedMult)
  }

  /** The downward scroll push, only above the energy threshold. */
  function Push(params: Params): (push: real)
    ensures push >= 0.0 <== params.energy >= 0.0
    ensures push > 0.0 <==> params.energy > PUSH_THRESHOLD
  {
    if params.energy > PUSH_THRESHOLD then params.energy * 1.5 else 0.0
  }

  /** The pull toward the mouse, applied only strictly inside the radius and away from its centre. */
  function Pull(p: Particle, fr: Frame, sqrt: real -> real): (real, real)
  {
    var dx := fr.mouseX - p.x;
    var dy := fr.mouseY - p.y;
    var dist := MouseDistance(p, fr, sqrt);
    if dist < ATTRACT_RADIUS && dist > 0.0 then
      var attract := Attraction(dist);
      ((dx / dist) * attract, (dy / dist) * attract)
    else
      (0.0, 0.0)
  }

  /** The particle's velocity for the frame. */
  function Velocity(p: Particle, fr: Frame, flow: (real, real), sqrt: real -> real): (real, real)
  {
    var drift := Drift(p, fr.params, flow);
    var pull := Pull(p, fr, sqrt);
    (drift.0 + pull.0, drift.1 + Push(fr.params) + pull.1)
  }

  /** Outside the open radius, or on the mouse itself, there is no pull. */
  lemma NoPullOutsideRadius(p: Particle, fr: Frame, sqrt: real -> real)
    requires !(0.0 < MouseDistance(p, fr, sqrt) < ATTRACT_RADIUS)
    ensures Pull(p, fr, sqrt) == (0.0, 0.0)
  {
  }

  /**
   * Inside the radius the pull points toward the mouse on each axis: strictly toward it
   * along an axis where the particle is off the mouse, and not at all along an axis where
   * it is level with it. Its strength lies in (0, 2).
   */
  lemma PullInsideRadius(p: Particle, fr: Frame, sqrt: real -> real)
    requires 0.0 < MouseDistance(p, fr, sqrt) < ATTRACT_RADIUS
    ensures var pull := Pull(p, fr, sqrt);
      && 0.0 < Attraction(MouseDistance(p, fr, sqrt)) < 2.0
      && (fr.mouseX != p.x ==> pull.0 * (fr.mouseX - p.x) > 0.0)
      && (fr.mouseY != p.y ==> pull.1 * (fr.mouseY - p.y) > 0.0)
      && (fr.mouseX == p.x ==> pull.0 == 0.0)
      && (fr.mouseY == p.y ==> pull.1 == 0.0)
  {
    var dist := MouseDistance(p, fr, sqrt);
    var a := Attraction(dist);
    TowardOffset(fr.mouseX - p.x, dist, a);
    TowardOffset(fr.mouseY - p.y, dist, a);
  }

  /** One axis of the pull, `(u / dist) * a`, has the sign of the offset `u`. */
  lemma TowardOffset(u: real, dist: real, a: real)
    requires dist > 0.0 && a > 0.0
    ensures u != 0.0 ==> ((u / dist) * a) * u > 0.0
    ensures u == 0.0 ==> (u / dist) * a == 0.0
  {
    assert (u / dist) * a * u == (u * u) * (a / dist);
    if u != 0.0 {
      SquarePositive(u);
      var ratio := Product(a, 1.0 / dist);
      var pull := Product(Square(u), ratio);
    }
  }

  /** A trail segment to stroke, with its opacity and width. */
  datatype Segment = Segment(fromX: real, fromY: real, toX: real, toY: real, isRed: bool, alpha: real, lineWidth: real)

  function SegmentOf(p: Particle, params: Params): (s: Segment)
    ensures s.fromX == p.prevX && s.fromY == p.prevY && s.toX == p.x && s.toY == p.y && s.isRed == p.isRed
    ensures params.energy >= 0.0 ==> s.lineWidth >= (if p.isRed then 1.5 else 0.8)
    ensures 0.0 <= params.energy <= 1.0 ==> s.lineWidth <= (if p.isRed then 2.3 else 1.2)
  {
    var alphaBoost := if p.isRed then params.redBoost else params.energy * 0.15;
    var baseAlpha := p.alpha * (if p.isRed then 0.7 + alphaBoost else 0.3 + alphaBoost);
    var lineWidth := if p.isRed then 1.5 + params.energy * 0.8 else 0.8 + params.energy * 0.4;
    Segment(p.prevX, p.prevY, p.x, p.y, p.isRed, baseAlpha, lineWidth)
  }

  /** A particle after one frame, and the segment drawn for it, if any. */
  datatype Outcome = Outcome(particle: Particle, segment: Option<Segment>)

  /** The life increment and the lifecycle fade. */
  function Aged(p: Particle): Particle
    requires p.maxLife > 0.0
  {
    var life := p.life + 1.0;
    p.(life := life, alpha := LifeAlpha(life / p.maxLife))
  }

  /** Where the particle samples the noise field. */
  function NoisePoint(p: Particle, noiseScale: real): (real, real)
  {
    (p.x * noiseScale, p.y * noiseScale)
  }

  /** A surviving particle's move: remember the old position, follow the velocity, wrap. */
  function Moved(p: Particle, fr: Frame, curl: (real, real, real) -> (real, real), sqrt: real -> real): (q: Particle)
    ensures q.prevX == p.x && q.prevY == p.y
    ensures fr.w >= 0.0 && fr.h >= 0.0 ==> 0.0 <= q.x <= fr.w && 0.0 <= q.y <= fr.h
    ensures q.life == p.life && q.maxLife == p.maxLife && q.speed == p.speed
    ensures q.alpha == p.alpha && q.isRed == p.isRed
  {
    var moving := p.(prevX := p.x, prevY := p.y);
    var sample := NoisePoint(moving, fr.params.noiseScale);
    var flow := curl(sample.0, sample.1, fr.time);
    var v := Velocity(moving, fr, flow, sqrt);
    moving.(x := Wrap(moving.x + v.0, fr.w), y := Wrap(moving.y + v.1, fr.h))
  }

  /** One particle's update in a frame; `d` is used when the particle dies and is replaced. */
  function Advance(p: Particle, fr: Frame, curl: (real, real, real) -> (real, real), sqrt: real -> real, d: Draws): Outcome
    requires p.maxLife > 0.0
  {
    var aged := Aged(p);
    if aged.life >= aged.maxLife then
      Outcome(CreateParticle(fr.w, fr.h, false, d), None)
    else
      var q := Moved(aged, fr, curl, sqrt);
      if Abs(q.x - q.prevX) > fr.w * 0.5 || Abs(q.y - q.prevY) > fr.h * 0.5 then Outcome(q, None)
      else Outcome(q, Some(SegmentOf(q, fr.params)))
  }

  /** The invariant every particle of the pool keeps. */
  predicate ValidParticle(p: Particle, w: real, h: real)
  {
    && MIN_LIFE <= p.maxLife < MIN_LIFE + LIFE_SPREAD
    && 0.0 <= p.life < p.maxLife
    && MIN_SPEED <= p.speed < MIN_SPEED + SPEED_SPREAD
    && 0.0 <= p.alpha <= 1.0
    && 0.0 <= p.x <= w && 0.0 <= p.y <= h
  }

  lemma CreatedParticleValid(w: real, h: real, forceRed: bool, d: Draws)
    requires w >= 0.0 && h >= 0.0
    ensures ValidParticle(CreateParticle(w, h, forceRed, d), w, h)
  {
  }

  /**
   * A particle whose incremented life reaches maxLife is replaced in its slot by a
   * fresh one and not drawn; otherwise it keeps its identity, its life grows by
   * exactly one, its alpha is the lifecycle ramp in (0, 1], its previous position is
   * where it was, and it stays inside the viewport.
   */
  lemma AdvanceLifecycle(p: Particle, fr: Frame, curl: (real, real, real) -> (real, real), sqrt: real -> real, d: Draws)
    requires ValidParticle(p, fr.w, fr.h) && fr.w >= 0.0 && fr.h >= 0.0
    ensures var o := Advance(p, fr, curl, sqrt, d);
      && ValidParticle(o.particle, fr.w, fr.h)
      && (p.life + 1.0 >= p.maxLife ==> o.particle == CreateParticle(fr.w, fr.h, false, d) && o.segment.None?)
      && (p.life + 1.0 < p.maxLife ==>
            && o.particle.life == p.life + 1.0
            && o.particle.maxLife == p.maxLife && o.particle.speed == p.speed && o.particle.isRed == p.isRed
            && o.particle.alpha == LifeAlpha((p.life + 1.0) / p.maxLife) && 0.0 < o.particle.alpha <= 1.0
            && o.particle.prevX == p.x && o.particle.prevY == p.y)
  {
    var life := p.life + 1.0;
    if life < p.maxLife {
      FractionInUnit(life, p.maxLife);
    }
  }

  /** A segment is drawn exactly for a survivor whose step is at most half the viewport on both axes. */
  lemma AdvanceDrawsShortSteps(p: Particle, fr: Frame, curl: (real, real, real) -> (real, real), sqrt: real -> real, d: Draws)
    requires p.maxLife > 0.0
    ensures var o := Advance(p, fr, curl, sqrt, d);
      o.segment.Some? <==>
        && p.life + 1.0 < p.maxLife
        && Abs(o.particle.x - p.x) <= fr.w * 0.5
        && Abs(o.particle.y - p.y) <= fr.h * 0.5
    ensures var o := Advance(p, fr, curl, sqrt, d);
      o.segment.Some? ==>
        o.segment.value.fromX == p.x && o.segment.value.fromY == p.y
        && o.segment.value.toX == o.particle.x && o.segment.value.toY == o.particle.y
  {
  }

  /** The pool init builds: one fresh particle per draw record. */
  function FreshPool(w: real, h: real, draws: seq<Draws>): (ps: seq<Particle>)
    ensures |ps| == |draws|
  {
    seq(|draws|, k requires 0 <= k < |draws| => CreateParticle(w, h, false, draws[k]))
  }

  predicate AllLive(ps: seq<Particle>)
  {
    forall k :: 0 <= k < |ps| ==> ps[k].maxLife > 0.0
  }

  /** The segments the first n slots draw, in slot order. */
  function Segments(ps: seq<Particle>, fr: Frame, curl: (real, real, real) -> (real, real), sqrt: real -> real, draws: seq<Draws>, n: nat): seq<Segment>
    requires AllLive(ps) && |draws| == |ps| && n <= |ps|
  {
    if n == 0 then []
    else
      var o := Advance(ps[n - 1], fr, curl, sqrt, draws[n - 1]);
      Segments(ps, fr, curl, sqrt, draws, n - 1) + (if o.segment.Some? then [o.segment.value] else [])
  }

  /** No more segments than particles. */
  lemma {:induction false} SegmentsBounded(ps: seq<Particle>, fr: Frame, curl: (real, real, real) -> (real, real), sqrt: real -> real, draws: seq<Draws>, n: nat)
    requires AllLive(ps) && |draws| == |ps| && n <= |ps|
    ensures |Segments(ps, fr, curl, sqrt, draws, n)| <= n
  {
    if n > 0 {
      SegmentsBounded(ps, fr, curl, sqrt, draws, n - 1);
    }
  }

  /** The whole pool keeps its invariant across a frame. */
  lemma AdvancedPoolValid(ps: seq<Particle>, fr: Frame, curl: (real, real, real) -> (real, real), sqrt: real -> real, draws: seq<Draws>)
    requires fr.w >= 0.0 && fr.h >= 0.0 && |draws| == |ps|
    requires forall k :: 0 <= k < |ps| ==> ValidParticle(ps[k], fr.w, fr.h)
    ensures AllLive(ps)
    ensures forall k :: 0 <= k < |ps| ==> ValidParticle(Advance(ps[k], fr, curl, sqrt, draws[k]).particle, fr.w, fr.h)
  {
    forall k | 0 <= k < |ps|
      ensures ValidParticle(Advance(ps[k], fr, curl, sqrt, draws[k]).particle, fr.w, fr.h)
    {
      AdvanceLifecycle(ps[k], fr, curl, sqrt, draws[k]);
    }
  }

  /** The canvas's animation state: the pool, the viewport, the clock and the scroll and mouse readings. */
  class Canvas {
    var particles: array<Particle>
    var w: real
    var h: real
    var time: real
    var lastScrollY: real
    var smoothVelocity: real
    var progress: real
    var velocity: real
    var mouseX: real
    var mouseY: real

    ghost predicate Valid()
      reads this, particles
    {
      && w >= 0.0 && h >= 0.0
      && smoothVelocity >= 0.0 && velocity >= 0.0
      && forall k :: 0 <= k < particles.Length ==> ValidParticle(particles[k], w, h)
    }

    /** The effect's setup: the first resize builds the pool for the tier. */
    constructor (innerWidth: real, innerHeight: real, tier: DeviceCapability.Tier, draws: seq<Draws>)
      requires innerWidth >= 0.0 && innerHeight >= 0.0
      requires |draws| == ParticleCount(false, tier)
      ensures Valid() && fresh(particles)
      ensures w == innerWidth && h == innerHeight
      ensures particles[..] == FreshPool(w, h, draws)
      ensures time == 0.0 && lastScrollY == 0.0 && smoothVelocity == 0.0
      ensures progress == 0.0 && velocity == 0.0 && mouseX == MOUSE_AWAY && mouseY == MOUSE_AWAY
    {
      time, lastScrollY, smoothVelocity := 0.0, 0.0, 0.0;
      progress, velocity := 0.0, 0.0;
      mouseX, mouseY := MOUSE_AWAY, MOUSE_AWAY;
      w, h := innerWidth, innerHeight;
      new;
      Init(draws);
    }

    /** Rebuilds the pool: one fresh particle per draw record. */
    method Init(draws: seq<Draws>)
      requires w >= 0.0 && h >= 0.0 && smoothVelocity >= 0.0 && velocity >= 0.0
      modifies this`particles
      ensures fresh(particles) && Valid()
      ensures particles[..] == FreshPool(w, h, draws)
    {
      var count := |draws|;
      var ps := new Particle[count];
      for i := 0 to count
        invariant forall k :: 0 <= k < i ==> ps[k] == CreateParticle(w, h, false, draws[k])
      {
        ps[i] := CreateParticle(w, h, false, draws[i]);
      }
      particles := ps;
      forall k | 0 <= k < count
        ensures ValidParticle(particles[k], w, h)
      {
        CreatedParticleValid(w, h, false, draws[k]);
      }
    }

    /** A new viewport size rebuilds the pool for it. */
    method Resize(innerWidth: real, innerHeight: real, tier: DeviceCapability.Tier, draws: seq<Draws>)
      requires Valid() && innerWidth >= 0.0 && innerHeight >= 0.0
      requires |draws| == ParticleCount(false, tier)
      modifies this
      ensures Valid() && fresh(particles)
      ensures w == innerWidth && h == innerHeight
      ensures particles[..] == FreshPool(w, h, draws)
      ensures time == old(time) && smoothVelocity == old(smoothVelocity) && velocity == old(velocity)
      ensures progress == old(progress) && lastScrollY == old(lastScrollY)
      ensures mouseX == old(mouseX) && mouseY == old(mouseY)
    {
      w := innerWidth;
      h := innerHeight;
      Init(draws);
    }

    method HandleScroll(scrollY: real, scrollHeight: real, innerHeight: real)
      requires Valid()
      modifies this`progress, this`velocity, this`lastScrollY
      ensures Valid()
      ensures progress == ScrollProgress(scrollY, scrollHeight, innerHeight)
      ensures velocity == Abs(scrollY - old(lastScrollY)) && lastScrollY == scrollY
    {
      var maxScroll := scrollHeight - innerHeight;
      var p := if maxScroll > 0.0 then scrollY / maxScroll else 0.0;
      var rawVelocity := Abs(scrollY - lastScrollY);
      lastScrollY := scrollY;
      progress, velocity := p, rawVelocity;
    }

    method HandleMouse(clientX: real, clientY: real)
      modifies this`mouseX, this`mouseY
      ensures mouseX == clientX && mouseY == clientY
    {
      mouseX, mouseY := clientX, clientY;
    }

    method HandleMouseLeave()
      modifies this`mouseX, this`mouseY
      ensures mouseX == MOUSE_AWAY && mouseY == MOUSE_AWAY
    {
      mouseX, mouseY := MOUSE_AWAY, MOUSE_AWAY;
    }

    /** The frame the next animate call uses, from the current readings. */
    function NextFrame(): (fr: Frame)
      reads this
      ensures fr.w == w && fr.h == h && fr.mouseX == mouseX && fr.mouseY == mouseY
      ensures fr.time == time + fr.params.timeSpeed
      ensures smoothVelocity >= 0.0 && velocity >= 0.0 ==> 0.0 <= fr.params.energy <= 1.0
    {
      var smooth := Smoothed(smoothVelocity, velocity);
      var params := FrameParams(ScrollEnergy(smooth), progress);
      Frame(params, time + params.timeSpeed, mouseX, mouseY, w, h)
    }

    /**
     * One animation frame: smooth the velocity, derive the parameters, advance the
     * clock, then update every slot in place and collect the segments to draw.
     */
    method Animate(curl: (real, real, real) -> (real, real), sqrt: real -> real, draws: seq<Draws>) returns (segments: seq<Segment>)
      requires Valid() && |draws| == particles.Length
      modifies this, particles
      ensures Valid() && particles == old(particles)
      ensures smoothVelocity == Smoothed(old(smoothVelocity), old(velocity))
      ensures 0.0 <= NextFrame().params.energy <= 1.0
      ensures time == old(NextFrame()).time
      ensures forall k :: 0 <= k < particles.Length ==> particles[k] == Advance(old(particles[k]), old(NextFrame()), curl, sqrt, draws[k]).particle
      ensures segments == Segments(old(particles[..]), old(NextFrame()), curl, sqrt, draws, particles.Length)
      ensures w == old(w) && h == old(h) && progress == old(progress) && velocity == old(velocity)
      ensures lastScrollY == old(lastScrollY) && mouseX == old(mouseX) && mouseY == old(mouseY)
    {
      ghost var fr := NextFrame();
      ghost var ps := particles[..];
      AdvancedPoolValid(ps, fr, curl, sqrt, draws);

      smoothVelocity := smoothVelocity + (velocity - smoothVelocity) * 0.08;
      var scrollEnergy := ScrollEnergy(smoothVelocity);
      var params := FrameParams(scrollEnergy, progress);
      time := time + params.timeSpeed;
      var frame := Frame(params, time, mouseX, mouseY, w, h);
      assert frame == fr;

      segments := AdvancePool(particles, frame, curl, sqrt, draws);
    }
  }

  /** The per-particle loop of a frame: every slot updated in place, segments collected in slot order. */
  method AdvancePool(pool: array<Particle>, frame: Frame, curl: (real, real, real) -> (real, real), sqrt: real -> real, draws: seq<Draws>)
      returns (segments: seq<Segment>)
    requires AllLive(pool[..]) && |draws| == pool.Length
    modifies pool
    ensures forall k :: 0 <= k < pool.Length ==> pool[k] == Advance(old(pool[k]), frame, curl, sqrt, draws[k]).particle
    ensures segments == Segments(old(pool[..]), frame, curl, sqrt, draws, pool.Length)
  {
    ghost var ps := pool[..];
    segments := [];
    for i := 0 to pool.Length
      invariant SlotsAdvanced(pool, ps, frame, curl, sqrt, draws, i)
      invariant segments == Segments(ps, frame, curl, sqrt, draws, i)
    {
      segments := AdvanceSlot(pool, frame, curl, sqrt, draws, ps, i, segments);
    }
  }

  ghost predicate SlotsAdvanced(pool: array<Particle>, ps: seq<Particle>, frame: Frame, curl: (real, real, real) -> (real, real), sqrt: real -> real, draws: seq<Draws>, i: nat)
    reads pool
  {
    && AllLive(ps) && |ps| == |draws| == pool.Length && i <= pool.Length
    && (forall k :: 0 <= k < i ==> pool[k] == Advance(ps[k], frame, curl, sqrt, draws[k]).particle)
    && (forall k :: i <= k < pool.Length ==> pool[k] == ps[k])
  }

  /** One iteration of the loop: slot i advanced in place, its segment appended. */
  method AdvanceSlot(pool: array<Particle>, frame: Frame, curl: (real, real, real) -> (real, real), sqrt: real -> real, draws: seq<Draws>,
                     ghost ps: seq<Particle>, i: nat, segments: seq<Segment>) returns (segments': seq<Segment>)
    requires i < pool.Length && SlotsAdvanced(pool, ps, frame, curl, sqrt, draws, i)
    requires segments == Segments(ps, frame, curl, sqrt, draws, i)
    modifies pool
    ensures SlotsAdvanced(pool, ps, frame, curl, sqrt, draws, i + 1)
    ensures segments' == Segments(ps, frame, curl, sqrt, draws, i + 1)
  {
    var p, segment := StepParticle(pool[i], frame, curl, sqrt, draws[i]);
    pool[i] := p;
    segments' := segments;
    if segment.Some? {
      segments' := segments + [segment.value];
    }
  }

  /** The fade-in / fade-out branch of the loop body. */
  method FadeAlpha(lifeFraction: real) returns (alpha: real)
    ensures alpha == LifeAlpha(lifeFraction)
  {
    if lifeFraction < 0.1 {
      alpha := lifeFraction / 0.1;
    } else if lifeFraction > 0.9 {
      alpha := (1.0 - lifeFraction) / 0.1;
    } else {
      alpha := 1.0;
    }
  }

  /** The edge wrap of one coordinate. */
  method WrapAround(v: real, extent: real) returns (r: real)
    ensures r == Wrap(v, extent)
  {
    r := v;
    if r < 0.0 { r := extent; }
    if r > extent { r := 0.0; }
  }

  /** The loop body for one slot: the field-by-field update of the particle. */
  method StepParticle(p0: Particle, frame: Frame, curl: (real, real, real) -> (real, real), sqrt: real -> real, d: Draws)
      returns (p: Particle, segment: Option<Segment>)
    requires p0.maxLife > 0.0
    ensures Outcome(p, segment) == Advance(p0, frame, curl, sqrt, d)
  {
    p := p0;
    segment := None;
    p := p.(life := p.life + 1.0);

    var lifeFraction := p.life / p.maxLife;
    var alpha := FadeAlpha(lifeFraction);
    p := p.(alpha := alpha);

    if p.life >= p.maxLife {
      p := CreateParticle(frame.w, frame.h, false, d);
      return;
    }

    ghost var aged := p;
    assert aged == Aged(p0);
    p := p.(prevX := p.x, prevY := p.y);
    ghost var moving := p;

    var sample := NoisePoint(p, frame.params.noiseScale);
    var flow := curl(sample.0, sample.1, frame.time);
    var params := frame.params;

    var drift := Drift(p, params, flow);
    var vx, vy := drift.0, drift.1;

    if params.energy > PUSH_THRESHOLD {
      vy := vy + params.energy * 1.5;
    }

    var pull := Pull(p, frame, sqrt);
    vx := vx + pull.0;
    vy := vy + pull.1;

    assert (vx, vy) == Velocity(p, frame, flow, sqrt);
    p := p.(x := p.x + vx, y := p.y + vy);

    var x := WrapAround(p.x, frame.w);
    var y := WrapAround(p.y, frame.h);
    p := p.(x := x, y := y);

    var wrapDx := Abs(p.x - p.prevX);
    var wrapDy := Abs(p.y - p.prevY);
    assert p == Moved(aged, frame, curl, sqrt);
    if wrapDx > frame.w * 0.5 || wrapDy > frame.h * 0.5 {
      return;
    }

    segment := Some(SegmentOf(p, frame.params));
  }
}
