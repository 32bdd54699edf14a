/**
 * The name scramble and the mouse glitch of the intro section
 * (src/components/sections/IntroSection.tsx).
 *
 * Every interval the hook moves to the next word and then shows a sequence of
 * frames: at step k of 12, the character positions to the left of a cut-off show
 * the new word, the others a random glyph. The random numbers behind the glyphs
 * and the glitch frame are inputs; the interval and the timeouts are the caller
 * invoking `Cycle` and `Scramble`.
 */
module TextScramble {
  const NAMES: seq<string> := ["Mo", "MAGNETT__"]
  const GLITCH_CHARS: string := "*^~#@$%&!?><{}[]|/\\"
  /** The number of frames of one scramble. */
  const STEPS: nat := 12

  /** A draw of `Math.random()`. */
  type Unit = r: real | 0.0 <= r < 1.0

  function Max(a: nat, b: nat): nat
  {
    if a >= b then a else b
  }

  // ---------------------------------------------------------------------------
  // Word cycling
  // ---------------------------------------------------------------------------

  /** The index after one cycle: the next word, wrapping after the last. */
  function NextWordIndex(index: nat, count: nat): (n: nat)
    requires index < count
    ensures n < count
    ensures n == index + 1 || (index == count - 1 && n == 0)
  {
    (index + 1) % count
  }

  /** The index after `k` cycles. */
  function CycledIndex(index: nat, count: nat, k: nat): (n: nat)
    requires index < count
    ensures n < count
  {
    if k == 0 then index else NextWordIndex(CycledIndex(index, count, k - 1), count)
  }

  /** Cycling `a` times and then `b` times is cycling `a + b` times. */
  lemma {:induction false} CycledIndexAdds(index: nat, count: nat, a: nat, b: nat)
    requires index < count
    ensures CycledIndex(CycledIndex(index, count, a), count, b) == CycledIndex(index, count, a + b)
  {
    if b > 0 {
      CycledIndexAdds(index, count, a, b - 1);
    }
  }

  /** Before the end of the list, each cycle moves one word further. */
  lemma {:induction false} CycledIndexCounts(index: nat, count: nat, k: nat)
    requires index + k < count
    ensures CycledIndex(index, count, k) == index + k
  {
    if k > 0 {
      CycledIndexCounts(index, count, k - 1);
    }
  }

  /** After as many cycles as there are words, the same word is shown again. */
  lemma CyclingReturnsToStart(index: nat, count: nat)
    requires index < count
    ensures CycledIndex(index, count, count) == index
  {
    var toEnd := count - 1 - index;
    CycledIndexCounts(index, count, toEnd);
    assert CycledIndex(index, count, toEnd + 1) == 0;
    CycledIndexAdds(index, count, toEnd + 1, index);
    if index > 0 {
      CycledIndexCounts(0, count, index);
    }
  }

  /** With the two names the hook alternates between them. */
  lemma NamesAlternate()
    ensures NextWordIndex(0, |NAMES|) == 1 && NextWordIndex(1, |NAMES|) == 0
  {
  }

  // ---------------------------------------------------------------------------
  // The resolve rule
  // ---------------------------------------------------------------------------

  /** Position `i` of a `maxLen`-wide frame shows the target at this step. */
  predicate Resolved(step: nat, i: nat, maxLen: nat)
    requires maxLen > 0
  {
    (step as real) / (STEPS as real) > ((i as real) / (maxLen as real)) * 0.8 + 0.2
  }

  lemma NonnegFactor(x: real, m: real)
    requires m > 0.0 && x * m >= 0.0
    ensures x >= 0.0
  {
  }

  lemma PositiveFactor(x: real, m: real)
    requires m > 0.0 && x * m > 0.0
    ensures x > 0.0
  {
  }

  lemma DivMonotone(a: real, b: real, m: real)
    requires a <= b && m > 0.0
    ensures a / m <= b / m
  {
    var d := b / m - a / m;
    assert (b / m) * m == b && (a / m) * m == a;
    assert d * m == (b / m) * m - (a / m) * m;
    NonnegFactor(d, m);
  }

  lemma DivBelowOne(a: real, m: real)
    requires 0.0 <= a < m
    ensures 0.0 <= a / m < 1.0
  {
    var q := a / m;
    assert q * m == a;
    NonnegFactor(q, m);
    var r := 1.0 - q;
    assert r * m == m - q * m;
    PositiveFactor(r, m);
  }

  /** The resolved positions form a prefix: left of a resolved position all are resolved. */
  lemma ResolvedPrefix(step: nat, i: nat, j: nat, maxLen: nat)
    requires maxLen > 0 && j <= i
    requires Resolved(step, i, maxLen)
    ensures Resolved(step, j, maxLen)
  {
    DivMonotone(j as real, i as real, maxLen as real);
  }

  /** A later step never unresolves a position. */
  lemma ResolvedMonotone(step1: nat, step2: nat, i: nat, maxLen: nat)
    requires maxLen > 0 && step1 <= step2
    requires Resolved(step1, i, maxLen)
    ensures Resolved(step2, i, maxLen)
  {
    DivMonotone(step1 as real, step2 as real, STEPS as real);
  }

  /** At the last step every position of the frame is resolved. */
  lemma AllResolvedAtLastStep(i: nat, maxLen: nat)
    requires i < maxLen
    ensures Resolved(STEPS, i, maxLen)
  {
    DivBelowOne(i as real, maxLen as real);
  }

  /** In the first two steps no position is resolved. */
  lemma NoneResolvedEarly(step: nat, i: nat, maxLen: nat)
    requires maxLen > 0 && step <= 2
    ensures !Resolved(step, i, maxLen)
  {
    DivMonotone(0.0, i as real, maxLen as real);
    DivMonotone(step as real, 2.0, STEPS as real);
  }

  /** The number of resolved positions at or after `i`, scanning up to the first unresolved one. */
  function ResolvedFrom(step: nat, maxLen: nat, i: nat): (c: nat)
    requires i <= maxLen
    ensures i <= c <= maxLen
    ensures forall j :: i <= j < c ==> Resolved(step, j, maxLen)
    ensures c < maxLen ==> !Resolved(step, c, maxLen)
    decreases maxLen - i
  {
    if i == maxLen || !Resolved(step, i, maxLen) then i else ResolvedFrom(step, maxLen, i + 1)
  }

  /** The length of the resolved prefix. */
  function ResolvedCount(step: nat, maxLen: nat): nat
  {
    ResolvedFrom(step, maxLen, 0)
  }

  /** A position is resolved exactly when it lies in the resolved prefix. */
  lemma ResolvedIffInPrefix(step: nat, maxLen: nat, i: nat)
    requires i < maxLen
    ensures Resolved(step, i, maxLen) <==> i < ResolvedCount(step, maxLen)
  {
    var c := ResolvedCount(step, maxLen);
    if c <= i && Resolved(step, i, maxLen) {
      ResolvedPrefix(step, i, c, maxLen);
    }
  }

  /** The resolved prefix never shrinks as the step grows. */
  lemma ResolvedCountMonotone(step1: nat, step2: nat, maxLen: nat)
    requires step1 <= step2
    ensures ResolvedCount(step1, maxLen) <= ResolvedCount(step2, maxLen)
  {
    var c1 := ResolvedCount(step1, maxLen);
    var c2 := ResolvedCount(step2, maxLen);
    if c2 < c1 {
      ResolvedMonotone(step1, step2, c2, maxLen);
    }
  }

  /** "MAGNETT__" is nine wide; halfway through, its first four characters are resolved. */
  lemma ResolvedCountExample()
    ensures ResolvedCount(6, 9) == 4
  {
    assert Resolved(6, 3, 9) && !Resolved(6, 4, 9);
    ResolvedIffInPrefix(6, 9, 3);
    ResolvedIffInPrefix(6, 9, 4);
  }

  // ---------------------------------------------------------------------------
  // Frames
  // ---------------------------------------------------------------------------

  /** The glyph picked by a random draw. */
  function Glyph(r: Unit): (c: char)
    ensures c in GLITCH_CHARS
  {
    GLITCH_CHARS[(r * (|GLITCH_CHARS| as real)).Floor]
  }

  /** What position `i` contributes: the target character (or nothing past its end), else a glyph. */
  function Cell(to: string, step: nat, maxLen: nat, draws: seq<Unit>, i: nat): (c: string)
    requires i < maxLen <= |draws|
    ensures |c| <= 1
    ensures Resolved(step, i, maxLen) && i < |to| ==> c == [to[i]]
    ensures Resolved(step, i, maxLen) && i >= |to| ==> c == []
    ensures !Resolved(step, i, maxLen) ==> |c| == 1 && c[0] in GLITCH_CHARS
  {
    if Resolved(step, i, maxLen) then (if i < |to| then [to[i]] else [])
    else [Glyph(draws[i])]
  }

  /** The first `n` positions of the frame at a step; `draws[i]` is the draw for position `i`. */
  function FrameUpTo(to: string, step: nat, maxLen: nat, draws: seq<Unit>, n: nat): string
    requires n <= maxLen <= |draws|
  {
    if n == 0 then "" else FrameUpTo(to, step, maxLen, draws, n - 1) + Cell(to, step, maxLen, draws, n - 1)
  }

  /** The frame shown at a step. */
  function Frame(to: string, step: nat, maxLen: nat, draws: seq<Unit>): string
    requires maxLen <= |draws|
  {
    FrameUpTo(to, step, maxLen, draws, maxLen)
  }

  function MinNat(a: nat, b: nat): nat
  {
    if a <= b then a else b
  }

  /** The glyphs drawn for positions `lo` to `hi - 1`, one each. */
  function GlyphRun(draws: seq<Unit>, lo: nat, hi: nat): (g: string)
    requires lo <= hi <= |draws|
    ensures |g| == hi - lo
    ensures forall k :: 0 <= k < |g| ==> g[k] in GLITCH_CHARS
    decreases hi - lo
  {
    if lo == hi then "" else GlyphRun(draws, lo, hi - 1) + [Glyph(draws[hi - 1])]
  }

  /** The first `n` positions: the resolved ones give a prefix of the target, the rest one glyph each. */
  lemma {:induction false} FrameUpToShape(to: string, step: nat, maxLen: nat, draws: seq<Unit>, n: nat)
    requires n <= maxLen <= |draws|
    ensures var c := MinNat(n, ResolvedCount(step, maxLen));
      FrameUpTo(to, step, maxLen, draws, n) == to[..MinNat(c, |to|)] + GlyphRun(draws, c, n)
  {
    if n > 0 {
      FrameUpToShape(to, step, maxLen, draws, n - 1);
      ResolvedIffInPrefix(step, maxLen, n - 1);
      if n - 1 < ResolvedCount(step, maxLen) {
        ResolvedStep(to, step, maxLen, draws, n);
      } else {
        GlyphStep(to, step, maxLen, draws, n, ResolvedCount(step, maxLen));
      }
    }
  }

  /** Extending a fully resolved prefix by a resolved position. */
  lemma ResolvedStep(to: string, step: nat, maxLen: nat, draws: seq<Unit>, n: nat)
    requires 0 < n <= maxLen <= |draws|
    requires Resolved(step, n - 1, maxLen)
    requires FrameUpTo(to, step, maxLen, draws, n - 1) == to[..MinNat(n - 1, |to|)] + GlyphRun(draws, n - 1, n - 1)
    ensures FrameUpTo(to, step, maxLen, draws, n) == to[..MinNat(n, |to|)] + GlyphRun(draws, n, n)
  {
    var prev := FrameUpTo(to, step, maxLen, draws, n - 1);
    assert prev == to[..MinNat(n - 1, |to|)];
    if n - 1 < |to| {
      assert to[..n] == to[..n - 1] + [to[n - 1]];
    }
  }

  /** Extending by an unresolved position appends its glyph. */
  lemma GlyphStep(to: string, step: nat, maxLen: nat, draws: seq<Unit>, n: nat, c: nat)
    requires c < n <= maxLen <= |draws|
    requires !Resolved(step, n - 1, maxLen)
    requires FrameUpTo(to, step, maxLen, draws, n - 1) == to[..MinNat(c, |to|)] + GlyphRun(draws, c, n - 1)
    ensures FrameUpTo(to, step, maxLen, draws, n) == to[..MinNat(c, |to|)] + GlyphRun(draws, c, n)
  {
    var prefix := to[..MinNat(c, |to|)];
    assert prefix + GlyphRun(draws, c, n - 1) + [Glyph(draws[n - 1])] == prefix + (GlyphRun(draws, c, n - 1) + [Glyph(draws[n - 1])]);
  }

  /**
   * A frame is the resolved prefix of the target followed by one glyph from
   * GLITCH_CHARS for every unresolved position.
   */
  lemma FrameShape(to: string, step: nat, maxLen: nat, draws: seq<Unit>)
    requires maxLen <= |draws|
    ensures var c := ResolvedCount(step, maxLen);
      Frame(to, step, maxLen, draws) == to[..MinNat(c, |to|)] + GlyphRun(draws, c, maxLen)
  {
    FrameUpToShape(to, step, maxLen, draws, maxLen);
  }

  /** At the last step the frame is the target word, whatever the draws. */
  lemma FinalFrameIsTarget(to: string, maxLen: nat, draws: seq<Unit>)
    requires |to| <= maxLen <= |draws|
    ensures Frame(to, STEPS, maxLen, draws) == to
  {
    FrameUpToShape(to, STEPS, maxLen, draws, maxLen);
    var c := ResolvedCount(STEPS, maxLen);
    if c < maxLen {
      AllResolvedAtLastStep(c, maxLen);
    }
    assert to[..|to|] == to;
  }

  /** The characters of one scramble frame, position by position. */
  method RenderFrame(target: string, current: nat, width: nat, draws: seq<Unit>) returns (result: string)
    requires width <= |draws|
    ensures result == Frame(target, current, width, draws)
  {
    result := "";
    var i := 0;
    while i < width
      invariant 0 <= i <= width
      invariant result == FrameUpTo(target, current, width, draws, i)
    {
      var cell := RenderCell(target, current, width, draws, i);
      assert FrameUpTo(target, current, width, draws, i + 1) == result + cell;
      result := result + cell;
      i := i + 1;
    }
  }

  /** One position of a frame: the target character once resolved, else a glyph. */
  method RenderCell(target: string, current: nat, width: nat, draws: seq<Unit>, i: nat) returns (cell: string)
    requires i < width <= |draws|
    ensures cell == Cell(target, current, width, draws, i)
  {
    var progress := (current as real) / (STEPS as real);
    if progress > ((i as real) / (width as real)) * 0.8 + 0.2 {
      cell := if i < |target| then [target[i]] else "";
    } else {
      cell := [Glyph(draws[i])];
    }
  }

  // ---------------------------------------------------------------------------
  // The hook's state
  // ---------------------------------------------------------------------------

  /** `display`, `indexRef` and the `from`, `to`, `maxLen` and `step` of the current cycle. */
  class Scrambler {
    const words: seq<string>
    var display: string
    var index: nat
    var from: string
    var to: string
    var maxLen: nat
    var step: nat
    /** A call of `Scramble` is due (the next timeout is scheduled). */
    var pending: bool

    ghost predicate Valid()
      reads this
    {
      && |words| > 0
      && index < |words|
      && to == words[index]
      && maxLen == Max(|from|, |to|)
      && step <= STEPS
      && (pending <==> step < STEPS)
      && (!pending ==> display == to)
    }

    /** The state before the first interval: the first word, no scramble running. */
    constructor (words: seq<string>)
      requires |words| > 0
      ensures Valid()
      ensures this.words == words && display == words[0] && index == 0 && !pending
    {
      this.words := words;
      display := words[0];
      index := 0;
      from := words[0];
      to := words[0];
      maxLen := |words[0]|;
      step := STEPS;
      pending := false;
    }

    /** One interval tick: move to the next word and show the first scramble frame. */
    method Cycle(draws: seq<Unit>)
      requires Valid()
      requires |draws| >= |words[index]| && |draws| >= |words[NextWordIndex(index, |words|)]|
      modifies this
      ensures Valid()
      ensures index == NextWordIndex(old(index), |words|)
      ensures from == words[old(index)] && to == words[index]
      ensures maxLen == Max(|from|, |to|) && step == 1 && pending
      ensures display == Frame(to, 1, maxLen, draws)
    {
      from := words[index];
      index := (index + 1) % |words|;
      to := words[index];

      maxLen := Max(|from|, |to|);
      step := 0;
      pending := true;

      Scramble(draws);
    }

    /** One scramble frame; the last one settles on the target word. */
    method Scramble(draws: seq<Unit>)
      requires Valid() && pending
      requires |draws| >= maxLen
      modifies this
      ensures Valid()
      ensures step == old(step) + 1
      ensures index == old(index) && from == old(from) && to == old(to) && maxLen == old(maxLen)
      ensures pending <==> step < STEPS
      ensures step < STEPS ==> display == Frame(to, step, maxLen, draws)
      ensures step == STEPS ==> display == to
    {
      step := step + 1;
      display := RenderFrame(to, step, maxLen, draws);

      if step < STEPS {
        pending := true;
      } else {
        display := to;
        pending := false;
      }
    }
  }

  // ---------------------------------------------------------------------------
  // The mouse glitch
  // ---------------------------------------------------------------------------

  datatype Offset = Offset(x: real, y: real)

  /** Two offsets of the red copies and the clipped band, in pixels and percent. */
  datatype GlitchFrame = GlitchFrame(offset1: Offset, offset2: Offset, clipTop: real, clipBottom: real)

  /** The six draws of `randomGlitchFrame`, in the order they are made. */
  datatype GlitchDraws = GlitchDraws(top: Unit, x1: Unit, y1: Unit, x2: Unit, y2: Unit, span: Unit)

  predicate OffsetInRange(o: Offset)
  {
    -7.0 <= o.x < 7.0 && -3.0 <= o.y < 3.0
  }

  predicate InRange(g: GlitchFrame)
  {
    && 0.0 <= g.clipTop < 60.0
    && 15.0 <= g.clipBottom - g.clipTop < 45.0
    && OffsetInRange(g.offset1) && OffsetInRange(g.offset2)
  }

  function RandomGlitchFrame(d: GlitchDraws): (g: GlitchFrame)
    ensures 0.0 <= g.clipTop < 60.0
    ensures 15.0 <= g.clipBottom - g.clipTop < 45.0
    ensures -7.0 <= g.offset1.x < 7.0 && -3.0 <= g.offset1.y < 3.0
    ensures -7.0 <= g.offset2.x < 7.0 && -3.0 <= g.offset2.y < 3.0
  {
    var clipTop := d.top * 60.0;
    GlitchFrame(
      Offset((d.x1 - 0.5) * 14.0, (d.y1 - 0.5) * 6.0),
      Offset((d.x2 - 0.5) * 14.0, (d.y2 - 0.5) * 6.0),
      clipTop,
      clipTop + 15.0 + d.span * 30.0)
  }

  /** The draws that produce a given frame. */
  function DrawsFor(g: GlitchFrame): (d: GlitchDraws)
    requires InRange(g)
  {
    GlitchDraws(g.clipTop / 60.0, g.offset1.x / 14.0 + 0.5, g.offset1.y / 6.0 + 0.5,
                g.offset2.x / 14.0 + 0.5, g.offset2.y / 6.0 + 0.5, (g.clipBottom - g.clipTop - 15.0) / 30.0)
  }

  /** Every frame within the bounds is produced by some draws: the bounds are exact. */
  lemma EveryFrameInRangeIsDrawn(g: GlitchFrame)
    requires InRange(g)
    ensures RandomGlitchFrame(DrawsFor(g)) == g
  {
  }
}
