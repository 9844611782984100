/**
 * The reveal effect of the animation: each ring has its own progress,
 * staggered so that the inner ring starts first, and is clipped to a square
 * that grows from the canvas centre.
 */
module Reveal {
  import opened BorderColors
  import opened Layout

  /** How much faster than the global progress each ring's progress runs. */
  const Speed: real := 1.5
  /** How far each ring starts behind the next inner one, in ring progress. */
  const Stagger: real := 0.2

  function Max(a: real, b: real): real {
    if a >= b then a else b
  }

  /** `Math.max(0, Math.min(1, v))`. */
  function Clamp01(v: real): (r: real)
    ensures 0.0 <= r <= 1.0
    ensures 0.0 <= v <= 1.0 ==> r == v
    ensures v <= 0.0 ==> r == 0.0
    ensures v >= 1.0 ==> r == 1.0
  {
    Max(0.0, Min(1.0, v))
  }

  /** The unclamped progress of ring `i` at global progress `p`. */
  function RawProgress(p: real, i: nat): real
    requires i < RingCount
  {
    p * Speed - Stagger * (2 - i) as real
  }

  /** The reveal progress of ring `i` (0 outer, 2 inner) at global progress `p`. */
  function RingProgress(p: real, i: nat): (r: real)
    requires i < RingCount
    ensures 0.0 <= r <= 1.0
    ensures r == 0.0 <==> p * Speed <= Stagger * (2 - i) as real
    ensures r == 1.0 <==> p * Speed - Stagger * (2 - i) as real >= 1.0
    ensures 0.0 < r < 1.0 ==> r == p * Speed - Stagger * (2 - i) as real
  {
    Clamp01(RawProgress(p, i))
  }

  /** A ring's progress never goes back as the global progress advances. */
  lemma RingProgressMonotone(p: real, q: real, i: nat)
    requires i < RingCount && p <= q
    ensures RingProgress(p, i) <= RingProgress(q, i)
  {
  }

  /** An outer ring is never further along than the ring just inside it. */
  lemma InnerRingLeads(p: real, i: nat)
    requires 0 < i < RingCount
    ensures RingProgress(p, i - 1) <= RingProgress(p, i)
  {
  }

  /** The rings drawn at global progress `p`, in the order they are drawn: 2, 1, 0, skipping any that has not started. */
  function VisibleRings(p: real): (v: seq<nat>)
    ensures |v| <= RingCount && v == [2, 1, 0][..|v|]
    ensures forall i: nat :: i in v <==> i < RingCount && RingProgress(p, i) > 0.0
  {
    InnerRingLeads(p, 1);
    InnerRingLeads(p, 2);
    (if RingProgress(p, 2) > 0.0 then [2] else [])
      + (if RingProgress(p, 1) > 0.0 then [1] else [])
      + (if RingProgress(p, 0) > 0.0 then [0] else [])
  }

  /** Once a ring is drawn it is drawn at every later progress. */
  lemma VisibleRingsGrow(p: real, q: real)
    requires p <= q
    ensures |VisibleRings(p)| <= |VisibleRings(q)|
    ensures VisibleRings(p) == VisibleRings(q)[..|VisibleRings(p)|]
  {
    RingProgressMonotone(p, q, 0);
    RingProgressMonotone(p, q, 1);
    RingProgressMonotone(p, q, 2);
  }

  /** The innermost ring is drawn at every positive progress. */
  lemma InnerRingDrawnWhenStarted(p: real)
    requires p > 0.0
    ensures |VisibleRings(p)| >= 1 && VisibleRings(p)[0] == 2
  {
  }

  /** The clipping square for a ring at reveal progress `rp`: centred on the canvas, half-extent `rp` times the larger canvas side. */
  function MaskRect(rp: real): (m: Rect)
    ensures m.width == m.height
    ensures m.x + m.width / 2.0 == CanvasWidth / 2.0
    ensures m.y + m.height / 2.0 == CanvasHeight / 2.0
    ensures m == Grow(Rect(CanvasWidth / 2.0, CanvasHeight / 2.0, 0.0, 0.0), rp * Max(CanvasWidth, CanvasHeight))
  {
    var maskSize := rp * Max(CanvasWidth, CanvasHeight);
    var centerX := CanvasWidth / 2.0;
    var centerY := CanvasHeight / 2.0;
    Rect(centerX - maskSize, centerY - maskSize, maskSize * 2.0, maskSize * 2.0)
  }

  /** The clipping square covers the whole canvas exactly when the ring is at least half revealed. */
  lemma MaskCoversCanvas(rp: real)
    ensures Contains(MaskRect(rp), Canvas) <==> rp >= 0.5
  {
  }

  /** A larger reveal progress gives a larger clipping square. */
  lemma MaskGrows(rp: real, rq: real)
    requires 0.0 <= rp <= rq
    ensures Contains(MaskRect(rq), MaskRect(rp))
  {
  }

  /**
   * Within the slider ranges, a ring that is at least half revealed is not
   * clipped at all: its whole stroke lies inside its clipping square.
   */
  lemma {:induction false} HalfRevealedRingUnclipped(imageWidth: int, imageHeight: int, borderWidth: int,
                                                     gutterSize: int, colors: seq<Color>, k: nat, rp: real)
    requires imageWidth > 0 && imageHeight > 0 && |colors| == RingCount
    requires 1 <= borderWidth <= 20 && 0 <= gutterSize <= 20
    requires k < RingCount && rp >= 0.5
    ensures var l := ComputeLayout(imageWidth, imageHeight, borderWidth, gutterSize, colors);
      Contains(MaskRect(rp), StrokeOuter(l.rings[k].rect, borderWidth as real))
  {
    DecorationFitsCanvas(imageWidth, imageHeight, borderWidth, gutterSize, colors);
    RingsNested(imageWidth, imageHeight, borderWidth, gutterSize, colors, k);
    MaskCoversCanvas(rp);
  }
}
