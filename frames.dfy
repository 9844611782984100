/**
 * Frames as lists of canvas draw commands: the static preview, one frame of
 * the reveal animation, the 60-frame sequence and its looping playback.
 */
module Frames {
  import opened Optional
  import opened BorderColors
  import opened Layout
  import opened Reveal

  /** One canvas operation; a stroke carries the ring it draws and, while animating, its clipping square. */
  datatype Command =
    | Fill(color: Color)
    | StrokeRing(ring: nat, rect: Rect, color: Color, lineWidth: real, clip: Option<Rect>)
    | DrawImage(rect: Rect)

  type Frame = seq<Command>

  /** The intrinsic size of the loaded image. */
  datatype ImageSize = ImageSize(width: int, height: int)

  /** What a frame is drawn from: the loaded image, if any, and the border settings. */
  datatype Scene = Scene(image: Option<ImageSize>, colors: seq<Color>, borderWidth: int, gutterSize: int)

  predicate ValidScene(s: Scene) {
    && |s.colors| == RingCount
    && (s.image.Some? ==> s.image.value.width > 0 && s.image.value.height > 0)
  }

  /** The number of frames of one animation run. */
  const TotalFrames: nat := 60

  function PlacementOf(s: Scene): Placement
    requires ValidScene(s) && s.image.Some?
  {
    ComputeLayout(s.image.value.width, s.image.value.height, s.borderWidth, s.gutterSize, s.colors)
  }

  /** A stroke of ring `k` of the placement, with the given clip. */
  function RingStroke(s: Scene, k: nat, clip: Option<Rect>): Command
    requires ValidScene(s) && s.image.Some? && k < RingCount
  {
    var ring := PlacementOf(s).rings[k];
    StrokeRing(k, ring.rect, ring.color, s.borderWidth as real, clip)
  }

  /**
   * The static preview: a white background, the three rings stroked outer to
   * inner without clipping, and the image on top; only the background when no
   * image is loaded.
   */
  function StaticFrame(s: Scene): (f: Frame)
    requires ValidScene(s)
    ensures |f| >= 1 && f[0] == Fill(White)
    ensures s.image.None? ==> |f| == 1
    ensures s.image.Some? ==> |f| == RingCount + 2 && f[|f| - 1] == DrawImage(PlacementOf(s).image)
    ensures forall j :: 1 <= j < |f| - 1 ==> f[j].StrokeRing? && f[j].ring == j - 1 && f[j].clip.None?
    ensures s.image.Some? ==> forall k :: 0 <= k < RingCount ==>
              && f[k + 1].rect == PlacementOf(s).rings[k].rect
              && f[k + 1].color == s.colors[k]
              && f[k + 1].lineWidth == s.borderWidth as real
  {
    if s.image.None? then [Fill(White)]
    else
      [Fill(White)]
        + [RingStroke(s, 0, None), RingStroke(s, 1, None), RingStroke(s, 2, None)]
        + [DrawImage(PlacementOf(s).image)]
  }

  /** Ring `k` at global progress `p`: nothing before it starts, otherwise a stroke clipped to its growing square. */
  function RevealStroke(s: Scene, p: real, k: nat): seq<Command>
    requires ValidScene(s) && s.image.Some? && k < RingCount
  {
    var rp := RingProgress(p, k);
    if rp > 0.0 then [RingStroke(s, k, Some(MaskRect(rp)))] else []
  }

  /** One frame of the reveal animation at global progress `p`. */
  function AnimationFrame(s: Scene, p: real): (f: Frame)
    requires ValidScene(s)
    ensures |f| >= 1 && f[0] == Fill(White)
    ensures s.image.None? ==> |f| == 1
    ensures s.image.Some? ==> f[|f| - 1] == DrawImage(PlacementOf(s).image)
  {
    if s.image.None? then [Fill(White)]
    else
      [Fill(White)]
        + RevealStroke(s, p, 2) + RevealStroke(s, p, 1) + RevealStroke(s, p, 0)
        + [DrawImage(PlacementOf(s).image)]
  }

  /**
   * An animation frame draws exactly the rings that have started, inner to
   * outer, each with the very geometry and colour of the static preview, only
   * clipped to its reveal square; background and image are those of the
   * static preview.
   */
  lemma {:induction false} AnimationMatchesStatic(s: Scene, p: real)
    requires ValidScene(s) && s.image.Some?
    ensures var a, st, v := AnimationFrame(s, p), StaticFrame(s), VisibleRings(p);
      && |a| == |v| + 2
      && a[0] == st[0] && a[|a| - 1] == st[|st| - 1]
      && forall j :: 0 <= j < |v| ==>
           && a[j + 1].StrokeRing? && a[j + 1].ring == v[j]
           && a[j + 1].clip == Some(MaskRect(RingProgress(p, v[j])))
           && a[j + 1].(clip := None) == st[v[j] + 1]
  {
    var a, st, v := AnimationFrame(s, p), StaticFrame(s), VisibleRings(p);
    InnerRingLeads(p, 1);
    InnerRingLeads(p, 2);
    var strokes := RevealStroke(s, p, 2) + RevealStroke(s, p, 1) + RevealStroke(s, p, 0);
    assert a == [Fill(White)] + strokes + [DrawImage(PlacementOf(s).image)];
    assert |strokes| == |v|;
    forall j | 0 <= j < |v|
      ensures a[j + 1] == RingStroke(s, v[j], Some(MaskRect(RingProgress(p, v[j]))))
    {
      assert a[j + 1] == strokes[j];
    }
  }

  /** The global progress of frame `i`: `i / 60`. */
  function FrameProgress(i: nat): (p: real)
    requires i < TotalFrames
    ensures 0.0 <= p < 1.0
  {
    i as real / TotalFrames as real
  }

  /** Later frames are further along. */
  lemma FrameProgressIncreasing(i: nat, j: nat)
    requires i < j < TotalFrames
    ensures FrameProgress(i) < FrameProgress(j)
  {
  }

  /**
   * The timetable of the 60 frames: ring `k` first appears after frame
   * `8 * (2 - k)` and is complete from frame `40 + 8 * (2 - k)`, so the first
   * frame shows no ring and the last four show all three in full.
   */
  lemma FrameRevealSchedule(i: nat, k: nat)
    requires i < TotalFrames && k < RingCount
    ensures RingProgress(FrameProgress(i), k) > 0.0 <==> i > 8 * (2 - k)
    ensures RingProgress(FrameProgress(i), k) == 1.0 <==> i >= 40 + 8 * (2 - k)
  {
  }

  /** `generateAnimationFrames`: one frame per progress value `i / 60`, in order. */
  method GenerateAnimationFrames(s: Scene) returns (frames: seq<Frame>)
    requires ValidScene(s)
    ensures |frames| == TotalFrames
    ensures forall i :: 0 <= i < TotalFrames ==> frames[i] == AnimationFrame(s, FrameProgress(i))
  {
    frames := [];
    var i := 0;
    while i < TotalFrames
      invariant 0 <= i <= TotalFrames && |frames| == i
      invariant forall k :: 0 <= k < i ==> frames[k] == AnimationFrame(s, FrameProgress(k))
    {
      var progress := i as real / TotalFrames as real;
      var frame := AnimationFrame(s, progress);
      frames := frames + [frame];
      i := i + 1;
    }
  }

  /** The playback step `(frameIndex + 1) % frames.length`. */
  function NextFrameIndex(k: nat, n: nat): (r: nat)
    requires k < n
    ensures r < n
    ensures r == if k + 1 == n then 0 else k + 1
  {
    (k + 1) % n
  }

  /** The frame index after `t` playback steps from the first frame. */
  ghost function IndexAfter(n: nat, t: nat): (r: nat)
    requires n > 0
    ensures r < n
  {
    if t == 0 then 0 else NextFrameIndex(IndexAfter(n, t - 1), n)
  }

  /** A nonzero multiple of `n` is at least `n` away from zero. */
  lemma ProductBound(d: int, n: int)
    requires n > 0
    ensures d >= 1 ==> d * n >= n
    ensures d <= -1 ==> d * n <= -n
  {
    if d >= 1 {
      assert d * n == (d - 1) * n + n;
    } else if d <= -1 {
      assert d * n == (d + 1) * n - n;
    }
  }

  /** A remainder is determined by any decomposition `t == q * n + r` with `0 <= r < n`. */
  lemma ModOfDecomposition(t: int, n: int, q: int, r: int)
    requires n > 0 && 0 <= r < n && t == q * n + r
    ensures t % n == r
  {
    var q', r' := t / n, t % n;
    assert t == q' * n + r';
    var d := q - q';
    assert d * n == r' - r by {
      assert d * n == q * n - q' * n;
    }
    ProductBound(d, n);
  }

  /** Playback shows frame `t mod n` at step `t`: every frame in order, then from the start again. */
  lemma {:induction false} PlaybackCycles(n: nat, t: nat)
    requires n > 0
    ensures IndexAfter(n, t) == t % n
  {
    if t > 0 {
      PlaybackCycles(n, t - 1);
      var q, r := (t - 1) / n, (t - 1) % n;
      assert t - 1 == q * n + r;
      if r + 1 == n {
        ModOfDecomposition(t, n, q + 1, 0);
      } else {
        ModOfDecomposition(t, n, q, r + 1);
      }
    }
  }

  /** The looping preview of one generated frame sequence. */
  class Playback {
    const frames: seq<Frame>
    var frameIndex: nat

    ghost predicate Valid()
      reads this
    {
      frameIndex < |frames|
    }

    constructor (frames: seq<Frame>)
      requires |frames| > 0
      ensures Valid() && this.frames == frames && frameIndex == 0
    {
      this.frames := frames;
      frameIndex := 0;
    }

    /**
     * `animateFrame`: show the current frame, report the percentage shown on
     * the progress bar, and move on to the next frame, wrapping at the end.
     */
    method AnimateFrame() returns (shown: Frame, percent: real)
      requires Valid()
      modifies this
      ensures Valid()
      ensures shown == frames[old(frameIndex)]
      ensures percent == (old(frameIndex) as real / |frames| as real) * 100.0
      ensures frameIndex == NextFrameIndex(old(frameIndex), |frames|)
    {
      shown := frames[frameIndex];
      percent := (frameIndex as real / |frames| as real) * 100.0;
      frameIndex := (frameIndex + 1) % |frames|;
    }
  }
}
