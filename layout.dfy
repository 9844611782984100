/**
 * The layout engine: scale the image to fit inside three borders and two
 * gutters on the fixed 800x800 canvas, centre it, and place the three ring
 * rectangles around it. Exact arithmetic over `real` stands for the
 * component's floating-point arithmetic.
 */
module Layout {
  import opened BorderColors

  const CanvasWidth: real := 800.0
  const CanvasHeight: real := 800.0

  /** An axis-aligned rectangle given by its top-left corner and its size. */
  datatype Rect = Rect(x: real, y: real, width: real, height: real)

  /** One border ring: the path that is stroked and the colour it is stroked in. */
  datatype Ring = Ring(rect: Rect, color: Color)

  /** Where the image goes and where its rings go; `rings[0]` is the outermost. */
  datatype Placement = Placement(scale: real, image: Rect, rings: seq<Ring>)

  const Canvas: Rect := Rect(0.0, 0.0, CanvasWidth, CanvasHeight)

  function Min(a: real, b: real): real {
    if a <= b then a else b
  }

  /** The rectangle `r` pushed out by `d` on every side. */
  function Grow(r: Rect, d: real): Rect {
    Rect(r.x - d, r.y - d, r.width + 2.0 * d, r.height + 2.0 * d)
  }

  /** The region enclosed by the inner edge of a stroke of width `lw` centred on `r`. */
  function StrokeInner(r: Rect, lw: real): Rect {
    Grow(r, -lw / 2.0)
  }

  /** The outer boundary of a stroke of width `lw` centred on `r`. */
  function StrokeOuter(r: Rect, lw: real): Rect {
    Grow(r, lw / 2.0)
  }

  predicate Contains(outer: Rect, inner: Rect) {
    && outer.x <= inner.x && inner.x + inner.width <= outer.x + outer.width
    && outer.y <= inner.y && inner.y + inner.height <= outer.y + outer.height
  }

  /** The room left for the image along each axis once borders and gutters take their share on both sides. */
  function Available(borderWidth: int, gutterSize: int): real {
    var totalBorderWidth := 3 * borderWidth + 2 * gutterSize;
    CanvasWidth - (totalBorderWidth * 2) as real
  }

  /** Scaling the image by `s` makes it fit in an `available` x `available` square. */
  predicate FitsAt(imageWidth: int, imageHeight: int, available: real, s: real) {
    imageWidth as real * s <= available && imageHeight as real * s <= available
  }

  /**
   * The layout arithmetic shared by the static preview and every animation
   * frame.
   */
  function ComputeLayout(imageWidth: int, imageHeight: int, borderWidth: int, gutterSize: int,
                         colors: seq<Color>): (l: Placement)
    requires imageWidth > 0 && imageHeight > 0
    requires |colors| == RingCount
    ensures |l.rings| == RingCount
    ensures forall k :: 0 <= k < RingCount ==> l.rings[k].color == colors[k]
    // the same uniform factor scales both sides
    ensures l.image.width == imageWidth as real * l.scale
    ensures l.image.height == imageHeight as real * l.scale
    // centred: equal margins left and right, top and bottom
    ensures l.image.x == CanvasWidth - (l.image.x + l.image.width)
    ensures l.image.y == CanvasHeight - (l.image.y + l.image.height)
    // the innermost stroke's inner edge runs exactly along the image's edge
    ensures StrokeInner(l.rings[2].rect, borderWidth as real) == l.image
    // each ring lies one gutter plus one border width outside the next
    ensures l.rings[1].rect == Grow(l.rings[2].rect, (gutterSize + borderWidth) as real)
    ensures l.rings[0].rect == Grow(l.rings[1].rect, (gutterSize + borderWidth) as real)
  {
    var baseBorderWidth := borderWidth as real;
    var baseGutterSize := gutterSize as real;
    var w := imageWidth as real;
    var h := imageHeight as real;

    var totalBorderWidth := 3.0 * baseBorderWidth + 2.0 * baseGutterSize;
    var availableWidth := CanvasWidth - (totalBorderWidth * 2.0);
    var availableHeight := CanvasHeight - (totalBorderWidth * 2.0);

    var scaleWidth := availableWidth / w;
    var scaleHeight := availableHeight / h;
    var scale := Min(scaleWidth, scaleHeight);

    var scaledWidth := w * scale;
    var scaledHeight := h * scale;
    var x := (CanvasWidth - scaledWidth) / 2.0;
    var y := (CanvasHeight - scaledHeight) / 2.0;

    var bw, g := baseBorderWidth, baseGutterSize;
    Placement(scale, Rect(x, y, scaledWidth, scaledHeight), [
      // outer
      Ring(Rect(x - bw / 2.0 - g - bw - g - bw,
                y - bw / 2.0 - g - bw - g - bw,
                scaledWidth + bw + (g + bw) * 2.0 + (g + bw) * 2.0,
                scaledHeight + bw + (g + bw) * 2.0 + (g + bw) * 2.0), colors[0]),
      // middle
      Ring(Rect(x - bw / 2.0 - g - bw,
                y - bw / 2.0 - g - bw,
                scaledWidth + bw + (g + bw) * 2.0,
                scaledHeight + bw + (g + bw) * 2.0), colors[1]),
      // inner, flush with the image
      Ring(Rect(x - bw / 2.0,
                y - bw / 2.0,
                scaledWidth + bw,
                scaledHeight + bw), colors[2])
    ])
  }

  /** Multiplying a positive number by `s` keeps it within `a` exactly when `s <= a / n`. */
  lemma ScaleBound(n: real, a: real, s: real)
    requires n > 0.0
    ensures n * s <= a <==> s <= a / n
    ensures n * (a / n) == a
  {
    assert n * (a / n) == a;
    if s <= a / n {
      assert n * s <= n * (a / n);
    }
    if n * s <= a {
      assert s == (n * s) / n;
    }
  }

  /**
   * The scale factor is the largest at which the whole image fits in the room
   * left by the borders, and at that factor the image fills that room along at
   * least one axis.
   */
  lemma {:induction false} ScaleIsLargestFit(imageWidth: int, imageHeight: int, borderWidth: int,
                                             gutterSize: int, colors: seq<Color>)
    requires imageWidth > 0 && imageHeight > 0 && |colors| == RingCount
    ensures var l := ComputeLayout(imageWidth, imageHeight, borderWidth, gutterSize, colors);
      var a := Available(borderWidth, gutterSize);
      && FitsAt(imageWidth, imageHeight, a, l.scale)
      && (forall s :: FitsAt(imageWidth, imageHeight, a, s) ==> s <= l.scale)
      && (l.image.width == a || l.image.height == a)
  {
    var l := ComputeLayout(imageWidth, imageHeight, borderWidth, gutterSize, colors);
    var a := Available(borderWidth, gutterSize);
    var w, h := imageWidth as real, imageHeight as real;
    ScaleBound(w, a, l.scale);
    ScaleBound(h, a, l.scale);
    forall s | FitsAt(imageWidth, imageHeight, a, s)
      ensures s <= l.scale
    {
      ScaleBound(w, a, s);
      ScaleBound(h, a, s);
    }
  }

  /**
   * The outer edge of the outermost stroke stays on the canvas, and touches
   * the canvas edge along the axis that limits the scale (both when the two
   * axes limit it equally).
   */
  lemma {:induction false} DecorationFitsCanvas(imageWidth: int, imageHeight: int, borderWidth: int,
                                                gutterSize: int, colors: seq<Color>)
    requires imageWidth > 0 && imageHeight > 0 && |colors| == RingCount
    ensures var l := ComputeLayout(imageWidth, imageHeight, borderWidth, gutterSize, colors);
      var outer := StrokeOuter(l.rings[0].rect, borderWidth as real);
      var a, w, h := Available(borderWidth, gutterSize), imageWidth as real, imageHeight as real;
      && Contains(Canvas, outer)
      && (a / w <= a / h ==> outer.x == 0.0)
      && (a / h <= a / w ==> outer.y == 0.0)
  {
    ScaleIsLargestFit(imageWidth, imageHeight, borderWidth, gutterSize, colors);
  }

  /**
   * Within the slider ranges (width 1 to 20, gap 0 to 20) the room left for
   * the image is at least 600 pixels and the image is drawn with a positive
   * size.
   */
  lemma {:induction false} SliderRangeKeepsImageVisible(imageWidth: int, imageHeight: int, borderWidth: int,
                                                        gutterSize: int, colors: seq<Color>)
    requires imageWidth > 0 && imageHeight > 0 && |colors| == RingCount
    requires 1 <= borderWidth <= 20 && 0 <= gutterSize <= 20
    ensures var l := ComputeLayout(imageWidth, imageHeight, borderWidth, gutterSize, colors);
      && Available(borderWidth, gutterSize) >= 600.0
      && l.scale > 0.0 && l.image.width > 0.0 && l.image.height > 0.0
  {
    var a := Available(borderWidth, gutterSize);
    var w, h := imageWidth as real, imageHeight as real;
    assert a / w > 0.0 by { ScaleBound(w, a, 0.0); }
    assert a / h > 0.0 by { ScaleBound(h, a, 0.0); }
  }

  /**
   * Within the slider ranges the rings are nested: each ring's whole stroke
   * lies inside the outer boundary of the outermost stroke.
   */
  lemma RingsNested(imageWidth: int, imageHeight: int, borderWidth: int, gutterSize: int,
                    colors: seq<Color>, k: nat)
    requires imageWidth > 0 && imageHeight > 0 && |colors| == RingCount
    requires 1 <= borderWidth <= 20 && 0 <= gutterSize <= 20
    requires k < RingCount
    ensures var l := ComputeLayout(imageWidth, imageHeight, borderWidth, gutterSize, colors);
      Contains(StrokeOuter(l.rings[0].rect, borderWidth as real),
               StrokeOuter(l.rings[k].rect, borderWidth as real))
  {
  }

  /** A 400x300 image with border width 15 and gap 8 is scaled by 1.695 and placed at (61, 145.75). */
  lemma ExampleLayout()
    ensures var l := ComputeLayout(400, 300, 15, 8, DefaultColors);
      && l.scale == 1.695
      && l.image == Rect(61.0, 145.75, 678.0, 508.5)
  {
  }
}
