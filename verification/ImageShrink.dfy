/** The resolution clamp of the client-side compressor (image-compress.ts), with
    scales as real numbers. */
module ImageShrink {

  /** Math.round: halves go up. */
  function Round(x: real): int {
    (x + 0.5).Floor
  }

  lemma RoundExactly(x: real)
    ensures Round(x) as real - 0.5 <= x < Round(x) as real + 0.5
  {
  }

  function Pixels(width: nat, height: nat, scale: real): int {
    Round(width as real * scale) * Round(height as real * scale)
  }

  const SHRINK := 0.995
  const MAX_IMAGE_PIXELS := 25_000_000
  const MIN_DIMENSION := 640

  lemma RoundNonNegative(n: nat, scale: real)
    requires scale >= 0.0
    ensures Round(n as real * scale) >= 0
  {
    assert n as real * scale >= 0.0;
  }

  lemma ScaleMonotone(n: nat, small: real, large: real)
    requires 0.0 <= small <= large
    ensures n as real * small <= n as real * large
  {
  }

  lemma RoundMonotone(n: nat, small: real, large: real)
    requires 0.0 <= small <= large
    ensures 0 <= Round(n as real * small) <= Round(n as real * large)
  {
    ScaleMonotone(n, 0.0, small);
    ScaleMonotone(n, small, large);
  }

  lemma ProductMonotone(a: int, b: int, c: int, d: int)
    requires 0 <= a <= c && 0 <= b <= d
    ensures a * b <= c * d
  {
    assert a * b <= c * b;
    assert c * b <= c * d;
  }

  lemma RealProducts(a: real, b: real, c: real, d: real)
    requires 0.0 <= a <= c && 0.0 <= b <= d
    ensures a * b <= c * d
  {
    assert a * b <= c * b;
    assert c * b <= c * d;
  }

  /** A smaller scale never gives more pixels. */
  lemma PixelsMonotone(width: nat, height: nat, small: real, large: real)
    requires 0.0 <= small <= large
    ensures 0 <= Pixels(width, height, small) <= Pixels(width, height, large)
  {
    RoundMonotone(width, small, large);
    RoundMonotone(height, small, large);
    ProductMonotone(Round(width as real * small), Round(height as real * small),
                    Round(width as real * large), Round(height as real * large));
    ProductMonotone(0, 0, Round(width as real * small), Round(height as real * small));
  }

  /** Four-hundredths of a pixel of width that are left. */
  function Budget(width: nat, scale: real): int {
    (400.0 * (width as real * scale)).Floor
  }

  function Shrunk(scale: real): real {
    scale * SHRINK
  }

  lemma FloorDrops(x: real, y: real)
    requires y <= x - 1.0
    ensures y.Floor < x.Floor
  {
  }

  lemma WidthDrops(w: real)
    requires w >= 0.5
    ensures 400.0 * (w * SHRINK) <= 400.0 * w - 1.0
  {
    assert w * SHRINK == w - w * 0.005;
    assert w * 0.005 >= 0.0025;
  }

  lemma ShrunkBounds(scale: real)
    requires scale > 0.0
    ensures 0.0 < Shrunk(scale) <= scale
  {
    assert Shrunk(scale) == scale - scale * 0.005;
  }

  lemma TooLargeIsWide(width: nat, height: nat, scale: real, maxPixels: nat)
    requires scale > 0.0 && Pixels(width, height, scale) > maxPixels
    ensures width as real * scale >= 0.5
  {
    RoundNonNegative(width, scale);
    RoundNonNegative(height, scale);
  }

  /** While the rounded image is too large its width is at least one pixel, so one
      shrink takes at least one four-hundredth of a pixel off it. */
  lemma ShrinkProgress(width: nat, height: nat, scale: real, maxPixels: nat)
    requires scale > 0.0 && Pixels(width, height, scale) > maxPixels
    ensures 0.0 < Shrunk(scale) <= scale
    ensures 0 <= Budget(width, scale) && Budget(width, Shrunk(scale)) < Budget(width, scale)
  {
    TooLargeIsWide(width, height, scale, maxPixels);
    ShrunkBounds(scale);
    var w := width as real * scale;
    assert width as real * Shrunk(scale) == w * SHRINK;
    WidthDrops(w);
    FloorDrops(400.0 * w, 400.0 * (w * SHRINK));
  }

  /** The scales the loop goes through. */
  function Grid(start: real, k: nat): real {
    if k == 0 then start else Shrunk(Grid(start, k - 1))
  }

  ghost predicate OnGrid(start: real, scale: real) {
    exists k: nat :: scale == Grid(start, k)
  }

  /** The loop has not shrunk, or its last shrink was of a scale that did not fit. */
  ghost predicate FittedFrom(width: nat, height: nat, maxPixels: nat, start: real, scale: real) {
    scale == start
    || exists prev :: OnGrid(start, prev) && prev > 0.0 && scale == Shrunk(prev)
                      && Pixels(width, height, prev) > maxPixels
  }

  lemma GridGoesOn(start: real, scale: real)
    requires OnGrid(start, scale)
    ensures OnGrid(start, Shrunk(scale))
  {
    var k: nat :| scale == Grid(start, k);
    assert Shrunk(scale) == Grid(start, k + 1);
  }

  lemma GridBegins(start: real)
    ensures OnGrid(start, start)
  {
    assert start == Grid(start, 0);
  }

  /** The shrink loop ends, and ends at a scale whose rounded sides fit. */
  method FitScale(width: nat, height: nat, maxPixels: nat, start: real) returns (scale: real)
    requires 0.0 < start < 1.0
    ensures 0.0 < scale <= start
    ensures Pixels(width, height, scale) <= maxPixels
    ensures Pixels(width, height, start) <= maxPixels ==> scale == start
    ensures FittedFrom(width, height, maxPixels, start, scale)
  {
    scale := start;
    GridBegins(start);
    while Pixels(width, height, scale) > maxPixels
      invariant 0.0 < scale <= start && OnGrid(start, scale)
      invariant Pixels(width, height, start) <= maxPixels ==> scale == start
      invariant FittedFrom(width, height, maxPixels, start, scale)
      decreases Budget(width, scale)
    {
      ShrinkProgress(width, height, scale, maxPixels);
      GridGoesOn(start, scale);
      scale := Shrunk(scale);
    }
  }

  function Clamp(step: real, pixelScale: real): real {
    if pixelScale >= 1.0 then step else if step <= pixelScale then step else pixelScale
  }

  /** A step of the ladder is taken as it is unless it is above a fitted scale. */
  lemma ClampExactly(step: real, pixelScale: real)
    ensures Clamp(step, pixelScale) == step || Clamp(step, pixelScale) == pixelScale
    ensures Clamp(step, pixelScale) == step <==> pixelScale >= 1.0 || step <= pixelScale
    ensures pixelScale < 1.0 ==> Clamp(step, pixelScale) <= pixelScale
  {
  }

  lemma RoundWhole(n: nat)
    ensures Round(n as real * 1.0) == n
  {
  }

  /** Every clamped ladder step fits the pixel limit before the canvas sides are
      raised to one: either the scale was fitted, or the image fitted unscaled. */
  lemma ClampedStepsFit(width: nat, height: nat, maxPixels: nat, pixelScale: real, step: real)
    requires 0.0 < step <= 1.0 && 0.0 < pixelScale
    requires pixelScale < 1.0 ==> Pixels(width, height, pixelScale) <= maxPixels
    requires pixelScale >= 1.0 ==> width * height <= maxPixels
    ensures Pixels(width, height, Clamp(step, pixelScale)) <= maxPixels
  {
    if pixelScale < 1.0 {
      PixelsMonotone(width, height, Clamp(step, pixelScale), pixelScale);
    } else {
      RoundWhole(width);
      RoundWhole(height);
      PixelsMonotone(width, height, step, 1.0);
    }
  }

  function AtLeastOne(n: int): int {
    if n < 1 then 1 else n
  }

  /** The canvas that is really drawn. */
  function CanvasPixels(width: nat, height: nat, scale: real): int {
    AtLeastOne(Round(width as real * scale)) * AtLeastOne(Round(height as real * scale))
  }

  /** Raising sides to one keeps the limit exactly when neither rounded side is
      zero, or the longer side alone is within the limit. */
  lemma CanvasFitsExactly(width: nat, height: nat, maxPixels: nat, scale: real)
    requires scale >= 0.0 && maxPixels >= 1 && Pixels(width, height, scale) <= maxPixels
    ensures CanvasPixels(width, height, scale) <= maxPixels <==>
            || (Round(width as real * scale) >= 1 && Round(height as real * scale) >= 1)
            || (Round(width as real * scale) <= maxPixels && Round(height as real * scale) <= maxPixels)
  {
    RoundNonNegative(width, scale);
    RoundNonNegative(height, scale);
    var w, h := Round(width as real * scale), Round(height as real * scale);
    if w == 0 {
      assert CanvasPixels(width, height, scale) == AtLeastOne(h);
    } else if h == 0 {
      assert CanvasPixels(width, height, scale) == AtLeastOne(w);
    }
  }

  /** A strip of a hundred million by one pixel: the fitted scale rounds the short
      side to nothing, and the canvas is then twice the limit. */
  lemma StripOverflowsCanvas()
    ensures var width, height := 100_000_000, 1;
            && Pixels(width, height, 0.5) > MAX_IMAGE_PIXELS
            && Pixels(width, height, 0.5 * SHRINK) <= MAX_IMAGE_PIXELS
            && CanvasPixels(width, height, 0.5 * SHRINK) == 49_750_000 > MAX_IMAGE_PIXELS
  {
    assert 0.5 * SHRINK == 0.4975;
    assert Round(100_000_000.0 * 0.4975) == 49_750_000;
    assert Round(1.0 * 0.4975) == 0;
  }

  /** What a caller can check beforehand: sides that are each within the pixel limit
      are never raised past it, at any fitting scale. */
  lemma SidesWithinLimitFit(width: nat, height: nat, maxPixels: nat, scale: real)
    requires width <= maxPixels && height <= maxPixels && maxPixels >= 1 && 0.0 <= scale <= 1.0
    requires Pixels(width, height, scale) <= maxPixels
    ensures CanvasPixels(width, height, scale) <= maxPixels
  {
    RoundMonotone(width, scale, 1.0);
    RoundMonotone(height, scale, 1.0);
    RoundWhole(width);
    RoundWhole(height);
    CanvasFitsExactly(width, height, maxPixels, scale);
  }

  // ---------- when the raised canvas fits, in terms of the image ----------

  lemma Commutes(a: int, b: int)
    ensures a * b == b * a
  {
  }

  /** Nothing depends on which side is the width: below, one is simply the longer. */
  lemma SidesSwap(width: nat, height: nat, scale: real)
    ensures Pixels(width, height, scale) == Pixels(height, width, scale)
    ensures CanvasPixels(width, height, scale) == CanvasPixels(height, width, scale)
  {
    Commutes(Round(width as real * scale), Round(height as real * scale));
    Commutes(AtLeastOne(Round(width as real * scale)), AtLeastOne(Round(height as real * scale)));
  }

  lemma RoundUpTo(x: real, limit: nat)
    ensures Round(x) <= limit <==> x < limit as real + 0.5
    ensures Round(x) >= 1 <==> x >= 0.5
  {
  }

  /** At a scale that fits, the canvas is too large exactly when the short side is
      below half a pixel and the long one is not within the limit. */
  lemma CanvasFitsAt(long: nat, short: nat, maxPixels: nat, scale: real)
    requires short <= long && maxPixels >= 1 && scale > 0.0 && Pixels(long, short, scale) <= maxPixels
    ensures CanvasPixels(long, short, scale) <= maxPixels <==>
            short as real * scale >= 0.5 || long as real * scale < maxPixels as real + 0.5
  {
    CanvasFitsExactly(long, short, maxPixels, scale);
    RoundUpTo(long as real * scale, maxPixels);
    RoundUpTo(short as real * scale, maxPixels);
    RealProducts(short as real, scale, long as real, scale);
  }

  /** How much longer than the short side an image may be. */
  function Ratio(maxPixels: nat): nat {
    2 * maxPixels + 1
  }

  lemma StrictProduct(a: real, b: real, c: real)
    requires a > 0.0 && b < c
    ensures a * b < a * c
  {
  }

  lemma BelowRatio(long: real, short: real, ratio: real, scale: real)
    requires scale > 0.0 && ratio > 0.0 && 0.0 <= long <= ratio * short && short * scale < 0.5
    ensures long * scale < ratio * 0.5
  {
    RealProducts(long, scale, ratio * short, scale);
    assert (ratio * short) * scale == ratio * (short * scale);
    StrictProduct(ratio, short * scale, 0.5);
  }

  lemma AboveRatio(long: real, short: real, ratio: real, scale: real)
    requires scale > 0.0 && ratio > 0.0 && short >= 0.0 && long >= ratio * short && short * scale >= 0.5
    ensures long * scale >= ratio * 0.5
  {
    RealProducts(0.0, 0.0, ratio, short);
    RealProducts(ratio * short, scale, long, scale);
    assert (ratio * short) * scale == ratio * (short * scale);
    RealProducts(ratio, 0.5, ratio, short * scale);
  }

  lemma RealRatio(long: nat, short: nat, maxPixels: nat)
    ensures long <= Ratio(maxPixels) * short <==> long as real <= Ratio(maxPixels) as real * short as real
    ensures Ratio(maxPixels) as real * 0.5 == maxPixels as real + 0.5
  {
    assert (Ratio(maxPixels) * short) as real == Ratio(maxPixels) as real * short as real;
  }

  /** Where the short side is below half a pixel, the long side of a compact image
      is within the limit. */
  lemma CompactSide(long: nat, short: nat, maxPixels: nat, scale: real)
    requires scale > 0.0 && long <= Ratio(maxPixels) * short && short as real * scale < 0.5
    ensures long as real * scale < maxPixels as real + 0.5
  {
    RealRatio(long, short, maxPixels);
    BelowRatio(long as real, short as real, Ratio(maxPixels) as real, scale);
  }

  /** Where it is not, the long side of a longer image is not within the limit. */
  lemma ElongatedSide(long: nat, short: nat, maxPixels: nat, scale: real)
    requires scale > 0.0 && long > Ratio(maxPixels) * short && short as real * scale >= 0.5
    ensures long as real * scale >= maxPixels as real + 0.5
  {
    RealRatio(long, short, maxPixels);
    AboveRatio(long as real, short as real, Ratio(maxPixels) as real, scale);
  }

  lemma TooLargeShort(long: nat, short: nat, maxPixels: nat, scale: real)
    requires scale > 0.0 && Pixels(long, short, scale) > maxPixels
    ensures short as real * scale >= 0.5
  {
    RoundNonNegative(long, scale);
    RoundNonNegative(short, scale);
  }

  lemma FitsWithShortSide(long: nat, short: nat, maxPixels: nat, scale: real)
    requires scale > 0.0 && Pixels(long, short, scale) <= maxPixels && short as real * scale >= 0.5
    ensures long as real * scale < maxPixels as real + 0.5
  {
    RoundUpTo(long as real * scale, maxPixels);
    RoundUpTo(short as real * scale, maxPixels);
    RoundNonNegative(long, scale);
    ProductMonotone(Round(long as real * scale), 1, Round(long as real * scale), Round(short as real * scale));
  }

  lemma FitsMeansBelowHalf(long: nat, short: nat, maxPixels: nat, scale: real)
    requires scale > 0.0 && long > Ratio(maxPixels) * short && Pixels(long, short, scale) <= maxPixels
    ensures short as real * scale < 0.5
  {
    if short as real * scale >= 0.5 {
      ElongatedSide(long, short, maxPixels, scale);
      FitsWithShortSide(long, short, maxPixels, scale);
    }
  }

  lemma {:induction false} GridFalls(start: real, j: nat, k: nat)
    requires start > 0.0 && j <= k
    ensures 0.0 < Grid(start, k) <= Grid(start, j)
  {
    if k > 0 {
      GridFalls(start, if j < k then j else 0, k - 1);
      ShrunkBounds(Grid(start, k - 1));
    }
  }

  /** Between a scale and the next there is none. */
  lemma GridGap(start: real, prev: real, s: real)
    requires start > 0.0 && OnGrid(start, prev) && OnGrid(start, s) && s > Shrunk(prev)
    ensures s >= prev
  {
    var n: nat :| prev == Grid(start, n);
    var j: nat :| s == Grid(start, j);
    if j <= n {
      GridFalls(start, j, n);
    } else {
      GridFalls(start, n + 1, j);
    }
  }

  lemma GridTop(start: real)
    requires start > 0.0
    ensures forall s :: OnGrid(start, s) ==> s <= start
  {
    forall s | OnGrid(start, s) ensures s <= start {
      var j: nat :| s == Grid(start, j);
      GridFalls(start, 0, j);
    }
  }

  /** The largest scale of the grid at which the short side is below half a pixel;
      short side and start settle it. */
  ghost predicate FirstBelowHalf(short: nat, start: real, scale: real) {
    && OnGrid(start, scale) && short as real * scale < 0.5
    && forall s :: OnGrid(start, s) && s > scale ==> short as real * s >= 0.5
  }

  lemma SideGrows(n: nat, small: real, large: real)
    requires 0.0 <= small <= large && n as real * small >= 0.5
    ensures n as real * large >= 0.5
  {
    RealProducts(n as real, small, n as real, large);
  }

  lemma LastShrink(long: nat, short: nat, maxPixels: nat, start: real, scale: real)
    requires start > 0.0 && FittedFrom(long, short, maxPixels, start, scale) && short as real * scale < 0.5
    ensures FirstBelowHalf(short, start, scale)
  {
    if scale == start {
      GridBegins(start);
      GridTop(start);
    } else {
      var prev :| OnGrid(start, prev) && prev > 0.0 && scale == Shrunk(prev) && Pixels(long, short, prev) > maxPixels;
      TooLargeShort(long, short, maxPixels, prev);
      GridGoesOn(start, prev);
      forall s | OnGrid(start, s) && s > scale ensures short as real * s >= 0.5 {
        GridGap(start, prev, s);
        SideGrows(short, prev, s);
      }
    }
  }

  lemma FitsByShape(long: nat, short: nat, maxPixels: nat, scale: real)
    requires short <= long && maxPixels >= 1 && scale > 0.0 && Pixels(long, short, scale) <= maxPixels
    ensures CanvasPixels(long, short, scale) <= maxPixels <==>
            long <= Ratio(maxPixels) * short || long as real * scale < maxPixels as real + 0.5
  {
    CanvasFitsAt(long, short, maxPixels, scale);
    if long > Ratio(maxPixels) * short {
      FitsMeansBelowHalf(long, short, maxPixels, scale);
    } else if short as real * scale < 0.5 {
      CompactSide(long, short, maxPixels, scale);
    }
  }

  /** The exact condition on an image and a limit, at the scale the loop ends with:
      the canvas fits if and only if the long side is at most 2 * maxPixels + 1 times
      the short one, or the first scale at which the short side rounds to nothing
      already brings the long side within the limit. */
  lemma CanvasFitsImageExactly(long: nat, short: nat, maxPixels: nat, start: real, scale: real)
    requires short <= long && maxPixels >= 1 && 0.0 < scale <= start && Pixels(long, short, scale) <= maxPixels
    requires FittedFrom(long, short, maxPixels, start, scale)
    ensures CanvasPixels(long, short, scale) <= maxPixels <==>
            long <= Ratio(maxPixels) * short || long as real * scale < maxPixels as real + 0.5
    ensures long > Ratio(maxPixels) * short ==> FirstBelowHalf(short, start, scale)
  {
    FitsByShape(long, short, maxPixels, scale);
    if long > Ratio(maxPixels) * short {
      FitsMeansBelowHalf(long, short, maxPixels, scale);
      LastShrink(long, short, maxPixels, start, scale);
    }
  }

  // ---------- beyond the grid ----------

  lemma LongSideOverflows(long: nat, short: nat, maxPixels: nat, scale: real)
    requires long as real * scale >= maxPixels as real + 0.5
    ensures CanvasPixels(long, short, scale) > maxPixels
  {
    RoundUpTo(long as real * scale, maxPixels);
    ProductMonotone(Round(long as real * scale), 1, AtLeastOne(Round(long as real * scale)),
                    AtLeastOne(Round(short as real * scale)));
  }

  lemma ShrunkSide(long: real, short: real, ratio: real, prev: real)
    requires prev > 0.0 && ratio > 0.0 && short >= 0.0 && short * prev >= 0.5 && long * SHRINK >= ratio * short
    ensures long * Shrunk(prev) >= ratio * 0.5
  {
    AboveRatio(long * SHRINK, short, ratio, prev);
    assert long * Shrunk(prev) == (long * SHRINK) * prev;
  }

  /** The grid matters in a band of half a percent only: beyond it the canvas of a
      shrunk image is always too large. */
  lemma BeyondTheBandOverflows(long: nat, short: nat, maxPixels: nat, prev: real)
    requires prev > 0.0 && Pixels(long, short, prev) > maxPixels
    requires long as real * SHRINK >= Ratio(maxPixels) as real * short as real
    ensures CanvasPixels(long, short, Shrunk(prev)) > maxPixels
  {
    TooLargeShort(long, short, maxPixels, prev);
    ShrunkSide(long as real, short as real, Ratio(maxPixels) as real, prev);
    RealRatio(long, short, maxPixels);
    LongSideOverflows(long, short, maxPixels, Shrunk(prev));
  }

  lemma ThinScale(width: real, limit: real, scale: real)
    requires width > 4.0 * limit && limit >= 1.0 && scale > 0.0 && (scale * width) * scale == limit
    ensures scale < 0.5 && scale * width > 2.0 * limit
  {
    HalfScaleIsTooLarge(width, limit, scale);
    if scale * width <= 2.0 * limit {
      RealProducts(scale * width, scale, 2.0 * limit, scale);
    }
  }

  lemma HalfScaleIsTooLarge(width: real, limit: real, scale: real)
    requires width > 4.0 * limit && limit >= 1.0
    ensures scale >= 0.5 ==> (scale * width) * scale > limit
  {
    if scale >= 0.5 {
      RealProducts(0.5, width, scale, width);
      RealProducts(0.5 * width, 0.5, scale * width, scale);
    }
  }

  /** A strip of one pixel by more than four times the limit: at the exact square
      root scale its short side rounds to nothing, the loop does not run, and the
      canvas is over the limit. */
  lemma ThinStripOverflows(width: nat, maxPixels: nat, scale: real)
    requires maxPixels >= 1 && width > 4 * maxPixels
    requires scale > 0.0 && (scale * width as real) * scale == maxPixels as real
    ensures Pixels(width, 1, scale) <= maxPixels < CanvasPixels(width, 1, scale)
  {
    ThinScale(width as real, maxPixels as real, scale);
    assert Round(1 as real * scale) == 0;
    assert Round(width as real * scale) > maxPixels;
    assert Pixels(width, 1, scale) == 0;
  }

  /** The last resort is a square of at most 640 pixels: always within the limit. */
  lemma FloorStepFits(pixelScale: real)
    requires 0.0 < pixelScale
    ensures var scale := if pixelScale < 1.0 then pixelScale else 1.0;
            CanvasPixels(MIN_DIMENSION, MIN_DIMENSION, scale) <= MAX_IMAGE_PIXELS
  {
    var scale := if pixelScale < 1.0 then pixelScale else 1.0;
    RoundMonotone(MIN_DIMENSION, scale, 1.0);
    RoundWhole(MIN_DIMENSION);
    ProductMonotone(AtLeastOne(Round(MIN_DIMENSION as real * scale)), AtLeastOne(Round(MIN_DIMENSION as real * scale)),
                    MIN_DIMENSION, MIN_DIMENSION);
  }
}
