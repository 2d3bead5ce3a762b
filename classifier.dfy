/**
 * Value-to-colour classification of raster cells (raster_display.tsx):
 * the category palette table, the bucket a value falls into, the per-pixel
 * colouring function of a raster layer and the layer's bounds.
 */
module Classifier {
  import opened Wrappers
  import opened ColorRamp
  import opened RasterTypes

  // ---------------------------------------------------------------------
  // Palette table (getColorScaleForCategory)
  // ---------------------------------------------------------------------

  /** The two endpoint colours of a category's ramp. */
  datatype Gradient = Gradient(start: string, end: string)

  /** The blue ramp of every category the table does not name. */
  const DefaultGradient: Gradient := Gradient("#d4e6f1", "#154360")

  /** The category names the palette table matches, case-sensitively. */
  const PaletteCategories: seq<string> := [
    "Rainfall", "Temperature", "Population", "Vegetation",
    "Air Quality", "Water Resources", "Soil Health", "Land Use"]

  /** The fixed endpoint pair of each named category; the default blue pair otherwise. */
  function BaseColors(category: string): (g: Gradient)
    ensures IsHexColor(g.start) && IsHexColor(g.end)
    ensures g == DefaultGradient <==> category !in PaletteCategories
  {
    if category == "Rainfall" then Gradient("#d4f1f9", "#2980b9")
    else if category == "Temperature" then Gradient("#f9e79f", "#a93226")
    else if category == "Population" then Gradient("#d5f5e3", "#145a32")
    else if category == "Vegetation" then Gradient("#fcf3cf", "#145a32")
    else if category == "Air Quality" then Gradient("#ebf5fb", "#21618c")
    else if category == "Water Resources" then Gradient("#eafaf1", "#186a3b")
    else if category == "Soil Health" then Gradient("#fef9e7", "#b7950b")
    else if category == "Land Use" then Gradient("#f4ecf7", "#6c3483")
    else DefaultGradient
  }

  /** The ramp of `count` colours for a category. */
  function CategoryScale(category: string, count: nat): (colors: seq<string>)
    requires count >= 2
    ensures |colors| == count
  {
    var g := BaseColors(category);
    Ramp(ParseColor(g.start), ParseColor(g.end), count)
  }

  /**
   * `getColorScaleForCategory(category, count)`: the category's endpoint
   * pair, interpolated into `count` colours.
   */
  method ColorScaleForCategory(category: string, count: nat) returns (colors: seq<string>)
    requires count >= 2
    ensures colors == CategoryScale(category, count)
    ensures |colors| == count
    ensures ParseColor(colors[0]) == ParseColor(BaseColors(category).start)
    ensures ParseColor(colors[count - 1]) == ParseColor(BaseColors(category).end)
  {
    var baseColors := BaseColors(category);
    colors := InterpolateColors(baseColors.start, baseColors.end, count);
  }

  // ---------------------------------------------------------------------
  // Bucketing (getColorForValue)
  // ---------------------------------------------------------------------

  /** Metadata carries both `min` and `max`. */
  predicate HasRange(metadata: RasterMetadata) {
    metadata.min.Some? && metadata.max.Some?
  }

  /** Division by `max - min` is defined: the range has non-zero width. */
  predicate RangeUsable(metadata: RasterMetadata) {
    HasRange(metadata) ==> metadata.min.value != metadata.max.value
  }

  /** The range the value is normalised against: metadata `[min, max]`, or `[0, 100]`. */
  function RangeLow(metadata: RasterMetadata): real {
    if HasRange(metadata) then metadata.min.value else 0.0
  }

  function RangeHigh(metadata: RasterMetadata): real {
    if HasRange(metadata) then metadata.max.value else 100.0
  }

  /** `Math.min(1, Math.max(0, x))`. */
  function Clamp01(x: real): (y: real)
    ensures 0.0 <= y <= 1.0
    ensures 0.0 <= x <= 1.0 ==> y == x
    ensures x <= 0.0 ==> y == 0.0
    ensures x >= 1.0 ==> y == 1.0
  {
    if x < 0.0 then 0.0 else if x > 1.0 then 1.0 else x
  }

  /** The normalised value: `(value - min) / (max - min)` with metadata, `value / 100` without, clamped to [0, 1]. */
  function Normalized(value: real, metadata: RasterMetadata): (x: real)
    requires RangeUsable(metadata)
    ensures 0.0 <= x <= 1.0
  {
    if HasRange(metadata) then
      var min := metadata.min.value;
      var max := metadata.max.value;
      Clamp01((value - min) / (max - min))
    else
      Clamp01(value / 100.0)
  }

  /** `Math.min(n - 1, Math.floor(norm * n))`, always a valid index. */
  function BucketOf(norm: real, n: nat): (k: nat)
    requires 0.0 <= norm <= 1.0 && n >= 1
    ensures k < n
  {
    var f := (norm * n as real).Floor;
    if n - 1 <= f then n - 1 else f
  }

  /** The index of the colour `getColorForValue` picks among `n` colours. */
  function ColorIndex(value: real, metadata: RasterMetadata, n: nat): (k: nat)
    requires RangeUsable(metadata) && n >= 1
    ensures k < n
  {
    BucketOf(Normalized(value, metadata), n)
  }

  /**
   * Both branches normalise against `[RangeLow, RangeHigh]`: without
   * metadata bounds, `value / 100` is the range `[0, 100]`.
   */
  lemma NormalizedAgainstRange(value: real, metadata: RasterMetadata)
    requires RangeUsable(metadata)
    ensures !HasRange(metadata) ==> RangeLow(metadata) == 0.0 && RangeHigh(metadata) == 100.0
    ensures Normalized(value, metadata)
      == Clamp01((value - RangeLow(metadata)) / (RangeHigh(metadata) - RangeLow(metadata)))
  {
    if !HasRange(metadata) {
      assert (value - 0.0) / (100.0 - 0.0) == value / 100.0;
    }
  }

  /** Dividing by a positive number keeps the order. */
  lemma DivideMonotone(a: real, b: real, d: real)
    requires d > 0.0 && a <= b
    ensures a / d <= b / d
  {
    assert a / d * d == a && b / d * d == b;
  }

  /** Multiplying by a non-negative number keeps the order. */
  lemma MultiplyMonotone(a: real, b: real, c: real)
    requires c >= 0.0 && a <= b
    ensures a * c <= b * c
  {
    assert (b - a) * c >= 0.0;
  }

  /** Values at or below the range's low end take the first colour, at or above its high end the last. */
  lemma ColorIndexExtremes(value: real, metadata: RasterMetadata, n: nat)
    requires RangeUsable(metadata) && n >= 1
    requires RangeLow(metadata) < RangeHigh(metadata)
    ensures value <= RangeLow(metadata) ==> ColorIndex(value, metadata, n) == 0
    ensures value >= RangeHigh(metadata) ==> ColorIndex(value, metadata, n) == n - 1
  {
    var lo, hi := RangeLow(metadata), RangeHigh(metadata);
    NormalizedAgainstRange(value, metadata);
    QuotientEnds(value - lo, hi - lo);
    BucketOfEnds(n);
    assert ColorIndex(value, metadata, n) == BucketOf(Clamp01((value - lo) / (hi - lo)), n);
  }

  /** A quotient by a positive `d` is at most 0 for `a <= 0` and at least 1 for `a >= d`. */
  lemma QuotientEnds(a: real, d: real)
    requires d > 0.0
    ensures a <= 0.0 ==> a / d <= 0.0
    ensures a >= d ==> a / d >= 1.0
  {
    if a <= 0.0 {
      DivideMonotone(a, 0.0, d);
      assert 0.0 / d == 0.0;
    }
    if a >= d {
      DivideMonotone(d, a, d);
      assert d / d == 1.0;
    }
  }

  /** The clamped ends 0 and 1 take the first and the last of `n` buckets. */
  lemma BucketOfEnds(n: nat)
    requires n >= 1
    ensures BucketOf(0.0, n) == 0 && BucketOf(1.0, n) == n - 1
  {
    assert 0.0 * n as real == 0.0;
    assert 1.0 * n as real == n as real;
  }

  /** A normalised value below 1 lands in the bucket `floor(x * n)`, which is below `n`. */
  lemma BucketOfBelowOne(x: real, n: nat)
    requires 0.0 <= x < 1.0 && n >= 1
    ensures BucketOf(x, n) as real <= x * n as real < (BucketOf(x, n) + 1) as real
  {
    MultiplyMonotone(x, 1.0, n as real);
    assert x * n as real < n as real by {
      assert (1.0 - x) * n as real > 0.0;
    }
  }

  /** The bucket grows with the normalised value. */
  lemma BucketOfMonotone(x1: real, x2: real, n: nat)
    requires 0.0 <= x1 <= x2 <= 1.0 && n >= 1
    ensures BucketOf(x1, n) <= BucketOf(x2, n)
  {
    MultiplyMonotone(x1, x2, n as real);
    FloorMonotone(x1 * n as real, x2 * n as real);
  }

  lemma FloorMonotone(a: real, b: real)
    requires a <= b
    ensures a.Floor <= b.Floor
  {
  }

  /** A point strictly inside `[0, d)` divided by `d` lies in `[0, 1)`. */
  lemma InsideRangeBelowOne(a: real, d: real)
    requires 0.0 <= a < d
    ensures 0.0 <= a / d < 1.0
  {
    DivideMonotone(0.0, a, d);
    DivideMonotone(a, d, d);
    assert a / d != 1.0 by {
      assert a / d * d == a;
    }
  }

  /**
   * Inside the range, the chosen colour is the bucket that contains the
   * value: with `w = (max - min) / n`, `min + k*w <= value < min + (k+1)*w`.
   */
  lemma ColorIndexBucket(value: real, metadata: RasterMetadata, n: nat)
    requires RangeUsable(metadata) && n >= 1
    requires RangeLow(metadata) < RangeHigh(metadata)
    requires RangeLow(metadata) <= value < RangeHigh(metadata)
    ensures var lo, hi, k := RangeLow(metadata), RangeHigh(metadata), ColorIndex(value, metadata, n);
      var w := (hi - lo) / n as real;
      lo + k as real * w <= value < lo + (k + 1) as real * w
  {
    var lo, hi := RangeLow(metadata), RangeHigh(metadata);
    var d := hi - lo;
    var x := (value - lo) / d;
    NormalizedInside(value, metadata);
    var k := ColorIndex(value, metadata, n);
    assert k == BucketOf(x, n);
    BucketOfBelowOne(x, n);
    BucketScaled(lo, d, value, n, k);
  }

  /** Inside the range the clamp does nothing: the value's fraction of the range lies in `[0, 1)`. */
  lemma NormalizedInside(value: real, metadata: RasterMetadata)
    requires RangeUsable(metadata)
    requires RangeLow(metadata) <= value < RangeHigh(metadata)
    ensures var lo, hi := RangeLow(metadata), RangeHigh(metadata);
      && 0.0 <= (value - lo) / (hi - lo) < 1.0
      && Normalized(value, metadata) == (value - lo) / (hi - lo)
  {
    var lo, hi := RangeLow(metadata), RangeHigh(metadata);
    InsideRangeBelowOne(value - lo, hi - lo);
    NormalizedAgainstRange(value, metadata);
  }

  /** `k <= (value - lo) / d * n < k + 1` scaled back by `d / n`. */
  lemma BucketScaled(lo: real, d: real, value: real, n: nat, k: nat)
    requires d > 0.0 && n >= 1
    requires k as real <= (value - lo) / d * n as real < (k + 1) as real
    ensures lo + k as real * (d / n as real) <= value < lo + (k + 1) as real * (d / n as real)
  {
    var x := (value - lo) / d;
    var nr := n as real;
    var w := d / nr;
    assert x * nr * w == value - lo by {
      assert x * d == value - lo;
      assert nr * w == d;
    }
    ScaleInequality(k as real, x * nr, (k + 1) as real, w);
  }

  /** Multiplying a chain `a <= b < c` by a positive factor keeps it. */
  lemma ScaleInequality(a: real, b: real, c: real, w: real)
    requires a <= b < c && w > 0.0
    ensures a * w <= b * w < c * w
  {
    MultiplyMonotone(a, b, w);
    assert (c - b) * w > 0.0;
  }

  /** A larger value never takes an earlier colour. */
  lemma ColorIndexMonotone(v1: real, v2: real, metadata: RasterMetadata, n: nat)
    requires RangeUsable(metadata) && n >= 1
    requires RangeLow(metadata) < RangeHigh(metadata)
    requires v1 <= v2
    ensures ColorIndex(v1, metadata, n) <= ColorIndex(v2, metadata, n)
  {
    var lo, hi := RangeLow(metadata), RangeHigh(metadata);
    DivideMonotone(v1 - lo, v2 - lo, hi - lo);
    NormalizedAgainstRange(v1, metadata);
    NormalizedAgainstRange(v2, metadata);
    BucketOfMonotone(Normalized(v1, metadata), Normalized(v2, metadata), n);
  }

  /**
   * `getColorForValue(value, category, metadata, count)`: the category's
   * ramp of `count` colours, indexed by the value's bucket.
   */
  method ColorForValue(value: real, category: string, metadata: RasterMetadata, count: nat) returns (color: string)
    requires count >= 2 && RangeUsable(metadata)
    ensures color == CategoryScale(category, count)[ColorIndex(value, metadata, count)]
    ensures IsLowerHexColor(color)
    ensures RangeLow(metadata) < RangeHigh(metadata) && value <= RangeLow(metadata)
      ==> color == CategoryScale(category, count)[0]
    ensures RangeLow(metadata) < RangeHigh(metadata) && value >= RangeHigh(metadata)
      ==> color == CategoryScale(category, count)[count - 1]
  {
    var colors := ColorScaleForCategory(category, count);
    var colorIndex := ColorIndex(value, metadata, |colors|);
    color := colors[colorIndex];
    if RangeLow(metadata) < RangeHigh(metadata) {
      ColorIndexExtremes(value, metadata, count);
    }
  }

  // ---------------------------------------------------------------------
  // The raster layer (processGeoRaster)
  // ---------------------------------------------------------------------

  /**
   * What a GeoRasterLayer is created with: the raster, its opacity, and the
   * category, metadata and legend count its pixel function closes over.
   */
  datatype RasterLayer = RasterLayer(
    georaster: GeoRaster,
    opacity: real,
    categoryName: string,
    metadata: RasterMetadata,
    legendCount: int)

  /** The opacity slider (1..10) divided by 10. */
  function LayerOpacity(slider: int): (alpha: real)
    ensures alpha * 10.0 == slider as real
    ensures 1 <= slider <= 10 ==> 0.1 <= alpha <= 1.0
  {
    slider as real / 10.0
  }

  /**
   * The layer's `pixelValuesToColorFn`: transparent (`None`) exactly when
   * the first band equals the raster's no-data value, otherwise the colour
   * of `getColorForValue` with the layer's legend count.
   */
  method PixelValuesToColor(layer: RasterLayer, values: seq<real>) returns (color: Option<string>)
    requires |values| >= 1 && layer.legendCount >= 2 && RangeUsable(layer.metadata)
    ensures color.None? <==> layer.georaster.noDataValue == Some(values[0])
    ensures color.Some? ==>
      color.value == CategoryScale(layer.categoryName, layer.legendCount)[ColorIndex(values[0], layer.metadata, layer.legendCount)]
  {
    if layer.georaster.noDataValue == Some(values[0]) {
      color := None;
    } else {
      var c := ColorForValue(values[0], layer.categoryName, layer.metadata, layer.legendCount);
      color := Some(c);
    }
  }

  // ---------------------------------------------------------------------
  // Bounds
  // ---------------------------------------------------------------------

  datatype LatLng = LatLng(lat: real, lng: real)

  /** `L.latLngBounds(corner1, corner2)`. */
  datatype Bounds = Bounds(corner1: LatLng, corner2: LatLng)

  /**
   * The layer bounds: `(bbox[1], bbox[0])` and `(bbox[3], bbox[2])`, i.e. the
   * south-west and north-east corners; none without a projection or bbox.
   */
  function RasterBounds(georaster: GeoRaster): (b: Option<Bounds>)
    ensures b.Some? <==> georaster.projection.Some? && georaster.projection.value.bbox.Some?
    ensures b.Some? ==> var box := georaster.projection.value.bbox.value;
      b.value.corner1 == LatLng(box.south, box.west) && b.value.corner2 == LatLng(box.north, box.east)
  {
    match georaster.projection
    case Some(Projection(Some(box))) =>
      Some(Bounds(LatLng(box.south, box.west), LatLng(box.north, box.east)))
    case _ => None
  }

  /** Reading a bbox back from bounds. */
  function BBoxOf(b: Bounds): BBox {
    BBox(b.corner1.lng, b.corner1.lat, b.corner2.lng, b.corner2.lat)
  }

  /** No coordinate is lost: the bbox is recovered from the bounds. */
  lemma RasterBoundsRoundTrip(georaster: GeoRaster)
    requires RasterBounds(georaster).Some?
    ensures georaster.projection.value.bbox == Some(BBoxOf(RasterBounds(georaster).value))
  {
  }
}
