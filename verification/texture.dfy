/** `getTextureMetrics` in services/imageRecognitionService.js: population variance of the
    samples of a greyscale raster, and the mean absolute difference between each interior
    pixel and the mean of its four neighbours. */
module Texture {
  import opened Sums
  import opened Grid

  datatype TextureStats = TextureStats(variance: real, contrast: real, mean: real)

  function Abs(x: real): (r: real)
  {
    if x < 0.0 then -x else x
  }

  function MeanOf(data: seq<int>): (r: real)
    requires |data| > 0
  {
    Sum(data) as real / |data| as real
  }

  /** `Math.pow(data[i] - mean, 2)` summed over the first k samples. */
  function SquaredDeviations(data: seq<int>, mean: real, k: int): (r: real)
    requires 0 <= k <= |data|
  {
    if k == 0 then 0.0
    else SquaredDeviations(data, mean, k - 1) + Times(data[k - 1] as real - mean, data[k - 1] as real - mean)
  }

  function VarianceOf(data: seq<int>): (r: real)
    requires |data| > 0
  {
    SquaredDeviations(data, MeanOf(data), |data|) / |data| as real
  }

  /** `Math.abs(center - neighborMean)` for the 4-connected neighbours. */
  function LocalContrast(data: seq<int>, w: int, h: int, x: int, y: int): (r: real)
    requires IsGrid(data, w, h) && Interior(w, h, x, y)
  {
    var neighbours := Px(data, w, h, x, y - 1) + Px(data, w, h, x, y + 1)
                      + Px(data, w, h, x - 1, y) + Px(data, w, h, x + 1, y);
    Abs(Px(data, w, h, x, y) as real - neighbours as real / 4.0)
  }

  /** Local contrasts of row y over the interior columns 1 .. x-1. */
  function RowContrast(data: seq<int>, w: int, h: int, y: int, x: int): (r: real)
    requires IsGrid(data, w, h) && 1 <= y < h - 1
    requires 1 <= x <= Max(1, w - 1)
  {
    if x == 1 then 0.0 else RowContrast(data, w, h, y, x - 1) + LocalContrast(data, w, h, x - 1, y)
  }

  /** Local contrasts of the interior rows 1 .. y-1. */
  function ContrastAbove(data: seq<int>, w: int, h: int, y: int): (r: real)
    requires IsGrid(data, w, h)
    requires 1 <= y <= Max(1, h - 1)
  {
    if y == 1 then 0.0
    else ContrastAbove(data, w, h, y - 1) + RowContrast(data, w, h, y - 1, Max(1, w - 1))
  }

  /** Number of interior pixels visited. */
  function InteriorCount(w: int, h: int): (r: int)
  {
    (Max(1, h - 1) - 1) * Max(0, w - 2)
  }

  /** Reference definition of the texture metrics. */
  function TextureOf(data: seq<int>, w: int, h: int): (r: TextureStats)
    requires IsGrid(data, w, h)
  {
    var total := ContrastAbove(data, w, h, Max(1, h - 1));
    var count := InteriorCount(w, h);
    TextureStats(VarianceOf(data), if count > 0 then total / count as real else 0.0, MeanOf(data))
  }

  // ---------------------------------------------------------------- properties

  lemma {:induction false} SquaredDeviationsNonneg(data: seq<int>, mean: real, k: int)
    requires 0 <= k <= |data|
    ensures 0.0 <= SquaredDeviations(data, mean, k)
  {
    if k > 0 {
      SquaredDeviationsNonneg(data, mean, k - 1);
      SquareNonneg(data[k - 1] as real - mean);
    }
  }

  lemma {:induction false} LocalContrastBound(data: seq<int>, w: int, h: int, x: int, y: int)
    requires IsGrid(data, w, h) && IsPixels(data) && Interior(w, h, x, y)
    ensures 0.0 <= LocalContrast(data, w, h, x, y) <= 255.0
  {
    CellInRange(w, h, x, y);
    CellInRange(w, h, x, y - 1);
    CellInRange(w, h, x, y + 1);
    CellInRange(w, h, x - 1, y);
    CellInRange(w, h, x + 1, y);
  }

  lemma {:induction false} RowContrastBound(data: seq<int>, w: int, h: int, y: int, x: int)
    requires IsGrid(data, w, h) && IsPixels(data) && 1 <= y < h - 1
    requires 1 <= x <= Max(1, w - 1)
    ensures 0.0 <= RowContrast(data, w, h, y, x) <= 255.0 * (x - 1) as real
  {
    if x > 1 {
      RowContrastBound(data, w, h, y, x - 1);
      LocalContrastBound(data, w, h, x - 1, y);
    }
  }

  lemma {:induction false} ContrastAboveBound(data: seq<int>, w: int, h: int, y: int)
    requires IsGrid(data, w, h) && IsPixels(data)
    requires 1 <= y <= Max(1, h - 1)
    ensures 0.0 <= ContrastAbove(data, w, h, y) <= 255.0 * ((y - 1) * Max(0, w - 2)) as real
  {
    if y > 1 {
      ContrastAboveBound(data, w, h, y - 1);
      RowContrastBound(data, w, h, y - 1, Max(1, w - 1));
      MulSucc(y - 2, Max(0, w - 2));
    }
  }

  lemma MeanBounds(data: seq<int>)
    requires |data| > 0 && IsPixels(data)
    ensures 0.0 <= MeanOf(data) <= 255.0
  {
    SumBounds(data, 0, 255);
    var n := |data| as real;
    DivMono(0.0, Sum(data) as real, n);
    DivMono(Sum(data) as real, 255.0 * n, n);
    DivMul(255.0, n);
  }

  lemma VarianceNonneg(data: seq<int>)
    requires |data| > 0
    ensures 0.0 <= VarianceOf(data)
  {
    SquaredDeviationsNonneg(data, MeanOf(data), |data|);
    DivMono(0.0, SquaredDeviations(data, MeanOf(data), |data|), |data| as real);
  }

  lemma ContrastBounds(data: seq<int>, w: int, h: int)
    requires IsGrid(data, w, h) && IsPixels(data)
    ensures 0.0 <= TextureOf(data, w, h).contrast <= 255.0
  {
    var total := ContrastAbove(data, w, h, Max(1, h - 1));
    var count := InteriorCount(w, h);
    ContrastAboveBound(data, w, h, Max(1, h - 1));
    var c := count as real;
    if count > 0 {
      DivMono(0.0, total, c);
      DivMono(total, 255.0 * c, c);
      DivMul(255.0, c);
    }
  }

  /** The mean and the contrast are in [0, 255] and the variance is non-negative. */
  lemma TextureBounds(data: seq<int>, w: int, h: int)
    requires IsGrid(data, w, h) && IsPixels(data)
    ensures 0.0 <= TextureOf(data, w, h).mean <= 255.0
    ensures 0.0 <= TextureOf(data, w, h).variance
    ensures 0.0 <= TextureOf(data, w, h).contrast <= 255.0
  {
    MeanBounds(data);
    VarianceNonneg(data);
    ContrastBounds(data, w, h);
  }

  // ---------------------------------------------------------------- flat rasters

  lemma {:induction false} FlatDeviations(data: seq<int>, v: int, k: int)
    requires forall i :: 0 <= i < |data| ==> data[i] == v
    requires 0 <= k <= |data|
    ensures SquaredDeviations(data, v as real, k) == 0.0
  {
    if k > 0 {
      FlatDeviations(data, v, k - 1);
    }
  }

  lemma {:induction false} FlatRowContrast(data: seq<int>, w: int, h: int, v: int, y: int, x: int)
    requires IsGrid(data, w, h) && forall i :: 0 <= i < |data| ==> data[i] == v
    requires 1 <= y < h - 1 && 1 <= x <= Max(1, w - 1)
    ensures RowContrast(data, w, h, y, x) == 0.0
  {
    if x > 1 {
      FlatRowContrast(data, w, h, v, y, x - 1);
      CellInRange(w, h, x - 1, y);
      CellInRange(w, h, x - 1, y - 1);
      CellInRange(w, h, x - 1, y + 1);
      CellInRange(w, h, x - 2, y);
      CellInRange(w, h, x, y);
    }
  }

  lemma {:induction false} FlatContrastAbove(data: seq<int>, w: int, h: int, v: int, y: int)
    requires IsGrid(data, w, h) && forall i :: 0 <= i < |data| ==> data[i] == v
    requires 1 <= y <= Max(1, h - 1)
    ensures ContrastAbove(data, w, h, y) == 0.0
  {
    if y > 1 {
      FlatContrastAbove(data, w, h, v, y - 1);
      FlatRowContrast(data, w, h, v, y - 1, Max(1, w - 1));
    }
  }

  /** A flat raster (every sample v) has mean v and no texture: variance 0 and contrast 0. */
  lemma FlatRasterHasNoTexture(data: seq<int>, w: int, h: int, v: int)
    requires IsGrid(data, w, h)
    requires forall i :: 0 <= i < |data| ==> data[i] == v
    ensures TextureOf(data, w, h) == TextureStats(0.0, 0.0, v as real)
  {
    SumOfConstant(data, v);
    DivMul(v as real, |data| as real);
    assert MeanOf(data) == v as real;
    FlatDeviations(data, v, |data|);
    FlatContrastAbove(data, w, h, v, Max(1, h - 1));
  }

  // ---------------------------------------------------------------- the source's loops

  /** The mean and variance passes of `getTextureMetrics`. */
  method MeanAndVariance(data: seq<int>) returns (mean: real, variance: real)
    requires |data| > 0
    ensures mean == MeanOf(data) && variance == VarianceOf(data)
  {
    var sum := 0;
    var k := 0;
    while k < |data|
      invariant 0 <= k <= |data|
      invariant sum == Sum(data[..k])
    {
      SumPrefixStep(data, k);
      sum := sum + data[k];
      k := k + 1;
    }
    assert data[..|data|] == data;
    mean := sum as real / |data| as real;
    variance := 0.0;
    var i := 0;
    while i < |data|
      invariant 0 <= i <= |data|
      invariant variance == SquaredDeviations(data, mean, i)
    {
      variance := variance + Times(data[i] as real - mean, data[i] as real - mean);
      i := i + 1;
    }
    variance := variance / |data| as real;
  }

  /** The interior loops of `getTextureMetrics`: total local contrast and pixels visited. */
  method ContrastLoops(data: seq<int>, w: int, h: int) returns (contrast: real, contrastCount: int)
    requires IsGrid(data, w, h)
    ensures contrast == ContrastAbove(data, w, h, Max(1, h - 1))
    ensures contrastCount == InteriorCount(w, h)
  {
    contrast := 0.0;
    contrastCount := 0;
    var y := 1;
    while y < h - 1
      invariant 1 <= y <= Max(1, h - 1)
      invariant contrast == ContrastAbove(data, w, h, y)
      invariant contrastCount == (y - 1) * Max(0, w - 2)
    {
      var x := 1;
      while x < w - 1
        invariant 1 <= x <= Max(1, w - 1)
        invariant contrast == ContrastAbove(data, w, h, y) + RowContrast(data, w, h, y, x)
        invariant contrastCount == (y - 1) * Max(0, w - 2) + (x - 1)
      {
        var center := Px(data, w, h, x, y);
        var neighborSum := Px(data, w, h, x, y - 1) + Px(data, w, h, x, y + 1)
                           + Px(data, w, h, x - 1, y) + Px(data, w, h, x + 1, y);
        contrast := contrast + Abs(center as real - neighborSum as real / 4.0);
        contrastCount := contrastCount + 1;
        x := x + 1;
      }
      MulSucc(y - 1, Max(0, w - 2));
      y := y + 1;
    }
  }

  /** `getTextureMetrics`: mean and variance, then the contrast averaged over the interior. */
  method GetTextureMetrics(data: seq<int>, w: int, h: int) returns (stats: TextureStats)
    requires IsGrid(data, w, h)
    ensures stats == TextureOf(data, w, h)
  {
    var mean, variance := MeanAndVariance(data);
    var contrast, contrastCount := ContrastLoops(data, w, h);
    stats := TextureStats(variance, if contrastCount > 0 then contrast / contrastCount as real else 0.0, mean);
  }
}
