/** `getColorHistogram` in services/imageRecognitionService.js: 32 equal-width bins per RGB
    channel over a raw interleaved RGB raster, each normalised by the pixel count, plus a
    "combined" histogram of the per-bin channel sums normalised by the same count. */
module ColorHistogram {
  import opened Sums
  import opened Grid

  datatype Histogram = Histogram(red: seq<real>, green: seq<real>, blue: seq<real>,
                                 combined: seq<real>)

  const Bins: int := 32
  /** `256 / bins`, exactly 8. */
  const BinSize: int := 256 / Bins

  /** `Math.min(bins - 1, Math.floor(v / binSize))`; Dafny's `/` floors for a positive divisor. */
  function BinOf(v: int): (b: int)
    requires 0 <= v
    ensures 0 <= b < Bins
    ensures IsPixel(v) ==> b * BinSize <= v < (b + 1) * BinSize
  {
    if Bins - 1 < v / BinSize then Bins - 1 else v / BinSize
  }

  /** An interleaved RGB buffer of width x height pixels, samples in 0..255. */
  predicate IsRgb(data: seq<int>, w: int, h: int)
  {
    1 <= w && 1 <= h && |data| == 3 * (w * h) && IsPixels(data)
  }

  function EmptyCounts(): (r: seq<int>)
    ensures |r| == Bins
  {
    seq(Bins, _ => 0)
  }

  /** Bin counts of channel c (0 red, 1 green, 2 blue) over the first n pixels. */
  function Counts(data: seq<int>, c: int, n: int): (r: seq<int>)
    requires IsPixels(data) && 0 <= c < 3
    requires 0 <= n && 3 * n <= |data|
    ensures |r| == Bins
  {
    if n == 0 then EmptyCounts()
    else
      var prev := Counts(data, c, n - 1);
      var b := BinOf(data[3 * (n - 1) + c]);
      prev[b := prev[b] + 1]
  }

  /** Each count divided by the total pixel count. */
  function Normalize(counts: seq<int>, total: int): (r: seq<real>)
    requires total > 0
    ensures |r| == |counts|
  {
    seq(|counts|, i requires 0 <= i < |counts| => counts[i] as real / total as real)
  }

  /** Per-bin sum of the three channel counts. */
  function AddCounts(r: seq<int>, g: seq<int>, b: seq<int>): (s: seq<int>)
    requires |r| == |g| == |b|
    ensures |s| == |r|
  {
    seq(|r|, i requires 0 <= i < |r| => r[i] + g[i] + b[i])
  }

  /** Reference definition of the histogram of a w x h RGB raster. */
  function HistogramOf(data: seq<int>, w: int, h: int): (r: Histogram)
    requires IsRgb(data, w, h)
  {
    var n := w * h;
    var r := Counts(data, 0, n);
    var g := Counts(data, 1, n);
    var b := Counts(data, 2, n);
    Histogram(Normalize(r, n), Normalize(g, n), Normalize(b, n), Normalize(AddCounts(r, g, b), n))
  }

  // ---------------------------------------------------------------- properties

  lemma {:induction false} IncrementSum(s: seq<int>, b: int)
    requires 0 <= b < |s|
    ensures Sum(s[b := s[b] + 1]) == Sum(s) + 1
  {
    var t := s[b := s[b] + 1];
    if b == |s| - 1 {
      assert t[..|t| - 1] == s[..|s| - 1];
    } else {
      IncrementSum(s[..|s| - 1], b);
      assert t[..|t| - 1] == s[..|s| - 1][b := s[b] + 1];
    }
  }

  lemma {:induction false} EmptyCountsSum(k: nat)
    requires k <= Bins
    ensures Sum(EmptyCounts()[..k]) == 0
  {
    if k > 0 {
      EmptyCountsSum(k - 1);
      assert EmptyCounts()[..k][..k - 1] == EmptyCounts()[..k - 1];
    }
  }

  /** Every pixel lands in exactly one bin: the counts of a channel are non-negative and sum to
      the number of pixels seen. */
  lemma {:induction false} CountsTotal(data: seq<int>, c: int, n: int)
    requires IsPixels(data) && 0 <= c < 3
    requires 0 <= n && 3 * n <= |data|
    ensures Sum(Counts(data, c, n)) == n
    ensures forall i :: 0 <= i < Bins ==> 0 <= Counts(data, c, n)[i] <= n
  {
    if n == 0 {
      EmptyCountsSum(Bins);
      assert EmptyCounts()[..Bins] == EmptyCounts();
    } else {
      CountsTotal(data, c, n - 1);
      IncrementSum(Counts(data, c, n - 1), BinOf(data[3 * (n - 1) + c]));
    }
  }

  lemma {:induction false} NormalizeSum(counts: seq<int>, total: int)
    requires total > 0
    ensures RealSum(Normalize(counts, total)) == Sum(counts) as real / total as real
  {
    if |counts| > 0 {
      var k := |counts| - 1;
      NormalizeSum(counts[..k], total);
      assert Normalize(counts, total)[..k] == Normalize(counts[..k], total);
      assert Sum(counts) as real / total as real
          == Sum(counts[..k]) as real / total as real + counts[k] as real / total as real;
    }
  }

  lemma {:induction false} AddCountsSum(r: seq<int>, g: seq<int>, b: seq<int>)
    requires |r| == |g| == |b|
    ensures Sum(AddCounts(r, g, b)) == Sum(r) + Sum(g) + Sum(b)
  {
    if |r| > 0 {
      var k := |r| - 1;
      AddCountsSum(r[..k], g[..k], b[..k]);
      assert AddCounts(r, g, b)[..k] == AddCounts(r[..k], g[..k], b[..k]);
    }
  }

  /** Counts that total n, normalised by n, form a distribution: entries in [0, 1] summing to 1. */
  lemma NormalizedDistribution(counts: seq<int>, n: int)
    requires n > 0 && Sum(counts) == n
    requires forall i :: 0 <= i < |counts| ==> 0 <= counts[i] <= n
    ensures RealSum(Normalize(counts, n)) == 1.0
    ensures forall i :: 0 <= i < |counts| ==> 0.0 <= Normalize(counts, n)[i] <= 1.0
  {
    NormalizeSum(counts, n);
    DivSelf(n as real);
    forall i | 0 <= i < |counts|
      ensures 0.0 <= Normalize(counts, n)[i] <= 1.0
    {
      DivMono(counts[i] as real, n as real, n as real);
      DivMono(0.0, counts[i] as real, n as real);
    }
  }

  /** Bin i of the normalised combined counts is the sum of bin i of the normalised channels. */
  lemma CombinedIsChannelSum(r: seq<int>, g: seq<int>, b: seq<int>, n: int)
    requires n > 0 && |r| == |g| == |b|
    ensures forall i :: 0 <= i < |r| ==>
              Normalize(AddCounts(r, g, b), n)[i]
              == Normalize(r, n)[i] + Normalize(g, n)[i] + Normalize(b, n)[i]
  {
    forall i | 0 <= i < |r|
      ensures Normalize(AddCounts(r, g, b), n)[i]
              == Normalize(r, n)[i] + Normalize(g, n)[i] + Normalize(b, n)[i]
    {
      assert (r[i] + g[i] + b[i]) as real / n as real
          == r[i] as real / n as real + g[i] as real / n as real + b[i] as real / n as real;
    }
  }

  /** 32 bins, each in [0, 1], summing to 1. */
  predicate IsDistribution(v: seq<real>)
  {
    |v| == Bins && RealSum(v) == 1.0 && forall i :: 0 <= i < |v| ==> 0.0 <= v[i] <= 1.0
  }

  /** The normalised combined counts of three channels totalling n each sum to 3. */
  lemma CombinedSumsToThree(r: seq<int>, g: seq<int>, b: seq<int>, n: int)
    requires n > 0 && |r| == |g| == |b|
    requires Sum(r) == n && Sum(g) == n && Sum(b) == n
    ensures RealSum(Normalize(AddCounts(r, g, b), n)) == 3.0
  {
    var total := AddCounts(r, g, b);
    AddCountsSum(r, g, b);
    NormalizeSum(total, n);
    ThreeOverOne(Sum(total), n);
  }

  lemma ThreeOverOne(s: int, n: int)
    requires n > 0 && s == 3 * n
    ensures s as real / n as real == 3.0
  {
    assert s as real == 3.0 * n as real;
    DivMul(3.0, n as real);
  }

  lemma ShapeFromCounts(r: seq<int>, g: seq<int>, b: seq<int>, n: int)
    requires n > 0 && |r| == |g| == |b| == Bins
    requires Sum(r) == n && Sum(g) == n && Sum(b) == n
    requires forall i :: 0 <= i < Bins ==> 0 <= r[i] <= n && 0 <= g[i] <= n && 0 <= b[i] <= n
    ensures IsDistribution(Normalize(r, n))
    ensures IsDistribution(Normalize(g, n))
    ensures IsDistribution(Normalize(b, n))
    ensures |Normalize(AddCounts(r, g, b), n)| == Bins
    ensures RealSum(Normalize(AddCounts(r, g, b), n)) == 3.0
    ensures forall i :: 0 <= i < Bins ==>
              Normalize(AddCounts(r, g, b), n)[i]
              == Normalize(r, n)[i] + Normalize(g, n)[i] + Normalize(b, n)[i]
  {
    NormalizedDistribution(r, n);
    NormalizedDistribution(g, n);
    NormalizedDistribution(b, n);
    CombinedSumsToThree(r, g, b, n);
    CombinedIsChannelSum(r, g, b, n);
  }

  /** Every channel is a distribution over 32 bins; bin i of the combined histogram is the sum
      of bin i of the three channels, so the combined histogram sums to 3, not 1. */
  lemma HistogramShape(data: seq<int>, w: int, h: int)
    requires IsRgb(data, w, h)
    ensures IsDistribution(HistogramOf(data, w, h).red)
    ensures IsDistribution(HistogramOf(data, w, h).green)
    ensures IsDistribution(HistogramOf(data, w, h).blue)
    ensures |HistogramOf(data, w, h).combined| == Bins
    ensures RealSum(HistogramOf(data, w, h).combined) == 3.0
    ensures forall i :: 0 <= i < Bins ==>
              HistogramOf(data, w, h).combined[i]
              == HistogramOf(data, w, h).red[i] + HistogramOf(data, w, h).green[i]
                 + HistogramOf(data, w, h).blue[i]
  {
    var n := w * h;
    CountsTotal(data, 0, n);
    CountsTotal(data, 1, n);
    CountsTotal(data, 2, n);
    ShapeFromCounts(Counts(data, 0, n), Counts(data, 1, n), Counts(data, 2, n), n);
  }

  // ---------------------------------------------------------------- the source's loop

  /** `getColorHistogram`: step through the buffer three samples at a time, bump one bin per
      channel, then normalise. */
  method GetColorHistogram(data: seq<int>, w: int, h: int) returns (hist: Histogram)
    requires IsRgb(data, w, h)
    ensures hist == HistogramOf(data, w, h)
  {
    var rHist := EmptyCounts();
    var gHist := EmptyCounts();
    var bHist := EmptyCounts();
    var totalPixels := w * h;
    var i := 0;
    ghost var pixel := 0;
    while i < |data|
      invariant 0 <= pixel <= totalPixels && i == 3 * pixel
      invariant rHist == Counts(data, 0, pixel)
      invariant gHist == Counts(data, 1, pixel)
      invariant bHist == Counts(data, 2, pixel)
    {
      var r := BinOf(data[i]);
      var g := BinOf(data[i + 1]);
      var b := BinOf(data[i + 2]);
      rHist := rHist[r := rHist[r] + 1];
      gHist := gHist[g := gHist[g] + 1];
      bHist := bHist[b := bHist[b] + 1];
      i := i + 3;
      pixel := pixel + 1;
    }
    assert pixel == totalPixels;
    hist := Histogram(Normalize(rHist, totalPixels), Normalize(gHist, totalPixels),
                      Normalize(bHist, totalPixels),
                      Normalize(AddCounts(rHist, gHist, bHist), totalPixels));
  }
}
