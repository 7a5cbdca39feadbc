/** `getBrightnessProfile` in services/imageRecognitionService.js: the mean sample of each
    quadrant of a greyscale raster, in the order top-left, top-right, bottom-left, bottom-right. */
module Brightness {
  import opened Sums
  import opened Grid

  /** `(y < height / 2 ? 0 : 2) + (x < width / 2 ? 0 : 1)`; `/` is real division in the source,
      so `y < height / 2` is `2 * y < height`. */
  function Quadrant(w: int, h: int, x: int, y: int): (q: int)
    ensures 0 <= q < 4
  {
    (if 2 * y < h then 0 else 2) + (if 2 * x < w then 0 else 1)
  }

  function Contribution(data: seq<int>, w: int, h: int, q: int, x: int, y: int): (r: int)
    requires IsGrid(data, w, h) && 0 <= x < w && 0 <= y < h
  {
    if Quadrant(w, h, x, y) == q then Px(data, w, h, x, y) else 0
  }

  function Membership(w: int, h: int, q: int, x: int, y: int): (r: int)
  {
    if Quadrant(w, h, x, y) == q then 1 else 0
  }

  /** Samples of quadrant q in columns 0 .. x-1 of row y. */
  function RowSum(data: seq<int>, w: int, h: int, q: int, y: int, x: int): (r: int)
    requires IsGrid(data, w, h) && 0 <= y < h && 0 <= x <= w
  {
    if x == 0 then 0 else RowSum(data, w, h, q, y, x - 1) + Contribution(data, w, h, q, x - 1, y)
  }

  function RowCount(w: int, h: int, q: int, y: int, x: int): (r: int)
    requires 0 <= x
  {
    if x == 0 then 0 else RowCount(w, h, q, y, x - 1) + Membership(w, h, q, x - 1, y)
  }

  /** Sum of the samples of quadrant q in rows 0 .. y-1. */
  function QuadSum(data: seq<int>, w: int, h: int, q: int, y: int): (r: int)
    requires IsGrid(data, w, h) && 0 <= y <= h
  {
    if y == 0 then 0 else QuadSum(data, w, h, q, y - 1) + RowSum(data, w, h, q, y - 1, w)
  }

  /** Number of pixels of quadrant q in rows 0 .. y-1. */
  function QuadCount(w: int, h: int, q: int, y: int): (r: int)
    requires 0 <= y && 0 <= w
  {
    if y == 0 then 0 else QuadCount(w, h, q, y - 1) + RowCount(w, h, q, y - 1, w)
  }

  function MeanOrZero(sum: int, count: int): (r: real)
  {
    if count > 0 then sum as real / count as real else 0.0
  }

  /** Reference definition: the four quadrant means, 0 for an empty quadrant. */
  function ProfileOf(data: seq<int>, w: int, h: int): (r: seq<real>)
    requires IsGrid(data, w, h)
    ensures |r| == 4
  {
    seq(4, q requires 0 <= q < 4 => MeanOrZero(QuadSum(data, w, h, q, h), QuadCount(w, h, q, h)))
  }

  // ---------------------------------------------------------------- properties

  /** Rows of the top half are rows y with 2y < h, i.e. the first ceil(h/2) rows. */
  function HalfRows(h: int, q: int, y: int): (r: int)
  {
    var top := (h + 1) / 2;
    if q < 2 then (if y < top then y else top) else (if y < top then 0 else y - top)
  }

  function HalfCols(w: int, q: int, x: int): (r: int)
  {
    var left := (w + 1) / 2;
    if q % 2 == 0 then (if x < left then x else left) else (if x < left then 0 else x - left)
  }

  lemma {:induction false} RowCountClosed(w: int, h: int, q: int, y: int, x: int)
    requires 0 <= q < 4 && 0 <= x <= w
    ensures RowCount(w, h, q, y, x)
            == if (q < 2) == (2 * y < h) then HalfCols(w, q, x) else 0
  {
    if x > 0 {
      RowCountClosed(w, h, q, y, x - 1);
    }
  }

  lemma {:induction false} QuadCountClosed(w: int, h: int, q: int, y: int)
    requires 0 <= q < 4 && 0 <= w && 0 <= y <= h
    ensures QuadCount(w, h, q, y) == HalfRows(h, q, y) * HalfCols(w, q, w)
  {
    if y > 0 {
      QuadCountClosed(w, h, q, y - 1);
      RowCountClosed(w, h, q, y - 1, w);
      MulSucc(HalfRows(h, q, y - 1), HalfCols(w, q, w));
    }
  }

  lemma HalvesSplit(w: int, h: int)
    requires 1 <= w && 1 <= h
    ensures HalfRows(h, 0, h) == HalfRows(h, 1, h) == (h + 1) / 2
    ensures HalfRows(h, 2, h) == HalfRows(h, 3, h) == h / 2
    ensures HalfCols(w, 0, w) == HalfCols(w, 2, w) == (w + 1) / 2
    ensures HalfCols(w, 1, w) == HalfCols(w, 3, w) == w / 2
    ensures (h + 1) / 2 + h / 2 == h && (w + 1) / 2 + w / 2 == w
  {
  }

  /** Four products of the halves of h and w add up to w*h. */
  lemma FourQuadrantsCover(c0: int, c1: int, c2: int, c3: int, w: int, h: int)
    requires 1 <= w && 1 <= h
    requires c0 == ((h + 1) / 2) * ((w + 1) / 2) && c1 == ((h + 1) / 2) * (w / 2)
    requires c2 == (h / 2) * ((w + 1) / 2) && c3 == (h / 2) * (w / 2)
    ensures c0 + c1 + c2 + c3 == w * h
  {
    var t, b, l, r := (h + 1) / 2, h / 2, (w + 1) / 2, w / 2;
    assert t + b == h && l + r == w;
    assert t * l + t * r + b * l + b * r == (t + b) * (l + r);
  }

  /** The quadrants split the raster: the top quadrants hold ceil(h/2) rows, the left ones
      ceil(w/2) columns, and the four pixel counts add up to w*h (625 each for 50x50). */
  lemma QuadrantCounts(w: int, h: int)
    requires 1 <= w && 1 <= h
    ensures QuadCount(w, h, 0, h) == ((h + 1) / 2) * ((w + 1) / 2)
    ensures QuadCount(w, h, 1, h) == ((h + 1) / 2) * (w / 2)
    ensures QuadCount(w, h, 2, h) == (h / 2) * ((w + 1) / 2)
    ensures QuadCount(w, h, 3, h) == (h / 2) * (w / 2)
    ensures QuadCount(w, h, 0, h) + QuadCount(w, h, 1, h) + QuadCount(w, h, 2, h)
            + QuadCount(w, h, 3, h) == w * h
  {
    QuadCountClosed(w, h, 0, h);
    QuadCountClosed(w, h, 1, h);
    QuadCountClosed(w, h, 2, h);
    QuadCountClosed(w, h, 3, h);
    HalvesSplit(w, h);
    FourQuadrantsCover(QuadCount(w, h, 0, h), QuadCount(w, h, 1, h), QuadCount(w, h, 2, h),
                       QuadCount(w, h, 3, h), w, h);
  }

  lemma {:induction false} RowSumBounds(data: seq<int>, w: int, h: int, q: int, y: int, x: int)
    requires IsGrid(data, w, h) && IsPixels(data) && 0 <= y < h && 0 <= x <= w
    ensures 0 <= RowSum(data, w, h, q, y, x) <= 255 * RowCount(w, h, q, y, x)
  {
    if x > 0 {
      RowSumBounds(data, w, h, q, y, x - 1);
      CellInRange(w, h, x - 1, y);
    }
  }

  lemma {:induction false} QuadSumBounds(data: seq<int>, w: int, h: int, q: int, y: int)
    requires IsGrid(data, w, h) && IsPixels(data) && 0 <= y <= h
    ensures 0 <= QuadSum(data, w, h, q, y) <= 255 * QuadCount(w, h, q, y)
  {
    if y > 0 {
      QuadSumBounds(data, w, h, q, y - 1);
      RowSumBounds(data, w, h, q, y - 1, w);
    }
  }

  /** Each entry of the profile is a mean of samples, hence in [0, 255]. */
  lemma ProfileBounds(data: seq<int>, w: int, h: int)
    requires IsGrid(data, w, h) && IsPixels(data)
    ensures forall q :: 0 <= q < 4 ==> 0.0 <= ProfileOf(data, w, h)[q] <= 255.0
  {
    forall q | 0 <= q < 4
      ensures 0.0 <= ProfileOf(data, w, h)[q] <= 255.0
    {
      var s, c := QuadSum(data, w, h, q, h), QuadCount(w, h, q, h);
      QuadSumBounds(data, w, h, q, h);
      if c > 0 {
        DivMono(0.0, s as real, c as real);
        DivMono(s as real, 255.0 * c as real, c as real);
        DivMul(255.0, c as real);
      }
    }
  }

  lemma ProductPositive(a: int, b: int)
    requires 1 <= a && 1 <= b
    ensures 1 <= a * b
  {
    assert a * b == a * (b - 1) + a;
  }

  lemma Distribute(v: int, a: int, b: int)
    ensures v * a + v * b == v * (a + b)
  {
  }

  /** A sum of c samples all equal to v has mean v. */
  lemma MeanOfFlat(s: int, c: int, v: int)
    requires 0 < c && s == v * c
    ensures MeanOrZero(s, c) == v as real
  {
    assert s as real == v as real * c as real;
  }

  lemma {:induction false} FlatRowSum(data: seq<int>, w: int, h: int, v: int, q: int, y: int, x: int)
    requires IsGrid(data, w, h) && forall i :: 0 <= i < |data| ==> data[i] == v
    requires 0 <= y < h && 0 <= x <= w
    ensures RowSum(data, w, h, q, y, x) == v * RowCount(w, h, q, y, x)
  {
    if x > 0 {
      FlatRowSum(data, w, h, v, q, y, x - 1);
      CellInRange(w, h, x - 1, y);
      var m := Membership(w, h, q, x - 1, y);
      assert Contribution(data, w, h, q, x - 1, y) == v * m;
      Distribute(v, RowCount(w, h, q, y, x - 1), m);
    }
  }

  lemma {:induction false} FlatQuadSum(data: seq<int>, w: int, h: int, v: int, q: int, y: int)
    requires IsGrid(data, w, h) && forall i :: 0 <= i < |data| ==> data[i] == v
    requires 0 <= y <= h
    ensures QuadSum(data, w, h, q, y) == v * QuadCount(w, h, q, y)
  {
    if y > 0 {
      FlatQuadSum(data, w, h, v, q, y - 1);
      FlatRowSum(data, w, h, v, q, y - 1, w);
      Distribute(v, QuadCount(w, h, q, y - 1), RowCount(w, h, q, y - 1, w));
    }
  }

  /** Entry q of the profile of a raster of one grey level v: v when the quadrant is non-empty,
      0 otherwise. */
  lemma FlatQuadrant(data: seq<int>, w: int, h: int, v: int, q: int)
    requires IsGrid(data, w, h) && forall i :: 0 <= i < |data| ==> data[i] == v
    requires 0 <= q < 4
    ensures ProfileOf(data, w, h)[q] == if QuadCount(w, h, q, h) > 0 then v as real else 0.0
  {
    FlatQuadSum(data, w, h, v, q, h);
    if QuadCount(w, h, q, h) > 0 {
      MeanOfFlat(QuadSum(data, w, h, q, h), QuadCount(w, h, q, h), v);
    }
  }

  /** A raster of one grey level v has profile [v, v, v, v] once it is at least 2x2; a smaller
      raster leaves the quadrants it does not reach at 0. */
  lemma FlatBrightnessProfile(data: seq<int>, w: int, h: int, v: int)
    requires IsGrid(data, w, h) && forall i :: 0 <= i < |data| ==> data[i] == v
    ensures ProfileOf(data, w, h)[0] == v as real
    ensures 2 <= w && 2 <= h ==> ProfileOf(data, w, h) == [v as real, v as real, v as real, v as real]
    ensures w == 1 ==> ProfileOf(data, w, h)[1] == 0.0 && ProfileOf(data, w, h)[3] == 0.0
    ensures h == 1 ==> ProfileOf(data, w, h)[2] == 0.0 && ProfileOf(data, w, h)[3] == 0.0
  {
    QuadrantCounts(w, h);
    FlatQuadrant(data, w, h, v, 0);
    FlatQuadrant(data, w, h, v, 1);
    FlatQuadrant(data, w, h, v, 2);
    FlatQuadrant(data, w, h, v, 3);
    ProductPositive((h + 1) / 2, (w + 1) / 2);
    if 2 <= w && 2 <= h {
      ProductPositive((h + 1) / 2, w / 2);
      ProductPositive(h / 2, (w + 1) / 2);
      ProductPositive(h / 2, w / 2);
    }
  }

  // ---------------------------------------------------------------- the source's loops

  /** `getBrightnessProfile`: one pass over the raster accumulating per-quadrant sums and counts. */
  method GetBrightnessProfile(data: seq<int>, w: int, h: int) returns (profile: seq<real>)
    requires IsGrid(data, w, h)
    ensures profile == ProfileOf(data, w, h)
  {
    var quadrants := [0, 0, 0, 0];
    var counts := [0, 0, 0, 0];
    var y := 0;
    while y < h
      invariant 0 <= y <= h && |quadrants| == 4 && |counts| == 4
      invariant forall q :: 0 <= q < 4 ==> quadrants[q] == QuadSum(data, w, h, q, y)
      invariant forall q :: 0 <= q < 4 ==> counts[q] == QuadCount(w, h, q, y)
    {
      var x := 0;
      while x < w
        invariant 0 <= x <= w && |quadrants| == 4 && |counts| == 4
        invariant forall q :: 0 <= q < 4 ==>
                    quadrants[q] == QuadSum(data, w, h, q, y) + RowSum(data, w, h, q, y, x)
        invariant forall q :: 0 <= q < 4 ==>
                    counts[q] == QuadCount(w, h, q, y) + RowCount(w, h, q, y, x)
      {
        var brightness := Px(data, w, h, x, y);
        var quadrant := (if 2 * y < h then 0 else 2) + (if 2 * x < w then 0 else 1);
        quadrants := quadrants[quadrant := quadrants[quadrant] + brightness];
        counts := counts[quadrant := counts[quadrant] + 1];
        x := x + 1;
      }
      y := y + 1;
    }
    profile := seq(4, i requires 0 <= i < 4 => if counts[i] > 0 then quadrants[i] as real / counts[i] as real else 0.0);
  }
}
