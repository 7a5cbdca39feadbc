/** `getEdgeDensity` in services/imageRecognitionService.js: a 3x3 Sobel operator on every
    interior pixel of a greyscale raster, counting pixels whose gradient magnitude exceeds 30. */
module EdgeDensity {
  import opened Sums
  import opened Grid

  /** `totalEdges` is an integer as extracted; averaging signatures makes it fractional. */
  datatype EdgeStats = EdgeStats(density: real, totalEdges: real)

  const Threshold: int := 30

  function SobelX(data: seq<int>, w: int, h: int, x: int, y: int): (r: int)
    requires IsGrid(data, w, h) && Interior(w, h, x, y)
  {
    - Px(data, w, h, x - 1, y - 1) + Px(data, w, h, x + 1, y - 1)
    - 2 * Px(data, w, h, x - 1, y) + 2 * Px(data, w, h, x + 1, y)
    - Px(data, w, h, x - 1, y + 1) + Px(data, w, h, x + 1, y + 1)
  }

  function SobelY(data: seq<int>, w: int, h: int, x: int, y: int): (r: int)
    requires IsGrid(data, w, h) && Interior(w, h, x, y)
  {
    - Px(data, w, h, x - 1, y - 1) - 2 * Px(data, w, h, x, y - 1) - Px(data, w, h, x + 1, y - 1)
    + Px(data, w, h, x - 1, y + 1) + 2 * Px(data, w, h, x, y + 1) + Px(data, w, h, x + 1, y + 1)
  }

  /** `Math.sqrt(sobelX^2 + sobelY^2) > threshold`, stated on the squares (see EdgeTestIsMagnitude). */
  predicate IsEdge(data: seq<int>, w: int, h: int, x: int, y: int)
    requires IsGrid(data, w, h) && Interior(w, h, x, y)
  {
    var sx := SobelX(data, w, h, x, y);
    var sy := SobelY(data, w, h, x, y);
    sx * sx + sy * sy > Threshold * Threshold
  }

  /** Edges of row y among the interior columns 1 .. x-1. */
  function EdgesInRow(data: seq<int>, w: int, h: int, y: int, x: int): (r: nat)
    requires IsGrid(data, w, h) && 1 <= y < h - 1
    requires 1 <= x <= Max(1, w - 1)
  {
    if x == 1 then 0
    else EdgesInRow(data, w, h, y, x - 1) + (if IsEdge(data, w, h, x - 1, y) then 1 else 0)
  }

  /** Edges of the interior rows 1 .. y-1. */
  function EdgesAbove(data: seq<int>, w: int, h: int, y: int): (r: nat)
    requires IsGrid(data, w, h)
    requires 1 <= y <= Max(1, h - 1)
  {
    if y == 1 then 0
    else EdgesAbove(data, w, h, y - 1) + EdgesInRow(data, w, h, y - 1, Max(1, w - 1))
  }

  /** Reference definition: the number of interior pixels that are edges. */
  function EdgeCount(data: seq<int>, w: int, h: int): (r: nat)
    requires IsGrid(data, w, h)
  {
    EdgesAbove(data, w, h, Max(1, h - 1))
  }

  /** The density divides by all w*h pixels, not by the (w-2)*(h-2) interior pixels examined. */
  function EdgeStatsOf(data: seq<int>, w: int, h: int): (r: EdgeStats)
    requires IsGrid(data, w, h)
  {
    var count := EdgeCount(data, w, h);
    EdgeStats(count as real / (w * h) as real, count as real)
  }

  // ---------------------------------------------------------------- properties

  /** With a faithful square root, the squared test is the source's magnitude test. */
  lemma EdgeTestIsMagnitude(sqrt: real -> real, data: seq<int>, w: int, h: int, x: int, y: int)
    requires IsSqrt(sqrt)
    requires IsGrid(data, w, h) && Interior(w, h, x, y)
    ensures var sx := SobelX(data, w, h, x, y);
            var sy := SobelY(data, w, h, x, y);
            IsEdge(data, w, h, x, y) <==> sqrt((sx * sx + sy * sy) as real) > Threshold as real
  {
    var sx := SobelX(data, w, h, x, y);
    var sy := SobelY(data, w, h, x, y);
    assert 0 <= sx * sx + sy * sy;
    SqrtGreater(sqrt, (sx * sx + sy * sy) as real, Threshold as real);
  }

  lemma {:induction false} EdgesInRowBound(data: seq<int>, w: int, h: int, y: int, x: int)
    requires IsGrid(data, w, h) && 1 <= y < h - 1
    requires 1 <= x <= Max(1, w - 1)
    ensures EdgesInRow(data, w, h, y, x) <= x - 1
  {
    if x > 1 {
      EdgesInRowBound(data, w, h, y, x - 1);
    }
  }

  lemma {:induction false} EdgesAboveBound(data: seq<int>, w: int, h: int, y: int)
    requires IsGrid(data, w, h)
    requires 1 <= y <= Max(1, h - 1)
    ensures EdgesAbove(data, w, h, y) <= (y - 1) * Max(0, w - 2)
  {
    if y > 1 {
      EdgesAboveBound(data, w, h, y - 1);
      EdgesInRowBound(data, w, h, y - 1, Max(1, w - 1));
      MulSucc(y - 2, Max(0, w - 2));
    }
  }

  /** A count of at most (h-2) rows of (w-2) cells stays below the raster's area. */
  lemma InteriorBelowArea(c: int, w: int, h: int)
    requires 1 <= w && 1 <= h
    requires 0 <= c <= (Max(1, h - 1) - 1) * Max(0, w - 2)
    ensures c <= Max(0, w - 2) * Max(0, h - 2) < w * h
  {
    assert Max(1, h - 1) - 1 == Max(0, h - 2);
    MulLess(Max(0, w - 2), Max(0, h - 2), w, h);
  }

  /** Only interior pixels are examined: at most (w-2)*(h-2) edges. */
  lemma EdgeCountBound(data: seq<int>, w: int, h: int)
    requires IsGrid(data, w, h)
    ensures 0 <= EdgeCount(data, w, h) <= Max(0, w - 2) * Max(0, h - 2) < w * h
  {
    EdgesAboveBound(data, w, h, Max(1, h - 1));
    InteriorBelowArea(EdgeCount(data, w, h), w, h);
  }

  /** Only interior pixels are examined, so 0 <= totalEdges <= (w-2)*(h-2), and the density,
      which divides by all w*h pixels, lies in [0, 1). */
  lemma EdgeStatsBounds(data: seq<int>, w: int, h: int)
    requires IsGrid(data, w, h)
    ensures EdgeCount(data, w, h) <= Max(0, w - 2) * Max(0, h - 2)
    ensures 0.0 <= EdgeStatsOf(data, w, h).density < 1.0
    ensures EdgeStatsOf(data, w, h).totalEdges == EdgeCount(data, w, h) as real
  {
    var count := EdgeCount(data, w, h);
    EdgeCountBound(data, w, h);
    FractionBelowOne(count as real, (w * h) as real);
  }

  // ---------------------------------------------------------------- the source's loops

  /** `getEdgeDensity`: the two loops over interior rows and columns. */
  method GetEdgeDensity(data: seq<int>, w: int, h: int) returns (stats: EdgeStats)
    requires IsGrid(data, w, h)
    ensures stats == EdgeStatsOf(data, w, h)
  {
    var edgeCount := 0;
    var y := 1;
    while y < h - 1
      invariant 1 <= y <= Max(1, h - 1)
      invariant edgeCount == EdgesAbove(data, w, h, y)
    {
      var x := 1;
      while x < w - 1
        invariant 1 <= x <= Max(1, w - 1)
        invariant edgeCount == EdgesAbove(data, w, h, y) + EdgesInRow(data, w, h, y, x)
      {
        var sobelX := SobelX(data, w, h, x, y);
        var sobelY := SobelY(data, w, h, x, y);
        if sobelX * sobelX + sobelY * sobelY > Threshold * Threshold {
          edgeCount := edgeCount + 1;
        }
        x := x + 1;
      }
      y := y + 1;
    }
    stats := EdgeStats(edgeCount as real / (w * h) as real, edgeCount as real);
  }
}
