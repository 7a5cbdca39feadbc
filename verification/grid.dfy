/** Raw single-channel pixel buffers as the image library hands them over: row-major samples
    of a width x height raster, one byte per sample. */
module Grid {

  predicate IsPixel(v: int)
  {
    0 <= v <= 255
  }

  predicate IsPixels(data: seq<int>)
  {
    forall i :: 0 <= i < |data| ==> IsPixel(data[i])
  }

  /** `data` holds exactly one sample per cell of a non-empty width x height raster. */
  predicate IsGrid(data: seq<int>, w: int, h: int)
  {
    1 <= w && 1 <= h && |data| == w * h
  }

  /** Row-major addressing stays inside the buffer. */
  lemma CellInRange(w: int, h: int, x: int, y: int)
    requires 0 <= x < w && 0 <= y < h
    ensures 0 <= y * w + x < w * h
  {
    assert y * w <= (h - 1) * w by {
      assert (h - 1) * w - y * w == (h - 1 - y) * w;
    }
  }

  /** The sample at column x, row y (`data[y * width + x]` in the source). */
  function Px(data: seq<int>, w: int, h: int, x: int, y: int): (r: int)
    requires IsGrid(data, w, h)
    requires 0 <= x < w && 0 <= y < h
  {
    CellInRange(w, h, x, y);
    data[y * w + x]
  }

  function Max(a: int, b: int): (r: int)
  {
    if a < b then b else a
  }

  /** Pixels with all eight neighbours inside the raster: the ones the Sobel and contrast
      loops visit (`1 <= y < height - 1`, `1 <= x < width - 1`). */
  predicate Interior(w: int, h: int, x: int, y: int)
  {
    1 <= x < w - 1 && 1 <= y < h - 1
  }
}
