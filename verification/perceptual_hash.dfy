/** The three perceptual hashes of a signature (`generateSimpleHash`, `getDCTHash` and
    `getEnhancedHash` in services/imageRecognitionService.js). A hash is a string of '0' and
    '1', one character per sample or block, '1' meaning "brighter than the average". */
module PerceptualHash {
  import opened Wrappers
  import opened Sums
  import opened Grid

  /** The three hashes one signature carries. */
  datatype Hashes = Hashes(simpleHash: string, enhancedHash: string, dctHash: string)

  function BitChar(b: bool): (r: char)
  {
    if b then '1' else '0'
  }

  function Zeros(n: nat): (r: string)
    ensures |r| == n && forall i :: 0 <= i < n ==> r[i] == '0'
  {
    if n == 0 then "" else Zeros(n - 1) + "0"
  }

  // ---------------------------------------------------------------- simple hash

  /** The mean the source compares against: `sum / data.length`. */
  function Mean(data: seq<int>): (r: real)
    requires |data| > 0
  {
    Sum(data) as real / |data| as real
  }

  /** Sample i exceeds the mean, stated without division: `data[i] > sum / n` iff
      `data[i] * n > sum` for n > 0. */
  predicate AboveMean(data: seq<int>, i: int)
    requires 0 <= i < |data|
  {
    data[i] * |data| > Sum(data)
  }

  /** Reference definition of the simple hash: one bit per sample, row-major. */
  function SimpleHashOf(data: seq<int>): (r: string)
  {
    seq(|data|, i requires 0 <= i < |data| => BitChar(AboveMean(data, i)))
  }

  /** The integer comparison is the source's real-valued comparison with the mean. */
  lemma AboveMeanIsAboveAverage(data: seq<int>, i: int)
    requires 0 <= i < |data|
    ensures AboveMean(data, i) <==> data[i] as real > Mean(data)
  {
    var n := |data| as real;
    var x := data[i] as real;
    var s := Sum(data) as real;
    assert (data[i] * |data|) as real == x * n;
    assert x > s / n <==> x * n > s;
  }

  /** The simple hash has one character per sample, and character i is '1' exactly when
      sample i is strictly brighter than the mean of all samples. */
  lemma SimpleHashBits(data: seq<int>)
    ensures |SimpleHashOf(data)| == |data|
    ensures forall i :: 0 <= i < |data| ==>
              (SimpleHashOf(data)[i] == '1' <==> data[i] as real > Mean(data))
    ensures forall i :: 0 <= i < |data| ==> SimpleHashOf(data)[i] in {'0', '1'}
  {
    forall i | 0 <= i < |data|
      ensures SimpleHashOf(data)[i] == '1' <==> data[i] as real > Mean(data)
    {
      AboveMeanIsAboveAverage(data, i);
    }
  }

  /** A sample at or below the mean everywhere (e.g. a flat image) yields an all-zero hash. */
  lemma {:induction false} FlatImageHashIsZero(data: seq<int>, v: int)
    requires forall i :: 0 <= i < |data| ==> data[i] == v
    ensures SimpleHashOf(data) == Zeros(|data|)
  {
    SumOfConstant(data, v);
  }

  /** `generateSimpleHash`: sum the samples, then emit one bit per sample. */
  method GenerateSimpleHash(data: seq<int>) returns (hash: string)
    ensures hash == SimpleHashOf(data)
  {
    var sum := 0;
    var k := 0;
    while k < |data|
      invariant 0 <= k <= |data|
      invariant sum == Sum(data[..k])
    {
      SumPrefixStep(data, k);
      sum := sum + data[k];
      k := k + 1;
    }
    assert data[..|data|] == data;
    hash := "";
    var i := 0;
    while i < |data|
      invariant 0 <= i <= |data|
      invariant |hash| == i
      invariant forall j :: 0 <= j < i ==> hash[j] == BitChar(AboveMean(data, j))
    {
      hash := hash + [BitChar(data[i] * |data| > sum)];
      i := i + 1;
    }
  }

  // ---------------------------------------------------------------- DCT-approximation hash

  const Side: int := 32
  const BlockSize: int := 4
  const BlocksPerRow: int := 8
  const BlockCount: int := 64
  const BlockCells: int := 16

  /** Sum of the first n cells (row-major inside the block) of the 4x4 block whose top-left
      sample is at (col0, row0) of the 32x32 raster. */
  function BlockPartial(data: seq<int>, row0: int, col0: int, n: int): (r: int)
    requires |data| == Side * Side
    requires 0 <= row0 <= Side - BlockSize && 0 <= col0 <= Side - BlockSize
    requires 0 <= n <= BlockCells
  {
    if n == 0 then 0
    else
      BlockPartial(data, row0, col0, n - 1)
      + data[(row0 + (n - 1) / BlockSize) * Side + col0 + (n - 1) % BlockSize]
  }

  /** Sum of the 16 samples of block k, blocks numbered row-major (8 per row). */
  function BlockSum(data: seq<int>, k: int): (r: int)
    requires |data| == Side * Side
    requires 0 <= k < BlockCount
  {
    BlockPartial(data, (k / BlocksPerRow) * BlockSize, (k % BlocksPerRow) * BlockSize, BlockCells)
  }

  function BlockAverage(data: seq<int>, k: int): (r: real)
    requires |data| == Side * Side
    requires 0 <= k < BlockCount
  {
    BlockSum(data, k) as real / BlockCells as real
  }

  /** The 64 block averages in the order the source pushes them. */
  function BlockAverages(data: seq<int>): (r: seq<real>)
    requires |data| == Side * Side
    ensures |r| == BlockCount
  {
    seq(BlockCount, k requires 0 <= k < BlockCount => BlockAverage(data, k))
  }

  /** The 16-sample sums of the 64 blocks, in the order the source visits them. */
  function BlockSums(data: seq<int>): (r: seq<int>)
    requires |data| == Side * Side
    ensures |r| == BlockCount
  {
    seq(BlockCount, k requires 0 <= k < BlockCount => BlockSum(data, k))
  }

  /** Reference definition of the DCT-approximation hash. */
  function DctHashOf(data: seq<int>): (r: string)
    requires |data| == Side * Side
  {
    var blocks := BlockAverages(data);
    var average := RealSum(blocks) / BlockCount as real;
    seq(BlockCount, k requires 0 <= k < BlockCount => BitChar(blocks[k] > average))
  }

  /** `getDCTHash`: a failed resize yields the all-zero 64-bit hash (the source's catch). */
  function DctHashOrZeros(gray32: Option<seq<int>>): (r: string)
    requires gray32.Some? ==> |gray32.value| == Side * Side
  {
    match gray32
    case None => Zeros(BlockCount)
    case Some(data) => DctHashOf(data)
  }

  /** The DCT hash has 64 bits; bit k is '1' exactly when block k is brighter than the raster
      as a whole: its 16 samples sum to more than 1/64 of all 1024 samples. */
  lemma DctHashBits(data: seq<int>)
    requires |data| == Side * Side
    ensures |DctHashOf(data)| == BlockCount
    ensures forall k :: 0 <= k < BlockCount ==>
              (DctHashOf(data)[k] == '1' <==> BlockCount * BlockSum(data, k) > Sum(data))
  {
    BlockSumsCoverRaster(data);
    var average := RealSum(BlockAverages(data)) / BlockCount as real;
    assert average == Sum(data) as real / 1024.0;
    forall k | 0 <= k < BlockCount
      ensures DctHashOf(data)[k] == '1' <==> BlockCount * BlockSum(data, k) > Sum(data)
    {
      var s := BlockSum(data, k);
      assert BlockAverage(data, k) > average <==> 64.0 * s as real > Sum(data) as real;
    }
  }

  /** Cell dx of row dy of a block is cell number dy*4+dx in row-major order. */
  lemma CellNumber(dy: int, dx: int)
    requires 0 <= dy < BlockSize && 0 <= dx < BlockSize
    ensures (dy * BlockSize + dx) / BlockSize == dy && (dy * BlockSize + dx) % BlockSize == dx
  {
  }

  /** Sums the 16 samples of one block with the source's two inner loops and counts them. */
  method SumBlock(data: seq<int>, y: int, x: int) returns (blockSum: int, blockCount: int)
    requires |data| == Side * Side
    requires 0 <= y <= Side - BlockSize && 0 <= x <= Side - BlockSize
    ensures blockSum == BlockPartial(data, y, x, BlockCells)
    ensures blockCount == BlockCells
  {
    blockSum := 0;
    blockCount := 0;
    var dy := 0;
    while dy < BlockSize && y + dy < Side
      invariant 0 <= dy <= BlockSize
      invariant blockCount == dy * BlockSize
      invariant blockSum == BlockPartial(data, y, x, blockCount)
    {
      var dx := 0;
      while dx < BlockSize && x + dx < Side
        invariant 0 <= dx <= BlockSize
        invariant blockCount == dy * BlockSize + dx
        invariant blockSum == BlockPartial(data, y, x, blockCount)
      {
        CellNumber(dy, dx);
        assert BlockPartial(data, y, x, blockCount + 1)
            == BlockPartial(data, y, x, blockCount) + data[(y + dy) * Side + (x + dx)];
        blockSum := blockSum + data[(y + dy) * Side + (x + dx)];
        blockCount := blockCount + 1;
        dx := dx + 1;
      }
      dy := dy + 1;
    }
  }

  /** Block k sits at row `y` and column `x` of the raster when k counts the blocks before it
      row-major. */
  lemma BlockPosition(k: int, y: int, x: int)
    requires 0 <= y < Side && y % BlockSize == 0
    requires 0 <= x < Side && x % BlockSize == 0
    requires k == (y / BlockSize) * BlocksPerRow + x / BlockSize
    ensures (k / BlocksPerRow) * BlockSize == y && (k % BlocksPerRow) * BlockSize == x
  {
  }

  /** Raster index of cell n (row-major inside the block) of block k (row-major over blocks):
      the index the partial block sums read. */
  function CellOf(k: int, n: int): (r: int)
  {
    ((k / BlocksPerRow) * BlockSize + n / BlockSize) * Side + (k % BlocksPerRow) * BlockSize
    + n % BlockSize
  }

  lemma SplitBy4(a: int, b: int)
    requires 0 <= b < 4
    ensures (a * 4 + b) / 4 == a && (a * 4 + b) % 4 == b
  {
  }

  lemma SplitBy8(a: int, b: int)
    requires 0 <= b < 8
    ensures (a * 8 + b) / 8 == a && (a * 8 + b) % 8 == b
  {
  }

  lemma SplitBy32(a: int, b: int)
    requires 0 <= b < 32
    ensures (a * 32 + b) / 32 == a && (a * 32 + b) % 32 == b
  {
  }

  /** The block with its cell that raster index p falls in. */
  function BlockOfCell(p: int): (kn: (int, int))
    requires 0 <= p < Side * Side
    ensures 0 <= kn.0 < BlockCount && 0 <= kn.1 < BlockCells
    ensures CellOf(kn.0, kn.1) == p
  {
    var row, col := p / Side, p % Side;
    var k, n := (row / BlockSize) * BlocksPerRow + col / BlockSize, (row % BlockSize) * BlockSize + col % BlockSize;
    SplitBy8(row / BlockSize, col / BlockSize);
    SplitBy4(row % BlockSize, col % BlockSize);
    (k, n)
  }

  /** The 64 blocks of 16 cells tile the 32x32 raster: every (block, cell) pair names a raster
      index, and the block and cell of that index are the pair again, so distinct pairs name
      distinct indices; with `BlockOfCell` every index is named by some pair. */
  lemma BlocksTileRaster(k: int, n: int)
    requires 0 <= k < BlockCount && 0 <= n < BlockCells
    ensures 0 <= CellOf(k, n) < Side * Side
    ensures BlockOfCell(CellOf(k, n)) == (k, n)
  {
    var a, b, c, d := k / 8, k % 8, n / 4, n % 4;
    assert k == a * 8 + b && n == c * 4 + d;
    var row, col := a * 4 + c, b * 4 + d;
    assert CellOf(k, n) == row * 32 + col;
    SplitBy32(row, col);
    SplitBy4(a, c);
    SplitBy4(b, d);
    var kn := BlockOfCell(row * 32 + col);
    assert kn.0 == (row / 4) * 8 + col / 4 == a * 8 + b;
    assert kn.1 == (row % 4) * 4 + col % 4 == c * 4 + d;
  }

  // The 64 block sums add up to the sum of the raster. The proof regroups the raster sum
  // from rows of samples to bands of four rows, splits each row into eight four-sample runs,
  // and swaps the order inside a band so that it becomes eight blocks. Sizes are written as
  // literals here so that the solver sees linear index arithmetic.

  /** Sum of raster row r. */
  function RowTotal(data: seq<int>, r: int): (total: int)
  {
    SumTo(c => At(data, 32 * r + c), 32)
  }

  /** Sum of the four samples of raster row r that fall in block column b. */
  function RunTotal(data: seq<int>, r: int, b: int): (total: int)
  {
    SumTo(d => At(data, 32 * r + 4 * b + d), 4)
  }

  /** Sum of the four raster rows of block row a. */
  function BandTotal(data: seq<int>, a: int): (r: int)
  {
    SumTo(c => RowTotal(data, 4 * a + c), 4)
  }

  /** Sum of block (a, b) taken run by run. */
  function BandColumnTotal(data: seq<int>, a: int, b: int): (r: int)
  {
    SumTo(c => RunTotal(data, 4 * a + c, b), 4)
  }

  lemma RasterByRows(data: seq<int>)
    requires |data| == 32 * 32
    ensures Sum(data) == SumTo(r => RowTotal(data, r), 32)
  {
    var cells := p => At(data, p);
    SumIsSumTo(data);
    forall r | 0 <= r < 32
      ensures RowTotal(data, r) == SumTo(j => cells(32 * r + j), 32)
    {
      SumToCongruent(c => At(data, 32 * r + c), j => cells(32 * r + j), 32);
    }
    SumToRows(cells, r => RowTotal(data, r), 32, 32);
  }

  lemma RowsByBands(data: seq<int>)
    ensures SumTo(r => RowTotal(data, r), 32) == SumTo(a => BandTotal(data, a), 8)
  {
    var rows := r => RowTotal(data, r);
    forall a | 0 <= a < 8
      ensures BandTotal(data, a) == SumTo(j => rows(4 * a + j), 4)
    {
      SumToCongruent(c => RowTotal(data, 4 * a + c), j => rows(4 * a + j), 4);
    }
    SumToRows(rows, a => BandTotal(data, a), 8, 4);
  }

  lemma RowByRuns(data: seq<int>, r: int)
    ensures RowTotal(data, r) == SumTo(b => RunTotal(data, r, b), 8)
  {
    var row := c => At(data, 32 * r + c);
    forall b | 0 <= b < 8
      ensures RunTotal(data, r, b) == SumTo(j => row(4 * b + j), 4)
    {
      SumToCongruent(d => At(data, 32 * r + 4 * b + d), j => row(4 * b + j), 4);
    }
    SumToRows(row, b => RunTotal(data, r, b), 8, 4);
  }

  /** Run b of raster row 4 * a + c, as a table indexed by (c, b). */
  function BandRuns(data: seq<int>, a: int): (int, int) -> int
  {
    (c, b) => RunTotal(data, 4 * a + c, b)
  }

  lemma BandRowByRuns(data: seq<int>, a: int, c: int)
    ensures RowTotal(data, 4 * a + c) == SumTo(j => BandRuns(data, a)(c, j), 8)
  {
    RowByRuns(data, 4 * a + c);
    forall j | 0 <= j < 8
      ensures RunTotal(data, 4 * a + c, j) == BandRuns(data, a)(c, j)
    {
    }
    SumToCongruent(b => RunTotal(data, 4 * a + c, b), j => BandRuns(data, a)(c, j), 8);
  }

  lemma BandColumnByRuns(data: seq<int>, a: int, b: int)
    ensures BandColumnTotal(data, a, b) == SumTo(i => BandRuns(data, a)(i, b), 4)
  {
    forall i | 0 <= i < 4
      ensures RunTotal(data, 4 * a + i, b) == BandRuns(data, a)(i, b)
    {
    }
    SumToCongruent(c => RunTotal(data, 4 * a + c, b), i => BandRuns(data, a)(i, b), 4);
  }

  lemma BandByBlocks(data: seq<int>, a: int)
    ensures BandTotal(data, a) == SumTo(b => BandColumnTotal(data, a, b), 8)
  {
    var rows := c => RowTotal(data, 4 * a + c);
    var columns := b => BandColumnTotal(data, a, b);
    forall c | 0 <= c < 4
      ensures rows(c) == SumTo(j => BandRuns(data, a)(c, j), 8)
    {
      BandRowByRuns(data, a, c);
    }
    forall b | 0 <= b < 8
      ensures columns(b) == SumTo(i => BandRuns(data, a)(i, b), 4)
    {
      BandColumnByRuns(data, a, b);
    }
    SumToRowsColumns(BandRuns(data, a), rows, columns, 4, 8);
  }

  /** Cell 4 * c + d of block 8 * a + b is sample d of run b of raster row
      4 * a + c. */
  lemma CellOfRun(a: int, b: int, c: int, d: int)
    requires 0 <= b < 8 && 0 <= d < 4
    ensures CellOf(8 * a + b, 4 * c + d) == 32 * (4 * a + c) + 4 * b + d
  {
    SplitBy8(a, b);
    SplitBy4(c, d);
  }

  /** Run b of raster row 4 * a + c holds cells 4 * c .. 4 * c + 3 of block 8 * a + b. */
  lemma RunByCells(data: seq<int>, a: int, b: int, c: int, cells: int -> int)
    requires 0 <= b < 8
    requires forall n :: cells(n) == At(data, CellOf(8 * a + b, n))
    ensures RunTotal(data, 4 * a + c, b) == SumTo(j => cells(4 * c + j), 4)
  {
    var run := d => At(data, 32 * (4 * a + c) + 4 * b + d);
    var h := j => cells(4 * c + j);
    forall d | 0 <= d < 4
      ensures run(d) == h(d)
    {
      CellOfRun(a, b, c, d);
    }
    SumToCongruent(run, h, 4);
  }

  lemma BlockByRuns(data: seq<int>, a: int, b: int)
    requires 0 <= b < 8
    ensures SumTo(n => At(data, CellOf(8 * a + b, n)), 16) == BandColumnTotal(data, a, b)
  {
    var cells := n => At(data, CellOf(8 * a + b, n));
    var runs := c => RunTotal(data, 4 * a + c, b);
    forall c | 0 <= c < 4
      ensures runs(c) == SumTo(j => cells(4 * c + j), 4)
    {
      RunByCells(data, a, b, c, cells);
    }
    SumToRows(cells, runs, 4, 4);
  }

  /** The source's sum of block (a, b) is the block's total over its four runs. */
  lemma BlockSumByRuns(data: seq<int>, a: int, b: int)
    requires |data| == Side * Side
    requires 0 <= a < 8 && 0 <= b < 8
    ensures BlockSum(data, 8 * a + b) == BandColumnTotal(data, a, b)
  {
    BlockSumIsCellSum(data, 8 * a + b);
    BlockByRuns(data, a, b);
  }

  lemma BlockSumsAt(data: seq<int>, a: int, b: int)
    requires |data| == Side * Side
    requires 0 <= a < 8 && 0 <= b < 8
    ensures At(BlockSums(data), 8 * a + b) == BandColumnTotal(data, a, b)
  {
    BlockSumByRuns(data, a, b);
  }

  lemma BandBySums(data: seq<int>, a: int)
    requires |data| == Side * Side
    requires 0 <= a < 8
    ensures BandTotal(data, a) == SumTo(j => At(BlockSums(data), 8 * a + j), 8)
  {
    BandByBlocks(data, a);
    var columns := b => BandColumnTotal(data, a, b);
    var sums := j => At(BlockSums(data), 8 * a + j);
    forall b | 0 <= b < 8
      ensures columns(b) == sums(b)
    {
      BlockSumsAt(data, a, b);
    }
    SumToCongruent(columns, sums, 8);
  }

  lemma BandsBySums(data: seq<int>)
    requires |data| == Side * Side
    ensures SumTo(a => BandTotal(data, a), 8) == SumTo(k => At(BlockSums(data), k), BlockCount)
  {
    forall a | 0 <= a < 8
      ensures BandTotal(data, a) == SumTo(j => At(BlockSums(data), 8 * a + j), 8)
    {
      BandBySums(data, a);
    }
    SumToRowsOf(BlockSums(data), a => BandTotal(data, a), 8, 8);
  }

  /** The source's partial block sum over the first n cells is the sum of those cells. */
  lemma {:induction false} BlockPartialIsCellSum(data: seq<int>, k: int, n: int)
    requires |data| == Side * Side
    requires 0 <= k < BlockCount && 0 <= n <= BlockCells
    ensures BlockPartial(data, (k / BlocksPerRow) * BlockSize, (k % BlocksPerRow) * BlockSize, n)
            == SumTo(i => At(data, CellOf(k, i)), n)
  {
    if n > 0 {
      var row0, col0 := (k / BlocksPerRow) * BlockSize, (k % BlocksPerRow) * BlockSize;
      BlockPartialIsCellSum(data, k, n - 1);
      BlocksTileRaster(k, n - 1);
      assert (row0 + (n - 1) / BlockSize) * Side + col0 + (n - 1) % BlockSize == CellOf(k, n - 1);
    }
  }

  lemma BlockSumIsCellSum(data: seq<int>, k: int)
    requires |data| == Side * Side
    requires 0 <= k < BlockCount
    ensures BlockSum(data, k) == SumTo(n => At(data, CellOf(k, n)), 16)
  {
    BlockPartialIsCellSum(data, k, BlockCells);
  }

  /** The blocks tile the raster, so the 64 block sums add up to the sum of all samples and
      the 64 block averages add up to that sum divided by 16. */
  lemma BlockSumsCoverRaster(data: seq<int>)
    requires |data| == Side * Side
    ensures Sum(BlockSums(data)) == Sum(data)
    ensures RealSum(BlockAverages(data)) == Sum(data) as real / BlockCells as real
  {
    var sums := BlockSums(data);
    SumIsSumTo(sums);
    BandsBySums(data);
    RowsByBands(data);
    RasterByRows(data);
    SumAsRealOver(sums, BlockAverages(data), BlockCells as real);
  }

  /** The two outer loops of `getDCTHash`: visit the blocks row-major and push each average. */
  method BlockAveragesLoop(data: seq<int>) returns (blocks: seq<real>)
    requires |data| == Side * Side
    ensures blocks == BlockAverages(data)
  {
    blocks := [];
    var y := 0;
    while y < Side
      invariant 0 <= y <= Side && y % BlockSize == 0
      invariant |blocks| == (y / BlockSize) * BlocksPerRow
      invariant forall k :: 0 <= k < |blocks| ==> blocks[k] == BlockAverage(data, k)
    {
      var x := 0;
      while x < Side
        invariant 0 <= x <= Side && x % BlockSize == 0
        invariant |blocks| == (y / BlockSize) * BlocksPerRow + x / BlockSize
        invariant forall k :: 0 <= k < |blocks| ==> blocks[k] == BlockAverage(data, k)
      {
        var blockSum, blockCount := SumBlock(data, y, x);
        BlockPosition(|blocks|, y, x);
        blocks := blocks + [if blockCount > 0 then blockSum as real / blockCount as real else 0.0];
        x := x + BlockSize;
      }
      y := y + BlockSize;
    }
  }

  /** `getDCTHash`: block averages, their mean, then one bit per block. */
  method GetDctHash(gray32: Option<seq<int>>) returns (hash: string)
    requires gray32.Some? ==> |gray32.value| == Side * Side
    ensures hash == DctHashOrZeros(gray32)
  {
    if gray32.None? {
      return Zeros(BlockCount);
    }
    var blocks := BlockAveragesLoop(gray32.value);
    var average := RealSum(blocks) / |blocks| as real;
    hash := "";
    var i := 0;
    while i < |blocks|
      invariant 0 <= i <= |blocks|
      invariant |hash| == i
      invariant forall j :: 0 <= j < i ==> hash[j] == BitChar(blocks[j] > average)
    {
      hash := hash + [BitChar(blocks[i] > average)];
      i := i + 1;
    }
  }

  // ---------------------------------------------------------------- the three hashes together

  /** `getEnhancedHash`: 8x8 and 16x16 simple hashes and the DCT hash; if either simple-hash
      resize fails, all three fall back to zero strings of lengths 64, 256 and 64. */
  function EnhancedHashOf(gray8: Option<seq<int>>, gray16: Option<seq<int>>,
                          gray32: Option<seq<int>>): Hashes
    requires gray32.Some? ==> |gray32.value| == Side * Side
  {
    if gray8.None? || gray16.None? then Hashes(Zeros(64), Zeros(256), Zeros(64))
    else Hashes(SimpleHashOf(gray8.value), SimpleHashOf(gray16.value), DctHashOrZeros(gray32))
  }

  method GetEnhancedHash(gray8: Option<seq<int>>, gray16: Option<seq<int>>,
                         gray32: Option<seq<int>>) returns (hashes: Hashes)
    requires gray32.Some? ==> |gray32.value| == Side * Side
    ensures hashes == EnhancedHashOf(gray8, gray16, gray32)
  {
    if gray8.None? || gray16.None? {
      return Hashes(Zeros(64), Zeros(256), Zeros(64));
    }
    var hash8 := GenerateSimpleHash(gray8.value);
    var hash16 := GenerateSimpleHash(gray16.value);
    var dct := GetDctHash(gray32);
    hashes := Hashes(hash8, hash16, dct);
  }

  /** For the canonical 8x8, 16x16 and 32x32 rasters the hashes have the fixed lengths
      64, 256 and 64 whether or not a resize failed. */
  lemma EnhancedHashLengths(gray8: Option<seq<int>>, gray16: Option<seq<int>>,
                            gray32: Option<seq<int>>)
    requires gray8.Some? ==> |gray8.value| == 64
    requires gray16.Some? ==> |gray16.value| == 256
    requires gray32.Some? ==> |gray32.value| == Side * Side
    ensures |EnhancedHashOf(gray8, gray16, gray32).simpleHash| == 64
    ensures |EnhancedHashOf(gray8, gray16, gray32).enhancedHash| == 256
    ensures |EnhancedHashOf(gray8, gray16, gray32).dctHash| == 64
  {
    if gray32.Some? {
      DctHashBits(gray32.value);
    }
  }
}
