/** `calculateAverageSignature` and its helpers (`averageArrays`, `averageColorHistogram`,
    `averageEdgeDensity`, `averageTextureMetrics`) in services/imageRecognitionService.js: the
    per-person signature is the element-wise mean of the image signatures, except that the
    hashes are copied from the first image. */
module Averaging {
  import opened Wrappers
  import opened Sums
  import opened PerceptualHash
  import opened ColorHistogram
  import opened EdgeDensity
  import opened Texture
  import opened Signatures

  /** `arr[i] || 0`: an entry past the end of a shorter array counts as 0. */
  function EntryOrZero(arr: seq<real>, i: int): (r: real)
  {
    if 0 <= i < |arr| then arr[i] else 0.0
  }

  /** Entry i of every array, in order. */
  function Column(arrays: seq<seq<real>>, i: int): (c: seq<real>)
    ensures |c| == |arrays|
  {
    seq(|arrays|, k requires 0 <= k < |arrays| => EntryOrZero(arrays[k], i))
  }

  /** `averageArrays`: as long as the first array, entry i the mean of the arrays' entries i;
      no arrays give the empty array. */
  function AverageArrays(arrays: seq<seq<real>>): (r: seq<real>)
    ensures |arrays| == 0 ==> r == []
    ensures |arrays| > 0 ==> |r| == |arrays[0]|
  {
    if |arrays| == 0 then []
    else seq(|arrays[0]|, i requires 0 <= i < |arrays[0]| => RealSum(Column(arrays, i)) / |arrays| as real)
  }

  function Mean(xs: seq<real>): (r: real)
    requires |xs| > 0
  {
    RealSum(xs) / |xs| as real
  }

  /** m lies between the smallest and the largest of xs. */
  predicate Between(xs: seq<real>, m: real)
  {
    && (exists k :: 0 <= k < |xs| && xs[k] <= m)
    && (exists k :: 0 <= k < |xs| && m <= xs[k])
  }

  function Densities(es: seq<EdgeStats>): (r: seq<real>)
    ensures |r| == |es|
  {
    seq(|es|, k requires 0 <= k < |es| => es[k].density)
  }

  function EdgeTotals(es: seq<EdgeStats>): (r: seq<real>)
    ensures |r| == |es|
  {
    seq(|es|, k requires 0 <= k < |es| => es[k].totalEdges)
  }

  /** `averageEdgeDensity`: null for an empty list; otherwise both fields averaged, each lying
      between the smallest and the largest input, so `totalEdges` may become fractional. */
  function AverageEdgeDensity(es: seq<EdgeStats>): (r: Option<EdgeStats>)
    ensures r.None? <==> |es| == 0
    ensures r.Some? ==> Between(Densities(es), r.value.density)
    ensures r.Some? ==> Between(EdgeTotals(es), r.value.totalEdges)
  {
    if |es| == 0 then None
    else
      MeanBetween(Densities(es));
      MeanBetween(EdgeTotals(es));
      Some(EdgeStats(Mean(Densities(es)), Mean(EdgeTotals(es))))
  }

  function Variances(ts: seq<TextureStats>): (r: seq<real>)
    ensures |r| == |ts|
  {
    seq(|ts|, k requires 0 <= k < |ts| => ts[k].variance)
  }

  function Contrasts(ts: seq<TextureStats>): (r: seq<real>)
    ensures |r| == |ts|
  {
    seq(|ts|, k requires 0 <= k < |ts| => ts[k].contrast)
  }

  function Means(ts: seq<TextureStats>): (r: seq<real>)
    ensures |r| == |ts|
  {
    seq(|ts|, k requires 0 <= k < |ts| => ts[k].mean)
  }

  /** `averageTextureMetrics`: null for an empty list; otherwise each metric averaged, lying
      between the smallest and the largest input. */
  function AverageTexture(ts: seq<TextureStats>): (r: Option<TextureStats>)
    ensures r.None? <==> |ts| == 0
    ensures r.Some? ==> Between(Variances(ts), r.value.variance)
    ensures r.Some? ==> Between(Contrasts(ts), r.value.contrast)
    ensures r.Some? ==> Between(Means(ts), r.value.mean)
  {
    if |ts| == 0 then None
    else
      MeanBetween(Variances(ts));
      MeanBetween(Contrasts(ts));
      MeanBetween(Means(ts));
      Some(TextureStats(Mean(Variances(ts)), Mean(Contrasts(ts)), Mean(Means(ts))))
  }

  function Reds(hs: seq<Histogram>): (r: seq<seq<real>>)
  {
    seq(|hs|, k requires 0 <= k < |hs| => hs[k].red)
  }

  function Greens(hs: seq<Histogram>): (r: seq<seq<real>>)
  {
    seq(|hs|, k requires 0 <= k < |hs| => hs[k].green)
  }

  function Blues(hs: seq<Histogram>): (r: seq<seq<real>>)
  {
    seq(|hs|, k requires 0 <= k < |hs| => hs[k].blue)
  }

  function Combineds(hs: seq<Histogram>): (r: seq<seq<real>>)
  {
    seq(|hs|, k requires 0 <= k < |hs| => hs[k].combined)
  }

  /** `averageColorHistogram`: null for an empty list; otherwise each channel averaged
      separately, as long as that channel of the first histogram. */
  function AverageColorHistogram(hs: seq<Histogram>): (r: Option<Histogram>)
    ensures r.None? <==> |hs| == 0
    ensures r.Some? ==> && |r.value.red| == |hs[0].red| && |r.value.green| == |hs[0].green|
                        && |r.value.blue| == |hs[0].blue| && |r.value.combined| == |hs[0].combined|
  {
    if |hs| == 0 then None
    else Some(Histogram(AverageArrays(Reds(hs)), AverageArrays(Greens(hs)),
                        AverageArrays(Blues(hs)), AverageArrays(Combineds(hs))))
  }

  /** The sub-objects every signature must carry for the averaging not to throw. */
  predicate HasFeatures(sig: Signature)
  {
    sig.color.Some? && sig.edges.Some? && sig.texture.Some?
  }

  /** What `calculateAverageSignature` dereferences: the hashes of the first signature, and the
      histogram, edge statistics and texture metrics of every signature. */
  predicate Averageable(sigs: seq<Signature>)
  {
    && (|sigs| > 0 ==> sigs[0].hashes.Some?)
    && forall k :: 0 <= k < |sigs| ==> HasFeatures(sigs[k])
  }

  function Colors(sigs: seq<Signature>): (r: seq<Histogram>)
    requires Averageable(sigs)
    ensures |r| == |sigs|
  {
    seq(|sigs|, k requires 0 <= k < |sigs| && HasFeatures(sigs[k]) => sigs[k].color.value)
  }

  function Edges(sigs: seq<Signature>): (r: seq<EdgeStats>)
    requires Averageable(sigs)
    ensures |r| == |sigs|
  {
    seq(|sigs|, k requires 0 <= k < |sigs| && HasFeatures(sigs[k]) => sigs[k].edges.value)
  }

  function Profiles(sigs: seq<Signature>): (r: seq<seq<real>>)
    ensures |r| == |sigs|
  {
    seq(|sigs|, k requires 0 <= k < |sigs| => sigs[k].brightness)
  }

  function Textures(sigs: seq<Signature>): (r: seq<TextureStats>)
    requires Averageable(sigs)
    ensures |r| == |sigs|
  {
    seq(|sigs|, k requires 0 <= k < |sigs| && HasFeatures(sigs[k]) => sigs[k].texture.value)
  }

  /** `calculateAverageSignature`: null for no signatures; otherwise the hashes of the first
      signature and the averages of every other feature, so the result is complete. */
  function AverageSignature(sigs: seq<Signature>): (r: Option<Signature>)
    requires Averageable(sigs)
    ensures r.None? <==> |sigs| == 0
    ensures r.Some? ==> r.value.hashes == sigs[0].hashes && Complete(r.value)
  {
    if |sigs| == 0 then None
    else
      Some(Signature(sigs[0].hashes, AverageColorHistogram(Colors(sigs)), AverageEdgeDensity(Edges(sigs)),
                     AverageArrays(Profiles(sigs)), AverageTexture(Textures(sigs))))
  }

  // ---------------------------------------------------------------- properties

  lemma MeanOfConstant(xs: seq<real>, c: real)
    requires |xs| > 0 && forall k :: 0 <= k < |xs| ==> xs[k] == c
    ensures Mean(xs) == c
  {
    RealSumBounds(xs, c, c);
    DivMul(c, |xs| as real);
  }

  lemma MeanBounds(xs: seq<real>, lo: real, hi: real)
    requires |xs| > 0 && forall k :: 0 <= k < |xs| ==> lo <= xs[k] <= hi
    ensures lo <= Mean(xs) <= hi
  {
    var n := |xs| as real;
    RealSumBounds(xs, lo, hi);
    DivMono(n * lo, RealSum(xs), n);
    DivMono(RealSum(xs), n * hi, n);
    DivMul(lo, n);
    DivMul(hi, n);
  }

  /** A mean lies between the smallest and the largest value. */
  lemma MeanBetween(xs: seq<real>)
    requires |xs| > 0
    ensures Between(xs, Mean(xs))
  {
    var lo, hi := 0, 0;
    for k := 1 to |xs|
      invariant 0 <= lo < |xs| && 0 <= hi < |xs|
      invariant forall j :: 0 <= j < k ==> xs[lo] <= xs[j] <= xs[hi]
    {
      if xs[k] < xs[lo] {
        lo := k;
      }
      if xs[k] > xs[hi] {
        hi := k;
      }
    }
    MeanBounds(xs, xs[lo], xs[hi]);
  }

  /** Averaging copies of one array gives that array back. */
  lemma AverageOfCopies(arrays: seq<seq<real>>, v: seq<real>)
    requires |arrays| > 0 && forall k :: 0 <= k < |arrays| ==> arrays[k] == v
    ensures AverageArrays(arrays) == v
  {
    forall i | 0 <= i < |v|
      ensures AverageArrays(arrays)[i] == v[i]
    {
      MeanOfConstant(Column(arrays, i), v[i]);
    }
  }

  /** When every array is at least as long as the first and all entries lie in [lo, hi], so
      does every averaged entry. */
  lemma AverageArraysBounds(arrays: seq<seq<real>>, lo: real, hi: real)
    requires |arrays| > 0
    requires forall k :: 0 <= k < |arrays| ==> |arrays[0]| <= |arrays[k]|
    requires forall k, i :: 0 <= k < |arrays| && 0 <= i < |arrays[k]| ==> lo <= arrays[k][i] <= hi
    ensures forall i :: 0 <= i < |arrays[0]| ==> lo <= AverageArrays(arrays)[i] <= hi
  {
    forall i | 0 <= i < |arrays[0]|
      ensures lo <= AverageArrays(arrays)[i] <= hi
    {
      MeanBounds(Column(arrays, i), lo, hi);
    }
  }

  /** A shorter array contributes 0 where it has no entry: the mean of [a, b] and [c] is
      [(a + c) / 2, b / 2], while a longer later array's extra entries are dropped. */
  lemma ShortArraysCountAsZero(a: real, b: real, c: real)
    ensures AverageArrays([[a, b], [c]]) == [(a + c) / 2.0, b / 2.0]
    ensures AverageArrays([[c], [a, b]]) == [(c + a) / 2.0]
  {
    var x := [[a, b], [c]];
    assert Column(x, 0) == [a, c];
    assert Column(x, 1) == [b, 0.0];
    assert [a, c][..1] == [a] && [b, 0.0][..1] == [b];
    assert RealSum([a, c]) == a + c by { assert RealSum([a]) == a by { assert [a][..0] == []; } }
    assert RealSum([b, 0.0]) == b by { assert RealSum([b]) == b by { assert [b][..0] == []; } }
    var rx := AverageArrays(x);
    assert rx[0] == (a + c) / 2.0 && rx[1] == b / 2.0;
    var y := [[c], [a, b]];
    assert Column(y, 0) == [c, a];
    assert [c, a][..1] == [c];
    assert RealSum([c, a]) == c + a by { assert RealSum([c]) == c by { assert [c][..0] == []; } }
    assert AverageArrays(y)[0] == (c + a) / 2.0;
  }

  /** Entry i of the average, for i below the first array's length, is the sum over all arrays
      of their entry i, counting 0 for an array too short to have one, divided by the number
      of arrays (not by the number of arrays that have an entry i). */
  lemma AverageArraysEntry(arrays: seq<seq<real>>, i: int)
    requires |arrays| > 0 && 0 <= i < |arrays[0]|
    ensures AverageArrays(arrays)[i]
            == RealSum(seq(|arrays|, k requires 0 <= k < |arrays| =>
                             if i < |arrays[k]| then arrays[k][i] else 0.0))
               / |arrays| as real
  {
    assert Column(arrays, i)
        == seq(|arrays|, k requires 0 <= k < |arrays| => if i < |arrays[k]| then arrays[k][i] else 0.0);
  }

  /** Only the entries of a later array below the first array's length matter, with missing
      ones read as 0: replacing it by an array that agrees with it there changes nothing. */
  lemma SameEntriesSameAverage(arrays: seq<seq<real>>, k: int, b: seq<real>)
    requires 0 < k < |arrays|
    requires forall i :: 0 <= i < |arrays[0]| ==> EntryOrZero(b, i) == EntryOrZero(arrays[k], i)
    ensures AverageArrays(arrays[k := b]) == AverageArrays(arrays)
  {
    var t := arrays[k := b];
    forall i | 0 <= i < |arrays[0]|
      ensures AverageArrays(t)[i] == AverageArrays(arrays)[i]
    {
      assert Column(t, i) == Column(arrays, i);
    }
  }

  /** Padding a later array with zeros does not change the average: a shorter array counts 0
      where it has no entry. */
  lemma ZeroPaddingChangesNothing(arrays: seq<seq<real>>, k: int, n: nat)
    requires 0 < k < |arrays|
    ensures AverageArrays(arrays[k := arrays[k] + seq(n, _ => 0.0)]) == AverageArrays(arrays)
  {
    SameEntriesSameAverage(arrays, k, arrays[k] + seq(n, _ => 0.0));
  }

  /** Extending a later array that already reaches the first array's length does not change
      the average: entries past that length are never read. */
  lemma EntriesPastFirstLengthIgnored(arrays: seq<seq<real>>, k: int, extra: seq<real>)
    requires 0 < k < |arrays| && |arrays[0]| <= |arrays[k]|
    ensures AverageArrays(arrays[k := arrays[k] + extra]) == AverageArrays(arrays)
  {
    SameEntriesSameAverage(arrays, k, arrays[k] + extra);
  }

  /** Averaging copies of one complete signature gives that signature back. */
  lemma AverageOfCopiesIsIdentity(sigs: seq<Signature>, s: Signature)
    requires |sigs| > 0 && Complete(s)
    requires forall k :: 0 <= k < |sigs| ==> sigs[k] == s
    ensures AverageSignature(sigs) == Some(s)
  {
    var colors := Colors(sigs);
    var edges := Edges(sigs);
    var profiles := Profiles(sigs);
    var textures := Textures(sigs);
    var hist := s.color.value;
    AverageOfCopies(Reds(colors), hist.red);
    AverageOfCopies(Greens(colors), hist.green);
    AverageOfCopies(Blues(colors), hist.blue);
    AverageOfCopies(Combineds(colors), hist.combined);
    MeanOfConstant(Densities(edges), s.edges.value.density);
    MeanOfConstant(EdgeTotals(edges), s.edges.value.totalEdges);
    AverageOfCopies(profiles, s.brightness);
    MeanOfConstant(Variances(textures), s.texture.value.variance);
    MeanOfConstant(Contrasts(textures), s.texture.value.contrast);
    MeanOfConstant(Means(textures), s.texture.value.mean);
  }

  /** Averaging keeps each edge density in [0, 1) and each brightness entry in [0, 255] when
      every input satisfies those ranges and has a 4-entry profile. */
  lemma AverageSignatureRanges(sigs: seq<Signature>)
    requires |sigs| > 0 && Averageable(sigs)
    requires forall k :: 0 <= k < |sigs| ==> 0.0 <= sigs[k].edges.value.density < 1.0
    requires forall k :: 0 <= k < |sigs| ==> |sigs[k].brightness| == 4
    requires forall k, q :: 0 <= k < |sigs| && 0 <= q < 4 ==> 0.0 <= sigs[k].brightness[q] <= 255.0
    ensures 0.0 <= AverageSignature(sigs).value.edges.value.density < 1.0
    ensures |AverageSignature(sigs).value.brightness| == 4
    ensures forall q :: 0 <= q < 4 ==> 0.0 <= AverageSignature(sigs).value.brightness[q] <= 255.0
  {
    var ds := Densities(Edges(sigs));
    MeanBetween(ds);
    MeanBounds(ds, 0.0, 1.0);
    AverageArraysBounds(Profiles(sigs), 0.0, 255.0);
  }
}
