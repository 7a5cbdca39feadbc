/** `calculateEnhancedSimilarity`, `hammingDistance` and `cosineSimilarity` in
    services/imageRecognitionService.js: seven per-feature similarities combined with fixed
    weights and clamped to [0, 1]. `Math.sqrt` is the parameter `sqrt`, assumed exact. */
module Similarity {
  import opened Wrappers
  import opened Sums
  import opened PerceptualHash
  import opened ColorHistogram
  import opened EdgeDensity
  import opened Texture
  import opened Signatures

  // ---------------------------------------------------------------- hash similarity

  /** Positions among the first k where the two strings agree. */
  function MatchCount(a: string, b: string, k: nat): (r: nat)
    requires k <= |a| && k <= |b|
  {
    if k == 0 then 0 else MatchCount(a, b, k - 1) + (if a[k - 1] == b[k - 1] then 1 else 0)
  }

  /** `hammingDistance`, which despite its name is the fraction of agreeing positions; an empty
      (missing) hash or a length mismatch gives 0. */
  function Hamming(a: string, b: string): (r: real)
    ensures 0.0 <= r <= 1.0
    ensures |a| > 0 && |a| == |b| ==> (r == 1.0 <==> a == b)
  {
    if |a| == 0 || |b| == 0 || |a| != |b| then 0.0
    else
      var n, m := |a| as real, MatchCount(a, b, |a|) as real;
      MatchCountBound(a, b, |a|);
      assert a[..|a|] == a && b[..|b|] == b;
      DivMono(0.0, m, n);
      DivMono(m, n, n);
      DivSelf(n);
      assert m / n == 1.0 ==> m == n;
      m / n
  }

  lemma {:induction false} MatchCountBound(a: string, b: string, k: nat)
    requires k <= |a| && k <= |b|
    ensures MatchCount(a, b, k) <= k
    ensures MatchCount(a, b, k) == k <==> a[..k] == b[..k]
  {
    if k > 0 {
      MatchCountBound(a, b, k - 1);
      assert a[..k] == a[..k - 1] + [a[k - 1]] && b[..k] == b[..k - 1] + [b[k - 1]];
      if a[..k] == b[..k] {
        assert a[..k][..k - 1] == a[..k - 1] && b[..k][..k - 1] == b[..k - 1];
        assert a[..k][k - 1] == b[..k][k - 1];
      }
    }
  }

  lemma {:induction false} MatchCountSymmetric(a: string, b: string, k: nat)
    requires k <= |a| && k <= |b|
    ensures MatchCount(a, b, k) == MatchCount(b, a, k)
  {
    if k > 0 {
      MatchCountSymmetric(a, b, k - 1);
    }
  }

  /** The hash similarity lies in [0, 1], is symmetric, is 0 for a missing hash or a length
      mismatch, and for non-empty strings of equal length is 1 exactly when they are equal. */
  lemma HammingProperties(a: string, b: string)
    ensures 0.0 <= Hamming(a, b) <= 1.0
    ensures Hamming(a, b) == Hamming(b, a)
    ensures |a| == 0 || |b| == 0 || |a| != |b| ==> Hamming(a, b) == 0.0
    ensures |a| > 0 && |a| == |b| ==> (Hamming(a, b) == 1.0 <==> a == b)
  {
    if |a| > 0 && |a| == |b| {
      MatchCountSymmetric(a, b, |a|);
    }
  }

  // ---------------------------------------------------------------- cosine similarity

  function Dot(a: seq<real>, b: seq<real>): (r: real)
    requires |a| == |b|
  {
    if |a| == 0 then 0.0 else Dot(a[..|a| - 1], b[..|b| - 1]) + Times(a[|a| - 1], b[|b| - 1])
  }

  lemma {:induction false} DotSymmetric(a: seq<real>, b: seq<real>)
    requires |a| == |b|
    ensures Dot(a, b) == Dot(b, a)
  {
    if |a| > 0 {
      DotSymmetric(a[..|a| - 1], b[..|b| - 1]);
    }
  }

  /** A sum of squares is non-negative, and positive as soon as one entry is non-zero. */
  lemma {:induction false} DotSelfNonneg(a: seq<real>)
    ensures 0.0 <= Dot(a, a)
    ensures (exists i :: 0 <= i < |a| && a[i] != 0.0) ==> 0.0 < Dot(a, a)
  {
    if |a| > 0 {
      var k := |a| - 1;
      DotSelfNonneg(a[..k]);
      var x := a[k];
      SquareNonneg(x);
      if exists i :: 0 <= i < |a| && a[i] != 0.0 {
        var i :| 0 <= i < |a| && a[i] != 0.0;
        if i < k {
          assert a[..k][i] == a[i] && a[..k][i] != 0.0;
          assert 0.0 < Dot(a[..k], a[..k]);
        }
      }
    }
  }

  lemma {:induction false} DotNonneg(a: seq<real>, b: seq<real>)
    requires |a| == |b|
    requires forall i :: 0 <= i < |a| ==> 0.0 <= a[i] && 0.0 <= b[i]
    ensures 0.0 <= Dot(a, b)
  {
    if |a| > 0 {
      DotNonneg(a[..|a| - 1], b[..|b| - 1]);
      var x, y := a[|a| - 1], b[|b| - 1];
      if x > 0.0 && y > 0.0 { TimesPos(x, y); }
    }
  }

  /** The square root of a positive norm is positive. */
  lemma SqrtPositive(sqrt: real -> real, x: real)
    requires IsSqrt(sqrt) && 0.0 < x
    ensures 0.0 < sqrt(x)
  {
    assert 0.0 <= sqrt(x) && sqrt(x) * sqrt(x) == x;
  }

  /** No entry is negative, as in a histogram or a brightness profile. */
  predicate NonNegative(v: seq<real>)
  {
    forall i :: 0 <= i < |v| ==> 0.0 <= v[i]
  }

  /** A vector a cosine can be taken of: non-empty with a non-zero norm. */
  predicate Nonzero(v: seq<real>)
  {
    |v| > 0 && Dot(v, v) != 0.0
  }

  /** The quotient the source returns for two non-zero vectors of equal length: well defined,
      non-negative on non-negative vectors, and 1 for a vector with itself. */
  lemma CosineQuotient(sqrt: real -> real, a: seq<real>, b: seq<real>)
    requires IsSqrt(sqrt) && |a| == |b|
    requires Nonzero(a) && Nonzero(b)
    ensures sqrt(Dot(a, a)) * sqrt(Dot(b, b)) > 0.0
    ensures NonNegative(a) && NonNegative(b) ==>
              0.0 <= Dot(a, b) / (sqrt(Dot(a, a)) * sqrt(Dot(b, b)))
    ensures a == b ==> Dot(a, b) / (sqrt(Dot(a, a)) * sqrt(Dot(b, b))) == 1.0
  {
    var na, nb := Dot(a, a), Dot(b, b);
    DotSelfNonneg(a);
    DotSelfNonneg(b);
    SqrtPositive(sqrt, na);
    SqrtPositive(sqrt, nb);
    MulPos(sqrt(na), sqrt(nb));
    if NonNegative(a) && NonNegative(b) {
      DotNonneg(a, b);
      DivMono(0.0, Dot(a, b), sqrt(na) * sqrt(nb));
    }
    if a == b {
      var d := sqrt(na) * sqrt(nb);
      assert Dot(a, b) == na && nb == na && d == na;
      DivSelf(na);
      assert sqrt(na) == sqrt(Dot(a, a)) && d == sqrt(Dot(a, a)) * sqrt(Dot(b, b));
    }
  }

  /** `cosineSimilarity`: 0 for missing, empty or different-length vectors and for a zero
      norm, otherwise the dot product over the product of the norms. */
  function Cosine(sqrt: real -> real, a: seq<real>, b: seq<real>): (r: real)
    requires IsSqrt(sqrt)
    ensures NonNegative(a) && NonNegative(b) ==> 0.0 <= r
    ensures Nonzero(a) && b == a ==> r == 1.0
  {
    if |a| == 0 || |b| == 0 || |a| != |b| then 0.0
    else
      var na, nb := Dot(a, a), Dot(b, b);
      if na == 0.0 || nb == 0.0 then 0.0
      else
        CosineQuotient(sqrt, a, b);
        Dot(a, b) / (sqrt(na) * sqrt(nb))
  }

  /** Cosine similarity is symmetric, non-negative on non-negative vectors, 1 for a vector with
      itself when its norm is non-zero, and 0 when either norm is zero. */
  lemma CosineProperties(sqrt: real -> real, a: seq<real>, b: seq<real>)
    requires IsSqrt(sqrt)
    ensures Cosine(sqrt, a, b) == Cosine(sqrt, b, a)
    ensures NonNegative(a) && NonNegative(b) ==> 0.0 <= Cosine(sqrt, a, b)
    ensures Nonzero(a) ==> Cosine(sqrt, a, a) == 1.0
    ensures |a| == |b| && (Dot(a, a) == 0.0 || Dot(b, b) == 0.0) ==> Cosine(sqrt, a, b) == 0.0
  {
    if |a| == |b| {
      DotSymmetric(a, b);
    }
  }

  // ---------------------------------------------------------------- weighted score

  /** The seven named sub-similarities. */
  datatype Similarities = Similarities(
    simpleHash: real, enhancedHash: real, dctHash: real,
    color: real, edges: real, brightness: real, texture: real)

  const WSimpleHash: real := 0.20
  const WEnhancedHash: real := 0.20
  const WDctHash: real := 0.15
  const WColor: real := 0.20
  const WEdges: real := 0.10
  const WBrightness: real := 0.10
  const WTexture: real := 0.05

  function MinReal(a: real, b: real): (r: real)
  {
    if a < b then a else b
  }

  function MaxReal(a: real, b: real): (r: real)
  {
    if a < b then b else a
  }

  function Clamp01(x: real): (r: real)
  {
    MaxReal(0.0, MinReal(1.0, x))
  }

  function HashSimilarities(a: Option<Hashes>, b: Option<Hashes>): (real, real, real)
  {
    if a.Some? && b.Some? then
      (Hamming(a.value.simpleHash, b.value.simpleHash),
       Hamming(a.value.enhancedHash, b.value.enhancedHash),
       Hamming(a.value.dctHash, b.value.dctHash))
    else (0.0, 0.0, 0.0)
  }

  /** Mean cosine over the red, green, blue and combined channels; 0 when a side lacks a
      histogram. */
  function ColorSimilarity(sqrt: real -> real, a: Option<Histogram>, b: Option<Histogram>): (r: real)
    requires IsSqrt(sqrt)
    ensures a.None? || b.None? ==> r == 0.0
    ensures a.Some? && b.Some?
            && NonNegative(a.value.red) && NonNegative(a.value.green)
            && NonNegative(a.value.blue) && NonNegative(a.value.combined)
            && NonNegative(b.value.red) && NonNegative(b.value.green)
            && NonNegative(b.value.blue) && NonNegative(b.value.combined)
            ==> 0.0 <= r
    ensures a.Some? && b == a
            && Nonzero(a.value.red) && Nonzero(a.value.green)
            && Nonzero(a.value.blue) && Nonzero(a.value.combined)
            ==> r == 1.0
  {
    if a.Some? && b.Some? then
      (Cosine(sqrt, a.value.red, b.value.red) + Cosine(sqrt, a.value.green, b.value.green)
       + Cosine(sqrt, a.value.blue, b.value.blue)
       + Cosine(sqrt, a.value.combined, b.value.combined)) / 4.0
    else 0.0
  }

  /** One minus the density difference, capped at 1; 0 when a side lacks edge statistics. */
  function EdgeSimilarity(a: Option<EdgeStats>, b: Option<EdgeStats>): (r: real)
    ensures 0.0 <= r <= 1.0
    ensures r == 1.0 <==> a.Some? && b.Some? && a.value.density == b.value.density
  {
    if a.Some? && b.Some? then 1.0 - MinReal(1.0, Abs(a.value.density - b.value.density))
    else 0.0
  }

  /** Mean of the variance and contrast closeness, each one minus the scaled difference floored
      at 0; 0 when a side lacks texture metrics. */
  function TextureSimilarity(a: Option<TextureStats>, b: Option<TextureStats>): (r: real)
    ensures 0.0 <= r <= 1.0
    ensures r == 1.0 <==> && a.Some? && b.Some? && a.value.variance == b.value.variance
                          && a.value.contrast == b.value.contrast
  {
    if a.Some? && b.Some? then
      var varSim := 1.0 - MinReal(1.0, Abs(a.value.variance - b.value.variance) / 15000.0);
      var contrastSim := 1.0 - MinReal(1.0, Abs(a.value.contrast - b.value.contrast) / 255.0);
      (MaxReal(0.0, varSim) + MaxReal(0.0, contrastSim)) / 2.0
    else 0.0
  }

  function SimilaritiesOf(sqrt: real -> real, a: Signature, b: Signature): (s: Similarities)
    requires IsSqrt(sqrt)
    ensures a.hashes.None? || b.hashes.None? ==>
              s.simpleHash == 0.0 && s.enhancedHash == 0.0 && s.dctHash == 0.0
  {
    var (h1, h2, h3) := HashSimilarities(a.hashes, b.hashes);
    Similarities(h1, h2, h3,
                 ColorSimilarity(sqrt, a.color, b.color),
                 EdgeSimilarity(a.edges, b.edges),
                 Cosine(sqrt, a.brightness, b.brightness),
                 TextureSimilarity(a.texture, b.texture))
  }

  function Weighted(s: Similarities): (r: real)
  {
    WSimpleHash * s.simpleHash + WEnhancedHash * s.enhancedHash + WDctHash * s.dctHash
    + WColor * s.color + WEdges * s.edges + WBrightness * s.brightness + WTexture * s.texture
  }

  /** `calculateEnhancedSimilarity`: 0 if either signature is absent, otherwise the weighted
      sum of the sub-similarities clamped to [0, 1]. */
  function Score(sqrt: real -> real, a: Option<Signature>, b: Option<Signature>): (r: real)
    requires IsSqrt(sqrt)
    ensures 0.0 <= r <= 1.0
    ensures a.None? || b.None? ==> r == 0.0
  {
    if a.None? || b.None? then 0.0
    else Clamp01(Weighted(SimilaritiesOf(sqrt, a.value, b.value)))
  }

  // ---------------------------------------------------------------- properties

  /** The weights add up to 1, so equal sub-similarities c give the weighted score c. */
  lemma WeightsSumToOne(c: real)
    ensures WSimpleHash + WEnhancedHash + WDctHash + WColor + WEdges + WBrightness + WTexture == 1.0
    ensures Weighted(Similarities(c, c, c, c, c, c, c)) == c
  {
  }

  lemma SimilaritiesSymmetric(sqrt: real -> real, a: Signature, b: Signature)
    requires IsSqrt(sqrt)
    ensures SimilaritiesOf(sqrt, a, b) == SimilaritiesOf(sqrt, b, a)
  {
    if a.hashes.Some? && b.hashes.Some? {
      HammingProperties(a.hashes.value.simpleHash, b.hashes.value.simpleHash);
      HammingProperties(a.hashes.value.enhancedHash, b.hashes.value.enhancedHash);
      HammingProperties(a.hashes.value.dctHash, b.hashes.value.dctHash);
    }
    if a.color.Some? && b.color.Some? {
      CosineProperties(sqrt, a.color.value.red, b.color.value.red);
      CosineProperties(sqrt, a.color.value.green, b.color.value.green);
      CosineProperties(sqrt, a.color.value.blue, b.color.value.blue);
      CosineProperties(sqrt, a.color.value.combined, b.color.value.combined);
    }
    CosineProperties(sqrt, a.brightness, b.brightness);
  }

  /** The score does not depend on which signature is the query. */
  lemma ScoreSymmetric(sqrt: real -> real, a: Option<Signature>, b: Option<Signature>)
    requires IsSqrt(sqrt)
    ensures Score(sqrt, a, b) == Score(sqrt, b, a)
  {
    if a.Some? && b.Some? {
      SimilaritiesSymmetric(sqrt, a.value, b.value);
    }
  }

  /** A complete signature whose hashes are non-empty and whose histogram channels and
      brightness profile have non-zero norms. */
  predicate NonDegenerate(a: Signature)
  {
    && Complete(a)
    && |a.hashes.value.simpleHash| > 0 && |a.hashes.value.enhancedHash| > 0
    && |a.hashes.value.dctHash| > 0
    && Nonzero(a.color.value.red) && Nonzero(a.color.value.green)
    && Nonzero(a.color.value.blue) && Nonzero(a.color.value.combined)
    && Nonzero(a.brightness)
  }

  lemma SelfSimilaritiesExceptBrightness(sqrt: real -> real, a: Signature)
    requires IsSqrt(sqrt)
    requires Complete(a)
    requires |a.hashes.value.simpleHash| > 0 && |a.hashes.value.enhancedHash| > 0
    requires |a.hashes.value.dctHash| > 0
    requires Nonzero(a.color.value.red) && Nonzero(a.color.value.green)
    requires Nonzero(a.color.value.blue) && Nonzero(a.color.value.combined)
    ensures var s := SimilaritiesOf(sqrt, a, a);
            s.simpleHash == 1.0 && s.enhancedHash == 1.0 && s.dctHash == 1.0
            && s.color == 1.0 && s.edges == 1.0 && s.texture == 1.0
  {
    HammingProperties(a.hashes.value.simpleHash, a.hashes.value.simpleHash);
    HammingProperties(a.hashes.value.enhancedHash, a.hashes.value.enhancedHash);
    HammingProperties(a.hashes.value.dctHash, a.hashes.value.dctHash);
    CosineProperties(sqrt, a.color.value.red, a.color.value.red);
    CosineProperties(sqrt, a.color.value.green, a.color.value.green);
    CosineProperties(sqrt, a.color.value.blue, a.color.value.blue);
    CosineProperties(sqrt, a.color.value.combined, a.color.value.combined);
  }

  /** A non-degenerate signature scores exactly 1 against itself. */
  lemma ScoreReflexive(sqrt: real -> real, a: Signature)
    requires IsSqrt(sqrt) && NonDegenerate(a)
    ensures Score(sqrt, Some(a), Some(a)) == 1.0
  {
    SelfSimilaritiesExceptBrightness(sqrt, a);
    CosineProperties(sqrt, a.brightness, a.brightness);
  }

  /** A signature whose brightness profile is all zero (a black image) loses the brightness
      weight against itself: the cosine of a zero vector is 0, so the self-score is 0.90. */
  lemma DarkSelfScore(sqrt: real -> real, a: Signature)
    requires IsSqrt(sqrt) && Complete(a)
    requires |a.hashes.value.simpleHash| > 0 && |a.hashes.value.enhancedHash| > 0
    requires |a.hashes.value.dctHash| > 0
    requires Nonzero(a.color.value.red) && Nonzero(a.color.value.green)
    requires Nonzero(a.color.value.blue) && Nonzero(a.color.value.combined)
    requires |a.brightness| == 4 && forall q :: 0 <= q < 4 ==> a.brightness[q] == 0.0
    ensures Score(sqrt, Some(a), Some(a)) == 0.90
  {
    SelfSimilaritiesExceptBrightness(sqrt, a);
    DotZero(a.brightness);
    CosineProperties(sqrt, a.brightness, a.brightness);
  }

  lemma {:induction false} DotZero(v: seq<real>)
    requires forall i :: 0 <= i < |v| ==> v[i] == 0.0
    ensures Dot(v, v) == 0.0
  {
    if |v| > 0 {
      DotZero(v[..|v| - 1]);
    }
  }

  /** A vector with a non-zero sum, such as a histogram, has a non-zero norm. */
  lemma NonzeroSumIsNonzero(v: seq<real>)
    requires RealSum(v) != 0.0
    ensures Nonzero(v)
  {
    DotSelfNonneg(v);
    if forall i :: 0 <= i < |v| ==> v[i] == 0.0 {
      RealSumBounds(v, 0.0, 0.0);
    }
  }

  /** A signature built from canonically sized rasters is non-degenerate as soon as its
      brightness profile is not all zero: the hashes have 64, 256 and 64 bits, the three
      channel histograms each sum to 1 and the combined one to 3. */
  lemma BuiltSignatureNonDegenerate(s: Samples)
    requires WellFormed(s) && Canonical(s)
    requires SignatureOf(s).Some?
    requires Nonzero(SignatureOf(s).value.brightness)
    ensures NonDegenerate(SignatureOf(s).value)
  {
    BuiltSignatureShape(s);
    var rgb := s.rgb64.value;
    HistogramShape(rgb.data, rgb.width, rgb.height);
    var hist := SignatureOf(s).value.color.value;
    NonzeroSumIsNonzero(hist.red);
    NonzeroSumIsNonzero(hist.green);
    NonzeroSumIsNonzero(hist.blue);
    NonzeroSumIsNonzero(hist.combined);
  }

  /** Hence such a signature scores exactly 1 against itself. */
  lemma BuiltSignatureSelfScore(sqrt: real -> real, s: Samples)
    requires IsSqrt(sqrt)
    requires WellFormed(s) && Canonical(s)
    requires SignatureOf(s).Some?
    requires Nonzero(SignatureOf(s).value.brightness)
    ensures Score(sqrt, SignatureOf(s), SignatureOf(s)) == 1.0
  {
    BuiltSignatureNonDegenerate(s);
    ScoreReflexive(sqrt, SignatureOf(s).value);
  }
}
