/** The signature of one image and its construction (`getEnhancedImageSignature` in
    services/imageRecognitionService.js), including the process-lifetime memo keyed by the
    content digest of the image bytes. */
module Signatures {
  import opened Wrappers
  import opened Grid
  import opened PerceptualHash
  import opened ColorHistogram
  import opened EdgeDensity
  import opened Brightness
  import opened Texture

  /** A raster handed over by the image library together with its reported dimensions. */
  datatype Raster = Raster(width: int, height: int, data: seq<int>)

  /** What the image library produces for one image: the raw samples of each resize the
      extractors request, or None where that library call throws. */
  datatype Samples = Samples(
    gray8: Option<seq<int>>,     // 8x8 greyscale, simple hash
    gray16: Option<seq<int>>,    // 16x16 greyscale, enhanced hash
    gray32: Option<seq<int>>,    // 32x32 greyscale, DCT hash
    rgb64: Option<Raster>,       // 64x64 RGB, colour histogram
    gray100: Option<Raster>,     // 100x100 greyscale, edge density
    gray50: Option<Raster>,      // 50x50 greyscale, brightness profile
    gray64: Option<Raster>)      // 64x64 greyscale, texture metrics

  predicate IsGreyRaster(r: Option<Raster>)
  {
    r.Some? ==> IsGrid(r.value.data, r.value.width, r.value.height) && IsPixels(r.value.data)
  }

  /** The library's contract: samples are bytes, each buffer matches its reported size, and the
      DCT input is the 32x32 raster the source indexes directly. */
  predicate WellFormed(s: Samples)
  {
    && (s.gray8.Some? ==> IsPixels(s.gray8.value))
    && (s.gray16.Some? ==> IsPixels(s.gray16.value))
    && (s.gray32.Some? ==> |s.gray32.value| == Side * Side && IsPixels(s.gray32.value))
    && (s.rgb64.Some? ==> IsRgb(s.rgb64.value.data, s.rgb64.value.width, s.rgb64.value.height))
    && IsGreyRaster(s.gray100) && IsGreyRaster(s.gray50) && IsGreyRaster(s.gray64)
  }

  /** The sizes the source requests from the library. */
  predicate Canonical(s: Samples)
  {
    && (s.gray8.Some? ==> |s.gray8.value| == 8 * 8)
    && (s.gray16.Some? ==> |s.gray16.value| == 16 * 16)
    && (s.rgb64.Some? ==> s.rgb64.value.width == 64 && s.rgb64.value.height == 64)
    && (s.gray100.Some? ==> s.gray100.value.width == 100 && s.gray100.value.height == 100)
    && (s.gray50.Some? ==> s.gray50.value.width == 50 && s.gray50.value.height == 50)
    && (s.gray64.Some? ==> s.gray64.value.width == 64 && s.gray64.value.height == 64)
  }

  /** A signature. Sub-objects a stored record may lack are Options. A hash string, histogram
      channel or brightness profile is a plain sequence: an undefined one is written as the
      empty sequence. Only `hammingDistance` (services/imageRecognitionService.js:456) and
      `cosineSimilarity` (line 468) treat the two alike, both returning 0. Channels and the
      profile are always present in a built signature; an undefined one would make
      `averageArrays` throw (lines 598 and 603) where an empty one does not, and that path is
      not part of this model. */
  datatype Signature = Signature(
    hashes: Option<Hashes>,
    color: Option<Histogram>,
    edges: Option<EdgeStats>,
    brightness: seq<real>,
    texture: Option<TextureStats>)

  predicate Complete(sig: Signature)
  {
    sig.hashes.Some? && sig.color.Some? && sig.edges.Some? && sig.texture.Some?
  }

  /** Reference definition of signature construction: the hashes never fail (their extractors
      catch), any other extractor failing makes the whole signature null. */
  function SignatureOf(s: Samples): (r: Option<Signature>)
    requires WellFormed(s)
  {
    if s.rgb64.None? || s.gray100.None? || s.gray50.None? || s.gray64.None? then None
    else
      var rgb, e, b, t := s.rgb64.value, s.gray100.value, s.gray50.value, s.gray64.value;
      Some(Signature(
        Some(EnhancedHashOf(s.gray8, s.gray16, s.gray32)),
        Some(HistogramOf(rgb.data, rgb.width, rgb.height)),
        Some(EdgeStatsOf(e.data, e.width, e.height)),
        ProfileOf(b.data, b.width, b.height),
        Some(TextureOf(t.data, t.width, t.height))))
  }

  /** A signature built from canonical samples is complete and every feature has the shape and
      range the matcher relies on. */
  lemma BuiltSignatureShape(s: Samples)
    requires WellFormed(s) && Canonical(s)
    requires SignatureOf(s).Some?
    ensures var sig := SignatureOf(s).value;
      && Complete(sig)
      && |sig.hashes.value.simpleHash| == 64
      && |sig.hashes.value.enhancedHash| == 256
      && |sig.hashes.value.dctHash| == 64
      && IsDistribution(sig.color.value.red)
      && IsDistribution(sig.color.value.green)
      && IsDistribution(sig.color.value.blue)
      && 0.0 <= sig.edges.value.density < 1.0
      && |sig.brightness| == 4
      && (forall q :: 0 <= q < 4 ==> 0.0 <= sig.brightness[q] <= 255.0)
      && 0.0 <= sig.texture.value.variance
      && 0.0 <= sig.texture.value.contrast <= 255.0
      && 0.0 <= sig.texture.value.mean <= 255.0
  {
    EnhancedHashLengths(s.gray8, s.gray16, s.gray32);
    var rgb, e, b, t := s.rgb64.value, s.gray100.value, s.gray50.value, s.gray64.value;
    HistogramShape(rgb.data, rgb.width, rgb.height);
    EdgeStatsBounds(e.data, e.width, e.height);
    ProfileBounds(b.data, b.width, b.height);
    TextureBounds(t.data, t.width, t.height);
  }

  /** The extractor calls of `getEnhancedImageSignature`, each returning the reference value. */
  method BuildSignature(s: Samples) returns (sig: Option<Signature>)
    requires WellFormed(s)
    ensures sig == SignatureOf(s)
  {
    var hashes := GetEnhancedHash(s.gray8, s.gray16, s.gray32);
    if s.rgb64.None? {
      return None;
    }
    var color := GetColorHistogram(s.rgb64.value.data, s.rgb64.value.width, s.rgb64.value.height);
    if s.gray100.None? {
      return None;
    }
    var edges := GetEdgeDensity(s.gray100.value.data, s.gray100.value.width, s.gray100.value.height);
    if s.gray50.None? {
      return None;
    }
    var brightness := GetBrightnessProfile(s.gray50.value.data, s.gray50.value.width, s.gray50.value.height);
    if s.gray64.None? {
      return None;
    }
    var texture := GetTextureMetrics(s.gray64.value.data, s.gray64.value.width, s.gray64.value.height);
    sig := Some(Signature(Some(hashes), Some(color), Some(edges), brightness, Some(texture)));
  }

  // ---------------------------------------------------------------- memo cache

  /** The content digest (hex md5 of the image bytes); the digest function itself is not
      modelled, callers pass the key. */
  type Digest = string

  type Cache = map<Digest, Signature>

  /** Every cached signature is the one its key's image would produce. */
  ghost predicate Coherent(cache: Cache, samplesOf: Digest -> Samples)
  {
    forall k :: k in cache ==> WellFormed(samplesOf(k)) && SignatureOf(samplesOf(k)) == Some(cache[k])
  }

  /** `getEnhancedImageSignature`: answer from the memo on a hit, otherwise build, and store the
      result only if it was built. `samplesOf` is the (ghost) map from digests to the library's
      output for the image with that digest. */
  method GetEnhancedImageSignature(cache: Cache, key: Digest, s: Samples,
                                   ghost samplesOf: Digest -> Samples)
    returns (sig: Option<Signature>, cache': Cache)
    requires WellFormed(s)
    ensures key in cache ==> sig == Some(cache[key]) && cache' == cache
    ensures key !in cache && SignatureOf(s).Some? ==>
              sig == SignatureOf(s) && cache' == cache[key := sig.value]
    ensures key !in cache && SignatureOf(s).None? ==> sig.None? && cache' == cache
    ensures Coherent(cache, samplesOf) && samplesOf(key) == s ==>
              sig == SignatureOf(s) && Coherent(cache', samplesOf)
  {
    if key in cache {
      return Some(cache[key]), cache;
    }
    sig := BuildSignature(s);
    if sig.Some? {
      cache' := cache[key := sig.value];
    } else {
      cache' := cache;
    }
  }
}
