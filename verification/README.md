# Image fingerprinting and matching engine, modelled in Dafny

This project models the image-recognition core of the service in
`services/imageRecognitionService.js` (the class `EnhancedImageRecognizer`). It also models the
`addImage` method of the profile schema in `models/mongo/Profile.js`.

The model starts where the image library has already produced raw samples. Each extractor is a
pure function over a row-major raster of bytes (`seq<int>` with values in 0..255), given with
its width and height:

- **Perceptual hashes** (`PerceptualHash`):
  - the simple and enhanced average hashes: one bit per sample, '1' when the sample exceeds the mean;
  - the DCT-approximation hash: 4x4 block means over a 32x32 raster, one bit per block.
- **Colour histogram** (`ColorHistogram`): 32 bins per channel, plus a combined r+g+b histogram.
  Every histogram is divided by the pixel count.
- **Edge density** (`EdgeDensity`): Sobel gradients on interior pixels with threshold 30.
  The count is divided by the full width x height.
- **Brightness profile** (`Brightness`): the mean of each image quadrant.
- **Texture metrics** (`Texture`): population variance, mean, and mean 4-neighbour contrast.
- **Signature** (`Signatures`): the signature record, its construction, and the memo cache
  keyed by the image digest.
- **Similarity** (`Similarity`):
  - the matching-bits fraction the source calls `hammingDistance`;
  - cosine similarity;
  - the seven-weight score clamped to [0, 1].
- **Averaging** (`Averaging`): the per-person average signature. Hashes are copied from the
  first image; every numeric feature is averaged element-wise.
- **Retrieval** (`Matcher`):
  - `findBestMatches`: threshold 0.70, a stable sort by descending score, slicing to `topN`, and the best match;
  - the confidence levels.
- **Profile images** (`Profile`): the idempotent, order-preserving append of an image id.

Each extractor and the matcher come as two definitions:

- a reference function that states the result directly;
- a method whose loops follow the source's loops and whose contract is that it returns the reference result.

Lemmas then state what the reference result means: bit-by-bit characterisations, sums,
bounds, round trips, soundness, completeness, ordering and permutation.

Scores are exact `real`s. `Math.sqrt` is a parameter `sqrt` constrained by
`Sums.IsSqrt` (non-negative, and `sqrt(x) * sqrt(x) == x` for `x >= 0`). JavaScript's real
division `y < height / 2` is written `2 * y < height`.

Support modules: `Wrappers` (Option), `Sums` (integer and real sums, arithmetic helpers) and
`Grid` (raster predicates and row-major addressing).

## Model

| member | source | states |
|---|---|---|
| PerceptualHash.AboveMeanIsAboveAverage | services/imageRecognitionService.js:154-158 | the integer test `data[i] * n > sum` used by the model is exactly the source's `data[i] > average` over reals |
| PerceptualHash.SimpleHashBits | services/imageRecognitionService.js:154-161 | the hash has one character per sample, every character is '0' or '1', and bit i is '1' iff sample i is strictly above the mean of all samples |
| PerceptualHash.FlatImageHashIsZero | services/imageRecognitionService.js:154-158 | an image of one grey level has no sample above its mean, so its hash is all zeros |
| PerceptualHash.GenerateSimpleHash | services/imageRecognitionService.js:147-162 | the mean-then-compare loop yields exactly the hash characterised by SimpleHashBits |
| PerceptualHash.SumBlock | services/imageRecognitionService.js:179-187 | the two inner loops visit exactly 16 cells of a block (blockCount is 16, never clipped) and sum them in row-major order |
| PerceptualHash.BlockOfCell | services/imageRecognitionService.js:177-184 | every raster index 0..1023 is read by some block k in 0..63 at some cell n in 0..15 |
| PerceptualHash.BlocksTileRaster | services/imageRecognitionService.js:177-187 | the cells the blocks read are inside the 32x32 raster and each is read by only one block cell, so the 64 blocks of 16 tile the raster with no overlap |
| PerceptualHash.BlockAveragesLoop | services/imageRecognitionService.js:177-191 | the outer block loops push the 64 block averages in row-major block order |
| PerceptualHash.BlockSumsCoverRaster | services/imageRecognitionService.js:177-193 | the 64 block sums the loops compute add up to the sum of all 1024 samples of the raster, and the 64 block averages add up to that sum divided by 16, because the blocks tile the raster |
| PerceptualHash.DctHashBits | services/imageRecognitionService.js:177-194 | the DCT hash has 64 bits and bit k is '1' iff 64 times the sample sum of block k exceeds the sample sum of the whole raster, that is, iff block k is brighter than the raster's mean |
| PerceptualHash.GetDctHash | services/imageRecognitionService.js:165-199 | a raster gives the block hash; a failed resize gives 64 zeros |
| PerceptualHash.GetEnhancedHash | services/imageRecognitionService.js:125-145 | the three hashes are computed from the 8x8, 16x16 and 32x32 rasters; a failed simple-hash resize replaces all three with zero strings of lengths 64, 256 and 64, while a failed DCT resize zeroes only the DCT hash |
| PerceptualHash.EnhancedHashLengths | services/imageRecognitionService.js:128-143 | on the canonical sizes, and on the failure path, the three hashes are 64, 256 and 64 characters long |
| ColorHistogram.BinOf | services/imageRecognitionService.js:214-219 | `min(31, floor(v / 8))` is always a bin in 0..31, and for a byte the bin's 8-wide range contains v |
| ColorHistogram.CountsTotal | services/imageRecognitionService.js:216-224 | each channel's bin counts sum to the number of pixels visited, and each count lies between 0 and that number |
| ColorHistogram.CombinedIsChannelSum | services/imageRecognitionService.js:233 | combined bin i is (red count i + green count i + blue count i) divided by the pixel count |
| ColorHistogram.CombinedSumsToThree | services/imageRecognitionService.js:227-233 | the combined histogram sums to 3, not 1, because it is divided by the pixel count and not by three times it |
| ColorHistogram.HistogramShape | services/imageRecognitionService.js:208-234 | red, green and blue are distributions (32 entries in [0, 1] summing to 1); combined has 32 entries, sums to 3 and is their entry-wise sum |
| ColorHistogram.GetColorHistogram | services/imageRecognitionService.js:202-235 | the stride-3 counting loop and the normalisation produce exactly the histograms above |
| EdgeDensity.EdgeTestIsMagnitude | services/imageRecognitionService.js:269-273 | the model's integer test `sx^2 + sy^2 > 900` holds iff the source's `sqrt(sx^2 + sy^2) > 30` holds |
| EdgeDensity.EdgeCountBound | services/imageRecognitionService.js:251-275 | only interior pixels are counted: 0 <= totalEdges <= (w-2)(h-2) < w*h |
| EdgeDensity.EdgeStatsBounds | services/imageRecognitionService.js:277-280 | density = totalEdges / (w*h) lies in [0, 1), and totalEdges is the interior edge count |
| EdgeDensity.GetEdgeDensity | services/imageRecognitionService.js:238-281 | the Sobel double loop computes exactly that count and density |
| Brightness.QuadrantCounts | services/imageRecognitionService.js:296-303 | the top quadrants hold ceil(h/2) rows and the left ones ceil(w/2) columns; the four pixel counts add up to w*h |
| Brightness.ProfileBounds | services/imageRecognitionService.js:306 | each quadrant mean lies in [0, 255] |
| Brightness.FlatBrightnessProfile | services/imageRecognitionService.js:296-306 | a raster of one grey level v has profile [v, v, v, v] when it is at least 2x2; quadrants a 1-wide or 1-high raster does not reach report 0 |
| Brightness.GetBrightnessProfile | services/imageRecognitionService.js:284-307 | the single pass accumulating per-quadrant sums and counts produces the four quadrant means, 0 for an empty quadrant |
| Texture.TextureBounds | services/imageRecognitionService.js:319-350 | mean in [0, 255], variance >= 0, contrast in [0, 255] |
| Texture.FlatRasterHasNoTexture | services/imageRecognitionService.js:319-350 | a raster of one grey level v has variance 0, contrast 0 and mean v |
| Texture.MeanAndVariance | services/imageRecognitionService.js:319-325 | the two passes compute the mean and the population variance about it |
| Texture.ContrastLoops | services/imageRecognitionService.js:327-344 | the interior loop sums the absolute differences from the 4-neighbour mean and counts the (w-2)(h-2) interior pixels |
| Texture.GetTextureMetrics | services/imageRecognitionService.js:310-351 | the metrics are the variance, the mean contrast (0 when there is no interior) and the mean |
| Signatures.BuiltSignatureShape | services/imageRecognitionService.js:364-370 | a signature built from canonically sized rasters is complete, with hash lengths 64/256/64, distribution histograms, density in [0, 1), four brightness entries in [0, 255] and bounded texture metrics |
| Signatures.BuildSignature | services/imageRecognitionService.js:362-378 | the extractor calls give the reference signature; any extractor other than the hashes failing gives null |
| Signatures.GetEnhancedImageSignature | services/imageRecognitionService.js:354-379 | a hit returns the stored signature and leaves the cache unchanged; a successful miss returns the new signature and stores it under the key; a failure returns null and caches nothing; a cache holding only correct signatures stays so |
| Similarity.Hamming | services/imageRecognitionService.js:455-464 | the matching fraction lies in [0, 1], and for non-empty hashes of equal length it is 1 iff they are equal |
| Similarity.MatchCountBound | services/imageRecognitionService.js:458-461 | at most k of the first k positions match, and all k match iff the two prefixes are equal |
| Similarity.HammingProperties | services/imageRecognitionService.js:455-464 | the matching fraction is 0 when a hash is missing or the lengths differ; otherwise it lies in [0, 1], is symmetric, and is 1 iff the non-empty hashes are equal |
| Similarity.CosineQuotient | services/imageRecognitionService.js:474-481 | for two non-zero vectors of equal length the denominator is positive, the quotient is non-negative when no entry is negative, and it is 1 for a vector with itself |
| Similarity.Cosine | services/imageRecognitionService.js:467-482 | the cosine of two vectors without negative entries is non-negative, and a non-zero vector has cosine 1 with itself |
| Similarity.CosineProperties | services/imageRecognitionService.js:467-482 | cosine is symmetric, non-negative on non-negative vectors, 1 for a non-zero vector against itself, and 0 on a zero-norm side |
| Similarity.ColorSimilarity | services/imageRecognitionService.js:417-427 | 0 when a side lacks a histogram; non-negative for histograms without negative entries; 1 for a histogram with itself when all four channels are non-zero |
| Similarity.EdgeSimilarity | services/imageRecognitionService.js:429-433 | lies in [0, 1], and is 1 iff both sides have edge statistics with the same density |
| Similarity.TextureSimilarity | services/imageRecognitionService.js:438-444 | lies in [0, 1], and is 1 iff both sides have texture metrics with the same variance and the same contrast |
| Similarity.SimilaritiesOf | services/imageRecognitionService.js:398-415 | all three hash sub-scores are 0 when either side lacks its hashes |
| Similarity.WeightsSumToOne | services/imageRecognitionService.js:385-393 | the seven weights sum to 1, so equal sub-scores c give the weighted score c |
| Similarity.Score | services/imageRecognitionService.js:382-452 | the score is in [0, 1] because of the final clamp, and it is 0 when either signature is absent |
| Similarity.SimilaritiesSymmetric | services/imageRecognitionService.js:398-444 | every sub-score is symmetric in its two signatures |
| Similarity.ScoreSymmetric | services/imageRecognitionService.js:382-452 | score(a, b) == score(b, a) |
| Similarity.ScoreReflexive | services/imageRecognitionService.js:382-452 | a complete signature with non-empty hashes and non-zero histograms and brightness scores 1 against itself |
| Similarity.BuiltSignatureNonDegenerate | services/imageRecognitionService.js:362-378 | a signature built from canonically sized rasters has non-empty hashes and non-zero histogram channels, so it is non-degenerate whenever its brightness profile is not all zero |
| Similarity.BuiltSignatureSelfScore | services/imageRecognitionService.js:362-452 | such a built signature scores exactly 1 against itself |
| Similarity.DarkSelfScore | services/imageRecognitionService.js:436 | a complete signature with non-empty hashes, non-zero histogram channels and an all-zero brightness profile scores only 0.90 against itself, because the brightness cosine of zero vectors is 0 |
| Averaging.AverageArrays | services/imageRecognitionService.js:595-608 | no arrays give []; otherwise the result is as long as the first array |
| Averaging.AverageOfCopies | services/imageRecognitionService.js:595-608 | averaging copies of one array gives that array |
| Averaging.AverageArraysBounds | services/imageRecognitionService.js:601-607 | when every array is at least as long as the first, each averaged entry stays within any bounds all the inputs respect |
| Averaging.AverageArraysEntry | services/imageRecognitionService.js:598-607 | entry i of the average is the sum over all arrays of their entry i, 0 for an array too short to have one, divided by the number of all arrays |
| Averaging.SameEntriesSameAverage | services/imageRecognitionService.js:598-604 | a later array matters only through its entries below the first array's length, missing ones read as 0 |
| Averaging.ZeroPaddingChangesNothing | services/imageRecognitionService.js:603 | padding a later array with zeros leaves the average unchanged: a shorter array counts 0 where it has no entry (`arr[i] \|\| 0`) |
| Averaging.EntriesPastFirstLengthIgnored | services/imageRecognitionService.js:598-602 | extending a later array that already reaches the first array's length leaves the average unchanged |
| Averaging.ShortArraysCountAsZero | services/imageRecognitionService.js:598-603 | two worked cases: the mean of [a, b] and [c] is [(a + c) / 2, b / 2], and the mean of [c] and [a, b] is [(c + a) / 2] |
| Averaging.MeanOfConstant | services/imageRecognitionService.js:580-591 | the mean of equal values is that value |
| Averaging.MeanBetween | services/imageRecognitionService.js:580-591 | a mean lies between the smallest and the largest of its values |
| Averaging.MeanBounds | services/imageRecognitionService.js:580-591 | a mean lies between any lower and upper bound of its values |
| Averaging.AverageColorHistogram | services/imageRecognitionService.js:565-574 | an empty list gives null; otherwise each averaged channel is as long as that channel of the first histogram |
| Averaging.AverageEdgeDensity | services/imageRecognitionService.js:576-583 | an empty list gives null; otherwise the averaged density and edge count each lie between the smallest and the largest input |
| Averaging.AverageTexture | services/imageRecognitionService.js:585-593 | an empty list gives null; otherwise the averaged variance, contrast and mean each lie between the smallest and the largest input |
| Averaging.AverageSignature | services/imageRecognitionService.js:547-563 | no signatures give null; otherwise the hashes are those of the first signature and every sub-object is present; it needs only what the source dereferences: the first signature's hashes and every signature's histogram, edge statistics and texture metrics |
| Averaging.AverageOfCopiesIsIdentity | services/imageRecognitionService.js:547-593 | the average of copies of one complete signature is that signature |
| Averaging.AverageSignatureRanges | services/imageRecognitionService.js:558-583 | averaging keeps the edge density in [0, 1) and the four brightness entries in [0, 255] |
| Matcher.ConfidenceLevel | services/imageRecognitionService.js:662-667 | the level is never "no-match" and is the band the score falls in |
| Matcher.ConfidenceBands | services/imageRecognitionService.js:662-667 | the level is very-high iff s >= 0.95, high iff 0.90 <= s < 0.95, medium iff 0.85 <= s < 0.90, and low otherwise |
| Matcher.ConfidenceMonotone | services/imageRecognitionService.js:662-667 | a higher score never gets a lower level |
| Matcher.ConfidenceBoundaries | services/imageRecognitionService.js:663-666 | the thresholds are inclusive: 0.95, 0.90 and 0.85 fall in the higher band, and the match threshold 0.70 is low |
| Matcher.NullQuery | services/imageRecognitionService.js:612-618 | a null query gives no matches, no best match and "no-match" |
| Matcher.SimilarityTo | services/imageRecognitionService.js:628-631 | the score of any stored signature against the query lies in [0, 1] |
| Matcher.CandidatesExact | services/imageRecognitionService.js:625-642 | the filter keeps, in scan order, exactly the images that have a signature scoring >= 0.70, each with its profile, score and level |
| Matcher.SortDescOrdered | services/imageRecognitionService.js:645 | the stable sort orders by descending score, with ties in scan order |
| Matcher.SortDescPermutes | services/imageRecognitionService.js:645 | the sort is a permutation of the candidates |
| Matcher.SliceTo | services/imageRecognitionService.js:656 | `slice(0, topN)` is a prefix of length min(topN, n) for topN >= 0, and drops -topN elements from the end for negative topN |
| Matcher.MatchesSoundAndSorted | services/imageRecognitionService.js:623-656 | every listed match is a kept image with its true score >= 0.70, profile and level; the list is non-increasing; for topN >= 0 it holds exactly min(topN, M) matches, M being the number of images scoring >= 0.70; no unlisted kept image scores above a listed one |
| Matcher.CandidatesCount | services/imageRecognitionService.js:625-642 | the scan finds exactly one candidate per image scoring >= 0.70 (KeptCount of them) |
| Matcher.MatchesComplete | services/imageRecognitionService.js:625-656 | for any topN >= 0, every image that passes the threshold is listed unless topN matches already are; when topN covers the corpus, every such image is listed |
| Matcher.RankCorpus | services/imageRecognitionService.js:623-659 | at most one match per stored image is listed, a non-empty list is headed by the best match, and the level is "no-match" exactly when there is no best match |
| Matcher.OrderedMatchesDistinct | services/imageRecognitionService.js:623-646 | in the sorted matches, and in any prefix of them, no stored image appears twice |
| Matcher.BestIsKept | services/imageRecognitionService.js:633-647 | the best match is the match of a stored image whose signature scores at least 0.70 |
| Matcher.KeptGivesBest | services/imageRecognitionService.js:633-647 | a best match is reported as soon as one stored image scores at least 0.70 |
| Matcher.BestMatch | services/imageRecognitionService.js:647-648 | the best match exists iff some image passes the threshold; the overall confidence is its level, and otherwise it is "no-match" with no matches |
| Matcher.BestIsHighest | services/imageRecognitionService.js:645-647 | the best match scores at least as high as every kept image and every listed match |
| Matcher.BestIgnoresTopN | services/imageRecognitionService.js:647-659 | the best match and the overall confidence do not depend on topN |
| Matcher.ZeroTopNStillReportsBest | services/imageRecognitionService.js:647-656 | with topN = 0 the list is empty, yet a best match is reported whenever some image passes |
| Matcher.FindBestMatchesSound | services/imageRecognitionService.js:625-659 | in terms of the enhanced similarity: the matches are sound, non-increasing, at most topN long, and headed by the best match when non-empty |
| Matcher.FindBestMatchesCount | services/imageRecognitionService.js:625-656 | in terms of the enhanced similarity and for topN >= 0: exactly min(topN, M) matches, M being the number of images scoring >= 0.70, and every such image is listed unless topN already are |
| Matcher.FindBestMatchesOf | services/imageRecognitionService.js:611-660 | a null query finds nothing; otherwise every listed match and the best match name a stored image and score in [0.70, 1] |
| Matcher.FindBestMatches | services/imageRecognitionService.js:611-660 | the scan, filter, sort and slice loops compute the result characterised by the lemmas above |
| Profile.AddImage | models/mongo/Profile.js:14-18 | afterwards id is in the list and the old list is a prefix of it; a present id leaves the list unchanged; an absent id is appended at the end, growing the list by exactly 1 |
| Profile.AddContents | models/mongo/Profile.js:15-16 | the set of ids grows by exactly {id}, and earlier ids keep their positions |
| Profile.AddKeepsNoDuplicates | models/mongo/Profile.js:14-17 | a list without duplicates stays without duplicates |
| Profile.AddIdempotent | models/mongo/Profile.js:15 | adding the same id twice is the same as adding it once |

## Left out

- Image download and preprocessing (`downloadImage`, `preprocessImage`): network, retry timers and image-library calls.
- The image library's `resize`, `greyscale` and `raw` steps: their interpolation is not visible. Their pixel outputs are inputs (`Signatures.Samples`), and a library exception is a `None` raster.
- The md5 digest: the cache key is an abstract `Digest` string supplied by the caller.
- `Math.sqrt`: a parameter constrained only by `IsSqrt`.
- Floating-point rounding: all arithmetic is exact over `real`. NaN and Infinity cannot arise in the model. The `|| 0` fallback in the weighted sum is therefore an identity.
- `processPerson`, `initializeCacheDirectories`, console logging and the percentage strings: I/O and presentation.
- `ProfileImage.findAll` and `getProfile`: the corpus is a `seq<StoredImage>`, and a profile is an opaque `nat` reference.
- `save()` in the profile schema: persistence. `Profile.AddImage` returns the new list instead.
- 4-channel (RGBA) colour buffers: the colour histogram assumes 3 bytes per pixel, the layout the source strides over.
- Signatures.Signature: an undefined hash string is the empty sequence, which `hammingDistance` treats like an undefined one (line 456). Histogram channels and the brightness profile are always present. Every signature `getEnhancedImageSignature` builds carries them. An undefined one would make `averageArrays` throw (lines 598 and 603), and that path is not modelled.
- Averaging.AverageSignature: requires what the source dereferences (`Averaging.Averageable`): the first signature's hashes (lines 554-556), and every signature's histogram, edge statistics and texture metrics (lines 569-572, 580-581 and 588-590). Without them the source throws, and that path is not modelled.
- Averaging.AverageArrays: an undefined first array makes the source throw; that is not modelled.
- Matcher.MatchesSoundAndSorted: proved for an arbitrary scoring function. `Matcher.FindBestMatchesSound` instantiates it with the enhanced similarity against the query.
- Matcher.FindBestMatches: `topN` is an explicit parameter. The source's default of 3 (line 611) is not modelled, and controllers/searchController.js:24 passes 10.

## Behaviour worth knowing

These follow the code as written, where the comments or the natural reading suggest otherwise:

- The combined colour histogram sums to 3, not 1 (`ColorHistogram.CombinedSumsToThree`).
- Edge density divides by the full w x h, not by the (w-2)(h-2) pixels examined. A density of 1 is therefore unreachable (`EdgeDensity.EdgeCountBound`).
- An all-black image scores 0.90 against itself, not 1 (`Similarity.DarkSelfScore`).
- `bestMatch` is the head of the full sorted list, so it can be present even when `topN` is 0 (`Matcher.ZeroTopNStillReportsBest`).
- `hammingDistance` returns the fraction of matching characters, a similarity rather than a distance (`Similarity.HammingProperties`).
