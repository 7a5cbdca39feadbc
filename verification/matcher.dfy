/** `findBestMatches` and `getConfidenceLevel` in services/imageRecognitionService.js: scan the
    stored images, keep those scoring at least 0.70 against the query, sort them by descending
    score and report the first `topN`, the best match and its confidence level. */
module Matcher {
  import opened Wrappers
  import opened Sums
  import opened Signatures
  import opened Similarity

  datatype Confidence = VeryHigh | High | Medium | Low | NoMatch

  /** A stored image: a reference to its profile and its signature, if one was computed. */
  datatype StoredImage = StoredImage(profile: nat, signature: Option<Signature>)

  /** A kept match; `image` is the image's position in the corpus. */
  datatype Match = Match(profile: nat, image: nat, similarity: real, confidence: Confidence)

  datatype MatchResult = MatchResult(matches: seq<Match>, best: Option<Match>, confidence: Confidence)

  const MatchThreshold: real := 0.70

  /** `getConfidenceLevel`: the first threshold the score reaches; never "no-match". */
  function ConfidenceLevel(similarity: real): (c: Confidence)
    ensures c != NoMatch
    ensures InBand(c, similarity)
  {
    if similarity >= 0.95 then VeryHigh
    else if similarity >= 0.90 then High
    else if similarity >= 0.85 then Medium
    else Low
  }

  /** A numeric rank for the levels, higher is more confident. */
  function Rank(c: Confidence): (r: nat)
  {
    match c
    case VeryHigh => 4
    case High => 3
    case Medium => 2
    case Low => 1
    case NoMatch => 0
  }

  /** Independent description of the levels as score bands. */
  predicate InBand(c: Confidence, s: real)
  {
    match c
    case VeryHigh => 0.95 <= s
    case High => 0.90 <= s < 0.95
    case Medium => 0.85 <= s < 0.90
    case Low => s < 0.85
    case NoMatch => false
  }

  /** Every score lies in exactly one band, and it is the band of its confidence level. */
  lemma ConfidenceBands(s: real, c: Confidence)
    ensures InBand(c, s) <==> c == ConfidenceLevel(s)
  {
  }

  /** A higher score never gets a lower level. */
  lemma ConfidenceMonotone(s: real, t: real)
    requires s <= t
    ensures Rank(ConfidenceLevel(s)) <= Rank(ConfidenceLevel(t))
  {
  }

  /** The thresholds are inclusive. */
  lemma ConfidenceBoundaries()
    ensures ConfidenceLevel(0.95) == VeryHigh && ConfidenceLevel(0.9499) == High
    ensures ConfidenceLevel(0.90) == High && ConfidenceLevel(0.8999) == Medium
    ensures ConfidenceLevel(0.85) == Medium && ConfidenceLevel(0.8499) == Low
    ensures ConfidenceLevel(MatchThreshold) == Low
  {
  }

  /** Whether the corpus entry at index k is kept for the query. */
  predicate Kept(score: Signature -> real, corpus: seq<StoredImage>, k: nat)
    requires k < |corpus|
  {
    corpus[k].signature.Some? && score(corpus[k].signature.value) >= MatchThreshold
  }

  /** How many of the first n entries are kept: the number of images scoring at least 0.70. */
  function KeptCount(score: Signature -> real, corpus: seq<StoredImage>, n: nat): (c: nat)
    requires n <= |corpus|
    ensures c <= n
  {
    if n == 0 then 0 else KeptCount(score, corpus, n - 1) + (if Kept(score, corpus, n - 1) then 1 else 0)
  }

  function MatchAt(score: Signature -> real, corpus: seq<StoredImage>, k: nat): (r: Match)
    requires k < |corpus| && corpus[k].signature.Some?
  {
    var s := score(corpus[k].signature.value);
    Match(corpus[k].profile, k, s, ConfidenceLevel(s))
  }

  /** The matches found scanning the first n entries, in scan order. */
  function Candidates(score: Signature -> real, corpus: seq<StoredImage>, n: nat): (r: seq<Match>)
    requires n <= |corpus|
    ensures |r| <= n
  {
    if n == 0 then []
    else
      Candidates(score, corpus, n - 1)
      + (if Kept(score, corpus, n - 1) then [MatchAt(score, corpus, n - 1)] else [])
  }

  /** `a` precedes `b` in the stable descending order of kept matches. */
  predicate Before(a: Match, b: Match)
  {
    a.similarity > b.similarity || (a.similarity == b.similarity && a.image < b.image)
  }

  predicate Ordered(s: seq<Match>)
  {
    forall i, j :: 0 <= i < j < |s| ==> Before(s[i], s[j])
  }

  predicate ScanOrder(s: seq<Match>)
  {
    forall i, j :: 0 <= i < j < |s| ==> s[i].image < s[j].image
  }

  /** Insert m after every element whose score is at least m's: the step of a stable sort by
      descending score, for an m that comes after all of `sorted` in the scan. */
  function Insert(sorted: seq<Match>, m: Match): (r: seq<Match>)
    ensures |r| == |sorted| + 1
  {
    if |sorted| == 0 then [m]
    else if sorted[0].similarity >= m.similarity then [sorted[0]] + Insert(sorted[1..], m)
    else [m] + sorted
  }

  /** The stable sort by descending score (`matches.sort((a, b) => b.similarity - a.similarity)`,
      which is stable in the language's current standard). */
  function SortDesc(ms: seq<Match>): (r: seq<Match>)
    ensures |r| == |ms|
  {
    if |ms| == 0 then [] else Insert(SortDesc(ms[..|ms| - 1]), ms[|ms| - 1])
  }

  /** `matches.slice(0, topN)`: a negative topN counts back from the end. */
  function SliceTo<T>(s: seq<T>, topN: int): (r: seq<T>)
    ensures r <= s
    ensures 0 <= topN ==> |r| == if topN < |s| then topN else |s|
    ensures topN < 0 ==> |r| == if |s| + topN < 0 then 0 else |s| + topN
  {
    if 0 <= topN then (if topN < |s| then s[..topN] else s)
    else if |s| + topN < 0 then []
    else s[..|s| + topN]
  }

  /** The matches of a corpus under a scoring of its signatures: the kept matches sorted by
      descending score, the first topN of them, the best one and its level. At most one match
      per stored image is listed, a non-empty list is headed by the best match, and the overall
      level is "no-match" exactly when there is no best match. */
  function RankCorpus(score: Signature -> real, corpus: seq<StoredImage>, topN: int): (r: MatchResult)
    ensures |r.matches| <= |corpus|
    ensures |r.matches| > 0 ==> r.best == Some(r.matches[0])
    ensures r.best.None? <==> r.confidence == NoMatch
    ensures forall i, j :: 0 <= i < j < |r.matches| ==> r.matches[i].image != r.matches[j].image
  {
    var sorted := SortDesc(Candidates(score, corpus, |corpus|));
    var best := if |sorted| > 0 then Some(sorted[0]) else None;
    SortedCandidates(score, corpus);
    OrderedMatchesDistinct(score, corpus, sorted, SliceTo(sorted, topN));
    assert best.Some? ==> best.value in sorted;
    MatchResult(SliceTo(sorted, topN), best, if best.Some? then best.value.confidence else NoMatch)
  }

  /** `calculateEnhancedSimilarity(uploadedSignature, image.signature)` for a fixed query. */
  function SimilarityTo(sqrt: real -> real, query: Signature): (score: Signature -> real)
    requires IsSqrt(sqrt)
    ensures forall s :: 0.0 <= score(s) <= 1.0
  {
    s => Score(sqrt, Some(query), Some(s))
  }

  /** Reference definition of `findBestMatches` over a corpus: a null query finds nothing;
      otherwise every listed match and the best match score in [0.70, 1] and name a stored
      image. */
  function FindBestMatchesOf(sqrt: real -> real, query: Option<Signature>, corpus: seq<StoredImage>, topN: int)
    : (r: MatchResult)
    requires IsSqrt(sqrt)
    ensures query.None? ==> r.matches == [] && r.best.None? && r.confidence == NoMatch
    ensures forall m :: m in r.matches ==> m.image < |corpus| && MatchThreshold <= m.similarity <= 1.0
    ensures r.best.Some? ==> r.best.value.image < |corpus|
                             && MatchThreshold <= r.best.value.similarity <= 1.0
  {
    if query.None? then MatchResult([], None, NoMatch)
    else
      var score := SimilarityTo(sqrt, query.value);
      MatchesSoundAndSorted(score, corpus, topN);
      BestIsKept(score, corpus, topN);
      RankCorpus(score, corpus, topN)
  }

  /** `findBestMatches`, with the scan and the sort written as loops. */
  method FindBestMatches(sqrt: real -> real, query: Option<Signature>, corpus: seq<StoredImage>, topN: int)
    returns (result: MatchResult)
    requires IsSqrt(sqrt)
    ensures result == FindBestMatchesOf(sqrt, query, corpus, topN)
  {
    if query.None? {
      return MatchResult([], None, NoMatch);
    }
    var matches: seq<Match> := [];
    ghost var score := SimilarityTo(sqrt, query.value);
    for k := 0 to |corpus|
      invariant matches == Candidates(score, corpus, k)
    {
      if corpus[k].signature.Some? {
        var similarity := Score(sqrt, query, corpus[k].signature);
        if similarity >= MatchThreshold {
          matches := matches + [Match(corpus[k].profile, k, similarity, ConfidenceLevel(similarity))];
        }
      }
    }
    var sorted: seq<Match> := [];
    for i := 0 to |matches|
      invariant sorted == SortDesc(matches[..i])
    {
      assert matches[..i + 1][..i] == matches[..i];
      sorted := Insert(sorted, matches[i]);
    }
    assert matches[..|matches|] == matches;
    var best := if |sorted| > 0 then Some(sorted[0]) else None;
    var confidence := if best.Some? then best.value.confidence else NoMatch;
    result := MatchResult(SliceTo(sorted, topN), best, confidence);
  }

  // ---------------------------------------------------------------- properties

  /** The scan lists matches in corpus order, each from an entry it has passed. */
  lemma {:induction false} CandidatesInScanOrder(score: Signature -> real, corpus: seq<StoredImage>, n: nat)
    requires n <= |corpus|
    ensures ScanOrder(Candidates(score, corpus, n))
    ensures forall m :: m in Candidates(score, corpus, n) ==> m.image < n
  {
    if n > 0 {
      CandidatesInScanOrder(score, corpus, n - 1);
    }
  }

  /** Every listed match is the match of a kept entry, with its profile, score and level. */
  lemma {:induction false} CandidatesSound(score: Signature -> real, corpus: seq<StoredImage>, n: nat)
    requires n <= |corpus|
    ensures forall m :: m in Candidates(score, corpus, n) ==>
              m.image < n && Kept(score, corpus, m.image) && m == MatchAt(score, corpus, m.image)
  {
    if n > 0 {
      CandidatesSound(score, corpus, n - 1);
    }
  }

  /** Every kept entry among the first n is listed. */
  lemma {:induction false} CandidatesComplete(score: Signature -> real, corpus: seq<StoredImage>, n: nat)
    requires n <= |corpus|
    ensures forall k :: 0 <= k < n && Kept(score, corpus, k) ==>
              MatchAt(score, corpus, k) in Candidates(score, corpus, n)
  {
    if n > 0 {
      CandidatesComplete(score, corpus, n - 1);
      var prev := Candidates(score, corpus, n - 1);
      forall k | 0 <= k < n && Kept(score, corpus, k)
        ensures MatchAt(score, corpus, k) in Candidates(score, corpus, n)
      {
        if k < n - 1 {
          assert MatchAt(score, corpus, k) in prev;
        }
      }
    }
  }

  /** The scan finds one candidate per kept entry. */
  lemma {:induction false} CandidatesCount(score: Signature -> real, corpus: seq<StoredImage>, n: nat)
    requires n <= |corpus|
    ensures |Candidates(score, corpus, n)| == KeptCount(score, corpus, n)
  {
    if n > 0 {
      CandidatesCount(score, corpus, n - 1);
    }
  }

  /** The scan keeps exactly the entries with a signature scoring at least 0.70, each with its
      profile, score and level, in corpus order. */
  lemma CandidatesExact(score: Signature -> real, corpus: seq<StoredImage>, n: nat)
    requires n <= |corpus|
    ensures ScanOrder(Candidates(score, corpus, n))
    ensures forall m :: m in Candidates(score, corpus, n) ==>
              m.image < n && Kept(score, corpus, m.image) && m == MatchAt(score, corpus, m.image)
    ensures forall k :: 0 <= k < n && Kept(score, corpus, k) ==>
              MatchAt(score, corpus, k) in Candidates(score, corpus, n)
  {
    CandidatesInScanOrder(score, corpus, n);
    CandidatesSound(score, corpus, n);
    CandidatesComplete(score, corpus, n);
  }

  lemma OrderedTail(sorted: seq<Match>)
    requires Ordered(sorted) && |sorted| > 0
    ensures Ordered(sorted[1..])
    ensures forall x :: x in sorted[1..] ==> Before(sorted[0], x)
  {
    var rest := sorted[1..];
    forall i, j | 0 <= i < j < |rest| ensures Before(rest[i], rest[j]) {
      assert rest[i] == sorted[i + 1] && rest[j] == sorted[j + 1];
    }
    forall x | x in rest ensures Before(sorted[0], x) {
      var j :| 0 <= j < |rest| && rest[j] == x;
      assert sorted[j + 1] == x;
    }
  }

  /** Prepending an element that precedes all of an ordered list keeps it ordered. */
  lemma OrderedCons(x: Match, s: seq<Match>)
    requires Ordered(s)
    requires forall y :: y in s ==> Before(x, y)
    ensures Ordered([x] + s)
  {
    var r := [x] + s;
    forall i, j | 0 <= i < j < |r| ensures Before(r[i], r[j]) {
      if i == 0 {
        assert r[j] == s[j - 1];
      } else {
        assert r[i] == s[i - 1] && r[j] == s[j - 1];
      }
    }
  }

  /** Insertion adds exactly the inserted match. */
  lemma {:induction false} InsertPermutes(sorted: seq<Match>, m: Match)
    ensures multiset(Insert(sorted, m)) == multiset(sorted) + multiset{m}
  {
    if |sorted| > 0 && sorted[0].similarity >= m.similarity {
      InsertPermutes(sorted[1..], m);
      assert sorted == [sorted[0]] + sorted[1..];
    }
  }

  /** Inserting a match that comes later in the scan than all of a sorted list keeps it
      sorted. */
  lemma {:induction false} InsertOrdered(sorted: seq<Match>, m: Match)
    requires Ordered(sorted)
    requires forall x :: x in sorted ==> x.image < m.image
    ensures Ordered(Insert(sorted, m))
  {
    if |sorted| == 0 {
    } else if sorted[0].similarity >= m.similarity {
      var rest := sorted[1..];
      OrderedTail(sorted);
      InsertOrdered(rest, m);
      InsertPermutes(rest, m);
      var tail := Insert(rest, m);
      forall x | x in tail ensures Before(sorted[0], x) {
        assert x in multiset(tail);
      }
      OrderedCons(sorted[0], tail);
    } else {
      OrderedTail(sorted);
      OrderedCons(m, sorted);
    }
  }

  /** Sorting loses or adds no match. */
  lemma {:induction false} SortDescPermutes(ms: seq<Match>)
    ensures multiset(SortDesc(ms)) == multiset(ms)
  {
    if |ms| > 0 {
      var init := ms[..|ms| - 1];
      SortDescPermutes(init);
      InsertPermutes(SortDesc(init), ms[|ms| - 1]);
      assert ms == init + [ms[|ms| - 1]];
    }
  }

  /** Dropping the last match of a scan-ordered list leaves a scan-ordered list of earlier
      matches. */
  lemma ScanOrderInit(ms: seq<Match>)
    requires ScanOrder(ms) && |ms| > 0
    ensures ScanOrder(ms[..|ms| - 1])
    ensures forall x :: x in ms[..|ms| - 1] ==> x.image < ms[|ms| - 1].image
  {
  }

  /** Sorting matches listed in scan order yields them ordered by descending score, ties in
      scan order. */
  lemma {:induction false} SortDescOrdered(ms: seq<Match>)
    requires ScanOrder(ms)
    ensures Ordered(SortDesc(ms))
  {
    if |ms| > 0 {
      var init := ms[..|ms| - 1];
      ScanOrderInit(ms);
      SortDescOrdered(init);
      SortDescPermutes(init);
      var sortedInit := SortDesc(init);
      forall x | x in sortedInit ensures x.image < ms[|ms| - 1].image {
        assert x in multiset(sortedInit);
      }
      InsertOrdered(sortedInit, ms[|ms| - 1]);
    }
  }

  /** The head of an ordered list scores at least as high as every element. */
  lemma HeadIsMax(sorted: seq<Match>)
    requires Ordered(sorted) && |sorted| > 0
    ensures forall x :: x in sorted ==> x.similarity <= sorted[0].similarity
  {
    OrderedTail(sorted);
  }

  /** A prefix of an ordered list is ordered, and what it keeps scores at least as high as
      what it drops. */
  lemma PrefixIsBest(sorted: seq<Match>, p: seq<Match>)
    requires Ordered(sorted) && p <= sorted
    ensures Ordered(p)
    ensures forall m, c :: m in p && c in sorted && c !in p ==> c.similarity <= m.similarity
  {
    forall m, c | m in p && c in sorted && c !in p ensures c.similarity <= m.similarity {
      var i :| 0 <= i < |p| && p[i] == m;
      var j :| 0 <= j < |sorted| && sorted[j] == c;
      assert sorted[i] == m;
      if j < |p| {
        assert false;
      }
      assert Before(sorted[i], sorted[j]);
    }
  }

  /** A null query finds nothing. */
  lemma NullQuery(sqrt: real -> real, corpus: seq<StoredImage>, topN: int)
    requires IsSqrt(sqrt)
    ensures FindBestMatchesOf(sqrt, None, corpus, topN) == MatchResult([], None, NoMatch)
  {
  }

  /** The reported matches are sound: every one is a stored image with a signature scoring at
      least 0.70 against the query, carrying its profile, score and level. They are ordered by
      descending score (ties in corpus order), number min(topN, candidates) for a
      non-negative topN, and are the highest-scoring candidates. */
  lemma MatchesSoundAndSorted(score: Signature -> real, corpus: seq<StoredImage>, topN: int)
    ensures var r := RankCorpus(score, corpus, topN);
      && Ordered(r.matches)
      && (forall i, j :: 0 <= i < j < |r.matches| ==> r.matches[i].similarity >= r.matches[j].similarity)
      && (forall m :: m in r.matches ==>
            m.image < |corpus| && corpus[m.image].signature.Some?
            && m.similarity >= MatchThreshold
            && m.similarity == score(corpus[m.image].signature.value)
            && m.profile == corpus[m.image].profile
            && m.confidence == ConfidenceLevel(m.similarity))
      && (0 <= topN ==> |r.matches| <= topN)
      && (0 <= topN ==> var kept := KeptCount(score, corpus, |corpus|);
            |r.matches| == if topN < kept then topN else kept)
      && (forall m, k :: m in r.matches && 0 <= k < |corpus| && Kept(score, corpus, k)
            && MatchAt(score, corpus, k) !in r.matches
            ==> score(corpus[k].signature.value) <= m.similarity)
  {
    var cands := Candidates(score, corpus, |corpus|);
    CandidatesExact(score, corpus, |corpus|);
    SortDescOrdered(cands);
    SortDescPermutes(cands);
    var sorted := SortDesc(cands);
    var r := RankCorpus(score, corpus, topN);
    CandidatesCount(score, corpus, |corpus|);
    PrefixIsBest(sorted, r.matches);
    forall m | m in r.matches
      ensures m in cands
    {
      assert m in multiset(sorted);
    }
    forall k | 0 <= k < |corpus| && Kept(score, corpus, k)
      ensures MatchAt(score, corpus, k) in sorted
    {
      assert MatchAt(score, corpus, k) in multiset(cands);
    }
  }

  /** Every stored image whose signature scores at least 0.70 is listed unless the list is
      already topN long; so with a topN at least the corpus size every such image is listed. */
  lemma MatchesComplete(score: Signature -> real, corpus: seq<StoredImage>, topN: int, k: nat)
    requires 0 <= topN && k < |corpus| && Kept(score, corpus, k)
    ensures var r := RankCorpus(score, corpus, topN);
      MatchAt(score, corpus, k) in r.matches || |r.matches| == topN
    ensures |corpus| <= topN ==> MatchAt(score, corpus, k) in RankCorpus(score, corpus, topN).matches
  {
    SortedCandidates(score, corpus);
    var sorted := SortDesc(Candidates(score, corpus, |corpus|));
    var matches := RankCorpus(score, corpus, topN).matches;
    if |matches| != topN {
      assert matches == sorted;
    }
  }

  /** The sorted candidates: every kept image appears, and the head scores highest. */
  lemma SortedCandidates(score: Signature -> real, corpus: seq<StoredImage>)
    ensures var sorted := SortDesc(Candidates(score, corpus, |corpus|));
      && Ordered(sorted)
      && (forall k :: 0 <= k < |corpus| && Kept(score, corpus, k) ==> MatchAt(score, corpus, k) in sorted)
      && (forall m :: m in sorted ==>
            m.image < |corpus| && Kept(score, corpus, m.image) && m == MatchAt(score, corpus, m.image))
  {
    var cands := Candidates(score, corpus, |corpus|);
    CandidatesExact(score, corpus, |corpus|);
    SortDescOrdered(cands);
    SortDescPermutes(cands);
    var sorted := SortDesc(cands);
    forall k | 0 <= k < |corpus| && Kept(score, corpus, k)
      ensures MatchAt(score, corpus, k) in sorted
    {
      assert MatchAt(score, corpus, k) in multiset(cands);
    }
    forall m | m in sorted ensures m in cands {
      assert m in multiset(sorted);
    }
  }

  /** In an ordered list of matches of stored images no image appears twice: two matches of one
      image are equal, and equal matches are not strictly before one another. The same holds
      for any prefix of the list. */
  lemma OrderedMatchesDistinct(score: Signature -> real, corpus: seq<StoredImage>, sorted: seq<Match>,
                               prefix: seq<Match>)
    requires Ordered(sorted) && prefix <= sorted
    requires forall m :: m in sorted ==>
               m.image < |corpus| && Kept(score, corpus, m.image) && m == MatchAt(score, corpus, m.image)
    ensures forall i, j :: 0 <= i < j < |prefix| ==> prefix[i].image != prefix[j].image
  {
    forall i, j | 0 <= i < j < |prefix|
      ensures prefix[i].image != prefix[j].image
    {
      assert prefix[i] == sorted[i] && prefix[j] == sorted[j];
      assert Before(sorted[i], sorted[j]);
      assert sorted[i] in sorted && sorted[j] in sorted;
    }
  }

  /** The best match is the match of a stored image that passes the threshold. */
  lemma BestIsKept(score: Signature -> real, corpus: seq<StoredImage>, topN: int)
    ensures var r := RankCorpus(score, corpus, topN);
      r.best.Some? ==> && r.best.value.image < |corpus| && Kept(score, corpus, r.best.value.image)
                       && r.best.value == MatchAt(score, corpus, r.best.value.image)
  {
    SortedCandidates(score, corpus);
    var sorted := SortDesc(Candidates(score, corpus, |corpus|));
    if |sorted| > 0 {
      assert sorted[0] in sorted;
    }
  }

  /** Some best match is reported as soon as one stored image passes the threshold. */
  lemma KeptGivesBest(score: Signature -> real, corpus: seq<StoredImage>, topN: int, k: nat)
    requires k < |corpus| && Kept(score, corpus, k)
    ensures RankCorpus(score, corpus, topN).best.Some?
  {
    SortedCandidates(score, corpus);
    assert MatchAt(score, corpus, k) in SortDesc(Candidates(score, corpus, |corpus|));
  }

  /** The best match is the head of the full sorted list: it exists exactly when some image
      scores at least 0.70, whatever topN is (even 0), and the overall confidence is its level
      ("no-match" when there is none). */
  lemma BestMatch(score: Signature -> real, corpus: seq<StoredImage>, topN: int)
    ensures var r := RankCorpus(score, corpus, topN);
      && (r.best.Some? <==> exists k :: 0 <= k < |corpus| && Kept(score, corpus, k))
      && (r.best.Some? ==> r.confidence == ConfidenceLevel(r.best.value.similarity))
      && (r.best.None? ==> r.confidence == NoMatch && r.matches == [])
  {
    BestIsKept(score, corpus, topN);
    if exists k :: 0 <= k < |corpus| && Kept(score, corpus, k) {
      var k :| 0 <= k < |corpus| && Kept(score, corpus, k);
      KeptGivesBest(score, corpus, topN, k);
    }
  }

  /** For a query signature, every reported match is a stored image whose signature scores at
      least 0.70 under `calculateEnhancedSimilarity`, with that score and its level; the list
      is sorted non-increasing, at most topN long, and headed by the best match whenever it is
      non-empty. */
  lemma FindBestMatchesSound(sqrt: real -> real, query: Signature, corpus: seq<StoredImage>, topN: int)
    requires IsSqrt(sqrt)
    ensures var r := FindBestMatchesOf(sqrt, Some(query), corpus, topN);
      && (forall m :: m in r.matches ==>
            m.image < |corpus| && corpus[m.image].signature.Some?
            && m.similarity == Score(sqrt, Some(query), corpus[m.image].signature) >= MatchThreshold
            && m.profile == corpus[m.image].profile
            && m.confidence == ConfidenceLevel(m.similarity))
      && (forall i, j :: 0 <= i < j < |r.matches| ==> r.matches[i].similarity >= r.matches[j].similarity)
      && (0 <= topN ==> |r.matches| <= topN)
      && (|r.matches| > 0 ==> r.best == Some(r.matches[0]))
  {
    var score := SimilarityTo(sqrt, query);
    MatchesSoundAndSorted(score, corpus, topN);
  }

  /** For a non-negative topN the query gets min(topN, M) matches, M being the number of stored
      images scoring at least 0.70 against it, and every such image is listed unless topN
      matches already are. */
  lemma FindBestMatchesCount(sqrt: real -> real, query: Signature, corpus: seq<StoredImage>, topN: int)
    requires IsSqrt(sqrt) && 0 <= topN
    ensures var r := FindBestMatchesOf(sqrt, Some(query), corpus, topN);
      var score := SimilarityTo(sqrt, query);
      && (var kept := KeptCount(score, corpus, |corpus|); |r.matches| == if topN < kept then topN else kept)
      && (forall k :: 0 <= k < |corpus| && Kept(score, corpus, k) ==>
            MatchAt(score, corpus, k) in r.matches || |r.matches| == topN)
  {
    var score := SimilarityTo(sqrt, query);
    MatchesSoundAndSorted(score, corpus, topN);
    if 0 <= topN {
      forall k | 0 <= k < |corpus| && Kept(score, corpus, k)
        ensures MatchAt(score, corpus, k) in RankCorpus(score, corpus, topN).matches
                || |RankCorpus(score, corpus, topN).matches| == topN
      {
        MatchesComplete(score, corpus, topN, k);
      }
    }
  }

  /** The best match and the overall confidence do not depend on topN. */
  lemma BestIgnoresTopN(sqrt: real -> real, query: Option<Signature>, corpus: seq<StoredImage>, topN: int, topN': int)
    requires IsSqrt(sqrt)
    ensures FindBestMatchesOf(sqrt, query, corpus, topN).best == FindBestMatchesOf(sqrt, query, corpus, topN').best
    ensures FindBestMatchesOf(sqrt, query, corpus, topN).confidence
            == FindBestMatchesOf(sqrt, query, corpus, topN').confidence
  {
  }

  /** The best match scores at least as high as every image that passes the threshold, and so
      at least as high as every reported match. */
  lemma BestIsHighest(score: Signature -> real, corpus: seq<StoredImage>, topN: int)
    ensures var r := RankCorpus(score, corpus, topN);
      && (r.best.Some? ==> forall k :: 0 <= k < |corpus| && Kept(score, corpus, k) ==>
            score(corpus[k].signature.value) <= r.best.value.similarity)
      && (r.best.Some? ==> forall m :: m in r.matches ==> m.similarity <= r.best.value.similarity)
  {
    SortedCandidates(score, corpus);
    var sorted := SortDesc(Candidates(score, corpus, |corpus|));
    if |sorted| > 0 {
      HeadIsMax(sorted);
      var r := RankCorpus(score, corpus, topN);
      assert r.matches <= sorted;
      forall m | m in r.matches ensures m in sorted {
        var i :| 0 <= i < |r.matches| && r.matches[i] == m;
        assert sorted[i] == m;
      }
    }
  }

  /** With topN = 0 nothing is listed, yet a best match is still reported when one exists. */
  lemma ZeroTopNStillReportsBest(score: Signature -> real, corpus: seq<StoredImage>, k: nat)
    requires k < |corpus| && Kept(score, corpus, k)
    ensures RankCorpus(score, corpus, 0).matches == []
    ensures RankCorpus(score, corpus, 0).best.Some?
  {
    BestMatch(score, corpus, 0);
  }
}
