/**
 * Duplicate detection over face embeddings (the `FaceEmbeddingService`
 * of the attendance camera): cosine similarity and Euclidean distance
 * between two embeddings, L2 normalisation, and a bounded registry of
 * known embeddings searched for the most similar entry.
 *
 * Embeddings are sequences of reals. `Math.sqrt` is a library call the
 * model cannot see, so it is a parameter `sqrt`; the properties that
 * depend on it assume only `IsSqrt(sqrt)`.
 */
module FaceEmbedding {

  import opened Wrappers

  /** A thrown `Error` becomes `Err` carrying its message. */
  type Outcome<T> = Result<T, string>

  type Embedding = seq<real>

  /** One stored identity: the embedding, its person id and `Date.now()` when added. */
  datatype KnownEmbedding = KnownEmbedding(embedding: Embedding, personId: string, timestamp: int)

  /** The value `findMatchingPerson` returns when it finds a match. */
  datatype Match = Match(personId: string, similarity: real)

  /** The value `compareEmbeddings` returns. */
  datatype EmbeddingComparison = EmbeddingComparison(distance: real, similarity: real, isSamePerson: bool)

  const SIMILARITY_THRESHOLD: real := 0.85
  /** The registry is cut back once it holds more than this many entries ... */
  const MAX_KNOWN: nat := 100
  /** ... to this many of the most recent ones. */
  const KEEP_KNOWN: nat := 50
  const LENGTH_MISMATCH: string := "Embeddings must have the same length"

  /** `sqrt` behaves as the non-negative square root on non-negative reals. */
  ghost predicate IsSqrt(sqrt: real -> real)
  {
    forall x: real {:trigger sqrt(x)} :: 0.0 <= x ==> 0.0 <= sqrt(x) && sqrt(x) * sqrt(x) == x
  }

  /** Sum of the products of corresponding components, accumulated from the front. */
  function Dot(a: Embedding, b: Embedding): real
    requires |a| == |b|
    decreases |a|
  {
    if |a| == 0 then 0.0 else Dot(a[..|a| - 1], b[..|b| - 1]) + a[|a| - 1] * b[|b| - 1]
  }

  /** Sum of squared component differences, accumulated from the front. */
  function SquaredDistance(a: Embedding, b: Embedding): real
    requires |a| == |b|
    decreases |a|
  {
    if |a| == 0 then 0.0
    else
      var diff := a[|a| - 1] - b[|b| - 1];
      SquaredDistance(a[..|a| - 1], b[..|b| - 1]) + diff * diff
  }

  predicate IsZero(a: Embedding)
  {
    forall i :: 0 <= i < |a| ==> a[i] == 0.0
  }

  /** Cosine similarity as `calculateCosineSimilarity` computes it. */
  function CosineSimilarity(a: Embedding, b: Embedding, sqrt: real -> real): Outcome<real>
  {
    if |a| != |b| then Err(LENGTH_MISMATCH)
    else Ok(Cosine(Dot(a, b), sqrt(Dot(a, a)), sqrt(Dot(b, b))))
  }

  /** The final step of the cosine: a zero norm on either side gives 0. */
  function Cosine(dot: real, norm1: real, norm2: real): real
  {
    if norm1 == 0.0 || norm2 == 0.0 then 0.0 else dot / (norm1 * norm2)
  }

  lemma CosineQuotient(dot: real, norm1: real, norm2: real)
    requires norm1 != 0.0 && norm2 != 0.0
    ensures Cosine(dot, norm1, norm2) == dot / (norm1 * norm2)
  {
  }

  /** Euclidean distance as `calculateEuclideanDistance` computes it. */
  function EuclideanDistance(a: Embedding, b: Embedding, sqrt: real -> real): Outcome<real>
  {
    if |a| != |b| then Err(LENGTH_MISMATCH) else Ok(sqrt(SquaredDistance(a, b)))
  }

  /** The similarity of `e` to a stored entry of the same length. */
  function SimilarityTo(e: Embedding, known: KnownEmbedding, sqrt: real -> real): real
    requires |known.embedding| == |e|
  {
    CosineSimilarity(e, known.embedding, sqrt).value
  }

  // ---------------------------------------------------------------------
  // Facts about the vector arithmetic

  /** A product with a non-zero factor vanishes only when the other factor does. */
  lemma ZeroProduct(x: real, y: real)
    requires y != 0.0 && x * y == 0.0
    ensures x == 0.0
  {
    assert x == (x * y) / y;
  }

  /** A square is never negative, and positive away from zero. */
  lemma SquarePositive(x: real)
    ensures x * x >= 0.0
    ensures x != 0.0 ==> x * x > 0.0
  {
  }

  /** A square vanishes only at zero. */
  lemma SquareZero(x: real)
    requires x * x == 0.0
    ensures x == 0.0
  {
    if x != 0.0 {
      ZeroProduct(x, x);
    }
  }

  lemma MulPositive(x: real, y: real)
    requires x > 0.0 && y > 0.0
    ensures x * y > 0.0
  {
  }

  lemma SqrtPositive(sqrt: real -> real, x: real)
    requires IsSqrt(sqrt) && x > 0.0
    ensures sqrt(x) > 0.0
  {
    var s := sqrt(x);
    assert s >= 0.0 && s * s == x;
    assert s != 0.0;
  }

  lemma {:induction false} DotSelfNonNegative(a: Embedding)
    ensures Dot(a, a) >= 0.0
    ensures Dot(a, a) == 0.0 <==> IsZero(a)
    decreases |a|
  {
    if |a| > 0 {
      var n := |a| - 1;
      var p := a[..n];
      DotSelfNonNegative(p);
      SquarePositive(a[n]);
      assert Dot(a, a) == Dot(p, p) + a[n] * a[n];
      if Dot(a, a) == 0.0 {
        assert a[n] * a[n] == 0.0;
        SquareZero(a[n]);
        assert IsZero(p);
        forall i | 0 <= i < |a| ensures a[i] == 0.0 {
          if i < n { assert a[i] == p[i]; }
        }
      }
      if IsZero(a) {
        assert a[n] == 0.0;
        assert IsZero(p) by {
          forall i | 0 <= i < |p| ensures p[i] == 0.0 { assert p[i] == a[i]; }
        }
      }
    }
  }

  lemma {:induction false} DotSymmetric(a: Embedding, b: Embedding)
    requires |a| == |b|
    ensures Dot(a, b) == Dot(b, a)
    decreases |a|
  {
    if |a| > 0 { DotSymmetric(a[..|a| - 1], b[..|b| - 1]); }
  }

  /** The squared distance expands into dot products. */
  lemma {:induction false} SquaredDistanceExpands(a: Embedding, b: Embedding)
    requires |a| == |b|
    ensures SquaredDistance(a, b) == Dot(a, a) - 2.0 * Dot(a, b) + Dot(b, b)
    decreases |a|
  {
    if |a| > 0 {
      var n := |a| - 1;
      SquaredDistanceExpands(a[..n], b[..n]);
      var x, y := a[n], b[n];
      assert (x - y) * (x - y) == x * x - 2.0 * (x * y) + y * y;
    }
  }

  lemma SqrtZeroIff(sqrt: real -> real, x: real)
    requires IsSqrt(sqrt) && 0.0 <= x
    ensures sqrt(x) == 0.0 <==> x == 0.0
  {
    if x == 0.0 {
      SquareZero(sqrt(x));
    } else {
      SqrtPositive(sqrt, x);
    }
  }

  lemma SqrtOfOne(sqrt: real -> real)
    requires IsSqrt(sqrt)
    ensures sqrt(1.0) == 1.0
  {
    var s := sqrt(1.0);
    assert s >= 0.0 && s * s == 1.0;
    assert (s - 1.0) * (s + 1.0) == s * s - 1.0;
    ZeroProduct(s - 1.0, s + 1.0);
  }

  // ---------------------------------------------------------------------
  // Properties of the two metrics

  /** Both metrics fail exactly when the lengths differ. */
  lemma MetricsFailOnLengthMismatch(a: Embedding, b: Embedding, sqrt: real -> real)
    ensures CosineSimilarity(a, b, sqrt).Err? <==> |a| != |b|
    ensures EuclideanDistance(a, b, sqrt).Err? <==> |a| != |b|
    ensures |a| != |b| ==>
      (CosineSimilarity(a, b, sqrt) == Err(LENGTH_MISMATCH) && EuclideanDistance(a, b, sqrt) == Err(LENGTH_MISMATCH))
  {
  }

  /** The zero-norm guard: a zero vector on either side gives similarity 0. */
  lemma CosineOfZeroVector(a: Embedding, b: Embedding, sqrt: real -> real)
    requires IsSqrt(sqrt) && |a| == |b|
    requires IsZero(a) || IsZero(b)
    ensures CosineSimilarity(a, b, sqrt) == Ok(0.0)
  {
    DotSelfNonNegative(a);
    DotSelfNonNegative(b);
    if IsZero(a) {
      SqrtZeroIff(sqrt, Dot(a, a));
    } else {
      SqrtZeroIff(sqrt, Dot(b, b));
    }
  }

  /** Past the guard: two non-zero vectors have positive norms, and their
      similarity is the dot product over the product of the norms. */
  lemma CosineOfNonZeroVectors(a: Embedding, b: Embedding, sqrt: real -> real)
    requires IsSqrt(sqrt) && |a| == |b|
    requires !IsZero(a) && !IsZero(b)
    ensures sqrt(Dot(a, a)) > 0.0 && sqrt(Dot(b, b)) > 0.0
    ensures sqrt(Dot(a, a)) * sqrt(Dot(b, b)) > 0.0
    ensures CosineSimilarity(a, b, sqrt) == Ok(Dot(a, b) / (sqrt(Dot(a, a)) * sqrt(Dot(b, b))))
  {
    DotSelfNonNegative(a);
    DotSelfNonNegative(b);
    SqrtPositive(sqrt, Dot(a, a));
    SqrtPositive(sqrt, Dot(b, b));
    MulPositive(sqrt(Dot(a, a)), sqrt(Dot(b, b)));
  }

  /** A non-zero embedding has similarity exactly 1 with itself. */
  lemma CosineSelfIsOne(a: Embedding, sqrt: real -> real)
    requires IsSqrt(sqrt) && !IsZero(a)
    ensures CosineSimilarity(a, a, sqrt) == Ok(1.0)
  {
    DotSelfNonNegative(a);
    SqrtZeroIff(sqrt, Dot(a, a));
    var d := Dot(a, a);
    var n := sqrt(d);
    assert n * n == d && d != 0.0 && n != 0.0;
    CosineQuotient(d, n, n);
    assert CosineSimilarity(a, a, sqrt) == Ok(d / (n * n));
    assert d / (n * n) == d / d == 1.0;
  }

  lemma CosineSymmetric(a: Embedding, b: Embedding, sqrt: real -> real)
    ensures CosineSimilarity(a, b, sqrt) == CosineSimilarity(b, a, sqrt)
  {
    if |a| == |b| {
      DotSymmetric(a, b);
      var n1, n2 := sqrt(Dot(a, a)), sqrt(Dot(b, b));
      assert n1 * n2 == n2 * n1;
    }
  }

  /** The distance is a non-negative, symmetric quantity that vanishes from a vector to itself. */
  lemma EuclideanDistanceBasics(a: Embedding, b: Embedding, sqrt: real -> real)
    requires IsSqrt(sqrt) && |a| == |b|
    ensures EuclideanDistance(a, b, sqrt).value >= 0.0
    ensures EuclideanDistance(a, b, sqrt) == EuclideanDistance(b, a, sqrt)
    ensures EuclideanDistance(a, a, sqrt) == Ok(0.0)
  {
    SquaredDistanceExpands(a, b);
    SquaredDistanceExpands(b, a);
    SquaredDistanceExpands(a, a);
    DotSymmetric(a, b);
    DotSelfNonNegative(a);
    DotSelfNonNegative(b);
    SqrtZeroIff(sqrt, 0.0);
    assert SquaredDistance(a, b) >= 0.0 by {
      // (a - b) . (a - b) >= 0
      SquaredDistanceNonNegative(a, b);
    }
  }

  lemma {:induction false} SquaredDistanceNonNegative(a: Embedding, b: Embedding)
    requires |a| == |b|
    ensures SquaredDistance(a, b) >= 0.0
    decreases |a|
  {
    if |a| > 0 {
      SquaredDistanceNonNegative(a[..|a| - 1], b[..|b| - 1]);
      var d := a[|a| - 1] - b[|b| - 1];
      assert d * d >= 0.0;
    }
  }

  /** For unit vectors the two metrics agree: squared distance is 2 - 2 * similarity. */
  lemma DistanceOfUnitVectors(a: Embedding, b: Embedding, sqrt: real -> real)
    requires IsSqrt(sqrt) && |a| == |b|
    requires Dot(a, a) == 1.0 && Dot(b, b) == 1.0
    ensures SquaredDistance(a, b) == 2.0 - 2.0 * CosineSimilarity(a, b, sqrt).value
  {
    SquaredDistanceExpands(a, b);
    SqrtOfOne(sqrt);
    assert CosineSimilarity(a, b, sqrt) == Ok(Dot(a, b) / (1.0 * 1.0));
  }

  // ---------------------------------------------------------------------
  // compareEmbeddings and normalizeEmbedding

  /** `compareEmbeddings`: both metrics, and the strict 0.85 verdict. */
  function CompareEmbeddings(a: Embedding, b: Embedding, sqrt: real -> real): (r: Outcome<EmbeddingComparison>)
    ensures r.Err? <==> |a| != |b|
    ensures r.Ok? ==>
      (&& r.value.similarity == CosineSimilarity(a, b, sqrt).value
       && r.value.distance == EuclideanDistance(a, b, sqrt).value
       && (r.value.isSamePerson <==> r.value.similarity > SIMILARITY_THRESHOLD))
  {
    match CosineSimilarity(a, b, sqrt)
    case Err(m) => Err(m)
    case Ok(similarity) =>
      match EuclideanDistance(a, b, sqrt)
      case Err(m) => Err(m)
      case Ok(distance) =>
        Ok(EmbeddingComparison(distance, similarity, similarity > SIMILARITY_THRESHOLD))
  }

  /** `normalizeEmbedding`: divide by the L2 norm when it is positive. */
  function NormalizeEmbedding(e: Embedding, sqrt: real -> real): (r: Embedding)
    ensures |r| == |e|
    ensures sqrt(Dot(e, e)) <= 0.0 ==> r == e
    ensures sqrt(Dot(e, e)) > 0.0 ==> forall i :: 0 <= i < |e| ==> r[i] * sqrt(Dot(e, e)) == e[i]
  {
    var norm := sqrt(Dot(e, e));
    if norm > 0.0 then seq(|e|, i requires 0 <= i < |e| => e[i] / norm) else e
  }

  /** Scaling every component by `k` scales the squared norm by `kk == k * k`. */
  lemma {:induction false} DotScaled(a: Embedding, r: Embedding, k: real, kk: real)
    requires |a| == |r| && kk == k * k
    requires forall i :: 0 <= i < |a| ==> r[i] * k == a[i]
    ensures Times(Dot(r, r), kk) == Dot(a, a)
    decreases |a|
  {
    if |a| > 0 {
      var n := |a| - 1;
      DotScaled(a[..n], r[..n], k, kk);
      SquareScaled(r[n], k, kk, a[n]);
    }
  }

  lemma SquareScaled(x: real, k: real, kk: real, y: real)
    requires kk == k * k && x * k == y
    ensures (x * x) * kk == y * y
  {
  }

  /** A product kept as one term, so that equal factors give equal products
      without the solver reasoning about the multiplication itself. */
  function Times(x: real, y: real): real
  {
    x * y
  }

  /** If scaling `d` by a positive number gives back that number, `d` is 1. */
  lemma UnitFromScaled(d: real, m: real)
    requires m > 0.0 && Times(d, m) == m
    ensures d == 1.0
  {
    assert d == (d * m) / m;
  }

  /** Normalising a non-zero embedding yields a unit vector; a zero one is returned as is. */
  lemma NormalizeGivesUnitVector(e: Embedding, sqrt: real -> real)
    requires IsSqrt(sqrt)
    ensures IsZero(e) ==> NormalizeEmbedding(e, sqrt) == e
    ensures !IsZero(e) ==> Dot(NormalizeEmbedding(e, sqrt), NormalizeEmbedding(e, sqrt)) == 1.0
  {
    DotSelfNonNegative(e);
    if IsZero(e) {
      SqrtZeroIff(sqrt, Dot(e, e));
    } else {
      NormalizeNonZero(e, sqrt);
    }
  }

  lemma NormalizeNonZero(e: Embedding, sqrt: real -> real)
    requires IsSqrt(sqrt) && Dot(e, e) > 0.0
    ensures Dot(NormalizeEmbedding(e, sqrt), NormalizeEmbedding(e, sqrt)) == 1.0
  {
    SqrtPositive(sqrt, Dot(e, e));
    DotScaled(e, NormalizeEmbedding(e, sqrt), sqrt(Dot(e, e)), Dot(e, e));
    UnitFromScaled(Dot(NormalizeEmbedding(e, sqrt), NormalizeEmbedding(e, sqrt)), Dot(e, e));
  }

  // ---------------------------------------------------------------------
  // The two loops over components

  /** The loop of `calculateCosineSimilarity`. */
  method CalculateCosineSimilarity(embedding1: Embedding, embedding2: Embedding, sqrt: real -> real)
    returns (r: Outcome<real>)
    ensures r == CosineSimilarity(embedding1, embedding2, sqrt)
  {
    if |embedding1| != |embedding2| {
      return Err(LENGTH_MISMATCH);
    }
    var dotProduct, norm1, norm2 := 0.0, 0.0, 0.0;
    for i := 0 to |embedding1|
      invariant dotProduct == Dot(embedding1[..i], embedding2[..i])
      invariant norm1 == Dot(embedding1[..i], embedding1[..i])
      invariant norm2 == Dot(embedding2[..i], embedding2[..i])
    {
      assert embedding1[..i + 1][..i] == embedding1[..i];
      assert embedding2[..i + 1][..i] == embedding2[..i];
      dotProduct := dotProduct + embedding1[i] * embedding2[i];
      norm1 := norm1 + embedding1[i] * embedding1[i];
      norm2 := norm2 + embedding2[i] * embedding2[i];
    }
    assert embedding1[..|embedding1|] == embedding1;
    assert embedding2[..|embedding2|] == embedding2;
    assert dotProduct == Dot(embedding1, embedding2);
    norm1 := sqrt(norm1);
    norm2 := sqrt(norm2);
    assert norm1 == sqrt(Dot(embedding1, embedding1));
    assert norm2 == sqrt(Dot(embedding2, embedding2));
    if norm1 == 0.0 || norm2 == 0.0 {
      return Ok(0.0);
    }
    CosineQuotient(dotProduct, norm1, norm2);
    return Ok(dotProduct / (norm1 * norm2));
  }

  /** The loop of `calculateEuclideanDistance`. */
  method CalculateEuclideanDistance(embedding1: Embedding, embedding2: Embedding, sqrt: real -> real)
    returns (r: Outcome<real>)
    ensures r == EuclideanDistance(embedding1, embedding2, sqrt)
  {
    if |embedding1| != |embedding2| {
      return Err(LENGTH_MISMATCH);
    }
    var sum := 0.0;
    for i := 0 to |embedding1|
      invariant sum == SquaredDistance(embedding1[..i], embedding2[..i])
    {
      assert embedding1[..i + 1][..i] == embedding1[..i];
      assert embedding2[..i + 1][..i] == embedding2[..i];
      var diff := embedding1[i] - embedding2[i];
      sum := sum + diff * diff;
    }
    assert embedding1[..|embedding1|] == embedding1;
    assert embedding2[..|embedding2|] == embedding2;
    return Ok(sqrt(sum));
  }

  // ---------------------------------------------------------------------
  // The best-match scan of `findMatchingPerson`

  /** What the scan carries from one entry to the next. */
  datatype ScanState = ScanState(bestMatch: Option<Match>, bestSimilarity: real)

  /** The scan over `known`, entry by entry, exactly as the loop runs it:
      the first length mismatch throws, and an entry replaces the current best
      only when its similarity is strictly above both the threshold and the best so far. */
  function Scan(known: seq<KnownEmbedding>, e: Embedding, threshold: real, sqrt: real -> real): Outcome<ScanState>
    decreases |known|
  {
    if |known| == 0 then Ok(ScanState(None, -1.0))
    else
      match Scan(known[..|known| - 1], e, threshold, sqrt)
      case Err(m) => Err(m)
      case Ok(st) =>
        var last := known[|known| - 1];
        match CosineSimilarity(e, last.embedding, sqrt)
        case Err(m) => Err(m)
        case Ok(similarity) =>
          if similarity > threshold && similarity > st.bestSimilarity
          then Ok(ScanState(Some(Match(last.personId, similarity)), similarity))
          else Ok(st)
  }

  /** The result of `findMatchingPerson(e, threshold)` on the registry `known`. */
  function FindMatch(known: seq<KnownEmbedding>, e: Embedding, threshold: real, sqrt: real -> real): Outcome<Option<Match>>
  {
    match Scan(known, e, threshold, sqrt)
    case Err(m) => Err(m)
    case Ok(st) => Ok(st.bestMatch)
  }

  predicate SameLengths(known: seq<KnownEmbedding>, e: Embedding)
  {
    forall k :: 0 <= k < |known| ==> |known[k].embedding| == |e|
  }

  /** Entry `k` is the one the scan keeps: its similarity beats the threshold
      and -1, no entry is more similar, and every earlier entry is strictly less similar. */
  predicate IsBestAt(known: seq<KnownEmbedding>, e: Embedding, threshold: real, sqrt: real -> real, k: int, m: Match)
    requires SameLengths(known, e)
  {
    && 0 <= k < |known|
    && m == Match(known[k].personId, SimilarityTo(e, known[k], sqrt))
    && m.similarity > threshold && m.similarity > -1.0
    && (forall j :: 0 <= j < |known| ==> SimilarityTo(e, known[j], sqrt) <= m.similarity)
    && (forall j :: 0 <= j < k ==> SimilarityTo(e, known[j], sqrt) < m.similarity)
  }

  /** No entry passes the test of the loop. */
  predicate NoneQualifies(known: seq<KnownEmbedding>, e: Embedding, threshold: real, sqrt: real -> real)
    requires SameLengths(known, e)
  {
    forall j :: 0 <= j < |known| ==>
      SimilarityTo(e, known[j], sqrt) <= threshold || SimilarityTo(e, known[j], sqrt) <= -1.0
  }

  lemma {:induction false} ScanErrorIff(known: seq<KnownEmbedding>, e: Embedding, threshold: real, sqrt: real -> real)
    ensures Scan(known, e, threshold, sqrt).Err? <==> !SameLengths(known, e)
    ensures Scan(known, e, threshold, sqrt).Err? ==> Scan(known, e, threshold, sqrt) == Err(LENGTH_MISMATCH)
    decreases |known|
  {
    if |known| > 0 {
      var p := known[..|known| - 1];
      ScanErrorIff(p, e, threshold, sqrt);
      assert forall k :: 0 <= k < |p| ==> p[k] == known[k];
    }
  }

  /** What the loop keeps true of `bestMatch` and `bestSimilarity`. */
  ghost predicate ScanInvariant(known: seq<KnownEmbedding>, e: Embedding, threshold: real, sqrt: real -> real, st: ScanState)
    requires SameLengths(known, e)
  {
    && (st.bestMatch.None? ==> st.bestSimilarity == -1.0 && NoneQualifies(known, e, threshold, sqrt))
    && (st.bestMatch.Some? ==>
          (st.bestSimilarity == st.bestMatch.value.similarity &&
           exists k :: IsBestAt(known, e, threshold, sqrt, k, st.bestMatch.value)))
  }

  lemma {:induction false} ScanKeepsBest(known: seq<KnownEmbedding>, e: Embedding, threshold: real, sqrt: real -> real)
    requires SameLengths(known, e)
    ensures Scan(known, e, threshold, sqrt).Ok?
    ensures ScanInvariant(known, e, threshold, sqrt, Scan(known, e, threshold, sqrt).value)
    decreases |known|
  {
    ScanErrorIff(known, e, threshold, sqrt);
    if |known| > 0 {
      var n := |known| - 1;
      var p := known[..n];
      assert forall k :: 0 <= k < n ==> p[k] == known[k];
      ScanKeepsBest(p, e, threshold, sqrt);
      var st := Scan(p, e, threshold, sqrt).value;
      var s := SimilarityTo(e, known[n], sqrt);
      if s > threshold && s > st.bestSimilarity {
        assert Scan(known, e, threshold, sqrt).value == ScanState(Some(Match(known[n].personId, s)), s);
        ScanNewBest(known, e, threshold, sqrt, st);
      } else {
        assert Scan(known, e, threshold, sqrt).value == st;
        ScanKeepsOld(known, e, threshold, sqrt, st);
      }
    }
  }

  /** The last entry beats the best of the others: it becomes the match. */
  lemma ScanNewBest(known: seq<KnownEmbedding>, e: Embedding, threshold: real, sqrt: real -> real, st: ScanState)
    requires SameLengths(known, e) && |known| > 0
    requires SameLengths(known[..|known| - 1], e)
    requires ScanInvariant(known[..|known| - 1], e, threshold, sqrt, st)
    requires SimilarityTo(e, known[|known| - 1], sqrt) > threshold
    requires SimilarityTo(e, known[|known| - 1], sqrt) > st.bestSimilarity
    ensures ScanInvariant(known, e, threshold, sqrt,
      ScanState(Some(Match(known[|known| - 1].personId, SimilarityTo(e, known[|known| - 1], sqrt))),
                SimilarityTo(e, known[|known| - 1], sqrt)))
  {
    var n := |known| - 1;
    var p := known[..n];
    var s := SimilarityTo(e, known[n], sqrt);
    assert forall k :: 0 <= k < n ==> p[k] == known[k];
    if st.bestMatch.Some? {
      var k :| IsBestAt(p, e, threshold, sqrt, k, st.bestMatch.value);
      assert forall j :: 0 <= j < n ==> SimilarityTo(e, known[j], sqrt) < s;
    } else {
      assert forall j :: 0 <= j < n ==> SimilarityTo(e, known[j], sqrt) < s;
    }
    assert IsBestAt(known, e, threshold, sqrt, n, Match(known[n].personId, s));
  }

  /** The last entry does not beat the best of the others: nothing changes. */
  lemma ScanKeepsOld(known: seq<KnownEmbedding>, e: Embedding, threshold: real, sqrt: real -> real, st: ScanState)
    requires SameLengths(known, e) && |known| > 0
    requires SameLengths(known[..|known| - 1], e)
    requires ScanInvariant(known[..|known| - 1], e, threshold, sqrt, st)
    requires !(SimilarityTo(e, known[|known| - 1], sqrt) > threshold &&
               SimilarityTo(e, known[|known| - 1], sqrt) > st.bestSimilarity)
    ensures ScanInvariant(known, e, threshold, sqrt, st)
  {
    var n := |known| - 1;
    var p := known[..n];
    assert forall k :: 0 <= k < n ==> p[k] == known[k];
    if st.bestMatch.Some? {
      var k :| IsBestAt(p, e, threshold, sqrt, k, st.bestMatch.value);
      assert IsBestAt(known, e, threshold, sqrt, k, st.bestMatch.value);
    }
  }

  /** What `findMatchingPerson` promises: it throws exactly when some stored
      embedding has another length; otherwise it returns null exactly when no
      entry's similarity is strictly above the threshold (and above the initial -1),
      and a match is the most similar entry, ties going to the earliest. */
  lemma FindMatchSpec(known: seq<KnownEmbedding>, e: Embedding, threshold: real, sqrt: real -> real)
    ensures FindMatch(known, e, threshold, sqrt).Err? <==> !SameLengths(known, e)
    ensures FindMatch(known, e, threshold, sqrt).Err? ==> FindMatch(known, e, threshold, sqrt) == Err(LENGTH_MISMATCH)
    ensures SameLengths(known, e) ==>
      (FindMatch(known, e, threshold, sqrt) == Ok(None) <==> NoneQualifies(known, e, threshold, sqrt))
    ensures SameLengths(known, e) && FindMatch(known, e, threshold, sqrt).Ok? &&
            FindMatch(known, e, threshold, sqrt).value.Some? ==>
      exists k :: IsBestAt(known, e, threshold, sqrt, k, FindMatch(known, e, threshold, sqrt).value.value)
  {
    ScanErrorIff(known, e, threshold, sqrt);
    if SameLengths(known, e) {
      ScanKeepsBest(known, e, threshold, sqrt);
      var st := Scan(known, e, threshold, sqrt).value;
      if st.bestMatch.Some? {
        var k :| IsBestAt(known, e, threshold, sqrt, k, st.bestMatch.value);
        assert !NoneQualifies(known, e, threshold, sqrt) by {
          assert !(SimilarityTo(e, known[k], sqrt) <= threshold || SimilarityTo(e, known[k], sqrt) <= -1.0);
        }
      }
    }
  }

  /** The registry after `addKnownEmbedding`: the new entry at the end, and the
      last `KEEP_KNOWN` entries only once the list has grown past `MAX_KNOWN`. */
  function Appended(known: seq<KnownEmbedding>, entry: KnownEmbedding): (r: seq<KnownEmbedding>)
    ensures 0 < |r| <= MAX_KNOWN && |r| <= |known| + 1
    ensures r[|r| - 1] == entry
    ensures r == (known + [entry])[|known| + 1 - |r|..]
    ensures |known| < MAX_KNOWN ==> r == known + [entry]
    ensures |known| >= MAX_KNOWN ==> |r| == KEEP_KNOWN
  {
    var grown := known + [entry];
    if |grown| > MAX_KNOWN then grown[|grown| - KEEP_KNOWN..] else grown
  }

  /** The browser test's duplicate check: right after adding a non-zero
      embedding, looking it up at the default threshold finds a match of
      similarity at least 1; on an empty registry the match is that entry itself. */
  lemma AddThenFindMatches(known: seq<KnownEmbedding>, e: Embedding, personId: string, now: int, sqrt: real -> real)
    requires IsSqrt(sqrt) && !IsZero(e) && SameLengths(known, e)
    ensures var r := FindMatch(Appended(known, KnownEmbedding(e, personId, now)), e, SIMILARITY_THRESHOLD, sqrt);
      r.Ok? && r.value.Some? && r.value.value.similarity >= 1.0
    ensures known == [] ==>
      FindMatch(Appended(known, KnownEmbedding(e, personId, now)), e, SIMILARITY_THRESHOLD, sqrt)
        == Ok(Some(Match(personId, 1.0)))
  {
    var entry := KnownEmbedding(e, personId, now);
    var reg := Appended(known, entry);
    assert SameLengths(reg, e) by {
      forall k | 0 <= k < |reg| ensures |reg[k].embedding| == |e| {
        assert reg[k] == (known + [entry])[|known| + 1 - |reg| + k];
      }
    }
    CosineSelfIsOne(e, sqrt);
    FindMatchSpec(reg, e, SIMILARITY_THRESHOLD, sqrt);
    var last := |reg| - 1;
    assert SimilarityTo(e, reg[last], sqrt) == 1.0;
    assert !NoneQualifies(reg, e, SIMILARITY_THRESHOLD, sqrt);
    var m := FindMatch(reg, e, SIMILARITY_THRESHOLD, sqrt).value.value;
    var k :| IsBestAt(reg, e, SIMILARITY_THRESHOLD, sqrt, k, m);
    assert m.similarity >= SimilarityTo(e, reg[last], sqrt);
    if known == [] {
      assert reg == [entry];
      assert k == 0;
    }
  }

  // ---------------------------------------------------------------------
  // The service object

  class FaceEmbeddingService {
    /** The registry of known embeddings, oldest first. */
    var knownEmbeddings: seq<KnownEmbedding>

    constructor ()
      ensures knownEmbeddings == []
    {
      knownEmbeddings := [];
    }

    /** `findMatchingPerson`: the loop keeping the best entry so far. */
    method FindMatchingPerson(newEmbedding: Embedding, threshold: real, sqrt: real -> real)
      returns (r: Outcome<Option<Match>>)
      ensures r == FindMatch(knownEmbeddings, newEmbedding, threshold, sqrt)
    {
      var bestMatch: Option<Match> := None;
      var bestSimilarity := -1.0;
      for i := 0 to |knownEmbeddings|
        invariant Scan(knownEmbeddings[..i], newEmbedding, threshold, sqrt) == Ok(ScanState(bestMatch, bestSimilarity))
      {
        var known := knownEmbeddings[i];
        assert knownEmbeddings[..i + 1][..i] == knownEmbeddings[..i];
        var similarity := CalculateCosineSimilarity(newEmbedding, known.embedding, sqrt);
        if similarity.Err? {
          assert Scan(knownEmbeddings[..i + 1], newEmbedding, threshold, sqrt).Err?;
          ScanErrorIff(knownEmbeddings[..i + 1], newEmbedding, threshold, sqrt);
          ScanErrorIff(knownEmbeddings, newEmbedding, threshold, sqrt);
          assert !SameLengths(knownEmbeddings, newEmbedding) by {
            assert knownEmbeddings[i] == knownEmbeddings[..i + 1][i];
          }
          return Err(similarity.error);
        }
        if similarity.value > threshold && similarity.value > bestSimilarity {
          bestSimilarity := similarity.value;
          bestMatch := Some(Match(known.personId, similarity.value));
        }
      }
      assert knownEmbeddings[..|knownEmbeddings|] == knownEmbeddings;
      return Ok(bestMatch);
    }

    /** `addKnownEmbedding`; `now` stands for `Date.now()`. */
    method AddKnownEmbedding(embedding: Embedding, personId: string, now: int)
      modifies this
      ensures knownEmbeddings == Appended(old(knownEmbeddings), KnownEmbedding(embedding, personId, now))
    {
      knownEmbeddings := knownEmbeddings + [KnownEmbedding(embedding, personId, now)];
      if |knownEmbeddings| > MAX_KNOWN {
        knownEmbeddings := knownEmbeddings[|knownEmbeddings| - KEEP_KNOWN..];
      }
    }

    method ClearKnownEmbeddings()
      modifies this
      ensures knownEmbeddings == []
    {
      knownEmbeddings := [];
    }

    method GetKnownEmbeddingsCount() returns (count: nat)
      ensures count == |knownEmbeddings|
    {
      return |knownEmbeddings|;
    }
  }
}
