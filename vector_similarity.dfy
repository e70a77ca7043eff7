/**
 * Cosine and Euclidean similarity of feature vectors
 * (server/utils/collaborativeFiltering.js, lines 8-40).
 *
 * Scores are exact reals. `Math.sqrt` is passed in as `sqrt`; every
 * statement that needs its meaning requires `IsSqrt(sqrt)`.
 */
module VectorSimilarity {

  type Vector = seq<real>

  /** The similarity functions throw 'Vectors must be of the same length'. */
  datatype Similarity = Ok(value: real) | LengthMismatch

  /** `sqrt` returns the non-negative square root of every non-negative real. */
  ghost predicate IsSqrt(sqrt: real -> real)
  {
    forall x :: 0.0 <= x ==> 0.0 <= sqrt(x) && sqrt(x) * sqrt(x) == x
  }

  /** Sum of `a[i] * b[i]` over the common indices, accumulated left to right. */
  function Dot(a: Vector, b: Vector): real
    requires |a| == |b|
  {
    if |a| == 0 then 0.0
    else Dot(a[..|a| - 1], b[..|a| - 1]) + a[|a| - 1] * b[|a| - 1]
  }

  /** Squared Euclidean norm. */
  function Norm(a: Vector): (n: real)
    ensures n >= 0.0
  {
    if |a| == 0 then 0.0
    else Norm(a[..|a| - 1]) + a[|a| - 1] * a[|a| - 1]
  }

  /** Squared Euclidean distance. */
  function SqDistance(a: Vector, b: Vector): (d: real)
    requires |a| == |b|
    ensures d >= 0.0
  {
    if |a| == 0 then 0.0
    else
      var diff := a[|a| - 1] - b[|a| - 1];
      SqDistance(a[..|a| - 1], b[..|a| - 1]) + diff * diff
  }

  predicate NonNegative(a: Vector)
  {
    forall i :: 0 <= i < |a| ==> a[i] >= 0.0
  }

  lemma MulZero(x: real, y: real)
    requires x * y == 0.0
    ensures x == 0.0 || y == 0.0
  {
  }

  lemma MulPositive(x: real, y: real)
    requires x > 0.0 && y > 0.0
    ensures x * y > 0.0
  {
  }

  /** A positive factor does not change the sign of a product. */
  lemma PositiveFactor(x: real, y: real)
    requires x > 0.0 && x * y >= 0.0
    ensures y >= 0.0
  {
  }

  lemma ReciprocalBound(x: real)
    requires x >= 0.0
    ensures 0.0 < 1.0 / (1.0 + x) <= 1.0
  {
    var q := 1.0 / (1.0 + x);
    assert q * (1.0 + x) == 1.0;
    if q > 1.0 {
      MulPositive(q - 1.0, 1.0 + x);
      assert false;
    }
    if q <= 0.0 {
      assert false;
    }
  }

  lemma SqrtPositive(sqrt: real -> real, x: real)
    requires IsSqrt(sqrt) && x > 0.0
    ensures sqrt(x) > 0.0
  {
    var r := sqrt(x);
    assert r * r == x;
    if r == 0.0 {
      assert false;
    }
  }

  lemma SqrtZero(sqrt: real -> real)
    requires IsSqrt(sqrt)
    ensures sqrt(0.0) == 0.0
  {
    var r := sqrt(0.0);
    assert r * r == 0.0;
    MulZero(r, r);
  }

  /** The value cosineSimilarity computes from the dot product and the two squared norms. */
  function CosineOf(d: real, na: real, nb: real, sqrt: real -> real): real
    requires IsSqrt(sqrt) && na >= 0.0 && nb >= 0.0
  {
    if na == 0.0 || nb == 0.0 then 0.0
    else
      SqrtPositive(sqrt, na);
      SqrtPositive(sqrt, nb);
      MulPositive(sqrt(na), sqrt(nb));
      d / (sqrt(na) * sqrt(nb))
  }

  /** cosineSimilarity: 0 when either norm is 0, otherwise dot / (|a| * |b|). */
  function Cosine(a: Vector, b: Vector, sqrt: real -> real): Similarity
    requires IsSqrt(sqrt)
  {
    if |a| != |b| then LengthMismatch
    else Ok(CosineOf(Dot(a, b), Norm(a), Norm(b), sqrt))
  }

  /** euclideanDistance, turned into a similarity 1 / (1 + distance). */
  function Euclidean(a: Vector, b: Vector, sqrt: real -> real): Similarity
    requires IsSqrt(sqrt)
  {
    if |a| != |b| then LengthMismatch
    else Ok(1.0 / (1.0 + sqrt(SqDistance(a, b))))
  }

  lemma {:induction false} DotSymmetric(a: Vector, b: Vector)
    requires |a| == |b|
    ensures Dot(a, b) == Dot(b, a)
  {
    if |a| > 0 {
      DotSymmetric(a[..|a| - 1], b[..|a| - 1]);
    }
  }

  lemma {:induction false} SqDistanceSymmetric(a: Vector, b: Vector)
    requires |a| == |b|
    ensures SqDistance(a, b) == SqDistance(b, a)
  {
    if |a| > 0 {
      SqDistanceSymmetric(a[..|a| - 1], b[..|a| - 1]);
    }
  }

  lemma {:induction false} DotSelf(a: Vector)
    ensures Dot(a, a) == Norm(a)
  {
    if |a| > 0 {
      DotSelf(a[..|a| - 1]);
    }
  }

  lemma {:induction false} SqDistanceSelf(a: Vector)
    ensures SqDistance(a, a) == 0.0
  {
    if |a| > 0 {
      SqDistanceSelf(a[..|a| - 1]);
    }
  }

  lemma {:induction false} DotNonNegative(a: Vector, b: Vector)
    requires |a| == |b| && NonNegative(a) && NonNegative(b)
    ensures Dot(a, b) >= 0.0
  {
    if |a| > 0 {
      var n := |a| - 1;
      DotNonNegative(a[..n], b[..n]);
      assert a[n] >= 0.0 && b[n] >= 0.0;
      assert a[n] * b[n] >= 0.0;
    }
  }

  /** The quadratic form behind Cauchy-Schwarz: sum of (a[i]*v - b[i]*u)^2 is non-negative. */
  lemma {:induction false} QuadraticNonNegative(a: Vector, b: Vector, u: real, v: real)
    requires |a| == |b|
    ensures Norm(a) * v * v - 2.0 * Dot(a, b) * u * v + Norm(b) * u * u >= 0.0
  {
    if |a| > 0 {
      var n := |a| - 1;
      QuadraticNonNegative(a[..n], b[..n], u, v);
      NormLast(a);
      NormLast(b);
      DotLast(a, b);
      QuadraticStep(Norm(a[..n]), Dot(a[..n], b[..n]), Norm(b[..n]), a[n], b[n], u, v, Norm(a), Dot(a, b), Norm(b));
    }
  }

  lemma NormLast(a: Vector)
    requires |a| > 0
    ensures Norm(a) == Norm(a[..|a| - 1]) + a[|a| - 1] * a[|a| - 1]
  {
  }

  lemma DotLast(a: Vector, b: Vector)
    requires |a| == |b| > 0
    ensures Dot(a, b) == Dot(a[..|a| - 1], b[..|a| - 1]) + a[|a| - 1] * b[|a| - 1]
  {
  }

  /** Adding one coordinate pair adds the square (p v - q u)^2 to the quadratic form. */
  lemma QuadraticStep(na: real, d: real, nb: real, p: real, q: real, u: real, v: real, na': real, d': real, nb': real)
    requires na * v * v - 2.0 * d * u * v + nb * u * u >= 0.0
    requires na' == na + p * p && d' == d + p * q && nb' == nb + q * q
    ensures na' * v * v - 2.0 * d' * u * v + nb' * u * u >= 0.0
  {
    var t := p * v - q * u;
    assert t * t == p * p * v * v - 2.0 * p * q * u * v + q * q * u * u;
    assert na' * v * v == na * v * v + p * p * v * v;
    assert d' * u * v == d * u * v + p * q * u * v;
    assert nb' * u * u == nb * u * u + q * q * u * u;
    assert t * t >= 0.0;
  }

  /** A vector of squared norm 0 is the zero vector, so its dot product with anything is 0. */
  lemma {:induction false} ZeroNormDot(a: Vector, b: Vector)
    requires |a| == |b| && Norm(b) == 0.0
    ensures Dot(a, b) == 0.0
  {
    if |a| > 0 {
      var n := |a| - 1;
      var q := b[n];
      assert Norm(b) == Norm(b[..n]) + q * q;
      assert q * q >= 0.0;
      MulZero(q, q);
      ZeroNormDot(a[..n], b[..n]);
    }
  }

  /** Cauchy-Schwarz: Dot(a, b)^2 <= Norm(a) * Norm(b). */
  lemma CauchySchwarz(a: Vector, b: Vector)
    requires |a| == |b|
    ensures Dot(a, b) * Dot(a, b) <= Norm(a) * Norm(b)
  {
    var d, na, nb := Dot(a, b), Norm(a), Norm(b);
    if nb == 0.0 {
      ZeroNormDot(a, b);
    } else {
      QuadraticNonNegative(a, b, d, nb);
      assert na * nb * nb - 2.0 * d * d * nb + nb * d * d == nb * (na * nb - d * d);
      PositiveFactor(nb, na * nb - d * d);
    }
  }

  lemma SquareBound(d: real, p: real)
    requires p > 0.0 && d * d <= p * p
    ensures -p <= d <= p
  {
    if d > p {
      MulPositive(d - p, d + p);
      assert false;
    }
    if d < -p {
      MulPositive(-p - d, p - d);
      assert false;
    }
  }
  lemma DivideBound(d: real, p: real)
    requires p > 0.0 && -p <= d <= p
    ensures -1.0 <= d / p <= 1.0
    ensures d >= 0.0 ==> d / p >= 0.0
  {
    var q := d / p;
    assert d == q * p;
    if q > 1.0 {
      MulPositive(q - 1.0, p);
      assert false;
    }
    if q < -1.0 {
      MulPositive(-1.0 - q, p);
      assert false;
    }
    if d >= 0.0 && q < 0.0 {
      MulPositive(-q, p);
      assert false;
    }
  }

  /** The arithmetic core of the cosine bound, kept apart from the vectors. */
  lemma RatioOfRoots(d: real, na: real, nb: real, sa: real, sb: real, c: real)
    requires na > 0.0 && nb > 0.0 && sa >= 0.0 && sb >= 0.0
    requires sa * sa == na && sb * sb == nb && d * d <= na * nb
    requires sa * sb != 0.0 && c == d / (sa * sb)
    ensures -1.0 <= c <= 1.0
    ensures d >= 0.0 ==> c >= 0.0
  {
    assert sa != 0.0 && sb != 0.0;
    assert (sa * sb) * (sa * sb) == (sa * sa) * (sb * sb);
    MulPositive(sa, sb);
    SquareBound(d, sa * sb);
    DivideBound(d, sa * sb);
  }

  lemma CosineOfBounded(d: real, na: real, nb: real, sqrt: real -> real)
    requires IsSqrt(sqrt) && na >= 0.0 && nb >= 0.0 && d * d <= na * nb
    ensures -1.0 <= CosineOf(d, na, nb, sqrt) <= 1.0
    ensures d >= 0.0 ==> CosineOf(d, na, nb, sqrt) >= 0.0
  {
    if na != 0.0 && nb != 0.0 {
      SqrtPositive(sqrt, na);
      SqrtPositive(sqrt, nb);
      RatioOfRoots(d, na, nb, sqrt(na), sqrt(nb), CosineOf(d, na, nb, sqrt));
    }
  }

  /** Cosine similarity lies in [-1, 1]; in [0, 1] when neither vector has a negative entry. */
  lemma CosineBounded(a: Vector, b: Vector, sqrt: real -> real)
    requires IsSqrt(sqrt) && |a| == |b|
    ensures -1.0 <= Cosine(a, b, sqrt).value <= 1.0
    ensures NonNegative(a) && NonNegative(b) ==> 0.0 <= Cosine(a, b, sqrt).value
  {
    CauchySchwarz(a, b);
    if NonNegative(a) && NonNegative(b) {
      DotNonNegative(a, b);
    }
    CosineOfBounded(Dot(a, b), Norm(a), Norm(b), sqrt);
  }

  /** Cosine similarity does not depend on the order of its arguments. */
  lemma CosineSymmetric(a: Vector, b: Vector, sqrt: real -> real)
    requires IsSqrt(sqrt)
    ensures Cosine(a, b, sqrt) == Cosine(b, a, sqrt)
  {
    if |a| == |b| {
      DotSymmetric(a, b);
      var na, nb := Norm(a), Norm(b);
      assert sqrt(na) * sqrt(nb) == sqrt(nb) * sqrt(na);
    }
  }

  lemma DivSelf(n: real)
    requires n != 0.0
    ensures n / n == 1.0
  {
  }

  lemma SelfRatio(n: real, r: real, c: real)
    requires r * r == n && n != 0.0 && c == n / (r * r)
    ensures c == 1.0
  {
    assert c == n / n;
    DivSelf(n);
  }

  /** A non-zero vector is perfectly similar to itself. */
  lemma CosineSelf(a: Vector, sqrt: real -> real)
    requires IsSqrt(sqrt) && Norm(a) != 0.0
    ensures Cosine(a, a, sqrt) == Ok(1.0)
  {
    DotSelf(a);
    var n := Norm(a);
    SqrtPositive(sqrt, n);
    SelfRatio(n, sqrt(n), CosineOf(n, n, n, sqrt));
  }

  /** The Euclidean similarity lies in (0, 1], is symmetric, and is 1 for identical vectors. */
  lemma EuclideanFacts(a: Vector, b: Vector, sqrt: real -> real)
    requires IsSqrt(sqrt) && |a| == |b|
    ensures 0.0 < Euclidean(a, b, sqrt).value <= 1.0
    ensures Euclidean(a, b, sqrt) == Euclidean(b, a, sqrt)
    ensures Euclidean(a, a, sqrt) == Ok(1.0)
  {
    SqDistanceSymmetric(a, b);
    SqDistanceSelf(a);
    SqrtZero(sqrt);
    ReciprocalBound(sqrt(SqDistance(a, b)));
  }

  /** One more index of the dot product. */
  lemma DotStep(a: Vector, b: Vector, i: nat)
    requires |a| == |b| && i < |a|
    ensures Dot(a[..i + 1], b[..i + 1]) == Dot(a[..i], b[..i]) + a[i] * b[i]
  {
    assert a[..i + 1][..i] == a[..i] && b[..i + 1][..i] == b[..i];
  }

  /** One more index of the squared norm. */
  lemma NormStep(a: Vector, i: nat)
    requires i < |a|
    ensures Norm(a[..i + 1]) == Norm(a[..i]) + a[i] * a[i]
  {
    assert a[..i + 1][..i] == a[..i];
  }

  /** With both norms non-zero the cosine is the plain quotient. */
  lemma CosineOfPositive(d: real, na: real, nb: real, sqrt: real -> real)
    requires IsSqrt(sqrt) && na > 0.0 && nb > 0.0
    ensures sqrt(na) * sqrt(nb) != 0.0
    ensures CosineOf(d, na, nb, sqrt) == d / (sqrt(na) * sqrt(nb))
  {
    SqrtPositive(sqrt, na);
    SqrtPositive(sqrt, nb);
    MulPositive(sqrt(na), sqrt(nb));
  }

  /** The loop of cosineSimilarity: accumulate the dot product and both squared norms. */
  method CosineSimilarity(a: Vector, b: Vector, sqrt: real -> real) returns (r: Similarity)
    requires IsSqrt(sqrt)
    ensures r == Cosine(a, b, sqrt)
    ensures r.Ok? <==> |a| == |b|
    ensures r.Ok? ==> -1.0 <= r.value <= 1.0
  {
    if |a| != |b| {
      return LengthMismatch;
    }
    var dotProduct, normA, normB := 0.0, 0.0, 0.0;
    var i := 0;
    while i < |a|
      invariant 0 <= i <= |a|
      invariant dotProduct == Dot(a[..i], b[..i])
      invariant normA == Norm(a[..i]) && normB == Norm(b[..i])
    {
      DotStep(a, b, i);
      NormStep(a, i);
      NormStep(b, i);
      dotProduct := dotProduct + a[i] * b[i];
      normA := normA + a[i] * a[i];
      normB := normB + b[i] * b[i];
      i := i + 1;
    }
    assert a[..i] == a && b[..i] == b;
    CosineBounded(a, b, sqrt);
    if normA == 0.0 || normB == 0.0 {
      return Ok(0.0);
    }
    CosineOfPositive(dotProduct, normA, normB, sqrt);
    r := Ok(dotProduct / (sqrt(normA) * sqrt(normB)));
  }

  /** The loop of euclideanDistance: accumulate squared differences. */
  method EuclideanSimilarity(a: Vector, b: Vector, sqrt: real -> real) returns (r: Similarity)
    requires IsSqrt(sqrt)
    ensures r == Euclidean(a, b, sqrt)
    ensures r.Ok? <==> |a| == |b|
    ensures r.Ok? ==> 0.0 < r.value <= 1.0
  {
    if |a| != |b| {
      return LengthMismatch;
    }
    var sum := 0.0;
    var i := 0;
    while i < |a|
      invariant 0 <= i <= |a|
      invariant sum == SqDistance(a[..i], b[..i])
    {
      assert a[..i + 1][..i] == a[..i] && b[..i + 1][..i] == b[..i];
      sum := sum + (a[i] - b[i]) * (a[i] - b[i]);
      i := i + 1;
    }
    assert a[..i] == a && b[..i] == b;
    EuclideanFacts(a, b, sqrt);
    r := Ok(1.0 / (1.0 + sqrt(sum)));
  }
}
