/** Cosine similarity over real vectors of any dimension. */
module Vectors {

  /** A square root: the model's stand-in for the floating-point one. */
  ghost predicate IsSqrt(sqrt: real -> real) {
    forall x :: x >= 0.0 ==> sqrt(x) >= 0.0 && sqrt(x) * sqrt(x) == x
  }

  /** The dot product of the first `n` components. */
  function DotUpTo(a: seq<real>, b: seq<real>, n: nat): real
    requires n <= |a| == |b|
  {
    if n == 0 then 0.0 else DotUpTo(a, b, n - 1) + a[n - 1] * b[n - 1]
  }

  function Dot(a: seq<real>, b: seq<real>): real
    requires |a| == |b|
  {
    DotUpTo(a, b, |a|)
  }

  function NormSquared(a: seq<real>): real {
    Dot(a, a)
  }

  lemma {:induction false} SquaresAreNonNegative(a: seq<real>, n: nat)
    requires n <= |a|
    ensures DotUpTo(a, a, n) >= 0.0
  {
    if n > 0 {
      SquaresAreNonNegative(a, n - 1);
    }
  }

  lemma RootIsPositive(sqrt: real -> real, x: real)
    requires IsSqrt(sqrt) && x > 0.0
    ensures sqrt(x) > 0.0 && sqrt(x) * sqrt(x) == x
  {
  }

  lemma RootsArePositive(sqrt: real -> real, a: seq<real>, b: seq<real>)
    requires IsSqrt(sqrt) && NormSquared(a) != 0.0 && NormSquared(b) != 0.0
    ensures
      var p, q := sqrt(NormSquared(a)), sqrt(NormSquared(b));
      p > 0.0 && q > 0.0 && p * q > 0.0 && p * p == NormSquared(a) && q * q == NormSquared(b)
  {
    SquaresAreNonNegative(a, |a|);
    SquaresAreNonNegative(b, |b|);
    RootIsPositive(sqrt, NormSquared(a));
    RootIsPositive(sqrt, NormSquared(b));
  }

  /** The similarity of two vectors; vectors of different dimension or without direction have none. */
  function Cosine(sqrt: real -> real, a: seq<real>, b: seq<real>): real
    requires IsSqrt(sqrt)
  {
    if |a| != |b| || NormSquared(a) == 0.0 || NormSquared(b) == 0.0 then 0.0
    else
      RootsArePositive(sqrt, a, b);
      Dot(a, b) / (sqrt(NormSquared(a)) * sqrt(NormSquared(b)))
  }

  lemma ProductSign(x: real, y: real)
    requires y > 0.0
    ensures x > 0.0 ==> x * y > 0.0
    ensures x < 0.0 ==> x * y < 0.0
  {
  }

  lemma SquareGrows(x: real, y: real)
    requires 0.0 <= x < y
    ensures x * x < y * y
  {
    var difference, sum := y - x, y + x;
    ProductSign(difference, sum);
    assert difference * sum == y * y - x * x;
  }

  lemma RootIsZero(sqrt: real -> real, x: real)
    requires IsSqrt(sqrt) && x >= 0.0
    ensures sqrt(x) == 0.0 <==> x == 0.0
  {
    var r := sqrt(x);
    assert r * r == x;
    if r > 0.0 {
      SquareGrows(0.0, r);
    } else {
      assert r * r == 0.0 * r;
    }
  }

  // ---------- Cauchy-Schwarz ----------

  lemma SquareOfDifference(x: real, y: real, t: real)
    ensures x * x - 2.0 * t * (x * y) + t * t * (y * y) >= 0.0
  {
    var d := x - t * y;
    assert d * d >= 0.0;
    assert d * d == x * x - 2.0 * (t * (x * y)) + (t * y) * (t * y);
    assert (t * y) * (t * y) == t * t * (y * y);
  }

  lemma Distribute(t: real, x: real, y: real)
    ensures t * (x + y) == t * x + t * y
  {
  }

  /** The squared norm of `a - t * b` over the first `n` components is a non-negative quadratic in `t`. */
  lemma {:induction false} DifferenceIsNonNegative(a: seq<real>, b: seq<real>, t: real, n: nat)
    requires n <= |a| == |b|
    ensures DotUpTo(a, a, n) - 2.0 * t * DotUpTo(a, b, n) + t * t * DotUpTo(b, b, n) >= 0.0
  {
    if n > 0 {
      DifferenceIsNonNegative(a, b, t, n - 1);
      var x, y := a[n - 1], b[n - 1];
      SquareOfDifference(x, y, t);
      Distribute(t, DotUpTo(a, b, n - 1), x * y);
      Distribute(t * t, DotUpTo(b, b, n - 1), y * y);
    }
  }

  /** A quadratic that is never negative has no positive discriminant. */
  lemma Discriminant(p: real, s: real, q: real)
    requires q > 0.0
    requires p - 2.0 * (s / q) * s + (s / q) * (s / q) * q >= 0.0
    ensures s * s <= p * q
  {
    var t := s / q;
    assert t * q == s;
    assert (t * t) * q == t * s;
    assert p - t * s >= 0.0;
    assert (p - t * s) * q >= 0.0;
    assert (t * s) * q == s * s;
  }

  lemma SquareIsZero(x: real)
    ensures x * x >= 0.0 && (x * x == 0.0 ==> x == 0.0)
  {
    assert (-x) * (-x) == x * x;
    if x > 0.0 {
      SquareGrows(0.0, x);
    } else if x < 0.0 {
      SquareGrows(0.0, -x);
    }
  }

  /** A vector without length is orthogonal to every other. */
  lemma {:induction false} ZeroNormIsOrthogonal(a: seq<real>, b: seq<real>, n: nat)
    requires n <= |a| == |b| && DotUpTo(b, b, n) == 0.0
    ensures DotUpTo(a, b, n) == 0.0
  {
    if n > 0 {
      SquaresAreNonNegative(b, n - 1);
      SquareIsZero(b[n - 1]);
      assert b[n - 1] == 0.0;
      ZeroNormIsOrthogonal(a, b, n - 1);
    }
  }

  lemma CauchySchwarz(a: seq<real>, b: seq<real>)
    requires |a| == |b|
    ensures Dot(a, b) * Dot(a, b) <= NormSquared(a) * NormSquared(b)
  {
    SquaresAreNonNegative(b, |b|);
    if NormSquared(b) == 0.0 {
      ZeroNormIsOrthogonal(a, b, |b|);
    } else {
      DifferenceIsNonNegative(a, b, Dot(a, b) / NormSquared(b), |a|);
      Discriminant(NormSquared(a), Dot(a, b), NormSquared(b));
    }
  }

  lemma SmallerSquare(s: real, r: real)
    requires r > 0.0 && s * s <= r * r
    ensures -r <= s <= r
  {
    assert (-s) * (-s) == s * s;
    if s > r {
      SquareGrows(r, s);
    } else if s < -r {
      SquareGrows(r, -s);
    }
  }

  lemma RatioIsBounded(s: real, p: real, q: real)
    requires p > 0.0 && q > 0.0 && p * q > 0.0
    requires s * s <= (p * p) * (q * q)
    ensures -1.0 <= s / (p * q) <= 1.0
  {
    var r := p * q;
    assert (p * p) * (q * q) == r * r;
    SmallerSquare(s, r);
    var ratio := s / r;
    assert ratio * r == s;
    assert (ratio - 1.0) * r == s - r && (ratio + 1.0) * r == s + r;
    ProductSign(ratio - 1.0, r);
    ProductSign(ratio + 1.0, r);
  }

  /** Similarity lies between -1 and 1 in every dimension. */
  lemma CosineIsBounded(sqrt: real -> real, a: seq<real>, b: seq<real>)
    requires IsSqrt(sqrt)
    ensures -1.0 <= Cosine(sqrt, a, b) <= 1.0
  {
    if |a| == |b| && NormSquared(a) != 0.0 && NormSquared(b) != 0.0 {
      RootsArePositive(sqrt, a, b);
      CauchySchwarz(a, b);
      RatioIsBounded(Dot(a, b), sqrt(NormSquared(a)), sqrt(NormSquared(b)));
    }
  }

  /** A vector with a direction is similar to itself with degree exactly one. */
  lemma CosineOfSelf(sqrt: real -> real, a: seq<real>)
    requires IsSqrt(sqrt) && NormSquared(a) != 0.0
    ensures Cosine(sqrt, a, a) == 1.0
  {
    RootsArePositive(sqrt, a, a);
    var n := NormSquared(a);
    assert n / n == 1.0;
  }

  lemma QuotientSign(s: real, p: real)
    requires p > 0.0
    ensures s / p > 0.0 <==> s > 0.0
    ensures s / p < 0.0 <==> s < 0.0
    ensures (s / p) * p == s
  {
    var q := s / p;
    assert q * p == s;
    ProductSign(q, p);
    if q > 0.0 {
      assert q * p > 0.0;
    } else if q < 0.0 {
      assert (-q) * p > 0.0;
    }
  }

  lemma SquareOfProduct(q: real, x: real, y: real, s: real, p: real, r: real)
    requires q * (x * y) == s && x * x == p && y * y == r
    ensures q * q * p * r == s * s
  {
    assert q * q * (x * x) * (y * y) == (q * (x * y)) * (q * (x * y));
  }

  /** Similarity has the sign of the dot product, and its square is the share of the squared norms' product. */
  lemma CosineIsShareOfNorms(sqrt: real -> real, a: seq<real>, b: seq<real>)
    requires IsSqrt(sqrt) && |a| == |b| && NormSquared(a) != 0.0 && NormSquared(b) != 0.0
    ensures Cosine(sqrt, a, b) > 0.0 <==> Dot(a, b) > 0.0
    ensures Cosine(sqrt, a, b) < 0.0 <==> Dot(a, b) < 0.0
    ensures
      var similarity := Cosine(sqrt, a, b);
      similarity * similarity * NormSquared(a) * NormSquared(b) == Dot(a, b) * Dot(a, b)
  {
    RootsArePositive(sqrt, a, b);
    var x, y := sqrt(NormSquared(a)), sqrt(NormSquared(b));
    QuotientSign(Dot(a, b), x * y);
    SquareOfProduct(Cosine(sqrt, a, b), x, y, Dot(a, b), NormSquared(a), NormSquared(b));
  }

  /** The unit vector along one axis. */
  function Axis(n: nat, k: nat): seq<real> {
    seq(n, i => if i == k then 1.0 else 0.0)
  }

  lemma {:induction false} DotWithAxis(a: seq<real>, k: nat, n: nat)
    requires k < |a| && n <= |a|
    ensures DotUpTo(a, Axis(|a|, k), n) == if k < n then a[k] else 0.0
  {
    if n > 0 {
      DotWithAxis(a, k, n - 1);
      assert a[n - 1] * Axis(|a|, k)[n - 1] == if n - 1 == k then a[k] else 0.0;
    }
  }

  function Sum(a: seq<real>, b: seq<real>): seq<real>
    requires |a| == |b|
  {
    seq(|a|, i requires 0 <= i < |a| => a[i] + b[i])
  }

  lemma {:induction false} DotAdds(a: seq<real>, b: seq<real>, c: seq<real>, n: nat)
    requires n <= |a| == |b| == |c|
    ensures DotUpTo(a, Sum(b, c), n) == DotUpTo(a, b, n) + DotUpTo(a, c, n)
  {
    if n > 0 {
      DotAdds(a, b, c, n - 1);
      Distribute(a[n - 1], b[n - 1], c[n - 1]);
    }
  }

  /** Different directions along the axes have nothing in common. */
  lemma CosineOfAxes(sqrt: real -> real, n: nat, i: nat, j: nat)
    requires IsSqrt(sqrt) && i < n && j < n
    ensures Cosine(sqrt, Axis(n, i), Axis(n, j)) == if i == j then 1.0 else 0.0
  {
    DotWithAxis(Axis(n, i), j, n);
    DotWithAxis(Axis(n, i), i, n);
    DotWithAxis(Axis(n, j), j, n);
    if i == j {
      CosineOfSelf(sqrt, Axis(n, i));
    } else {
      RootsArePositive(sqrt, Axis(n, i), Axis(n, j));
    }
  }

  // ---------- The accumulator loops ----------

  method CosineSimilarity(sqrt: real -> real, a: seq<real>, b: seq<real>) returns (similarity: real)
    requires IsSqrt(sqrt)
    ensures similarity == Cosine(sqrt, a, b)
    ensures |a| != |b| || NormSquared(a) == 0.0 || NormSquared(b) == 0.0 ==> similarity == 0.0
  {
    if |a| != |b| {
      return 0.0;
    }
    var dotProduct, normA, normB := 0.0, 0.0, 0.0;
    for i := 0 to |a|
      invariant dotProduct == DotUpTo(a, b, i)
      invariant normA == DotUpTo(a, a, i) && normB == DotUpTo(b, b, i)
    {
      dotProduct := dotProduct + a[i] * b[i];
      normA := normA + a[i] * a[i];
      normB := normB + b[i] * b[i];
    }
    if normA == 0.0 || normB == 0.0 {
      return 0.0;
    }
    RootsArePositive(sqrt, a, b);
    return dotProduct / (sqrt(normA) * sqrt(normB));
  }

  /** The vector with every component divided by `norm`. */
  function Scaled(v: seq<real>, norm: real): seq<real>
    requires norm != 0.0
  {
    seq(|v|, i requires 0 <= i < |v| => v[i] / norm)
  }

  method NormalizeVector(sqrt: real -> real, v: seq<real>) returns (normalized: seq<real>)
    requires IsSqrt(sqrt)
    ensures NormSquared(v) == 0.0 ==> normalized == v
    ensures NormSquared(v) != 0.0 ==>
      var norm := sqrt(NormSquared(v));
      norm > 0.0 && norm * norm == NormSquared(v) && normalized == Scaled(v, norm)
  {
    var norm := 0.0;
    for i := 0 to |v|
      invariant norm == DotUpTo(v, v, i)
    {
      norm := norm + v[i] * v[i];
    }
    SquaresAreNonNegative(v, |v|);
    RootIsZero(sqrt, NormSquared(v));
    norm := sqrt(norm);
    if norm == 0.0 {
      return v;
    }
    RootIsPositive(sqrt, NormSquared(v));
    normalized := [];
    for i := 0 to |v|
      invariant normalized == Scaled(v, norm)[..i]
    {
      normalized := normalized + [v[i] / norm];
    }
  }

  lemma {:induction false} ScaledDot(a: seq<real>, b: seq<real>, norm: real, n: nat)
    requires n <= |a| == |b| && norm > 0.0
    ensures DotUpTo(Scaled(a, norm), b, n) == DotUpTo(a, b, n) / norm
  {
    if n > 0 {
      ScaledDot(a, b, norm, n - 1);
      var x, y, s := a[n - 1], b[n - 1], DotUpTo(a, b, n - 1);
      assert (x / norm) * y == (x * y) / norm;
      assert s / norm + (x * y) / norm == (s + x * y) / norm;
    }
  }

  lemma {:induction false} DotCommutes(a: seq<real>, b: seq<real>, n: nat)
    requires n <= |a| == |b|
    ensures DotUpTo(a, b, n) == DotUpTo(b, a, n)
  {
    if n > 0 {
      DotCommutes(a, b, n - 1);
    }
  }

  lemma UnitQuotient(n: real, norm: real)
    requires norm > 0.0 && norm * norm == n
    ensures (n / norm) / norm == 1.0
  {
    assert n / norm == norm;
  }

  /** Normalising a vector gives it unit length. */
  lemma NormalizedHasUnitLength(sqrt: real -> real, v: seq<real>)
    requires IsSqrt(sqrt) && NormSquared(v) != 0.0
    ensures
      var norm := sqrt(NormSquared(v));
      norm > 0.0 && NormSquared(Scaled(v, norm)) == 1.0
  {
    RootsArePositive(sqrt, v, v);
    var n, norm := NormSquared(v), sqrt(NormSquared(v));
    var unit := Scaled(v, norm);
    ScaledDot(v, unit, norm, |v|);
    DotCommutes(v, unit, |v|);
    ScaledDot(v, v, norm, |v|);
    UnitQuotient(n, norm);
  }

  lemma UnitRoot(r: real)
    requires r >= 0.0 && r * r == 1.0
    ensures r == 1.0
  {
    if r < 1.0 {
      SquareGrows(r, 1.0);
    } else if r > 1.0 {
      SquareGrows(1.0, r);
    }
  }

  lemma DivideTwice(s: real, p: real, q: real)
    requires p > 0.0 && q > 0.0 && p * q > 0.0
    ensures (s / p) / (1.0 * q) == s / (p * q)
  {
    var x := s / (p * q);
    assert x * (p * q) == s;
    assert (x * q) * p == s;
    assert s / p == x * q;
    assert (x * q) / q == x;
  }

  /** Normalising a vector changes no similarity. */
  lemma NormalizingKeepsSimilarity(sqrt: real -> real, v: seq<real>, w: seq<real>)
    requires IsSqrt(sqrt) && NormSquared(v) != 0.0
    ensures
      var norm := sqrt(NormSquared(v));
      norm > 0.0 && Cosine(sqrt, Scaled(v, norm), w) == Cosine(sqrt, v, w)
  {
    RootsArePositive(sqrt, v, v);
    NormalizedHasUnitLength(sqrt, v);
    if |v| == |w| && NormSquared(w) != 0.0 {
      var norm := sqrt(NormSquared(v));
      RootsArePositive(sqrt, v, w);
      RootsArePositive(sqrt, Scaled(v, norm), w);
      UnitRoot(sqrt(1.0));
      ScaledDot(v, w, norm, |v|);
      DivideTwice(Dot(v, w), norm, sqrt(NormSquared(w)));
    }
  }
}
