/** Vector normalization and cosine similarity. The square root is a parameter: any function that is a root where it is
    used. */
module Vectors {
  import opened Numbers

  type Vector = seq<real>

  function SumSquares(v: Vector): real {
    if v == [] then 0.0 else SumSquares(v[..|v| - 1]) + v[|v| - 1] * v[|v| - 1]
  }

  function Dot(a: Vector, b: Vector): real
    requires |a| == |b|
  {
    if a == [] then 0.0 else Dot(a[..|a| - 1], b[..|b| - 1]) + a[|a| - 1] * b[|b| - 1]
  }

  predicate RootAt(sqrt: real -> real, x: real) {
    sqrt(x) > 0.0 && sqrt(x) * sqrt(x) == x
  }

  function Scaled(v: Vector, norm: real): Vector
    requires norm != 0.0
  {
    seq(|v|, i requires 0 <= i < |v| => v[i] / norm)
  }

  function Normalized(v: Vector, sqrt: real -> real): Vector
    requires SumSquares(v) != 0.0 ==> RootAt(sqrt, SumSquares(v))
  {
    if SumSquares(v) == 0.0 then v else Scaled(v, sqrt(SumSquares(v)))
  }

  method NormalizeVector(v: Vector, sqrt: real -> real) returns (r: Vector)
    requires SumSquares(v) != 0.0 ==> RootAt(sqrt, SumSquares(v))
    ensures r == Normalized(v, sqrt)
  {
    var sumSquares := 0.0;
    for i := 0 to |v|
      invariant sumSquares == SumSquares(v[..i])
    {
      assert v[..i + 1][..i] == v[..i];
      sumSquares := sumSquares + v[i] * v[i];
    }
    assert v[..|v|] == v;
    if sumSquares == 0.0 { return v; }
    var norm := sqrt(sumSquares);
    r := [];
    for i := 0 to |v|
      invariant |r| == i && forall k :: 0 <= k < i ==> r[k] == v[k] / norm
    {
      r := r + [v[i] / norm];
    }
    assert r == Scaled(v, norm);
  }

  function Shorter(a: Vector, b: Vector): nat {
    if |b| < |a| then |b| else |a|
  }

  /** The product of the common prefix, to four places. */
  function Cosine(a: Vector, b: Vector): real {
    RoundTo4(Dot(a[..Shorter(a, b)], b[..Shorter(a, b)]))
  }

  method CosineSimilarity(a: Vector, b: Vector) returns (r: real)
    ensures r == Cosine(a, b)
  {
    var limit := |a|;
    if |b| < limit { limit := |b|; }
    if limit == 0 {
      assert a[..0] == [] && RoundTo4(0.0) == 0.0;
      return 0.0;
    }
    var sum := 0.0;
    for i := 0 to limit
      invariant sum == Dot(a[..i], b[..i])
    {
      assert a[..i + 1][..i] == a[..i] && b[..i + 1][..i] == b[..i];
      sum := sum + a[i] * b[i];
    }
    r := RoundTo4(sum);
  }

  // ---------- Properties ----------

  lemma {:induction false} SumSquaresGrows(v: Vector, n: nat)
    requires n <= |v|
    ensures 0.0 <= SumSquares(v[..n]) <= SumSquares(v)
    decreases |v|
  {
    if n < |v| {
      var rest := v[..|v| - 1];
      assert rest[..n] == v[..n];
      SumSquaresGrows(rest, n);
    } else {
      assert v[..n] == v;
      if v != [] { SumSquaresGrows(v[..|v| - 1], |v| - 1); assert v[..|v| - 1][..|v| - 1] == v[..|v| - 1]; }
    }
  }

  /** Twice a product of vectors is bounded by the sum of their squares. */
  lemma {:induction false} DotBound(a: Vector, b: Vector)
    requires |a| == |b|
    ensures 2.0 * Dot(a, b) <= SumSquares(a) + SumSquares(b)
    ensures -(SumSquares(a) + SumSquares(b)) <= 2.0 * Dot(a, b)
  {
    if a != [] {
      var x, y := a[|a| - 1], b[|b| - 1];
      DotBound(a[..|a| - 1], b[..|b| - 1]);
      ProductBound(x, y);
    }
  }

  lemma ProductBound(x: real, y: real)
    ensures 2.0 * (x * y) <= x * x + y * y
    ensures -(x * x + y * y) <= 2.0 * (x * y)
  {
    SquareNonNegative(x - y);
    SquareNonNegative(x + y);
    assert (x - y) * (x - y) == x * x - 2.0 * (x * y) + y * y;
    assert (x + y) * (x + y) == x * x + 2.0 * (x * y) + y * y;
  }

  lemma SquareNonNegative(x: real)
    ensures x * x >= 0.0
  {
  }

  lemma Distribute(a: real, b: real, c: real)
    ensures (a + b) * c == a * c + b * c
  {
  }

  lemma {:induction false} DotSelf(a: Vector)
    ensures Dot(a, a) == SumSquares(a)
  {
    if a != [] { DotSelf(a[..|a| - 1]); }
  }

  lemma {:induction false} ScaledSquares(v: Vector, norm: real, square: real)
    requires norm > 0.0 && square == norm * norm
    ensures SumSquares(Scaled(v, norm)) * square == SumSquares(v)
  {
    if v != [] {
      var n := |v| - 1;
      assert Scaled(v, norm)[..n] == Scaled(v[..n], norm);
      ScaledSquares(v[..n], norm, square);
      QuotientSquare(v[n], v[n] / norm, norm, square);
      Distribute(SumSquares(Scaled(v[..n], norm)), (v[n] / norm) * (v[n] / norm), square);
    }
  }

  lemma QuotientSquare(x: real, q: real, norm: real, square: real)
    requires q * norm == x && square == norm * norm
    ensures q * q * square == x * x
  {
    assert q * q * square == (q * norm) * (q * norm);
  }

  /** A normalized vector has length one, unless it is zero. */
  lemma NormalizedUnit(v: Vector, sqrt: real -> real)
    requires SumSquares(v) != 0.0 ==> RootAt(sqrt, SumSquares(v))
    ensures SumSquares(Normalized(v, sqrt)) == if SumSquares(v) == 0.0 then 0.0 else 1.0
  {
    if SumSquares(v) != 0.0 {
      var s, norm := SumSquares(v), sqrt(SumSquares(v));
      ScaledSquares(v, norm, s);
      SumSquaresGrows(v, 0);
      UnitFactor(SumSquares(Scaled(v, norm)), s);
    }
  }

  lemma UnitFactor(a: real, s: real)
    requires s > 0.0 && a * s == s
    ensures a == 1.0
  {
    assert (a - 1.0) * s == 0.0;
  }

  /** The similarity of two normalized vectors, whatever their lengths, lies in [-1, 1]. */
  lemma CosineBounded(v: Vector, w: Vector, sqrt: real -> real)
    requires SumSquares(v) != 0.0 ==> RootAt(sqrt, SumSquares(v))
    requires SumSquares(w) != 0.0 ==> RootAt(sqrt, SumSquares(w))
    ensures -1.0 <= Cosine(Normalized(v, sqrt), Normalized(w, sqrt)) <= 1.0
  {
    var a, b := Normalized(v, sqrt), Normalized(w, sqrt);
    var n := Shorter(a, b);
    NormalizedUnit(v, sqrt);
    NormalizedUnit(w, sqrt);
    SumSquaresGrows(a, n);
    SumSquaresGrows(b, n);
    DotBound(a[..n], b[..n]);
    var dot := Dot(a[..n], b[..n]);
    RoundTo4Monotone(dot, 1.0);
    RoundTo4Monotone(-1.0, dot);
    assert RoundTo4(1.0) == 1.0 && RoundTo4(-1.0) == -1.0;
  }

  /** A vector that is not zero has similarity one with itself. */
  lemma CosineOfSelf(v: Vector, sqrt: real -> real)
    requires SumSquares(v) != 0.0 && RootAt(sqrt, SumSquares(v))
    ensures Cosine(Normalized(v, sqrt), Normalized(v, sqrt)) == 1.0
  {
    var a := Normalized(v, sqrt);
    NormalizedUnit(v, sqrt);
    assert a[..|a|] == a;
    DotSelf(a);
    assert RoundTo4(1.0) == 1.0;
  }

  lemma {:induction false} DotSymmetric(a: Vector, b: Vector)
    requires |a| == |b|
    ensures Dot(a, b) == Dot(b, a)
  {
    if a != [] { DotSymmetric(a[..|a| - 1], b[..|b| - 1]); }
  }

  lemma CosineSymmetric(a: Vector, b: Vector)
    ensures Cosine(a, b) == Cosine(b, a)
  {
    DotSymmetric(a[..Shorter(a, b)], b[..Shorter(a, b)]);
  }
}
