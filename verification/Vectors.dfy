/** Real vectors and the cosine similarity of app/agents/knowledge_gap/clustering.py:32-44.

    The square root is a parameter. All that is assumed of it is `IsSqrt`: it is nonnegative and
    squares back to its argument. Floats are modelled as reals. */
module Vectors {

  type Vector = seq<real>

  ghost predicate IsSqrt(sqrt: real -> real) {
    forall x: real {:trigger sqrt(x)} :: x >= 0.0 ==> sqrt(x) >= 0.0 && sqrt(x) * sqrt(x) == x
  }

  function Dot(a: Vector, b: Vector): real
    requires |a| == |b|
  {
    if a == [] then 0.0 else a[0] * b[0] + Dot(a[1..], b[1..])
  }

  function Norm(sqrt: real -> real, a: Vector): real { sqrt(Dot(a, a)) }

  function CosineSimilarity(sqrt: real -> real, a: Vector, b: Vector): real
    requires |a| == |b|
  {
    var normA, normB := Norm(sqrt, a), Norm(sqrt, b);
    if normA == 0.0 || normB == 0.0 then 0.0 else Quotient(Dot(a, b), normA, normB)
  }

  /** `x / (y * z)` */
  function Quotient(x: real, y: real, z: real): real
    requires y != 0.0 && z != 0.0
  {
    ProductNonzero(y, z);
    x / (y * z)
  }

  lemma ProductNonzero(y: real, z: real)
    requires y != 0.0 && z != 0.0
    ensures y * z != 0.0
  {
  }

  function Add(a: Vector, b: Vector): Vector
    requires |a| == |b|
  {
    seq(|a|, i requires 0 <= i < |a| => a[i] + b[i])
  }

  function Scale(k: real, a: Vector): Vector {
    seq(|a|, i requires 0 <= i < |a| => k * a[i])
  }

  ghost predicate Nonzero(a: Vector) { Dot(a, a) != 0.0 }

  // ---------- The dot product ----------

  lemma {:induction false} DotSymmetric(a: Vector, b: Vector)
    requires |a| == |b|
    ensures Dot(a, b) == Dot(b, a)
  {
    if a == [] {
    } else {
      DotSymmetric(a[1..], b[1..]);
    }
  }

  lemma {:induction false} DotSelfNonnegative(a: Vector)
    ensures Dot(a, a) >= 0.0
  {
    if a == [] {
    } else {
      DotSelfNonnegative(a[1..]);
    }
  }

  lemma {:induction false} DotAdds(a: Vector, b: Vector, c: Vector)
    requires |a| == |b| == |c|
    ensures Dot(Add(a, b), c) == Dot(a, c) + Dot(b, c)
  {
    if a == [] {
    } else {
      assert Add(a, b)[1..] == Add(a[1..], b[1..]);
      DotAdds(a[1..], b[1..], c[1..]);
      Distribute(a[0], b[0], c[0]);
    }
  }

  lemma Distribute(x: real, y: real, z: real)
    ensures (x + y) * z == x * z + y * z
  {
  }

  lemma ScaleTail(k: real, a: Vector)
    requires a != []
    ensures Scale(k, a)[1..] == Scale(k, a[1..])
  {
    forall i | 0 <= i < |a| - 1
      ensures Scale(k, a)[1..][i] == Scale(k, a[1..])[i]
    {
      assert a[1..][i] == a[i + 1];
    }
  }

  lemma {:induction false} DotScales(k: real, a: Vector, b: Vector)
    requires |a| == |b|
    ensures Dot(Scale(k, a), b) == k * Dot(a, b)
  {
    if a == [] {
    } else {
      ScaleTail(k, a);
      DotScales(k, a[1..], b[1..]);
      ScaleStep(k, a[0], b[0], Dot(a[1..], b[1..]));
    }
  }

  lemma ScaleStep(k: real, x: real, y: real, d: real)
    ensures (k * x) * y + k * d == k * (x * y + d)
  {
  }

  lemma DotUnfolds(a: Vector, b: Vector)
    requires |a| == |b| > 0
    ensures Dot(a, b) == a[0] * b[0] + Dot(a[1..], b[1..])
  {
  }

  /** Cauchy-Schwarz, in every dimension. */
  lemma {:induction false} CauchySchwarz(a: Vector, b: Vector)
    requires |a| == |b|
    ensures Dot(a, b) * Dot(a, b) <= Dot(a, a) * Dot(b, b)
  {
    if a == [] {
      assert Dot(a, b) == 0.0 && Dot(a, a) == 0.0;
    } else {
      DotUnfolds(a, b);
      DotUnfolds(a, a);
      DotUnfolds(b, b);
      hide Dot;
      CauchySchwarz(a[1..], b[1..]);
      DotSelfNonnegative(a[1..]);
      DotSelfNonnegative(b[1..]);
      CauchySchwarzStep(a[0], b[0], Dot(a[1..], b[1..]), Dot(a[1..], a[1..]), Dot(b[1..], b[1..]));
    }
  }

  lemma CauchySchwarzStep(x: real, y: real, d: real, p: real, q: real)
    requires p >= 0.0 && q >= 0.0 && d * d <= p * q
    ensures (x * y + d) * (x * y + d) <= (x * x + p) * (y * y + q)
  {
    CrossTerm(x, y, d, p, q);
    assert (x * x + p) * (y * y + q) == (x * y) * (x * y) + (x * x) * q + (y * y) * p + p * q;
    assert (x * y + d) * (x * y + d) == (x * y) * (x * y) + 2.0 * (x * y) * d + d * d;
  }

  lemma CrossTerm(x: real, y: real, d: real, p: real, q: real)
    requires p >= 0.0 && q >= 0.0 && d * d <= p * q
    ensures 2.0 * (x * y) * d <= (x * x) * q + (y * y) * p
  {
    var gap := (x * x) * q + (y * y) * p - 2.0 * (x * y) * d;
    if p == 0.0 {
      SquareZero(d);
      SquareTimes(x, q);
    } else {
      var u := x * d - y * p;
      assert p * gap == (x * x) * (p * q) + (y * p) * (y * p) - 2.0 * (x * d) * (y * p);
      SquareTimes(x, p * q - d * d);
      assert u * u == (x * x) * (d * d) + (y * p) * (y * p) - 2.0 * (x * d) * (y * p);
      assert p * gap >= u * u >= 0.0;
      PositiveFactor(p, gap);
    }
  }

  lemma SquareTimes(x: real, z: real)
    requires z >= 0.0
    ensures (x * x) * z >= 0.0
  {
    assert x * x >= 0.0;
  }

  lemma SquareZero(d: real)
    requires d * d <= 0.0
    ensures d == 0.0
  {
    if d > 0.0 {
      SquareLess(0.0, d);
    } else if d < 0.0 {
      SquareLess(0.0, -d);
    }
  }

  lemma ProductPositive(x: real, y: real)
    requires x > 0.0 && y > 0.0
    ensures x * y > 0.0
  {
  }

  lemma SquareLess(a: real, b: real)
    requires 0.0 <= a < b
    ensures a * a < b * b == (-b) * (-b)
  {
    ProductPositive(b - a, b + a);
    assert b * b - a * a == (b - a) * (b + a);
  }

  lemma PositiveFactor(p: real, g: real)
    requires p > 0.0 && p * g >= 0.0
    ensures g >= 0.0
  {
  }

  // ---------- Cosine similarity ----------

  lemma NormOfNonzero(sqrt: real -> real, a: Vector)
    requires IsSqrt(sqrt)
    ensures Norm(sqrt, a) >= 0.0 && Norm(sqrt, a) * Norm(sqrt, a) == Dot(a, a)
    ensures Norm(sqrt, a) == 0.0 <==> !Nonzero(a)
  {
    DotSelfNonnegative(a);
    if !Nonzero(a) {
      SquareZero(Norm(sqrt, a));
    }
  }

  lemma CosineSymmetric(sqrt: real -> real, a: Vector, b: Vector)
    requires |a| == |b|
    ensures CosineSimilarity(sqrt, a, b) == CosineSimilarity(sqrt, b, a)
  {
    DotSymmetric(a, b);
    var x, y := Norm(sqrt, a), Norm(sqrt, b);
    assert x * y == y * x;
  }

  lemma CosineBounded(sqrt: real -> real, a: Vector, b: Vector)
    requires IsSqrt(sqrt) && |a| == |b|
    ensures -1.0 <= CosineSimilarity(sqrt, a, b) <= 1.0
  {
    NormOfNonzero(sqrt, a);
    NormOfNonzero(sqrt, b);
    CauchySchwarz(a, b);
    hide Dot, IsSqrt, Norm, Quotient;
    if Norm(sqrt, a) != 0.0 && Norm(sqrt, b) != 0.0 {
      NormalizedBounded(Dot(a, b), Norm(sqrt, a), Norm(sqrt, b), Dot(a, a), Dot(b, b));
    }
  }

  lemma NormalizedBounded(d: real, x: real, y: real, p: real, q: real)
    requires x >= 0.0 && y >= 0.0 && x != 0.0 && y != 0.0
    requires x * x == p && y * y == q && d * d <= p * q
    ensures -1.0 <= Quotient(d, x, y) <= 1.0
  {
    ProductPositive(x, y);
    assert (x * y) * (x * y) == p * q;
    QuotientBounded(d, x * y);
  }

  lemma QuotientBounded(d: real, n: real)
    requires n > 0.0 && d * d <= n * n
    ensures -1.0 <= d / n <= 1.0
  {
    if d > n {
      SquareLess(n, d);
    } else if d < -n {
      SquareLess(n, -d);
    }
    var q := d / n;
    assert q * n == d;
    assert n * (1.0 - q) == n - d && n * (1.0 + q) == n + d;
    PositiveFactor(n, 1.0 - q);
    PositiveFactor(n, 1.0 + q);
  }

  lemma CosineOfSelf(sqrt: real -> real, a: Vector)
    requires IsSqrt(sqrt) && Nonzero(a)
    ensures CosineSimilarity(sqrt, a, a) == 1.0
  {
    NormOfNonzero(sqrt, a);
    var d := Dot(a, a);
    assert d / d == 1.0;
  }

  lemma CosineOfZero(sqrt: real -> real, a: Vector, b: Vector)
    requires IsSqrt(sqrt) && |a| == |b| && (!Nonzero(a) || !Nonzero(b))
    ensures CosineSimilarity(sqrt, a, b) == 0.0
  {
    NormOfNonzero(sqrt, a);
    NormOfNonzero(sqrt, b);
  }

  /** Only the direction of a vector matters. */
  lemma CosineIgnoresScale(sqrt: real -> real, k: real, a: Vector, b: Vector)
    requires IsSqrt(sqrt) && |a| == |b| && k > 0.0
    ensures CosineSimilarity(sqrt, a, Scale(k, b)) == CosineSimilarity(sqrt, a, b)
    ensures CosineSimilarity(sqrt, Scale(k, b), a) == CosineSimilarity(sqrt, b, a)
  {
    NormScales(sqrt, k, b);
    NormOfNonzero(sqrt, a);
    NormOfNonzero(sqrt, b);
    DotScales(k, b, a);
    DotSymmetric(a, b);
    DotSymmetric(a, Scale(k, b));
    var x, y, d := Norm(sqrt, a), Norm(sqrt, b), Dot(a, b);
    assert Dot(a, Scale(k, b)) == k * d && Norm(sqrt, Scale(k, b)) == k * y;
    if x != 0.0 && y != 0.0 {
      ProductNonzero(k, y);
      CancelScale(d, x, y, k);
    } else {
      assert y == 0.0 ==> k * y == 0.0;
    }
    CosineSymmetric(sqrt, a, b);
    CosineSymmetric(sqrt, a, Scale(k, b));
  }

  lemma CancelScale(d: real, x: real, y: real, k: real)
    requires x != 0.0 && y != 0.0 && k != 0.0 && k * y != 0.0
    ensures Quotient(k * d, x, k * y) == Quotient(d, x, y)
  {
    ProductNonzero(x, y);
    ProductNonzero(x, k * y);
    var n := x * y;
    var q := d / n;
    assert q * n == d;
    assert x * (k * y) == k * n;
    ProductNonzero(k, n);
    assert q * (k * n) == k * d;
  }

  lemma NormScales(sqrt: real -> real, k: real, a: Vector)
    requires IsSqrt(sqrt) && k > 0.0
    ensures Norm(sqrt, Scale(k, a)) == k * Norm(sqrt, a)
  {
    DotScales(k, a, Scale(k, a));
    DotSymmetric(a, Scale(k, a));
    DotScales(k, a, a);
    NormOfNonzero(sqrt, a);
    NormOfNonzero(sqrt, Scale(k, a));
    var s, t := Norm(sqrt, Scale(k, a)), k * Norm(sqrt, a);
    var n := Norm(sqrt, a);
    assert t * t == (k * k) * (n * n);
    assert s * s == k * (k * Dot(a, a)) == (k * k) * Dot(a, a);
    assert t >= 0.0;
    RootIsUnique(s, t);
  }

  lemma RootIsUnique(s: real, t: real)
    requires s >= 0.0 && t >= 0.0 && s * s == t * t
    ensures s == t
  {
    if s < t {
      SquareLess(s, t);
    } else if t < s {
      SquareLess(t, s);
    }
  }

  lemma DotOfSum(sum: Vector, e: Vector)
    requires |sum| == |e|
    ensures Dot(Add(sum, e), Add(sum, e)) == Dot(sum, sum) + 2.0 * Dot(e, sum) + Dot(e, e)
  {
    DotAdds(sum, e, Add(sum, e));
    DotSymmetric(sum, Add(sum, e));
    DotSymmetric(e, Add(sum, e));
    DotAdds(sum, e, sum);
    DotAdds(sum, e, e);
    DotSymmetric(e, sum);
  }

  lemma ZeroDot(a: Vector, b: Vector)
    requires |a| == |b| && (!Nonzero(a) || !Nonzero(b))
    ensures Dot(a, b) == 0.0
  {
    CauchySchwarz(a, b);
    SquareZero(Dot(a, b));
  }

  /** Two vectors cancel only when they point in exactly opposite directions: at any similarity above -1
      their sum is zero only if both are. */
  lemma SumVanishesIffBothDo(sqrt: real -> real, sum: Vector, e: Vector)
    requires IsSqrt(sqrt) && |sum| == |e| && CosineSimilarity(sqrt, e, sum) > -1.0
    ensures Nonzero(Add(sum, e)) <==> Nonzero(sum) || Nonzero(e)
  {
    DotOfSum(sum, e);
    DotSelfNonnegative(e);
    DotSelfNonnegative(sum);
    NormOfNonzero(sqrt, e);
    NormOfNonzero(sqrt, sum);
    if Nonzero(sum) && Nonzero(e) {
      hide Dot, IsSqrt, Norm;
      NotOpposite(Dot(e, sum), Norm(sqrt, e), Norm(sqrt, sum));
    } else {
      ZeroDot(e, sum);
    }
  }

  lemma NotOpposite(d: real, x: real, y: real)
    requires x > 0.0 && y > 0.0 && Quotient(d, x, y) > -1.0
    ensures y * y + 2.0 * d + x * x > 0.0
  {
    var n := x * y;
    ProductPositive(x, y);
    var q := d / n;
    assert q * n == d;
    assert (q + 1.0) * n > 0.0;
    assert d > -n;
    SquareTimes(x - y, 1.0);
    assert y * y + x * x - 2.0 * n == (x - y) * (x - y);
  }

  // ---------- What the product and the quotient are ----------

  function Unit(n: nat, i: nat): Vector
    requires i < n
  {
    seq(n, k requires 0 <= k < n => if k == i then 1.0 else 0.0)
  }

  lemma {:induction false} DotOfZeros(a: Vector, z: Vector)
    requires |a| == |z| && forall k :: 0 <= k < |z| ==> z[k] == 0.0
    ensures Dot(a, z) == 0.0
  {
    if a == [] {
    } else {
      DotOfZeros(a[1..], z[1..]);
    }
  }

  /** The product with a unit vector is the coordinate. With its linearity this fixes the product. */
  lemma {:induction false} DotOfUnit(a: Vector, i: nat)
    requires i < |a|
    ensures Dot(a, Unit(|a|, i)) == a[i]
  {
    var u := Unit(|a|, i);
    if i == 0 {
      DotOfZeros(a[1..], u[1..]);
    } else {
      assert u[1..] == Unit(|a| - 1, i - 1);
      DotOfUnit(a[1..], i - 1);
    }
  }

  /** Between nonzero vectors the similarity is the product over the two lengths. */
  lemma CosineIsQuotient(sqrt: real -> real, a: Vector, b: Vector, x: real, y: real)
    requires IsSqrt(sqrt) && |a| == |b| && x > 0.0 && y > 0.0
    requires x * x == Dot(a, a) && y * y == Dot(b, b)
    ensures CosineSimilarity(sqrt, a, b) * (x * y) == Dot(a, b)
  {
    NormIs(sqrt, a, x);
    NormIs(sqrt, b, y);
    hide Dot, Norm, IsSqrt;
    ProductNonzero(x, y);
    var n, q := x * y, CosineSimilarity(sqrt, a, b);
    assert q == Dot(a, b) / n;
  }

  lemma NormIs(sqrt: real -> real, a: Vector, x: real)
    requires IsSqrt(sqrt) && x > 0.0 && x * x == Dot(a, a)
    ensures Norm(sqrt, a) == x
  {
    NormOfNonzero(sqrt, a);
    RootIsUnique(Norm(sqrt, a), x);
  }
}
