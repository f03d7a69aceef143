/**
  Cosine similarity over vectors of any length, on real numbers. The square root is any function
  with the defining property of one.
*/
module CosineSimilarity {
  type Vector = seq<real>

  function Dot(a: Vector, b: Vector): real
    requires |a| == |b|
  {
    if a == [] then 0.0 else a[0] * b[0] + Dot(a[1..], b[1..])
  }

  ghost predicate IsRoot(sqrt: real -> real) {
    forall v: real | v >= 0.0 :: sqrt(v) >= 0.0 && sqrt(v) * sqrt(v) == v
  }

  lemma {:induction false} RootOf(sqrt: real -> real, v: real) returns (r: real)
    requires IsRoot(sqrt) && v >= 0.0
    ensures r == sqrt(v) && r >= 0.0 && r * r == v
  {
    r := sqrt(v);
  }

  function Ratio(dot: real, normA: real, normB: real): real {
    if normA == 0.0 || normB == 0.0 then 0.0
    else
      NonZeroProduct(normA, normB);
      dot / (normA * normB)
  }

  function Cosine(a: Vector, b: Vector, sqrt: real -> real): real {
    if |a| != |b| || a == [] then 0.0 else Ratio(Dot(a, b), sqrt(Dot(a, a)), sqrt(Dot(b, b)))
  }

  lemma {:induction false} NonZeroProduct(x: real, y: real)
    requires x != 0.0 && y != 0.0
    ensures x * y != 0.0
  {
    if x > 0.0 {
      if y > 0.0 { Positive(x, y); } else { Positive(x, -y); }
    } else {
      if y > 0.0 { Positive(-x, y); } else { Positive(-x, -y); }
    }
  }

  lemma {:induction false} SquareIsNonNegative(x: real)
    ensures x * x >= 0.0
  {}

  lemma {:induction false} NormIsNonNegative(a: Vector)
    ensures Dot(a, a) >= 0.0
  {
    if a != [] {
      SquareIsNonNegative(a[0]);
      NormIsNonNegative(a[1..]);
    }
  }

  /** A larger square belongs to a larger number. */
  lemma {:induction false} SquareOrder(p: real, q: real)
    requires p >= 0.0 && q * q <= p * p
    ensures -p <= q <= p
  {
    assert (-q) * (-q) == q * q;
    if q > p { Products(q, p); }
    if -q > p { Products(-q, p); }
  }

  lemma {:induction false} Products(q: real, p: real)
    requires q > p >= 0.0
    ensures q * q > p * p
  {
    assert q * q - p * p == (q - p) * (q + p);
    Positive(q - p, q + p);
  }

  lemma {:induction false} Positive(x: real, y: real)
    requires x > 0.0 && y > 0.0
    ensures x * y > 0.0
  {}

  lemma {:induction false} NonNegative(x: real, y: real)
    requires x >= 0.0 && y >= 0.0
    ensures x * y >= 0.0
  {}

  /** The step of Cauchy-Schwarz: one more coordinate `x`, `y` on top of `s * s <= m * n`. */
  lemma {:induction false} MixedTerm(x: real, y: real, s: real, m: real, n: real)
    requires m >= 0.0 && n >= 0.0 && s * s <= m * n
    ensures 2.0 * (x * y * s) <= x * x * n + y * y * m
  {
    var u, v := x * x, y * y;
    var p, q := u * n + v * m, 2.0 * (x * y * s);
    SquareIsNonNegative(x);
    SquareIsNonNegative(y);
    NonNegative(u, n);
    NonNegative(v, m);
    NonNegative(u, v);
    assert q * q == 4.0 * (u * v) * (s * s);
    NonNegative(u * v, m * n - s * s);
    SquareIsNonNegative(u * n - v * m);
    assert p * p - 4.0 * (u * v) * (m * n) == (u * n - v * m) * (u * n - v * m);
    assert q * q <= p * p;
    SquareOrder(p, q);
  }

  /** One more coordinate keeps the inequality. */
  lemma {:induction false} CauchyStep(x: real, y: real, s: real, m: real, n: real, dot: real, aa: real, bb: real)
    requires m >= 0.0 && n >= 0.0 && s * s <= m * n
    requires dot == x * y + s && aa == x * x + m && bb == y * y + n
    ensures dot * dot <= aa * bb
  {
    MixedTerm(x, y, s, m, n);
    Expand(x, y, s, m, n);
  }

  lemma {:induction false} DotUnfolds(a: Vector, b: Vector)
    requires |a| == |b| && a != []
    ensures Dot(a, b) == a[0] * b[0] + Dot(a[1..], b[1..])
  {}

  lemma {:induction false} CauchySchwarz(a: Vector, b: Vector)
    requires |a| == |b|
    ensures Dot(a, b) * Dot(a, b) <= Dot(a, a) * Dot(b, b)
  {
    if a != [] {
      var a', b' := a[1..], b[1..];
      CauchySchwarz(a', b');
      NormIsNonNegative(a');
      NormIsNonNegative(b');
      DotUnfolds(a, b);
      DotUnfolds(a, a);
      DotUnfolds(b, b);
      CauchyStep(a[0], b[0], Dot(a', b'), Dot(a', a'), Dot(b', b'), Dot(a, b), Dot(a, a), Dot(b, b));
    }
  }

  lemma {:induction false} Expand(x: real, y: real, s: real, m: real, n: real)
    ensures (x * y + s) * (x * y + s) == x * y * (x * y) + 2.0 * (x * y * s) + s * s
    ensures (x * x + m) * (y * y + n) == x * y * (x * y) + x * x * n + y * y * m + m * n
  {
    assert x * x * (y * y) == x * y * (x * y);
    assert (x * x + m) * (y * y + n) == x * x * (y * y) + x * x * n + m * (y * y) + m * n;
  }

  lemma {:induction false} RatioInRange(d: real, p: real, q: real)
    requires p >= 0.0 && q >= 0.0 && d * d <= (p * p) * (q * q)
    ensures -1.0 <= Ratio(d, p, q) <= 1.0
  {
    if p != 0.0 && q != 0.0 {
      NonZeroProduct(p, q);
      NonNegative(p, q);
      assert (p * q) * (p * q) == (p * p) * (q * q);
      SquareOrder(p * q, d);
      Quotient(d, p * q);
    }
  }

  /** Every score lies between -1 and 1. */
  lemma {:induction false} CosineInRange(a: Vector, b: Vector, sqrt: real -> real)
    requires IsRoot(sqrt)
    ensures -1.0 <= Cosine(a, b, sqrt) <= 1.0
  {
    if |a| == |b| && a != [] {
      NormIsNonNegative(a);
      NormIsNonNegative(b);
      CauchySchwarz(a, b);
      RatioInRange(Dot(a, b), sqrt(Dot(a, a)), sqrt(Dot(b, b)));
    }
  }

  lemma {:induction false} Quotient(d: real, r: real)
    requires r > 0.0 && -r <= d <= r
    ensures -1.0 <= d / r <= 1.0
  {
    var z := d / r;
    assert z * r == d;
    assert (z - 1.0) * r == d - r && (-z - 1.0) * r == -d - r;
    if z > 1.0 { Positive(z - 1.0, r); }
    if z < -1.0 { Positive(-z - 1.0, r); }
  }

  lemma {:induction false} DotIsSymmetric(a: Vector, b: Vector)
    requires |a| == |b|
    ensures Dot(a, b) == Dot(b, a)
  {
    if a != [] { DotIsSymmetric(a[1..], b[1..]); }
  }

  lemma {:induction false} CosineIsSymmetric(a: Vector, b: Vector, sqrt: real -> real)
    ensures Cosine(a, b, sqrt) == Cosine(b, a, sqrt)
  {
    if |a| == |b| {
      DotIsSymmetric(a, b);
      assert sqrt(Dot(a, a)) * sqrt(Dot(b, b)) == sqrt(Dot(b, b)) * sqrt(Dot(a, a));
    }
  }

  // --- only the direction counts -----------------------------------------------------------

  function Scale(k: real, a: Vector): (s: Vector)
    ensures |s| == |a|
  {
    if a == [] then [] else [k * a[0]] + Scale(k, a[1..])
  }

  lemma {:induction false} DotOfScaled(k: real, a: Vector, b: Vector)
    requires |a| == |b|
    ensures Dot(Scale(k, a), b) == k * Dot(a, b)
  {
    if a != [] {
      DotOfScaled(k, a[1..], b[1..]);
      assert Scale(k, a)[1..] == Scale(k, a[1..]);
      Distribute(k, a[0] * b[0], Dot(a[1..], b[1..]));
      assert k * a[0] * b[0] == k * (a[0] * b[0]);
    }
  }

  lemma {:induction false} Distribute(k: real, x: real, y: real)
    ensures k * (x + y) == k * x + k * y
  {}

  lemma {:induction false} RootIsUnique(r: real, t: real, v: real)
    requires r >= 0.0 && t >= 0.0 && r * r == v && t * t == v
    ensures r == t
  {
    SquareOrder(r, t);
    SquareOrder(t, r);
  }

  lemma {:induction false} SquareOfScaled(k: real, r: real, v: real)
    requires r * r == v
    ensures k * (k * v) == (k * r) * (k * r)
  {}

  lemma {:induction false} ScaledNorm(k: real, a: Vector, sqrt: real -> real)
    requires IsRoot(sqrt) && k >= 0.0
    ensures sqrt(Dot(Scale(k, a), Scale(k, a))) == k * sqrt(Dot(a, a))
  {
    var v, w := Dot(a, a), Dot(Scale(k, a), Scale(k, a));
    NormIsNonNegative(a);
    NormIsNonNegative(Scale(k, a));
    ScaledSquare(k, a);
    var r := RootOf(sqrt, v);
    var t := RootOf(sqrt, w);
    SquareOfScaled(k, r, v);
    NonNegative(k, r);
    RootIsUnique(t, k * r, w);
  }

  lemma {:induction false} ScaledSquare(k: real, a: Vector)
    ensures Dot(Scale(k, a), Scale(k, a)) == k * (k * Dot(a, a))
  {
    DotOfScaled(k, a, Scale(k, a));
    DotIsSymmetric(a, Scale(k, a));
    DotOfScaled(k, a, a);
  }

  lemma {:induction false} Cancel(k: real, d: real, r: real)
    requires k > 0.0 && r != 0.0
    ensures k * r != 0.0 && (k * d) / (k * r) == d / r
  {
    NonZeroProduct(k, r);
    assert k * d == d / r * (k * r) by {
      assert d == d / r * r;
      assert d / r * (k * r) == k * (d / r * r);
    }
    QuotientIs(k * d, k * r, d / r);
  }

  lemma {:induction false} QuotientIs(x: real, y: real, z: real)
    requires y != 0.0 && x == z * y
    ensures x / y == z
  {
    var w := x / y;
    assert w * y == x;
    assert (w - z) * y == w * y - z * y;
    if w != z { NonZeroProduct(w - z, y); }
  }

  lemma {:induction false} RatioCancels(k: real, d: real, p: real, q: real)
    requires k > 0.0
    ensures Ratio(k * d, k * p, q) == Ratio(d, p, q)
  {
    if p != 0.0 && q != 0.0 {
      NonZeroProduct(p, q);
      NonZeroProduct(k, p);
      Cancel(k, d, p * q);
      assert k * p * q == k * (p * q);
    }
  }

  /** Scaling a vector by a positive factor does not change its score. */
  lemma {:induction false} CosineIgnoresLength(k: real, a: Vector, b: Vector, sqrt: real -> real)
    requires IsRoot(sqrt) && k > 0.0
    ensures Cosine(Scale(k, a), b, sqrt) == Cosine(a, b, sqrt)
  {
    if |a| == |b| && a != [] {
      var d, p, q := Dot(a, b), sqrt(Dot(a, a)), sqrt(Dot(b, b));
      ScaledNorm(k, a, sqrt);
      DotOfScaled(k, a, b);
      RatioCancels(k, d, p, q);
      SameRatio(Dot(Scale(k, a), b), sqrt(Dot(Scale(k, a), Scale(k, a))), q, k * d, k * p);
    }
  }

  lemma {:induction false} SameRatio(d: real, p: real, q: real, e: real, r: real)
    requires d == e && p == r
    ensures Ratio(d, p, q) == Ratio(e, r, q)
  {}

  lemma {:induction false} PositiveIs(x: real, y: real, d: real)
    requires x > 0.0 && y > 0.0 && d == x * y
    ensures d > 0.0
  {}

  lemma {:induction false} RatioOfItself(d: real, r: real)
    requires d == r * r
    ensures Ratio(d, r, r) == if d == 0.0 then 0.0 else 1.0
  {
    if r != 0.0 {
      if r > 0.0 { PositiveIs(r, r, d); } else { PositiveIs(-r, -r, d); }
      QuotientIs(d, d, 1.0);
    }
  }

  /** A non-zero vector scores 1 against itself, the highest score there is. */
  lemma {:induction false} CosineOfItself(a: Vector, sqrt: real -> real)
    requires IsRoot(sqrt)
    ensures Cosine(a, a, sqrt) == if a == [] || Dot(a, a) == 0.0 then 0.0 else 1.0
  {
    if a != [] {
      NormIsNonNegative(a);
      var r := RootOf(sqrt, Dot(a, a));
      RatioOfItself(Dot(a, a), r);
    }
  }

  lemma {:induction false} RatioTimes(d: real, p: real, q: real)
    requires p != 0.0 && q != 0.0
    ensures Ratio(d, p, q) * (p * q) == d
  {
    NonZeroProduct(p, q);
  }

  /** What a score is: times both lengths, it is the dot product; without a direction to compare it is 0. */
  lemma {:induction false} CosineIs(a: Vector, b: Vector, sqrt: real -> real)
    requires IsRoot(sqrt)
    ensures |a| == |b| && Dot(a, a) != 0.0 && Dot(b, b) != 0.0 ==>
              Cosine(a, b, sqrt) * (sqrt(Dot(a, a)) * sqrt(Dot(b, b))) == Dot(a, b)
    ensures |a| != |b| || Dot(a, a) == 0.0 || Dot(b, b) == 0.0 ==> Cosine(a, b, sqrt) == 0.0
  {
    NormIsNonNegative(a);
    NormIsNonNegative(b);
    var p := RootOf(sqrt, Dot(a, a));
    var q := RootOf(sqrt, Dot(b, b));
    RootOfZero(p, Dot(a, a));
    RootOfZero(q, Dot(b, b));
    if |a| == |b| && a != [] && p != 0.0 && q != 0.0 { RatioTimes(Dot(a, b), p, q); }
  }

  lemma {:induction false} NonZeroIs(x: real, y: real, d: real)
    requires x != 0.0 && y != 0.0 && d == x * y
    ensures d != 0.0
  {}

  lemma {:induction false} SquareOfZero(r: real, v: real)
    requires r * r == v && r == 0.0
    ensures v == 0.0
  {}

  lemma {:induction false} RootOfZero(r: real, v: real)
    requires r * r == v
    ensures r == 0.0 <==> v == 0.0
  {
    if r != 0.0 { NonZeroIs(r, r, v); } else { SquareOfZero(r, v); }
  }

  /** The opposite vector scores the opposite. */
  lemma {:induction false} CosineOfOpposite(a: Vector, b: Vector, sqrt: real -> real)
    ensures Cosine(Scale(-1.0, a), b, sqrt) == -Cosine(a, b, sqrt)
  {
    var c := Scale(-1.0, a);
    if |a| == |b| && a != [] {
      var d, v, q := Dot(a, b), Dot(a, a), sqrt(Dot(b, b));
      DotOfScaled(-1.0, a, b);
      ScaledSquare(-1.0, a);
      TwiceOpposite(v);
      RatioOfOpposite(d, sqrt(v), q);
      SameRatio(Dot(c, b), sqrt(Dot(c, c)), q, -1.0 * d, sqrt(v));
      assert Cosine(c, b, sqrt) == Ratio(Dot(c, b), sqrt(Dot(c, c)), q);
    } else {
      assert Cosine(a, b, sqrt) == 0.0 && Cosine(c, b, sqrt) == 0.0;
    }
  }

  lemma {:induction false} TwiceOpposite(v: real)
    ensures -1.0 * (-1.0 * v) == v
  {}

  lemma {:induction false} RatioOfOpposite(d: real, p: real, q: real)
    ensures Ratio(-1.0 * d, p, q) == -Ratio(d, p, q)
  {
    if p != 0.0 && q != 0.0 {
      RatioTimes(d, p, q);
      NonZeroProduct(p, q);
      QuotientIs(-1.0 * d, p * q, -Ratio(d, p, q));
    }
  }
}
