/** The Wilson score lower bound, over exact real arithmetic with an exact square root. */
module Wilson {

  /** A square root on the non-negative reals. */
  ghost predicate IsSqrt(sqrt: real -> real) {
    forall x :: x >= 0.0 ==> sqrt(x) >= 0.0 && sqrt(x) * sqrt(x) == x
  }

  datatype Bound = NoSample | OutOfRange | Lower(value: real)

  function Spread(p: real, z: real, size: real): real
    requires size > 0.0
  {
    (p * (1.0 - p) + z * z / (4.0 * size)) / size
  }

  function Shrunk(p: real, z: real, size: real, margin: real): real
    requires size > 0.0
  {
    var denom := 1.0 + z * z / size;
    assert denom > 0.0 by { QuotientNonNegative(z * z, size); }
    var centre := p + z * z / (2.0 * size);
    (centre - margin) / denom
  }

  function WilsonLowerBound(successes: int, n: int, z: real, sqrt: real -> real): Bound {
    if n <= 0 then NoSample
    else if successes < 0 || successes > n then OutOfRange
    else
      var p := successes as real / n as real;
      Lower(Shrunk(p, z, n as real, z * sqrt(Spread(p, z, n as real))))
  }

  // ---- the bound in terms of the proportion p, the weight w = z*z/n and the margin t ----

  ghost predicate Margin(p: real, w: real, t: real) {
    0.0 <= p <= 1.0 && w >= 0.0 && t >= 0.0 && t * t == w * (p * (1.0 - p) + w / 4.0)
  }

  lemma ProductNonNegative(a: real, b: real)
    requires a >= 0.0 && b >= 0.0
    ensures a * b >= 0.0
  {
  }

  lemma ProductPositive(a: real, b: real)
    requires a > 0.0 && b > 0.0
    ensures a * b > 0.0
  {
  }

  /** The product under its own name, which keeps its sign apart from its factors. */
  lemma PositiveProduct(a: real, b: real) returns (c: real)
    requires a > 0.0 && b > 0.0
    ensures c == a * b && c > 0.0
  {
    c := a * b;
    if c <= 0.0 {
      ProductPositive(a, b);
    }
  }

  lemma SquaresOrder(a: real, b: real)
    requires a * a <= b * b && b >= 0.0
    ensures a <= b
  {
    if a > b {
      assert a * a - b * b == (a - b) * (a + b);
      ProductPositive(a - b, a + b);
    }
  }

  /** The margin is at least half the weight times the distance of p from the other half. */
  lemma MarginIsLarge(p: real, w: real, t: real)
    requires Margin(p, w, t)
    ensures t >= w * (1.0 - 2.0 * p) / 2.0
  {
    var m, v := w * (1.0 - 2.0 * p) / 2.0, p * (1.0 - p);
    MarginExcess(p, w, t);
    ProductNonNegative(p, 1.0 - p);
    ProductNonNegative(w, v);
    ProductNonNegative(w, w);
    ProductNonNegative(w * w, v);
    SquaresOrder(m, t);
  }

  lemma MarginExcess(p: real, w: real, t: real)
    requires Margin(p, w, t)
    ensures var m, v := w * (1.0 - 2.0 * p) / 2.0, p * (1.0 - p); t * t - m * m == w * v + (w * w) * v
  {
    var m := w * (1.0 - 2.0 * p) / 2.0;
    var v := p * (1.0 - p);
    assert (1.0 - 2.0 * p) * (1.0 - 2.0 * p) == 1.0 - 4.0 * v;
    assert m * m == w * w * (1.0 - 4.0 * v) / 4.0 by {
      calc {
        m * m;
        (w * (1.0 - 2.0 * p)) * (w * (1.0 - 2.0 * p)) / 4.0;
        w * w * ((1.0 - 2.0 * p) * (1.0 - 2.0 * p)) / 4.0;
      }
    }
    assert t * t == w * v + w * w / 4.0;
    assert w * w * (1.0 - 4.0 * v) == w * w - 4.0 * ((w * w) * v);
  }

  lemma MarginBelowCentre(p: real, w: real, t: real)
    requires Margin(p, w, t)
    ensures t <= p + w / 2.0
    ensures (p + w / 2.0) * (p + w / 2.0) - t * t == (1.0 + w) * (p * p)
  {
    var c := p + w / 2.0;
    assert c * c == p * p + p * w + w * w / 4.0;
    assert t * t == w * p - w * (p * p) + w * w / 4.0;
    ProductNonNegative(p, p);
    ProductNonNegative(w, p * p);
    SquaresOrder(t, c);
  }

  lemma MarginGrowth(p: real, t: real, q: real, u: real, w: real)
    requires Margin(p, w, t) && Margin(q, w, u) && p <= q
    ensures u - t <= q - p
  {
    if u > t {
      MarginIsLarge(p, w, t);
      MarginIsLarge(q, w, u);
      MarginDifference(p, t, q, u, w);
      assert w * (1.0 - p - q) == w * (1.0 - 2.0 * p) / 2.0 + w * (1.0 - 2.0 * q) / 2.0;
      Cancel(u - t, q - p, u + t, w * (1.0 - p - q));
    }
  }

  lemma MarginDifference(p: real, t: real, q: real, u: real, w: real)
    requires Margin(p, w, t) && Margin(q, w, u)
    ensures (u - t) * (u + t) == (q - p) * (w * (1.0 - p - q))
  {
    assert (u - t) * (u + t) == u * u - t * t;
    var v, y := p * (1.0 - p), q * (1.0 - q);
    assert u * u - t * t == w * (y - v);
    assert y - v == (q - p) * (1.0 - p - q);
    assert w * ((q - p) * (1.0 - p - q)) == (q - p) * (w * (1.0 - p - q));
  }

  lemma Cancel(x: real, d: real, total: real, part: real)
    requires x * total == d * part && part <= total && d >= 0.0 && total > 0.0
    ensures x <= d
  {
    ProductNonNegative(d, total - part);
    assert d * (total - part) == d * total - d * part;
    assert (x - d) * total == x * total - d * total;
    if x > d {
      ProductPositive(x - d, total);
    }
  }

  // ---- the bound itself ----

  /** What the code computes is the reduced form (p + w/2 - t) / (1 + w). */
  lemma Reduced(successes: int, n: int, z: real, sqrt: real -> real) returns (p: real, w: real, t: real)
    requires 0 <= successes <= n && n >= 1 && z >= 0.0 && IsSqrt(sqrt)
    ensures p == successes as real / n as real && w == z * z / n as real
    ensures Margin(p, w, t)
    ensures WilsonLowerBound(successes, n, z, sqrt) == Lower((p + w / 2.0 - t) / (1.0 + w))
  {
    var size := n as real;
    p := successes as real / size;
    w := z * z / size;
    ProportionInRange(successes as real, size);
    ProductNonNegative(z, z);
    QuotientNonNegative(z * z, size);
    SpreadNonNegative(p, z, size);
    var root := sqrt(Spread(p, z, size));
    t := z * root;
    ProductNonNegative(z, root);
    MarginFromRoot(p, z, size, root);
    ShrunkInWeights(p, z, size, t);
  }

  lemma SpreadNonNegative(p: real, z: real, size: real)
    requires 0.0 <= p <= 1.0 && size > 0.0
    ensures Spread(p, z, size) >= 0.0
  {
    ProductNonNegative(p, 1.0 - p);
    QuotientNonNegative(z * z, 4.0 * size);
    QuotientNonNegative(p * (1.0 - p) + z * z / (4.0 * size), size);
  }

  lemma ShrunkInWeights(p: real, z: real, size: real, t: real)
    requires size > 0.0
    ensures z * z / size >= 0.0
    ensures Shrunk(p, z, size, t) == (p + z * z / size / 2.0 - t) / (1.0 + z * z / size)
  {
    QuotientNonNegative(z * z, size);
    HalvesAndQuarters(z * z, size);
    var half := z * z / (2.0 * size);
    assert p + half - t == p + z * z / size / 2.0 - t;
  }

  lemma ProportionInRange(s: real, size: real)
    requires 0.0 <= s <= size && size > 0.0
    ensures 0.0 <= s / size <= 1.0
  {
  }

  lemma QuotientNonNegative(a: real, b: real)
    requires a >= 0.0 && b > 0.0
    ensures a / b >= 0.0
  {
  }

  lemma HalvesAndQuarters(z2: real, size: real)
    requires size > 0.0
    ensures z2 / (2.0 * size) == z2 / size / 2.0
    ensures z2 / (4.0 * size) == z2 / size / 4.0
  {
    var w := z2 / size;
    assert z2 == w * size;
    assert z2 == (w / 2.0) * (2.0 * size);
    assert z2 == (w / 4.0) * (4.0 * size);
  }

  lemma MarginFromRoot(p: real, z: real, size: real, root: real)
    requires size > 0.0 && root * root == Spread(p, z, size)
    ensures (z * root) * (z * root) == (z * z / size) * (p * (1.0 - p) + z * z / size / 4.0)
  {
    HalvesAndQuarters(z * z, size);
    var x := p * (1.0 - p) + z * z / (4.0 * size);
    assert (z * root) * (z * root) == (z * z) * (root * root);
    Exchange(z * z, x, size);
  }

  lemma Exchange(a: real, x: real, size: real)
    requires size > 0.0
    ensures a * (x / size) == (a / size) * x
  {
    var b, y := a / size, x / size;
    assert a == b * size && x == y * size;
    assert a * y == b * x;
  }

  lemma Multiply(a: real, b: real)
    requires b > 0.0
    ensures (a / b) * b == a
  {
  }

  lemma DivideBack(a: real, b: real)
    requires b > 0.0
    ensures a * b / b == a
  {
  }

  lemma QuotientsOrder(a: real, b: real, d: real)
    requires d > 0.0 && a <= b
    ensures a / d <= b / d
  {
  }

  /** The bound never exceeds the observed proportion and is never negative. */
  lemma BoundInRange(successes: int, n: int, z: real, sqrt: real -> real)
    requires 0 <= successes <= n && n >= 1 && z >= 0.0 && IsSqrt(sqrt)
    ensures WilsonLowerBound(successes, n, z, sqrt).Lower?
    ensures 0.0 <= WilsonLowerBound(successes, n, z, sqrt).value <= successes as real / n as real
  {
    var p, w, t := Reduced(successes, n, z, sqrt);
    ReducedInRange(p, w, t);
  }

  lemma ReducedInRange(p: real, w: real, t: real)
    requires Margin(p, w, t)
    ensures 0.0 <= (p + w / 2.0 - t) / (1.0 + w) <= p
  {
    MarginBelowCentre(p, w, t);
    MarginIsLarge(p, w, t);
    assert p + w / 2.0 - t <= p * (1.0 + w);
    QuotientsOrder(p + w / 2.0 - t, p * (1.0 + w), 1.0 + w);
    QuotientNonNegative(p + w / 2.0 - t, 1.0 + w);
    DivideBack(p, 1.0 + w);
  }

  lemma ReducedIsStrict(p: real, w: real, t: real)
    requires Margin(p, w, t)
    ensures (p + w / 2.0 - t) / (1.0 + w) > 0.0 <==> p > 0.0
    ensures (p + w / 2.0 - t) / (1.0 + w) < p <==> w > 0.0 && p > 0.0
  {
    var d, gap := 1.0 + w, p + w / 2.0 - t;
    ReducedInRange(p, w, t);
    SignOfQuotient(gap, d);
    StrictlyBelowCentre(p, w, t);
    StrictlyLarge(p, w, t);
    assert p * d - gap == t - w * (1.0 - 2.0 * p) / 2.0;
    QuotientBelow(gap, p, d);
  }

  lemma SignOfQuotient(a: real, d: real)
    requires d > 0.0
    ensures a / d > 0.0 <==> a > 0.0
  {
    Multiply(a, d);
  }

  lemma QuotientBelow(a: real, p: real, d: real)
    requires d > 0.0
    ensures a / d < p <==> a < p * d
  {
    Multiply(a, d);
  }

  lemma SquaresOrderStrictly(a: real, b: real)
    requires a * a < b * b && b >= 0.0
    ensures a < b
  {
    SquaresOrder(a, b);
  }

  lemma StrictlyBelowCentre(p: real, w: real, t: real)
    requires Margin(p, w, t)
    ensures t < p + w / 2.0 <==> p > 0.0
  {
    MarginBelowCentre(p, w, t);
    var c := p + w / 2.0;
    if p > 0.0 {
      var square := PositiveProduct(p, p);
      var excess := PositiveProduct(1.0 + w, square);
      assert c * c - t * t == excess;
      SquaresOrderStrictly(t, c);
    } else {
      SquaresOrder(c, t);
    }
  }

  lemma StrictlyLarge(p: real, w: real, t: real)
    requires Margin(p, w, t)
    ensures t > w * (1.0 - 2.0 * p) / 2.0 <==> w > 0.0 && p > 0.0
  {
    var m, v, square := w * (1.0 - 2.0 * p) / 2.0, p * (1.0 - p), w * w;
    MarginIsLarge(p, w, t);
    MarginExcess(p, w, t);
    assert t * t - m * m == w * v + square * v;
    if w == 0.0 || p == 0.0 {
      assert v == 0.0 || w == 0.0;
      assert w * v == 0.0 && square * v == 0.0;
      assert m >= 0.0;
      SquaresOrder(t, m);
    } else if p == 1.0 {
      assert m == -w / 2.0;
    } else {
      var spread := PositiveProduct(p, 1.0 - p);
      var first := PositiveProduct(w, spread);
      var weight := PositiveProduct(w, w);
      var second := PositiveProduct(weight, spread);
      SquaresOrderStrictly(m, t);
    }
  }

  /** The bound is positive exactly when something succeeded, and strictly below the observed proportion exactly
      when, besides, some confidence is asked for. */
  lemma BoundIsStrictIff(successes: int, n: int, z: real, sqrt: real -> real)
    requires 0 <= successes <= n && n >= 1 && z >= 0.0 && IsSqrt(sqrt)
    ensures WilsonLowerBound(successes, n, z, sqrt).Lower?
    ensures WilsonLowerBound(successes, n, z, sqrt).value > 0.0 <==> successes > 0
    ensures WilsonLowerBound(successes, n, z, sqrt).value < successes as real / n as real <==> z > 0.0 && successes > 0
  {
    var p, w, t := Reduced(successes, n, z, sqrt);
    ReducedIsStrict(p, w, t);
    SignOfQuotient(successes as real, n as real);
    var square := z * z;
    SignOfQuotient(square, n as real);
    if z > 0.0 {
      var c := PositiveProduct(z, z);
      assert square == c;
    }
  }

  /** More successes never lower the bound. */
  lemma BoundIsMonotone(fewer: int, more: int, n: int, z: real, sqrt: real -> real)
    requires 0 <= fewer <= more <= n && n >= 1 && z >= 0.0 && IsSqrt(sqrt)
    ensures WilsonLowerBound(fewer, n, z, sqrt).Lower? && WilsonLowerBound(more, n, z, sqrt).Lower?
    ensures WilsonLowerBound(fewer, n, z, sqrt).value <= WilsonLowerBound(more, n, z, sqrt).value
  {
    var p, w, t := Reduced(fewer, n, z, sqrt);
    var q, _, u := Reduced(more, n, z, sqrt);
    QuotientsOrder(fewer as real, more as real, n as real);
    MarginGrowth(p, t, q, u, w);
    QuotientsOrder(p + w / 2.0 - t, q + w / 2.0 - u, 1.0 + w);
  }

  /** A proportion x at which the score statistic is exactly z. */
  ghost predicate ScoreEquation(p: real, n: int, z: real, x: real) {
    n as real * ((p - x) * (p - x)) == z * z * (x * (1.0 - x))
  }

  lemma ScoreInWeights(p: real, n: int, z: real, x: real)
    requires n >= 1
    ensures var w := z * z / n as real; ScoreEquation(p, n, z, x) <==> (p - x) * (p - x) == w * (x * (1.0 - x))
  {
    var size, w := n as real, z * z / n as real;
    Multiply(z * z, size);
    assert z * z * (x * (1.0 - x)) == size * (w * (x * (1.0 - x)));
  }

  /** Completing the square. */
  lemma SquareGap(p: real, w: real, t: real, x: real) returns (e: real, gap: real)
    requires Margin(p, w, t)
    ensures e == (1.0 + w) * x - (p + w / 2.0) && gap == (p - x) * (p - x) - w * (x * (1.0 - x))
    ensures e * e - t * t == (1.0 + w) * gap
  {
    var d, c := 1.0 + w, p + w / 2.0;
    e := d * x - c;
    MarginBelowCentre(p, w, t);
    gap := (p - x) * (p - x) - w * (x * (1.0 - x));
    assert gap == d * (x * x) - 2.0 * (c * x) + p * p;
    assert e * e == d * (d * (x * x)) - 2.0 * (d * (c * x)) + c * c;
  }

  /** So x solves the score equation when (1+w)x - (p + w/2) is t or -t. */
  lemma SquareForm(p: real, w: real, t: real, x: real)
    requires Margin(p, w, t)
    ensures var e := (1.0 + w) * x - (p + w / 2.0);
            (p - x) * (p - x) == w * (x * (1.0 - x)) <==> e * e == t * t
  {
    var e, gap := SquareGap(p, w, t, x);
    var d := 1.0 + w;
    assert d * gap == 0.0 <==> gap == 0.0;
  }

  lemma ReducedSolves(p: real, w: real, t: real)
    requires Margin(p, w, t)
    ensures var x := (p + w / 2.0 - t) / (1.0 + w); (p - x) * (p - x) == w * (x * (1.0 - x))
  {
    var x := (p + w / 2.0 - t) / (1.0 + w);
    Multiply(p + w / 2.0 - t, 1.0 + w);
    SquareForm(p, w, t, x);
  }

  lemma ReducedIsLeast(p: real, w: real, t: real, x: real)
    requires Margin(p, w, t) && (p - x) * (p - x) == w * (x * (1.0 - x))
    ensures (p + w / 2.0 - t) / (1.0 + w) <= x
  {
    SquareForm(p, w, t, x);
    var e := (1.0 + w) * x - (p + w / 2.0);
    assert (-e) * (-e) == t * t;
    SquaresOrder(-e, t);
    QuotientsOrder(p + w / 2.0 - t, x * (1.0 + w), 1.0 + w);
    DivideBack(x, 1.0 + w);
  }

  /** At the bound the score statistic is exactly z. */
  lemma BoundSolvesScore(successes: int, n: int, z: real, sqrt: real -> real)
    requires 0 <= successes <= n && n >= 1 && z >= 0.0 && IsSqrt(sqrt)
    ensures WilsonLowerBound(successes, n, z, sqrt).Lower?
    ensures ScoreEquation(successes as real / n as real, n, z, WilsonLowerBound(successes, n, z, sqrt).value)
  {
    var p, w, t := Reduced(successes, n, z, sqrt);
    ReducedSolves(p, w, t);
    ScoreInWeights(p, n, z, (p + w / 2.0 - t) / (1.0 + w));
  }

  /** And nowhere below it: the bound is the lower end of the score interval. */
  lemma BoundIsLeastScoreRoot(successes: int, n: int, z: real, sqrt: real -> real, x: real)
    requires 0 <= successes <= n && n >= 1 && z >= 0.0 && IsSqrt(sqrt)
    requires ScoreEquation(successes as real / n as real, n, z, x)
    ensures WilsonLowerBound(successes, n, z, sqrt).Lower? && WilsonLowerBound(successes, n, z, sqrt).value <= x
  {
    var p, w, t := Reduced(successes, n, z, sqrt);
    ScoreInWeights(p, n, z, x);
    ReducedIsLeast(p, w, t, x);
  }

  // ---- what it takes to meet a threshold ----

  lemma SameSign(d: real, gap: real)
    requires d > 0.0
    ensures d * gap >= 0.0 <==> gap >= 0.0
  {
    if gap >= 0.0 {
      ProductNonNegative(d, gap);
    } else {
      var c := PositiveProduct(d, -gap);
      assert d * gap == -c;
    }
  }

  /** Below p, a root of the score equation beyond the centre would need x = 1. */
  lemma NotBeyondCentre(p: real, w: real, x: real)
    requires x <= p <= 1.0 && x < 1.0 && w > 0.0 && (p - x) * (p - x) >= w * (x * (1.0 - x))
    ensures (1.0 + w) * x <= p + w / 2.0
  {
    var u, y, e := p - x, 1.0 - x, (1.0 + w) * x - (p + w / 2.0);
    if e > 0.0 {
      assert e == w * (x - 0.5) - u;
      var gain := PositiveProduct(e, y);
      var half := PositiveProduct(w, y);
      assert gain == w * (x * y) - half / 2.0 - u * y;
      ProductNonNegative(u, y - u);
    }
  }

  lemma MarginFitsIff(d: real, e: real, gap: real, t: real)
    requires d > 0.0 && t >= 0.0 && e * e - t * t == d * gap
    ensures t <= -e <==> e <= 0.0 && gap >= 0.0
  {
    SameSign(d, gap);
    assert (-e) * (-e) == e * e;
    if t <= -e && e * e < t * t {
      SquaresOrderStrictly(-e, t);
    } else if e <= 0.0 && gap >= 0.0 {
      SquaresOrder(t, -e);
    }
  }

  lemma MeetsIffMarginFits(p: real, w: real, t: real, x: real)
    requires w >= 0.0
    ensures (p + w / 2.0 - t) / (1.0 + w) >= x <==> t <= -((1.0 + w) * x - (p + w / 2.0))
  {
    QuotientBelow(p + w / 2.0 - t, x, 1.0 + w);
  }

  lemma ReducedMeetsIff(p: real, w: real, t: real, x: real)
    requires Margin(p, w, t) && w > 0.0
    ensures (p + w / 2.0 - t) / (1.0 + w) >= x
            <==> x < 1.0 && x <= p && (p - x) * (p - x) >= w * (x * (1.0 - x))
  {
    var e, gap := SquareGap(p, w, t, x);
    MarginFitsIff(1.0 + w, e, gap, t);
    MeetsIffMarginFits(p, w, t, x);
    var bound := (p + w / 2.0 - t) / (1.0 + w);
    if bound >= x {
      MeetingIsBelow(p, w, t, x);
    } else if x < 1.0 && x <= p && gap >= 0.0 {
      NotBeyondCentre(p, w, x);
    }
  }

  lemma MeetingIsBelow(p: real, w: real, t: real, x: real)
    requires Margin(p, w, t) && w > 0.0 && (p + w / 2.0 - t) / (1.0 + w) >= x
    ensures x <= p && x < 1.0
  {
    ReducedInRange(p, w, t);
    ReducedIsStrict(p, w, t);
  }

  /** The bound meets a threshold exactly when the observed proportion lies above it, by z standard errors of the
      threshold or more; no sample meets certainty.  No square root is involved. */
  lemma MeetsThresholdIff(successes: int, n: int, z: real, sqrt: real -> real, x: real)
    requires 0 <= successes <= n && n >= 1 && z > 0.0 && IsSqrt(sqrt)
    ensures WilsonLowerBound(successes, n, z, sqrt).Lower?
    ensures var p := successes as real / n as real;
            WilsonLowerBound(successes, n, z, sqrt).value >= x
            <==> x < 1.0 && x <= p && n as real * ((p - x) * (p - x)) >= z * z * (x * (1.0 - x))
  {
    var p, w, t := Reduced(successes, n, z, sqrt);
    var size := n as real;
    var square := PositiveProduct(z, z);
    SignOfQuotient(square, size);
    assert w > 0.0;
    ReducedMeetsIff(p, w, t, x);
    Multiply(square, size);
    var gap := (p - x) * (p - x) - w * (x * (1.0 - x));
    SameSign(size, gap);
    assert size * gap == size * ((p - x) * (p - x)) - square * (x * (1.0 - x)) by {
      assert square == w * size;
      assert size * (w * (x * (1.0 - x))) == (w * size) * (x * (1.0 - x));
    }
  }
}
