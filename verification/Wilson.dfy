/** The Wilson score interval in exact real arithmetic. */
module Wilson {

  datatype Interval = Interval(low: real, rate: real, high: real)

  const Z: real := 1.96

  function Min(a: real, b: real): real {
    if a <= b then a else b
  }

  function Max(a: real, b: real): real {
    if a >= b then a else b
  }

  function Rate(converted: real, exposed: real): real
    requires exposed > 0.0
  {
    converted / exposed
  }

  /** The quantity under the square root. */
  function Spread(converted: real, exposed: real): real
    requires exposed > 0.0
  {
    var p := Rate(converted, exposed);
    (p * (1.0 - p) + Z * Z / (4.0 * exposed)) / exposed
  }

  function Center(converted: real, exposed: real): real
    requires exposed > 0.0
  {
    (Rate(converted, exposed) + Z * Z / (2.0 * exposed)) / (1.0 + Z * Z / exposed)
  }

  function Margin(exposed: real, root: real): real
    requires exposed > 0.0
  {
    Z * root / (1.0 + Z * Z / exposed)
  }

  /** `root` is the exact square root of the spread. */
  predicate IsRoot(converted: real, exposed: real, root: real)
    requires exposed > 0.0
  {
    root >= 0.0 && root * root == Spread(converted, exposed)
  }

  /** `wilsonInterval`, given the square root it takes. */
  function WilsonInterval(converted: real, exposed: real, root: real): Interval {
    if exposed <= 0.0 then Interval(0.0, 0.0, 0.0)
    else
      var center, margin := Center(converted, exposed), Margin(exposed, root);
      Interval(Max(0.0, center - margin), Rate(converted, exposed), Min(1.0, center + margin))
  }

  // ---- The algebra, with w standing for z squared over n ----

  lemma Products(a: real, b: real, product: real)
    requires a >= 0.0 && b >= 0.0 && product == a * b
    ensures product >= 0.0
    ensures a > 0.0 && b > 0.0 ==> product > 0.0
  {
  }

  lemma Divided(x: real, a: real, d: real)
    requires d > 0.0 && x * d == a
    ensures x == a / d
  {
    var y := a / d;
    assert y * d == a;
    assert (x - y) * d == 0.0;
    if x > y { Products(x - y, d, (x - y) * d); }
    if x < y { Products(y - x, d, (y - x) * d); }
  }

  lemma SumOfQuotients(a: real, b: real, d: real)
    requires d > 0.0
    ensures (a + b) / d == a / d + b / d && (a - b) / d == a / d - b / d
  {
    var x, y := a / d, b / d;
    assert x * d == a && y * d == b;
    assert (x + y) * d == x * d + y * d && (x - y) * d == x * d - y * d;
    Divided(x + y, a + b, d);
    Divided(x - y, a - b, d);
  }

  lemma Quotients(a: real, b: real, d: real)
    requires d > 0.0 && a <= b
    ensures a / d <= b / d
  {
    var x, y := a / d, b / d;
    assert x * d == a && y * d == b;
    assert (x - y) * d == a - b;
    if x > y {
      Products(x - y, d, (x - y) * d);
    }
  }

  lemma OppositeSquares(a: real, b: real)
    ensures (-a - b) * (-a + b) == a * a - b * b
  {
  }

  /** Squares order non-negative numbers. */
  lemma SquareOrder(a: real, b: real)
    requires b >= 0.0 && a * a <= b * b
    ensures -b <= a <= b
  {
    if a > b {
      assert (a - b) * (a + b) == a * a - b * b;
      Products(a - b, a + b, a * a - b * b);
    }
    if -a > b {
      OppositeSquares(a, b);
      Products(-a - b, -a + b, a * a - b * b);
    }
  }

  /** The lower end stays above zero: the squared margin is at most the squared centre. */
  lemma LowerAlgebra(p: real, w: real, m: real)
    requires 0.0 <= p && w > 0.0 && m >= 0.0 && m * m == w * (p * (1.0 - p) + w / 4.0)
    ensures m <= p + w / 2.0
  {
    var c := p + w / 2.0;
    assert c * c == p * p + p * w + w * w / 4.0;
    assert w * (p * (1.0 - p) + w / 4.0) == w * p - w * (p * p) + w * w / 4.0;
    Products(p, p, p * p);
    Products(p * p, 1.0 + w, p * p * (1.0 + w));
    assert c * c - m * m == p * p * (1.0 + w);
    SquareOrder(m, c);
  }

  /** The rate lies within a margin of the centre. */
  lemma RateAlgebra(p: real, w: real, m: real)
    requires 0.0 <= p <= 1.0 && w > 0.0 && m >= 0.0 && m * m == w * (p * (1.0 - p) + w / 4.0)
    ensures -m <= p + w / 2.0 - p * (1.0 + w) <= m
  {
    var d, q := p + w / 2.0 - p * (1.0 + w), p * (1.0 - p);
    assert d == w * (0.5 - p);
    assert (0.5 - p) * (0.5 - p) == 0.25 - q;
    assert d * d == w * w * (0.25 - q);
    Products(p, 1.0 - p, q);
    Products(w, w, w * w);
    Products(w + w * w, q, (w + w * w) * q);
    assert m * m - d * d == (w + w * w) * q;
    SquareOrder(d, m);
  }

  /** The interval in terms of w: numerators over one denominator. */
  lemma InTermsOfW(converted: real, exposed: real, root: real, w: real, m: real)
    requires exposed > 0.0 && IsRoot(converted, exposed, root) && w == Z * Z / exposed && m == Z * root
    ensures w > 0.0 && m >= 0.0
    ensures var p := Rate(converted, exposed);
            && m * m == w * (p * (1.0 - p) + w / 4.0)
            && Center(converted, exposed) == (p + w / 2.0) / (1.0 + w)
            && Margin(exposed, root) == m / (1.0 + w)
  {
    var p := Rate(converted, exposed);
    var q := p * (1.0 - p);
    assert Z * Z / (4.0 * exposed) == w / 4.0 && Z * Z / (2.0 * exposed) == w / 2.0;
    assert Spread(converted, exposed) == (q + w / 4.0) / exposed;
    assert m * m == Z * Z * (root * root);
    assert Z * Z * ((q + w / 4.0) / exposed) == w * (q + w / 4.0);
  }

  /** Five numerators over one positive denominator. */
  lemma OrderedQuotients(p: real, c: real, m: real, d: real)
    requires d > 0.0 && m <= c && c - m <= p * d <= c + m && c + m <= d
    ensures 0.0 <= c / d - m / d <= p <= c / d + m / d <= 1.0
  {
    SumOfQuotients(c, m, d);
    Divided(p, p * d, d);
    Divided(1.0, d, d);
    Divided(0.0, 0.0, d);
    Quotients(0.0, c - m, d);
    Quotients(c - m, p * d, d);
    Quotients(p * d, c + m, d);
    Quotients(c + m, d, d);
  }

  /** For all counts, 0 <= low <= rate <= high <= 1, and neither clamp changes a value. */
  lemma IntervalIsOrdered(converted: real, exposed: real, root: real)
    requires exposed > 0.0 && 0.0 <= converted <= exposed && IsRoot(converted, exposed, root)
    ensures var i := WilsonInterval(converted, exposed, root);
            && 0.0 <= i.low <= i.rate <= i.high <= 1.0
            && i.low == Center(converted, exposed) - Margin(exposed, root)
            && i.high == Center(converted, exposed) + Margin(exposed, root)
  {
    var p, w, m := Rate(converted, exposed), Z * Z / exposed, Z * root;
    RateIsFraction(converted, exposed);
    InTermsOfW(converted, exposed, root, w, m);
    LowerAlgebra(p, w, m);
    assert (1.0 - p) * (1.0 - (1.0 - p)) == p * (1.0 - p);
    LowerAlgebra(1.0 - p, w, m);
    RateAlgebra(p, w, m);
    hide Rate, Center, Margin, IsRoot, Spread;
    OrderedQuotients(p, p + w / 2.0, m, 1.0 + w);
  }

  lemma RateIsFraction(converted: real, exposed: real)
    requires exposed > 0.0 && 0.0 <= converted <= exposed
    ensures 0.0 <= Rate(converted, exposed) <= 1.0
    ensures Rate(exposed - converted, exposed) == 1.0 - Rate(converted, exposed)
  {
    Quotients(0.0, converted, exposed);
    Quotients(converted, exposed, exposed);
    SumOfQuotients(exposed, converted, exposed);
  }

  /** Swapping conversions with non-conversions reflects the interval about one half. */
  lemma Reflection(converted: real, exposed: real, root: real)
    requires exposed > 0.0 && 0.0 <= converted <= exposed && IsRoot(converted, exposed, root)
    ensures IsRoot(exposed - converted, exposed, root)
    ensures var i := WilsonInterval(converted, exposed, root);
            WilsonInterval(exposed - converted, exposed, root) == Interval(1.0 - i.high, 1.0 - i.rate, 1.0 - i.low)
  {
    var p, w := Rate(converted, exposed), Z * Z / exposed;
    RateIsFraction(converted, exposed);
    assert (1.0 - p) * (1.0 - (1.0 - p)) == p * (1.0 - p);
    assert IsRoot(exposed - converted, exposed, root);
    IntervalIsOrdered(converted, exposed, root);
    IntervalIsOrdered(exposed - converted, exposed, root);
    InTermsOfW(converted, exposed, root, w, Z * root);
    InTermsOfW(exposed - converted, exposed, root, w, Z * root);
    var d := 1.0 + w;
    hide Rate, Center, Margin, IsRoot, Spread;
    SumOfQuotients(d, p + w / 2.0, d);
    Divided(1.0, d, d);
    assert 1.0 - p + w / 2.0 == d - (p + w / 2.0);
  }

  /** The quadratic behind the interval, completed to a square. */
  lemma CompletedSquare(p: real, w: real, q: real, x: real, y: real)
    requires q == p * p && y == x * x
    ensures var d, c := 1.0 + w, p + w / 2.0;
            d * (q - 2.0 * (p * x) + y - w * (x - y)) == (d * x - c) * (d * x - c) - (w * (p - q) + w * w / 4.0)
  {
    var d, c := 1.0 + w, p + w / 2.0;
    var px := p * x;
    assert (d * x - c) * (d * x - c) == d * x * (d * x) - 2.0 * (d * x * c) + c * c;
    assert d * x * (d * x) == d * d * y;
    assert d * x * c == d * (px + w * x / 2.0);
    assert c * c == q + p * w + w * w / 4.0;
    assert d * d * y == d * (y + w * y);
    assert q + p * w - (w * (p - q)) == q * d;
  }

  lemma ZeroProduct(a: real, b: real)
    ensures a * b == 0.0 <==> a == 0.0 || b == 0.0
  {
  }

  lemma EqualSquares(u: real, m: real)
    ensures u * u == m * m <==> u == m || u == -m
  {
    assert (u - m) * (u + m) == u * u - m * m;
    ZeroProduct(u - m, u + m);
  }

  /** How far `x` is from lying 1.96 standard errors off the rate `p`, with `w` as above. */
  function Score(p: real, w: real, x: real): real {
    (p - x) * (p - x) - w * (x * (1.0 - x))
  }

  function Offset(p: real, w: real, x: real): real {
    (1.0 + w) * x - (p + w / 2.0)
  }

  function Squared(a: real): real {
    a * a
  }

  lemma Expanded(p: real, w: real, x: real)
    ensures Score(p, w, x) == p * p - 2.0 * (p * x) + x * x - w * (x - x * x)
  {
    assert x * (1.0 - x) == x - x * x;
  }

  lemma MarginSquared(p: real, w: real, m: real)
    requires m * m == w * (p * (1.0 - p) + w / 4.0)
    ensures Squared(m) == w * (p - p * p) + w * w / 4.0
  {
    assert p * (1.0 - p) == p - p * p;
  }

  lemma OffsetSquared(p: real, w: real, x: real)
    ensures (1.0 + w) * (p * p - 2.0 * (p * x) + x * x - w * (x - x * x))
         == Squared(Offset(p, w, x)) - (w * (p - p * p) + w * w / 4.0)
  {
    CompletedSquare(p, w, p * p, x, x * x);
  }

  lemma ScoreForm(p: real, w: real, m: real, x: real)
    requires m * m == w * (p * (1.0 - p) + w / 4.0)
    ensures (1.0 + w) * Score(p, w, x) == Squared(Offset(p, w, x)) - Squared(m)
  {
    Expanded(p, w, x);
    MarginSquared(p, w, m);
    OffsetSquared(p, w, x);
    hide Score, Offset, Squared;
  }

  lemma Solved(d: real, e: real, u: real, m: real)
    requires d > 0.0 && d * e == Squared(u) - Squared(m)
    ensures e == 0.0 <==> u == m || u == -m
  {
    ZeroProduct(d, e);
    EqualSquares(u, m);
  }

  lemma ScoreAlgebra(p: real, w: real, m: real, x: real)
    requires w > 0.0 && m * m == w * (p * (1.0 - p) + w / 4.0)
    ensures Score(p, w, x) == 0.0 <==> Offset(p, w, x) == m || Offset(p, w, x) == -m
  {
    hide Score, Offset, Squared;
    ScoreForm(p, w, m, x);
    Solved(1.0 + w, Score(p, w, x), Offset(p, w, x), m);
  }

  /** The two solutions as quotients. */
  lemma ScoreEnds(p: real, w: real, m: real, x: real, low: real, high: real)
    requires w > 0.0 && m * m == w * (p * (1.0 - p) + w / 4.0)
    requires low == (p + w / 2.0) / (1.0 + w) - m / (1.0 + w) && high == (p + w / 2.0) / (1.0 + w) + m / (1.0 + w)
    ensures Score(p, w, x) == 0.0 <==> x == low || x == high
  {
    hide Score, Offset;
    ScoreAlgebra(p, w, m, x);
    OffsetEnds(1.0 + w, p + w / 2.0, m, x, low, high);
    OffsetIs(p, w, x);
  }

  lemma OffsetIs(p: real, w: real, x: real)
    ensures Offset(p, w, x) == Times(1.0 + w, x) - (p + w / 2.0)
  {
  }

  function Times(a: real, b: real): real {
    a * b
  }

  lemma OffsetEnds(d: real, c: real, m: real, x: real, low: real, high: real)
    requires d > 0.0 && low == c / d - m / d && high == c / d + m / d
    ensures Times(d, x) - c == -m <==> x == low
    ensures Times(d, x) - c == m <==> x == high
  {
    SumOfQuotients(c, m, d);
    QuotientIs(d, x, Times(d, x), c + m);
    QuotientIs(d, x, Times(d, x), c - m);
  }

  /** The two ends are the values at which the rate lies exactly 1.96 standard errors away, and
      there are no others. */
  lemma EndsAreScoreRoots(converted: real, exposed: real, root: real, x: real)
    requires exposed > 0.0 && 0.0 <= converted <= exposed && IsRoot(converted, exposed, root)
    ensures var i := WilsonInterval(converted, exposed, root);
            Score(i.rate, 1.96 * 1.96 / exposed, x) == 0.0 <==> x == i.low || x == i.high
  {
    hide *;
    var w, m := 1.96 * 1.96 / exposed, 1.96 * root;
    var i := WilsonInterval(converted, exposed, root);
    EndsInTermsOfW(converted, exposed, root, w, m);
    ScoreEnds(i.rate, w, m, x, i.low, i.high);
  }

  lemma EndsInTermsOfW(converted: real, exposed: real, root: real, w: real, m: real)
    requires exposed > 0.0 && 0.0 <= converted <= exposed && IsRoot(converted, exposed, root)
    requires w == 1.96 * 1.96 / exposed && m == 1.96 * root
    ensures var i := WilsonInterval(converted, exposed, root);
            && w > 0.0 && m * m == w * (i.rate * (1.0 - i.rate) + w / 4.0)
            && i.low == (i.rate + w / 2.0) / (1.0 + w) - m / (1.0 + w)
            && i.high == (i.rate + w / 2.0) / (1.0 + w) + m / (1.0 + w)
  {
    hide Rate, Center, Margin, IsRoot, Spread, Min, Max;
    IntervalIsOrdered(converted, exposed, root);
    InTermsOfW(converted, exposed, root, w, m);
    RateOf(converted, exposed, root);
    hide WilsonInterval;
  }

  lemma RateOf(converted: real, exposed: real, root: real)
    requires exposed > 0.0
    ensures WilsonInterval(converted, exposed, root).rate == Rate(converted, exposed)
  {
    hide Rate, Center, Margin;
  }

  lemma QuotientIs(d: real, x: real, y: real, n: real)
    requires d > 0.0 && y == d * x
    ensures y == n <==> x == n / d
  {
    if y == n { Divided(x, n, d); }
  }

  /** The rate is what was converted of what was exposed; nobody exposed gives nothing. */
  lemma RateReads(converted: real, exposed: real, root: real)
    ensures exposed <= 0.0 ==> WilsonInterval(converted, exposed, root) == Interval(0.0, 0.0, 0.0)
    ensures exposed > 0.0 ==> WilsonInterval(converted, exposed, root).rate * exposed == converted
  {
  }

  /** The square root, and with it the interval, is determined by the counts. */
  lemma RootIsUnique(converted: real, exposed: real, one: real, other: real)
    requires exposed > 0.0 && IsRoot(converted, exposed, one) && IsRoot(converted, exposed, other)
    ensures one == other
  {
    SquareOrder(one, other);
    SquareOrder(other, one);
  }
}
