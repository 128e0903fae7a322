/** What a downsampled curve looks like: in every bucket the point that is farthest from the line
    through the point chosen before and the mean point of the bucket behind. None of the laws
    here speaks of areas. */
module LttbGeometry {
  import opened Lttb

  // ---- Sums and means -------------------------------------------------------------------------

  /** The deviations from `m` of s[lo..hi], added up. */
  function Deviations(s: seq<real>, m: real, lo: nat, hi: nat): real
    requires lo <= hi <= |s|
  {
    if lo == hi then 0.0 else Deviations(s, m, lo, hi - 1) + (s[hi - 1] - m)
  }

  function AsReals(ts: seq<int>): seq<real> {
    seq(|ts|, i requires 0 <= i < |ts| => ts[i] as real)
  }

  lemma {:induction false} DeviationsOfSum(s: seq<real>, m: real, lo: nat, hi: nat)
    requires lo <= hi <= |s|
    ensures Deviations(s, m, lo, hi) == SumReals(s, lo, hi) - (hi - lo) as real * m
  {
    if lo < hi {
      DeviationsOfSum(s, m, lo, hi - 1);
      OneMore((hi - 1 - lo) as real, m);
      assert (hi - lo) as real == (hi - 1 - lo) as real + 1.0;
    }
  }

  lemma OneMore(n: real, m: real)
    ensures (n + 1.0) * m == n * m + m
  {
  }

  lemma {:induction false} SumOfReals(ts: seq<int>, lo: nat, hi: nat)
    requires lo <= hi <= |ts|
    ensures SumReals(AsReals(ts), lo, hi) == SumInts(ts, lo, hi) as real
  {
    if lo < hi {
      SumOfReals(ts, lo, hi - 1);
    }
  }

  lemma Quotient(x: real, y: real, n: real)
    requires n > 0.0
    ensures x - n * y == 0.0 <==> y == x / n
  {
    if y == x / n {
      assert n * (x / n) == x;
    }
  }

  /** (x, y) is the mean point of the bucket [lo, hi): nothing else balances the deviations. */
  predicate Balances(c: Curve, lo: nat, hi: nat, x: real, y: real)
    requires c.Valid() && lo < hi <= |c.ts|
  {
    Deviations(AsReals(c.ts), x, lo, hi) == 0.0 && Deviations(c.values, y, lo, hi) == 0.0
  }

  lemma MeanBalances(c: Curve, lo: nat, hi: nat, x: real, y: real)
    requires c.Valid() && lo < hi <= |c.ts|
    ensures Balances(c, lo, hi, x, y) <==> MeanOf(c, lo, hi) == (x, y)
  {
    DeviationsOfSum(AsReals(c.ts), x, lo, hi);
    DeviationsOfSum(c.values, y, lo, hi);
    SumOfReals(c.ts, lo, hi);
    Quotient(SumInts(c.ts, lo, hi) as real, x, (hi - lo) as real);
    Quotient(SumReals(c.values, lo, hi), y, (hi - lo) as real);
  }

  /** (x, y) is the point the bucket `i` looks at: the mean point of the bucket behind it, or the
      last point of the curve. */
  predicate LooksAt(c: Curve, b: seq<nat>, i: nat, x: real, y: real)
    requires c.Valid() && IsPartition(b, |c.ts|) && i + 1 < |b|
  {
    if i + 2 < |b| then b[i + 1] < b[i + 2] <= |c.ts| && Balances(c, b[i + 1], b[i + 2], x, y)
    else x == c.ts[|c.ts| - 1] as real && y == c.values[|c.ts| - 1]
  }

  lemma LooksAtMean(c: Curve, b: seq<nat>, i: nat, x: real, y: real)
    requires c.Valid() && IsPartition(b, |c.ts|) && i + 1 < |b|
    ensures LooksAt(c, b, i, x, y) <==> NextMean(c, b, i) == (x, y)
  {
    if i + 2 < |b| {
      assert b[i + 2] <= b[|b| - 1];
      MeanBalances(c, b[i + 1], b[i + 2], x, y);
    }
  }

  // ---- Distances from a line --------------------------------------------------------------------

  /** The line y == p * t + q. */
  datatype Line = Line(p: real, q: real) {
    function At(t: real): real { p * t + q }
  }

  /** How far point `j` is above or below the line. */
  function Gap(c: Curve, line: Line, j: nat): real
    requires c.Valid() && j < |c.ts|
  {
    Abs(c.values[j] - line.At(c.ts[j] as real))
  }

  lemma Swap(x: real, p: real, base: real)
    ensures x * (p * base) == base * (p * x)
  {
  }

  lemma Distribute(x: real, v: real, w: real)
    ensures x * (v - w) == x * v - x * w
  {
  }

  lemma AbsOfProduct(x: real, y: real)
    ensures Abs(x * y) == Abs(x) * Abs(y)
  {
  }

  /** Twice the area of a triangle is its horizontal base times the gap of the third point from
      the line through the other two. */
  lemma AreaIsBaseTimesGap(c: Curve, a: nat, x: real, y: real, j: nat, line: Line)
    requires c.Valid() && a < |c.ts| && j < |c.ts|
    requires c.values[a] == line.At(c.ts[a] as real) && y == line.At(x)
    ensures Area(c, a, (x, y), j) == Abs(c.ts[a] as real - x) * Gap(c, line, j)
  {
    var ax, t := c.ts[a] as real, c.ts[j] as real;
    var u, v, s, w := ax - x, c.values[j] - c.values[a], ax - t, y - c.values[a];
    Distribute(line.p, ax, x);
    Distribute(line.p, ax, t);
    AreaIs(c, a, x, y, j, u, v, s, w);
    OnLineProducts(u, v, s, w, line.p);
    AbsOfProduct(u, v + line.p * s);
  }

  /** The area in the sides of the triangle. */
  lemma AreaIs(c: Curve, a: nat, x: real, y: real, j: nat, u: real, v: real, s: real, w: real)
    requires c.Valid() && a < |c.ts| && j < |c.ts|
    requires u == c.ts[a] as real - x && v == c.values[j] - c.values[a]
    requires s == c.ts[a] as real - c.ts[j] as real && w == y - c.values[a]
    ensures Area(c, a, (x, y), j) == Abs(u * v - s * w)
  {
  }

  lemma OnLineProducts(u: real, v: real, s: real, w: real, p: real)
    requires w == -(p * u)
    ensures u * v - s * w == u * (v + p * s)
  {
    Distribute(u, v, -(p * s));
    Swap(s, p, u);
    Negated(s, p * u);
    Negated(u, p * s);
  }

  lemma ZeroTimes(x: real)
    ensures 0.0 * x == 0.0
  {
  }

  lemma Negated(x: real, z: real)
    ensures x * -z == -(x * z)
  {
  }

  /** Above or below one another two points span their height times the distance in time. */
  lemma AreaOverVerticalBase(c: Curve, a: nat, y: real, j: nat)
    requires c.Valid() && a < |c.ts| && j < |c.ts|
    ensures Area(c, a, (c.ts[a] as real, y), j) == Abs(c.ts[a] as real - c.ts[j] as real) * Abs(y - c.values[a])
  {
    var ax, t := c.ts[a] as real, c.ts[j] as real;
    AreaIs(c, a, ax, y, j, 0.0, c.values[j] - c.values[a], ax - t, y - c.values[a]);
    ZeroTimes(c.values[j] - c.values[a]);
    AbsOfProduct(ax - t, y - c.values[a]);
  }

  function GapsFrom(c: Curve, line: Line): nat -> real
    requires c.Valid()
  {
    (j: nat) => if j < |c.ts| then Gap(c, line, j) else 0.0
  }

  lemma Ordered(base: real, g: real, h: real)
    requires base > 0.0
    ensures base * g <= base * h <==> g <= h
    ensures base * g < base * h <==> g < h
  {
  }

  lemma ScaledMaximiser(f: nat -> real, g: nat -> real, base: real, lo: nat, hi: nat, k: nat)
    requires base > 0.0 && forall j :: lo <= j < hi ==> f(j) == base * g(j)
    ensures IsFirstMaximiser(f, lo, hi, k) <==> IsFirstMaximiser(g, lo, hi, k)
  {
    if lo <= k < hi {
      forall j | lo <= j < hi ensures (f(j) <= f(k) <==> g(j) <= g(k)) && (f(j) < f(k) <==> g(j) < g(k)) {
        Ordered(base, g(j), g(k));
      }
    }
  }

  /** The chosen point of a bucket is the first one farthest from the line through the point
      chosen before and the point the bucket looks at. */
  lemma ChosenIsFarthest(c: Curve, b: seq<nat>, i: nat, previous: nat, k: nat, x: real, y: real, line: Line)
    requires c.Valid() && IsPartition(b, |c.ts|) && i + 1 < |b| && previous < |c.ts| && LooksAt(c, b, i, x, y)
    requires c.ts[previous] as real != x && c.values[previous] == line.At(c.ts[previous] as real) && y == line.At(x)
    ensures Chosen(c, b, i, previous, k) <==> IsFirstMaximiser(GapsFrom(c, line), b[i], b[i + 1], k)
  {
    assert b[i + 1] <= b[|b| - 1];
    LooksAtMean(c, b, i, x, y);
    var f, g, base := AreaFrom(c, previous, (x, y)), GapsFrom(c, line), Abs(c.ts[previous] as real - x);
    forall j | b[i] <= j < b[i + 1] ensures f(j) == base * g(j) {
      AreaIsBaseTimesGap(c, previous, x, y, j, line);
    }
    ScaledMaximiser(f, g, base, b[i], b[i + 1], k);
  }

  /** So a point on the line is chosen only from a bucket that lies on it as a whole. */
  lemma PointOnLineIsChosenOnlyFromLine(c: Curve, b: seq<nat>, i: nat, previous: nat, k: nat,
                                        x: real, y: real, line: Line)
    requires c.Valid() && IsPartition(b, |c.ts|) && i + 1 < |b| && LooksAt(c, b, i, x, y)
    requires Chosen(c, b, i, previous, k) && k < |c.ts| && c.values[k] == line.At(c.ts[k] as real)
    requires c.ts[previous] as real != x && c.values[previous] == line.At(c.ts[previous] as real) && y == line.At(x)
    ensures b[i + 1] <= |c.ts| && forall j :: b[i] <= j < b[i + 1] ==> c.values[j] == line.At(c.ts[j] as real)
  {
    assert b[i + 1] <= b[|b| - 1];
    ChosenIsFarthest(c, b, i, previous, k, x, y, line);
    forall j | b[i] <= j < b[i + 1] ensures c.values[j] == line.At(c.ts[j] as real) {
      assert GapsFrom(c, line)(j) <= GapsFrom(c, line)(k) == 0.0;
    }
  }

  /** A downsampling keeps both ends and, of every bucket, the first point farthest from the line
      through the point kept before and the point the bucket looks at. */
  lemma SelectionIsFarthest(c: Curve, b: seq<nat>, sel: seq<nat>, i: nat, x: real, y: real, line: Line)
    requires IsSelection(c, b, sel) && i + 1 < |b| && LooksAt(c, b, i, x, y)
    requires sel[i] < |c.ts| && c.ts[sel[i]] as real != x && y == line.At(x)
    requires c.values[sel[i]] == line.At(c.ts[sel[i]] as real)
    ensures sel[0] == 0 && sel[|sel| - 1] == |c.ts| - 1
    ensures IsFirstMaximiser(GapsFrom(c, line), b[i], b[i + 1], sel[i + 1])
  {
    assert Chosen(c, b, i, sel[i], sel[i + 1]);
    ChosenIsFarthest(c, b, i, sel[i], sel[i + 1], x, y, line);
  }

  // ---- Tilting a curve ----------------------------------------------------------------------------

  /** The curve with a line added to its values. */
  function Tilted(c: Curve, line: Line): (r: Curve)
    requires c.Valid()
    ensures r.Valid()
  {
    Curve(c.ts, seq(|c.ts|, i requires 0 <= i < |c.ts| && c.Valid() => c.values[i] + line.At(c.ts[i] as real)))
  }

  lemma TiltedTerm(v: real, y: real, t: real, x: real, p: real, q: real, sum: real)
    ensures v + (p * t + q) - (y + (p * x + q)) == (v - y) + p * (t - x)
    ensures p * sum + p * (t - x) == p * (sum + (t - x))
  {
  }

  lemma {:induction false} TiltedDeviations(c: Curve, line: Line, lo: nat, hi: nat, x: real, y: real)
    requires c.Valid() && lo <= hi <= |c.ts|
    ensures Deviations(Tilted(c, line).values, y + line.At(x), lo, hi) ==
            Deviations(c.values, y, lo, hi) + line.p * Deviations(AsReals(c.ts), x, lo, hi)
  {
    if lo < hi {
      TiltedDeviations(c, line, lo, hi - 1, x, y);
      var sum := Deviations(AsReals(c.ts), x, lo, hi - 1);
      TiltedTerm(c.values[hi - 1], y, c.ts[hi - 1] as real, x, line.p, line.q, sum);
    }
  }

  lemma TiltedMean(c: Curve, b: seq<nat>, i: nat, line: Line)
    requires c.Valid() && IsPartition(b, |c.ts|) && i + 1 < |b|
    ensures var (x, y) := NextMean(c, b, i);
            NextMean(Tilted(c, line), b, i) == (x, y + line.At(x))
  {
    var (x, y) := NextMean(c, b, i);
    LooksAtMean(c, b, i, x, y);
    LooksAtMean(Tilted(c, line), b, i, x, y + line.At(x));
    if i + 2 < |b| {
      TiltedDeviations(c, line, b[i + 1], b[i + 2], x, y);
    }
  }

  lemma TiltedProducts(u: real, v: real, t: real, w: real, p: real)
    ensures u * (v - p * t) - t * (w - p * u) == u * v - t * w
  {
    Distribute(u, v, p * t);
    Distribute(t, w, p * u);
    Swap(u, p, t);
  }

  lemma TiltedArea(c: Curve, line: Line, a: nat, x: real, y: real, j: nat)
    requires c.Valid() && a < |c.ts|
    ensures Area(Tilted(c, line), a, (x, y + line.At(x)), j) == Area(c, a, (x, y), j)
  {
    if j < |c.ts| {
      var ax, t := c.ts[a] as real, c.ts[j] as real;
      var u, v, s, w := ax - x, c.values[j] - c.values[a], ax - t, y - c.values[a];
      Distribute(line.p, ax, x);
      Distribute(line.p, ax, t);
      AreaIs(c, a, x, y, j, u, v, s, w);
      AreaIs(Tilted(c, line), a, x, y + line.At(x), j, u, v - line.p * s, s, w - line.p * u);
      TiltedProducts(u, v, s, w, line.p);
    }
  }

  lemma SameMaximiser(f: nat -> real, g: nat -> real, lo: nat, hi: nat, k: nat)
    requires forall j :: lo <= j < hi ==> f(j) == g(j)
    ensures IsFirstMaximiser(f, lo, hi, k) <==> IsFirstMaximiser(g, lo, hi, k)
  {
  }

  lemma TiltKeepsChoice(c: Curve, b: seq<nat>, line: Line, i: nat, previous: nat, k: nat)
    requires c.Valid() && IsPartition(b, |c.ts|) && i + 1 < |b|
    ensures Chosen(Tilted(c, line), b, i, previous, k) <==> Chosen(c, b, i, previous, k)
  {
    if previous < |c.ts| {
      var (x, y) := NextMean(c, b, i);
      TiltedMean(c, b, i, line);
      var f, g := AreaFrom(Tilted(c, line), previous, (x, y + line.At(x))), AreaFrom(c, previous, (x, y));
      forall j | b[i] <= j < b[i + 1] ensures f(j) == g(j) {
        TiltedArea(c, line, previous, x, y, j);
      }
      SameMaximiser(f, g, b[i], b[i + 1], k);
    }
  }

  /** Which points are kept does not depend on a line added to the values. */
  lemma TiltKeepsSelection(c: Curve, b: seq<nat>, line: Line, sel: seq<nat>)
    requires c.Valid() && IsPartition(b, |c.ts|)
    ensures IsSelection(Tilted(c, line), b, sel) <==> IsSelection(c, b, sel)
  {
    forall i | 0 <= i < |b| - 1 && i + 1 < |sel|
      ensures Chosen(Tilted(c, line), b, i, sel[i], sel[i + 1]) <==> Chosen(c, b, i, sel[i], sel[i + 1])
    {
      TiltKeepsChoice(c, b, line, i, sel[i], sel[i + 1]);
    }
  }
}
