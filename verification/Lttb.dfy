/** Largest-triangle-three-buckets downsampling (core/ab-pipeline/src/lttb.rs). */
module Lttb {
  import opened Ledger

  // ---- Buckets ----------------------------------------------------------------------------

  /** The first `k` bucket bounds behind the first point: every bucket has `q` points, the
      first `r` of them one more. Bucket `i` is the range from bound `i` to bound `i + 1`. */
  function Bounds(q: nat, r: nat, k: nat): (b: seq<nat>)
    ensures |b| == k + 1
  {
    if k == 0 then [1] else
      var b := Bounds(q, r, k - 1);
      b + [b[k - 1] + q + if k - 1 < r then 1 else 0]
  }

  lemma {:induction false} BoundsClosedForm(q: nat, r: nat, k: nat)
    ensures Bounds(q, r, k)[k] == 1 + k * q + if k < r then k else r
    ensures forall i :: 0 <= i < k ==>
              q <= Bounds(q, r, k)[i + 1] - Bounds(q, r, k)[i] <= q + 1
    ensures Bounds(q, r, k)[0] == 1
  {
    if k > 0 {
      BoundsClosedForm(q, r, k - 1);
      assert k * q == (k - 1) * q + q;
    }
  }

  function EvenBounds(n: nat, m: nat): seq<nat>
    requires 3 <= m < n
  {
    Bounds((n - 2) / (m - 2), (n - 2) % (m - 2), m - 2)
  }

  /** `b` cuts the interior points of a curve of `n` points into non-empty buckets. */
  predicate IsPartition(b: seq<nat>, n: nat) {
    && |b| >= 2 && b[0] == 1 && b[|b| - 1] == n - 1
    && forall i, j :: 0 <= i < j < |b| ==> b[i] < b[j]
  }

  /** The buckets start behind the first point, end in front of the last one, are not empty
      and differ in size by at most one. */
  lemma EvenBoundsPartition(n: nat, m: nat)
    requires 3 <= m < n
    ensures var b := EvenBounds(n, m);
            && |b| == m - 1 && IsPartition(b, n)
            && (forall i, j :: 0 <= i < m - 2 && 0 <= j < m - 2 ==>
                  b[i + 1] - b[i] <= b[j + 1] - b[j] + 1)
  {
    var d, q, r := m - 2, (n - 2) / (m - 2), (n - 2) % (m - 2);
    var b := EvenBounds(n, m);
    assert d * q + r == n - 2;
    QuotientPositive(n - 2, d);
    BoundsClosedForm(q, r, d);
    forall i, j | 0 <= i < j < |b| ensures b[i] < b[j] {
      StepsAscend(b, i, j);
    }
  }

  lemma QuotientPositive(x: nat, d: nat)
    requires 1 <= d <= x
    ensures x / d >= 1
  {
    assert x == d * (x / d) + x % d;
  }

  lemma {:induction false} StepsAscend(b: seq<nat>, i: nat, j: nat)
    requires i < j < |b| && forall k :: 0 <= k < |b| - 1 ==> b[k] < b[k + 1]
    ensures b[i] < b[j]
  {
    assert b[j - 1] < b[j - 1 + 1];
    if i < j - 1 {
      StepsAscend(b, i, j - 1);
    }
  }

  predicate InBucket(b: seq<nat>, i: nat, k: nat) {
    i + 1 < |b| && b[i] <= k < b[i + 1]
  }

  /** Every interior point lies in exactly one bucket. */
  lemma {:induction false} BucketOfPoint(b: seq<nat>, n: nat, k: nat, upto: nat) returns (i: nat)
    requires IsPartition(b, n) && upto < |b| && 1 <= k < b[upto]
    ensures i < upto && InBucket(b, i, k)
    ensures forall j: nat :: InBucket(b, j, k) ==> j == i
  {
    if k < b[upto - 1] {
      i := BucketOfPoint(b, n, k, upto - 1);
    } else {
      i := upto - 1;
    }
  }

  // ---- Triangle areas -----------------------------------------------------------------------

  function SumInts(s: seq<int>, lo: nat, hi: nat): int
    requires lo <= hi <= |s|
  {
    if lo == hi then 0 else SumInts(s, lo, hi - 1) + s[hi - 1]
  }

  const MAX_I64: int := 0x7FFF_FFFF_FFFF_FFFF

  /** The sum of a bucket's time stamps never leaves 64 bits on the way if the largest magnitude
      times the bucket size does not. */
  lemma {:induction false} SumStaysInside(s: seq<int>, lo: nat, hi: nat, bound: int)
    requires bound >= 0 && lo <= hi <= |s| && forall i :: 0 <= i < |s| ==> -bound <= s[i] <= bound
    requires bound * (hi - lo) <= MAX_I64
    ensures forall k: nat :: lo <= k <= hi ==> -MAX_I64 <= SumInts(s, lo, k) <= MAX_I64
    ensures -bound * (hi - lo) <= SumInts(s, lo, hi) <= bound * (hi - lo)
  {
    if lo < hi {
      assert bound * (hi - lo) == bound * (hi - 1 - lo) + bound;
      SumStaysInside(s, lo, hi - 1, bound);
    }
  }

  function SumReals(s: seq<real>, lo: nat, hi: nat): real
    requires lo <= hi <= |s|
  {
    if lo == hi then 0.0 else SumReals(s, lo, hi - 1) + s[hi - 1]
  }

  datatype Curve = Curve(ts: seq<int>, values: seq<real>) {
    predicate Valid() { |ts| == |values| }
  }

  function Abs(x: real): (r: real)
    ensures r >= 0.0 && (r == x || r == -x)
  {
    if x < 0.0 then -x else x
  }

  function MeanOf(c: Curve, lo: nat, hi: nat): (real, real)
    requires c.Valid() && lo < hi <= |c.ts|
  {
    (SumInts(c.ts, lo, hi) as real / (hi - lo) as real, SumReals(c.values, lo, hi) / (hi - lo) as real)
  }

  /** The mean point of the bucket after `i`; behind the last bucket stands the last point. */
  function NextMean(c: Curve, b: seq<nat>, i: nat): (real, real)
    requires c.Valid() && IsPartition(b, |c.ts|) && i + 1 < |b|
  {
    var n := |c.ts|;
    if i + 2 < |b| then
      assert b[i + 2] <= b[|b| - 1];
      MeanOf(c, b[i + 1], b[i + 2])
    else (c.ts[n - 1] as real, c.values[n - 1])
  }

  /** Twice the area of the triangle of point `a`, point `j` and the mean point. */
  function Area(c: Curve, a: nat, mean: (real, real), j: nat): (r: real)
    requires c.Valid() && a < |c.ts|
    ensures r >= 0.0
  {
    if j >= |c.ts| then 0.0 else
      var (ax, ay) := (c.ts[a] as real, c.values[a]);
      Abs((ax - mean.0) * (c.values[j] - ay) - (ax - c.ts[j] as real) * (mean.1 - ay))
  }

  function AreaFrom(c: Curve, a: nat, mean: (real, real)): (f: nat -> real)
    requires c.Valid() && a < |c.ts|
    ensures forall j :: f(j) >= 0.0
  {
    (j: nat) => Area(c, a, mean, j)
  }

  /** `k` is the first point of [lo, hi) with the largest area. */
  predicate IsFirstMaximiser(f: nat -> real, lo: nat, hi: nat, k: nat) {
    && lo <= k < hi
    && (forall j :: lo <= j < hi ==> f(j) <= f(k))
    && (forall j :: lo <= j < k ==> f(j) < f(k))
  }

  lemma FirstMaximiserIsUnique(f: nat -> real, lo: nat, hi: nat, a: nat, b: nat)
    requires IsFirstMaximiser(f, lo, hi, a) && IsFirstMaximiser(f, lo, hi, b)
    ensures a == b
  {
    assert f(a) <= f(b) && f(b) <= f(a);
  }

  // ---- Selections -----------------------------------------------------------------------------

  /** A downsampling of `c` along the buckets `b`, as source indices: both ends, and in between
      one point per bucket, each the first one to span the largest triangle with the point
      chosen before it and the mean of the bucket after it. */
  predicate IsSelection(c: Curve, b: seq<nat>, sel: seq<nat>) {
    && c.Valid() && IsPartition(b, |c.ts|)
    && |sel| == |b| + 1 && sel[0] == 0 && sel[|b|] == |c.ts| - 1
    && forall i :: 0 <= i < |b| - 1 ==> Chosen(c, b, i, sel[i], sel[i + 1])
  }

  predicate Chosen(c: Curve, b: seq<nat>, i: nat, previous: nat, k: nat)
    requires c.Valid() && IsPartition(b, |c.ts|) && i + 1 < |b|
  {
    && previous < |c.ts|
    && IsFirstMaximiser(AreaFrom(c, previous, NextMean(c, b, i)), b[i], b[i + 1], k)
  }

  /** The chosen indices ascend strictly, so no point is taken twice and time order is kept. */
  lemma SelectionAscends(c: Curve, b: seq<nat>, sel: seq<nat>)
    requires IsSelection(c, b, sel)
    ensures forall i :: 0 < i < |b| ==> InBucket(b, i - 1, sel[i])
    ensures forall i, j :: 0 <= i < j < |sel| ==> sel[i] < sel[j]
  {
    forall i | 0 < i < |b| ensures InBucket(b, i - 1, sel[i]) {
      assert Chosen(c, b, i - 1, sel[i - 1], sel[i - 1 + 1]);
    }
    forall i, j | 0 <= i < j < |sel| ensures sel[i] < sel[j] {
      assert 0 < i ==> InBucket(b, i - 1, sel[i]) && b[i] <= b[|b| - 1];
      if j < |b| {
        assert InBucket(b, j - 1, sel[j]) && b[0] <= b[j - 1] && b[i] <= b[j - 1];
      }
    }
  }

  /** The conditions of a selection leave no choice. */
  lemma {:induction false} SelectionIsUnique(c: Curve, b: seq<nat>, s: seq<nat>, t: seq<nat>, k: nat)
    requires IsSelection(c, b, s) && IsSelection(c, b, t) && k < |s|
    ensures s[..k + 1] == t[..k + 1]
  {
    if 0 < k {
      SelectionIsUnique(c, b, s, t, k - 1);
      assert s[k - 1] == s[..k][k - 1] == t[k - 1];
      if k < |b| {
        assert Chosen(c, b, k - 1, s[k - 1], s[k - 1 + 1]) && Chosen(c, b, k - 1, t[k - 1], t[k - 1 + 1]);
        FirstMaximiserIsUnique(AreaFrom(c, s[k - 1], NextMean(c, b, k - 1)), b[k - 1], b[k], s[k], t[k]);
      }
      assert s[..k + 1] == s[..k] + [s[k]] && t[..k + 1] == t[..k] + [t[k]];
    }
  }

  /** `outTs` and `outV` are the values of `c` at the indices `sel`. */
  predicate ValuesAt(c: Curve, sel: seq<nat>, outTs: seq<int>, outV: seq<real>) {
    && c.Valid() && (forall i :: 0 <= i < |sel| ==> sel[i] < |c.ts|)
    && outTs == Gather(c.ts, sel) && outV == Gather(c.values, sel)
  }

  /** The downsampling of `c` along the buckets `b`. */
  ghost predicate IsDownsampling(c: Curve, b: seq<nat>, outTs: seq<int>, outV: seq<real>) {
    exists sel :: IsSelection(c, b, sel) && ValuesAt(c, sel, outTs, outV)
  }

  /** There is only one. */
  lemma DownsamplingIsUnique(c: Curve, b: seq<nat>, ts: seq<int>, vs: seq<real>, ts': seq<int>, vs': seq<real>)
    requires IsDownsampling(c, b, ts, vs) && IsDownsampling(c, b, ts', vs')
    ensures ts == ts' && vs == vs'
  {
    var s :| IsSelection(c, b, s) && ValuesAt(c, s, ts, vs);
    var t :| IsSelection(c, b, t) && ValuesAt(c, t, ts', vs');
    SelectionIsUnique(c, b, s, t, |b|);
    assert s[..|s|] == s && t[..|t|] == t;
  }

  // ---- The algorithm ------------------------------------------------------------------------

  /** All points of the curve when there is nothing to drop or no bucket, else `m` of them. */
  method Downsample(ts: seq<int>, values: seq<real>, m: nat) returns (outTs: seq<int>, outV: seq<real>)
    requires |ts| == |values|
    ensures m >= |ts| || m < 3 ==> outTs == ts && outV == values
    ensures 3 <= m < |ts| ==> IsDownsampling(Curve(ts, values), EvenBounds(|ts|, m), outTs, outV)
    ensures 3 <= m < |ts| ==> |outTs| == |outV| == m
  {
    if m >= |ts| || m < 3 {
      return ts, values;
    }
    EvenBoundsPartition(|ts|, m);
    var bounds := CutBounds((|ts| - 2) / (m - 2), (|ts| - 2) % (m - 2), m - 2);
    outTs, outV := Select(ts, values, bounds);
  }

  method CutBounds(bucketSize: nat, remainder: nat, k: nat) returns (bounds: seq<nat>)
    ensures bounds == Bounds(bucketSize, remainder, k)
  {
    var cursor := 1;
    bounds := [cursor];
    for i := 0 to k
      invariant bounds == Bounds(bucketSize, remainder, i) && cursor == bounds[i]
    {
      cursor := cursor + bucketSize + if i < remainder then 1 else 0;
      bounds := bounds + [cursor];
    }
  }

  method Select(ts: seq<int>, values: seq<real>, b: seq<nat>) returns (outTs: seq<int>, outV: seq<real>)
    requires |ts| == |values| && IsPartition(b, |ts|)
    ensures IsDownsampling(Curve(ts, values), b, outTs, outV)
    ensures |outTs| == |outV| == |b| + 1
  {
    var n, c := |ts|, Curve(ts, values);
    outTs, outV := [ts[0]], [values[0]];
    ghost var sel: seq<nat> := [0];
    var prevSelected := 0;
    for i := 0 to |b| - 1
      invariant |sel| == i + 1 && sel[0] == 0 && sel[i] == prevSelected
      invariant ValuesAt(c, sel, outTs, outV)
      invariant forall k :: 0 <= k < i ==> Chosen(c, b, k, sel[k], sel[k + 1])
    {
      assert b[i + 1] <= b[|b| - 1];
      var bestIdx := FirstLargest(AreaFrom(c, prevSelected, NextMean(c, b, i)), b[i], b[i + 1]);
      outTs, outV := outTs + [ts[bestIdx]], outV + [values[bestIdx]];
      sel := sel + [bestIdx];
      prevSelected := bestIdx;
    }
    outTs, outV := outTs + [ts[n - 1]], outV + [values[n - 1]];
    sel := sel + [n - 1];
    assert IsSelection(c, b, sel) && ValuesAt(c, sel, outTs, outV);
  }

  method FirstLargest(area: nat -> real, s: nat, e: nat) returns (bestIdx: nat)
    requires s < e && forall j :: area(j) >= 0.0
    ensures IsFirstMaximiser(area, s, e, bestIdx)
  {
    bestIdx := s;
    var bestArea := -1.0;
    for j := s to e
      invariant if j == s then bestArea == -1.0 && bestIdx == s
                else IsFirstMaximiser(area, s, j, bestIdx) && bestArea == area(bestIdx)
    {
      if area(j) > bestArea {
        bestArea := area(j);
        bestIdx := j;
      }
    }
  }
}
