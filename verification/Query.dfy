/** Budgeted range queries over frozen files (core/ab-pipeline/src/query.rs). */
module Query {
  import opened Common
  import opened Ledger
  import opened Store
  import opened Lttb

  const DEFAULT_MAX_POINTS_PER_SERIES: nat := 50_000

  datatype MetricRef = MetricRef(fileId: string, metric: string)

  datatype QueryRequest = QueryRequest(metrics: seq<MetricRef>, t0: int, t1: int, maxPointsPerSeries: nat)

  datatype SeriesSlice = SeriesSlice(fileId: string, metric: string, ts: seq<int>, values: seq<real>, downsampled: bool)

  function Budget(req: QueryRequest): (b: nat)
    ensures b > 0
  {
    if req.maxPointsPerSeries == 0 then DEFAULT_MAX_POINTS_PER_SERIES else req.maxPointsPerSeries
  }

  predicate Before(x: int, t: int, inclusive: bool) {
    if inclusive then x <= t else x < t
  }

  /** The library's partition point of a sorted column, found by halving. */
  method PartitionPoint(ts: seq<int>, t: int, inclusive: bool) returns (k: nat)
    requires forall i, j :: 0 <= i < j < |ts| ==> ts[i] <= ts[j]
    ensures k <= |ts|
    ensures forall i :: 0 <= i < |ts| ==> (i < k <==> Before(ts[i], t, inclusive))
  {
    k := 0;
    var hi := |ts|;
    while k < hi
      invariant 0 <= k <= hi <= |ts|
      invariant forall i :: 0 <= i < k ==> Before(ts[i], t, inclusive)
      invariant forall i :: hi <= i < |ts| ==> !Before(ts[i], t, inclusive)
    {
      var mid := (k + hi) / 2;
      if Before(ts[mid], t, inclusive) {
        k := mid + 1;
      } else {
        hi := mid;
      }
    }
  }

  /** The plain meaning of a query: filter the accepted records of the metric, keep their
      stable time order. */
  function Wanted(files: map<string, FileValue>, ref: MetricRef, t0: int, t1: int): seq<Point> {
    StableSort(InWindow(FrozenArrivals(files, ref.fileId, ref.metric), t0, t1))
  }

  function CurveOf(w: seq<Point>): Curve {
    Curve(SeriesOf(w).ts, SeriesOf(w).values)
  }

  /** `slice` answers for the wanted points `w`: all of them when they fit the budget, else
      their downsampling. */
  ghost predicate Answers(slice: SeriesSlice, ref: MetricRef, w: seq<Point>, budget: nat) {
    && slice.fileId == ref.fileId && slice.metric == ref.metric
    && slice.downsampled == (|w| > budget)
    && (if |w| > budget && budget >= 3
        then IsDownsampling(CurveOf(w), EvenBounds(|w|, budget), slice.ts, slice.values)
        else slice.ts == SeriesOf(w).ts && slice.values == SeriesOf(w).values)
  }

  /** An answer allowed for one requested series: none iff no point is wanted. */
  ghost predicate Allows(files: map<string, FileValue>, req: QueryRequest, ref: MetricRef, slice: Option<SeriesSlice>) {
    var w := Wanted(files, ref, req.t0, req.t1);
    if w == [] then slice == None else slice.Some? && Answers(slice.value, ref, w, Budget(req))
  }

  /** The answers allowed for each requested series. */
  ghost function Choices(files: map<string, FileValue>, req: QueryRequest): seq<iset<Option<SeriesSlice>>> {
    seq(|req.metrics|, k requires 0 <= k < |req.metrics| =>
          iset slice: Option<SeriesSlice> | Allows(files, req, req.metrics[k], slice))
  }

  /** `out` has an allowed answer for each choice in order and omits the empty ones. */
  ghost predicate Responds<T(!new)>(choices: seq<iset<Option<T>>>, out: seq<T>) {
    if choices == [] then out == []
    else if None in choices[|choices| - 1] then Responds(choices[..|choices| - 1], out)
    else
      && out != []
      && Some(out[|out| - 1]) in choices[|choices| - 1]
      && Responds(choices[..|choices| - 1], out[..|out| - 1])
  }

  /** A response allowed for a request. */
  ghost predicate IsResponse(files: map<string, FileValue>, req: QueryRequest, out: seq<SeriesSlice>) {
    Responds(Choices(files, req), out)
  }

  /** How many choices are not empty. */
  ghost function Shown<T(!new)>(choices: seq<iset<Option<T>>>): nat {
    if choices == [] then 0 else Shown(choices[..|choices| - 1]) + if None in choices[|choices| - 1] then 0 else 1
  }

  lemma {:induction false} ResponseLength<T(!new)>(choices: seq<iset<Option<T>>>, out: seq<T>)
    requires Responds(choices, out)
    ensures |out| == Shown(choices)
  {
    if choices != [] {
      var n := |choices| - 1;
      ResponseLength(choices[..n], if None in choices[n] then out else out[..|out| - 1]);
    }
  }

  lemma {:induction false} ShownGrows<T(!new)>(choices: seq<iset<Option<T>>>, k: nat)
    requires k < |choices|
    ensures Shown(choices[..k + 1]) == Shown(choices[..k]) + if None in choices[k] then 0 else 1
    ensures Shown(choices[..k + 1]) <= Shown(choices)
    decreases |choices|
  {
    assert choices[..k + 1][..k] == choices[..k];
    var n := |choices| - 1;
    if k < n {
      assert choices[..n][..k] == choices[..k] && choices[..n][..k + 1] == choices[..k + 1];
      ShownGrows(choices[..n], k);
    } else {
      assert choices[..k + 1] == choices;
    }
  }

  /** A response has one slice per series with points, and that of series `k` stands behind
      those of the series before it. */
  lemma {:induction false} ResponseByPosition<T(!new)>(choices: seq<iset<Option<T>>>, out: seq<T>, k: nat)
    requires Responds(choices, out) && k < |choices| && None !in choices[k]
    ensures Shown(choices[..k]) < |out| && Some(out[Shown(choices[..k])]) in choices[k]
  {
    var n := |choices| - 1;
    ResponseLength(choices, out);
    if k < n {
      assert choices[..n][..k] == choices[..k];
      ResponseByPosition(choices[..n], if None in choices[n] then out else out[..|out| - 1], k);
    }
  }

  function Present<T>(xs: seq<Option<T>>): seq<T> {
    if xs == [] then [] else
      var rest := Present(xs[..|xs| - 1]);
      if xs[|xs| - 1].Some? then rest + [xs[|xs| - 1].value] else rest
  }

  lemma PresentSnoc<T>(xs: seq<Option<T>>, x: Option<T>)
    ensures Present(xs + [x]) == if x.Some? then Present(xs) + [x.value] else Present(xs)
  {
    InitOfSnoc(xs, x);
  }

  /** An answer for each choice, the empty one where it is allowed. */
  ghost predicate Chosen<T(!new)>(choices: seq<iset<Option<T>>>, answers: seq<Option<T>>) {
    && |answers| == |choices|
    && forall k :: 0 <= k < |answers| ==> answers[k] in choices[k] && (answers[k].None? <==> None in choices[k])
  }

  lemma {:induction false} ChosenResponds<T(!new)>(choices: seq<iset<Option<T>>>, answers: seq<Option<T>>)
    requires Chosen(choices, answers)
    ensures Responds(choices, Present(answers))
  {
    if answers != [] {
      var n := |answers| - 1;
      ChosenResponds(choices[..n], answers[..n]);
      if answers[n].Some? {
        InitOfSnoc(Present(answers[..n]), answers[n].value);
      }
    }
  }

  /** Side entries do not matter for an answer. */
  lemma AnswersBare(slice: SeriesSlice, ref: MetricRef, w: seq<Point>, budget: nat)
    requires Answers(slice, ref, w, budget)
    ensures Answers(slice, ref, Bare(w), budget)
  {
    assert SeriesOf(Bare(w)) == SeriesOf(w);
  }

  lemma AllowedIsChosen(files: map<string, FileValue>, req: QueryRequest, k: nat, slice: Option<SeriesSlice>)
    requires k < |req.metrics| && Allows(files, req, req.metrics[k], slice)
    ensures slice in Choices(files, req)[k] && (slice.None? <==> None in Choices(files, req)[k])
  {
  }

  lemma AnswersNext<T(!new)>(choices: seq<iset<Option<T>>>, k: nat, answers: seq<Option<T>>, x: Option<T>)
    requires k < |choices| && Chosen(choices[..k], answers)
    requires x in choices[k] && (x.None? <==> None in choices[k])
    ensures Chosen(choices[..k + 1], answers + [x])
    ensures Present(answers + [x]) == if x.Some? then Present(answers) + [x.value] else Present(answers)
  {
    PresentSnoc(answers, x);
  }

  lemma AnswersRespond(files: map<string, FileValue>, req: QueryRequest, choices: seq<iset<Option<SeriesSlice>>>,
                       answers: seq<Option<SeriesSlice>>)
    requires choices == Choices(files, req) && Chosen(choices[..|req.metrics|], answers)
    ensures IsResponse(files, req, Present(answers))
  {
    TakeAll(choices);
    ChosenResponds(choices, answers);
  }

  /** Answers the requested series in order and lists the slices of those that have points. */
  method RunQuery(store: Store, req: QueryRequest) returns (out: seq<SeriesSlice>)
    requires store.Valid()
    ensures IsResponse(store.Value(), req, out)
  {
    out := [];
    ghost var files := store.Value();
    ghost var choices := Choices(files, req);
    ghost var answers: seq<Option<SeriesSlice>> := [];
    for k := 0 to |req.metrics|
      invariant files == store.Value()
      invariant Chosen(choices[..k], answers) && out == Present(answers)
    {
      var slice := QueryNext(store, req, k, files, choices, answers);
      answers := answers + [slice];
      if slice.Some? {
        out := out + [slice.value];
      }
    }
    AnswersRespond(files, req, choices, answers);
  }

  /** One more answer behind those found so far. */
  method QueryNext(store: Store, req: QueryRequest, k: nat, ghost files: map<string, FileValue>,
                   ghost choices: seq<iset<Option<SeriesSlice>>>, ghost answers: seq<Option<SeriesSlice>>)
    returns (slice: Option<SeriesSlice>)
    requires store.Valid() && files == store.Value() && k < |req.metrics| && choices == Choices(files, req)
    requires Chosen(choices[..k], answers)
    ensures Chosen(choices[..k + 1], answers + [slice])
    ensures Present(answers + [slice]) == if slice.Some? then Present(answers) + [slice.value] else Present(answers)
  {
    slice := QueryRef(store, req.metrics[k], req, files);
    AllowedIsChosen(files, req, k, slice);
    AnswersNext(choices, k, answers, slice);
  }

  method QueryRef(store: Store, ref: MetricRef, req: QueryRequest, ghost files: map<string, FileValue>)
    returns (slice: Option<SeriesSlice>)
    requires store.Valid() && files == store.Value()
    ensures Allows(files, req, ref, slice)
  {
    ghost var ps := FrozenPoints(files, ref.fileId, ref.metric);
    WantedIsWindow(files, ref, req.t0, req.t1);
    var found := store.FrozenSeries(ref.fileId, ref.metric);
    if found == None {
      return None;
    }
    slice := QueryOne(found.value, ref, req, ps);
  }

  method QueryOne(series: Series, ref: MetricRef, req: QueryRequest, ghost ps: seq<Point>)
    returns (slice: Option<SeriesSlice>)
    requires Sorted(ps) && series == SeriesOf(ps)
    ensures var w := InWindow(ps, req.t0, req.t1);
            if w == [] then slice == None
            else slice.Some? && Answers(slice.value, ref, w, Budget(req))
  {
    var budget := Budget(req);
    assert forall i :: 0 <= i < |ps| ==> series.ts[i] == ps[i].ts;
    var lo := PartitionPoint(series.ts, req.t0, false);
    var hi := PartitionPoint(series.ts, req.t1, true);
    if lo >= hi {
      NoneInWindow(ps, req.t0, req.t1);
      return None;
    }
    WindowOfSorted(ps, req.t0, req.t1, lo, hi);
    ghost var w := ps[lo..hi];
    var windowTs, windowValues := series.ts[lo..hi], series.values[lo..hi];
    assert windowTs == SeriesOf(w).ts && windowValues == SeriesOf(w).values;
    var downsampled := |windowTs| > budget;
    var ts, values := windowTs, windowValues;
    if downsampled {
      ts, values := Downsample(windowTs, windowValues, budget);
    }
    slice := Some(SeriesSlice(ref.fileId, ref.metric, ts, values, downsampled));
  }

  lemma WantedIsWindow(files: map<string, FileValue>, ref: MetricRef, t0: int, t1: int)
    ensures var ps := FrozenPoints(files, ref.fileId, ref.metric);
            && Sorted(ps)
            && Wanted(files, ref, t0, t1) == InWindow(ps, t0, t1)
  {
    var arrived := FrozenArrivals(files, ref.fileId, ref.metric);
    StableSortSorts(arrived);
    SortCommutesWithWindow(arrived, t0, t1);
  }

  lemma {:induction false} NoneInWindow(ps: seq<Point>, t0: int, t1: int)
    requires forall i :: 0 <= i < |ps| ==> !(t0 <= ps[i].ts <= t1)
    ensures InWindow(ps, t0, t1) == []
  {
    if ps != [] {
      NoneInWindow(ps[..|ps| - 1], t0, t1);
    }
  }

  /** The budget is kept exactly unless it is 1 or 2 and there is more to show: the
      downsampler returns its input when it has no bucket to fill. */
  lemma BudgetIsKeptIff(slice: SeriesSlice, ref: MetricRef, w: seq<Point>, budget: nat)
    requires budget > 0 && Answers(slice, ref, w, budget)
    ensures |slice.ts| == |slice.values|
    ensures |slice.ts| <= budget <==> |w| <= budget || budget >= 3
    ensures |slice.ts| == if |w| > budget && budget >= 3 then budget else |w|
  {
    if |w| > budget && budget >= 3 {
      EvenBoundsPartition(|w|, budget);
    }
  }

  /** A request leaves no choice: two slices that answer for the same points are equal. */
  lemma AnswerIsUnique(a: SeriesSlice, b: SeriesSlice, ref: MetricRef, w: seq<Point>, budget: nat)
    requires Answers(a, ref, w, budget) && Answers(b, ref, w, budget)
    ensures a == b
  {
    if |w| > budget && budget >= 3 {
      DownsamplingIsUnique(CurveOf(w), EvenBounds(|w|, budget), a.ts, a.values, b.ts, b.values);
    }
  }

  predicate ShowsEnds(slice: SeriesSlice, w: seq<Point>)
    requires w != []
  {
    && slice.ts != [] && |slice.ts| == |slice.values|
    && slice.ts[0] == w[0].ts && slice.values[0] == w[0].value
    && slice.ts[|slice.ts| - 1] == w[|w| - 1].ts && slice.values[|slice.ts| - 1] == w[|w| - 1].value
  }

  predicate InTimeOrder(slice: SeriesSlice) {
    forall i, j :: 0 <= i < j < |slice.ts| ==> slice.ts[i] <= slice.ts[j]
  }

  /** A slice shows the first and the last wanted point and stays in time order. */
  lemma SliceKeepsEndsAndOrder(slice: SeriesSlice, ref: MetricRef, w: seq<Point>, budget: nat)
    requires budget > 0 && w != [] && Sorted(w) && Answers(slice, ref, w, budget)
    ensures ShowsEnds(slice, w) && InTimeOrder(slice)
  {
    if |w| > budget && budget >= 3 {
      DownsamplingKeepsEndsAndOrder(CurveOf(w), EvenBounds(|w|, budget), slice.ts, slice.values);
    }
  }

  lemma DownsamplingKeepsEndsAndOrder(c: Curve, b: seq<nat>, ts: seq<int>, values: seq<real>)
    requires IsDownsampling(c, b, ts, values) && forall i, j :: 0 <= i < j < |c.ts| ==> c.ts[i] <= c.ts[j]
    ensures ts != [] && |ts| == |values| && |c.ts| > 0 && c.Valid()
    ensures ts[0] == c.ts[0] && values[0] == c.values[0]
    ensures ts[|ts| - 1] == c.ts[|c.ts| - 1] && values[|ts| - 1] == c.values[|c.ts| - 1]
    ensures forall i, j :: 0 <= i < j < |ts| ==> ts[i] <= ts[j]
  {
    var sel :| IsSelection(c, b, sel) && ValuesAt(c, sel, ts, values);
    SelectionAscends(c, b, sel);
  }

  /** What every response shows of a series with points in the window: its first and last
      wanted point, time order throughout, and the budget unless that is 1 or 2. */
  lemma ResponseKeepsEndsAndBudget(files: map<string, FileValue>, req: QueryRequest, out: seq<SeriesSlice>, k: nat)
    requires IsResponse(files, req, out) && k < |req.metrics|
    requires Wanted(files, req.metrics[k], req.t0, req.t1) != []
    ensures var w, at := Wanted(files, req.metrics[k], req.t0, req.t1), Shown(Choices(files, req)[..k]);
            && at < |out|
            && ShowsEnds(out[at], w) && InTimeOrder(out[at])
            && (req.maxPointsPerSeries >= 3 ==> |out[at].ts| <= req.maxPointsPerSeries)
            && (req.maxPointsPerSeries == 0 ==> |out[at].ts| <= 50_000)
            && (|w| <= req.maxPointsPerSeries || (req.maxPointsPerSeries == 0 && |w| <= 50_000) ==>
                  out[at].ts == SeriesOf(w).ts && out[at].values == SeriesOf(w).values && !out[at].downsampled)
  {
    var w := Wanted(files, req.metrics[k], req.t0, req.t1);
    ResponseByPosition(Choices(files, req), out, k);
    var slice := out[Shown(Choices(files, req)[..k])];
    assert Answers(slice, req.metrics[k], w, Budget(req));
    StableSortSorts(InWindow(FrozenArrivals(files, req.metrics[k].fileId, req.metrics[k].metric), req.t0, req.t1));
    SliceKeepsEndsAndOrder(slice, req.metrics[k], w, Budget(req));
    BudgetIsKeptIff(slice, req.metrics[k], w, Budget(req));
  }

  /** A window of three points with a budget of two is shown whole. */
  lemma BudgetOfTwoIsExceeded() returns (slice: SeriesSlice, ref: MetricRef, w: seq<Point>)
    ensures Answers(slice, ref, w, 2) && |slice.ts| == 3
  {
    ref := MetricRef("f", "m");
    w := [Point(1, 0.0, None, None), Point(2, 0.0, None, None), Point(3, 0.0, None, None)];
    slice := SeriesSlice("f", "m", SeriesOf(w).ts, SeriesOf(w).values, true);
  }

  lemma {:induction false} SingleChoices<T(!new)>(choices: seq<iset<Option<T>>>, a: seq<T>, b: seq<T>)
    requires Responds(choices, a) && Responds(choices, b)
    requires forall k, x, y :: 0 <= k < |choices| && x in choices[k] && y in choices[k] ==> x == y
    ensures a == b
  {
    if choices != [] {
      var n := |choices| - 1;
      if None in choices[n] {
        SingleChoices(choices[..n], a, b);
      } else {
        SingleChoices(choices[..n], a[..|a| - 1], b[..|b| - 1]);
        assert Some(a[|a| - 1]) == Some(b[|b| - 1]);
        TakeSnoc(a, |a| - 1);
        TakeSnoc(b, |b| - 1);
        TakeAll(a);
        TakeAll(b);
      }
    }
  }

  /** The store and the request determine the response. */
  lemma ResponseIsUnique(files: map<string, FileValue>, req: QueryRequest, a: seq<SeriesSlice>, b: seq<SeriesSlice>)
    requires IsResponse(files, req, a) && IsResponse(files, req, b)
    ensures a == b
  {
    var choices := Choices(files, req);
    forall k, x, y | 0 <= k < |choices| && x in choices[k] && y in choices[k] ensures x == y {
      AnswersAllowedAreUnique(files, req, req.metrics[k], x, y);
    }
    SingleChoices(choices, a, b);
  }

  lemma AnswersAllowedAreUnique(files: map<string, FileValue>, req: QueryRequest, ref: MetricRef,
                        x: Option<SeriesSlice>, y: Option<SeriesSlice>)
    requires Allows(files, req, ref, x) && Allows(files, req, ref, y)
    ensures x == y
  {
    var w := Wanted(files, ref, req.t0, req.t1);
    if w != [] {
      AnswerIsUnique(x.value, y.value, ref, w, Budget(req));
    }
  }
}
