/** The columnar store (core/ab-pipeline/src/store.rs): per-metric columns, sparse side tables
    and counters, updated record by record and re-ordered once by `freeze`. */
module Store {
  import opened Common
  import opened Protocol
  import opened Ledger

  const MAX_POINTS: nat := 0x1_0000_0000

  datatype FileState = Registered | Ingesting | Frozen

  datatype Series = Series(ts: seq<int>, values: seq<real>)

  datatype SideTable = SideTable(tags: map<nat, Tags>, rawLine: map<nat, string>)

  datatype AppendStats = AppendStats(appended: nat, droppedUndeclared: nat)

  datatype StoreError =
    | UnknownFile(id: string)
    | AlreadyRegistered(id: string)
    | NotIngesting(id: string)
    | AlreadyFrozen(id: string)
    | BatchFileMismatch(expected: string, got: string)
    | SeqGap(expectedSeq: nat, gotSeq: nat)
    | SeqDuplicate(expectedSeq: nat, gotSeq: nat)
    | CountMismatch(declared: nat, received: nat)

  // ---- Columns of a point list ----------------------------------------------------------

  function SeriesOf(ps: seq<Point>): (s: Series)
    ensures |s.ts| == |s.values| == |ps|
  {
    Series(seq(|ps|, i requires 0 <= i < |ps| => ps[i].ts),
           seq(|ps|, i requires 0 <= i < |ps| => ps[i].value))
  }

  function TagsOf(p: Point): Option<Tags> { p.tags }

  function RawOf(p: Point): Option<string> { p.raw }

  /** The sparse column of the points that have a value for `f`, keyed by position. */
  function Column<V>(ps: seq<Point>, f: Point -> Option<V>): map<nat, V> {
    map i: nat | i < |ps| && f(ps[i]).Some? :: f(ps[i]).value
  }

  function SideOf(ps: seq<Point>): SideTable {
    SideTable(Column(ps, TagsOf), Column(ps, RawOf))
  }

  /** What can be told of a metric. Side tables count as long as the cast of an index to 32 bits
      is exact; `keysFit` says that their keys are results of the cast. */
  datatype Columns = Columns(present: bool, series: Series, side: SideTable, keysFit: bool)

  function Columned(present: bool, series: Series, side: SideTable): Columns {
    Columns(present, series, if |series.ts| <= MAX_POINTS then side else NO_SIDE, KeysFit(side))
  }

  predicate KeysBelow(side: SideTable, n: nat) {
    (forall k :: k in side.tags ==> k < n) && forall k :: k in side.rawLine ==> k < n
  }

  predicate KeysFit(side: SideTable) {
    KeysBelow(side, MAX_POINTS)
  }

  /** Everything the store keeps for a metric whose points are `ps`, in this order. */
  function ColumnsOf(ps: seq<Point>): Columns {
    Columns(ps != [], SeriesOf(ps), if |ps| <= MAX_POINTS then SideOf(ps) else NO_SIDE, true)
  }

  const NO_SERIES := Series([], [])
  const NO_SIDE := SideTable(map[], map[])

  lemma SeriesOfSnoc(ps: seq<Point>, p: Point)
    ensures SeriesOf(ps + [p]) == Series(SeriesOf(ps).ts + [p.ts], SeriesOf(ps).values + [p.value])
  {
  }

  lemma ColumnSnoc<V>(ps: seq<Point>, p: Point, f: Point -> Option<V>)
    ensures Column(ps + [p], f) ==
            if f(p).Some? then Column(ps, f)[|ps| := f(p).value] else Column(ps, f)
  {
  }

  lemma ColumnsNext(ps: seq<Point>, p: Point, side: SideTable, after: SideTable)
    requires Columned(ps != [], SeriesOf(ps), side) == ColumnsOf(ps)
    requires after.tags == if p.tags.Some? then side.tags[|ps| % MAX_POINTS := p.tags.value] else side.tags
    requires after.rawLine == if p.raw.Some? then side.rawLine[|ps| % MAX_POINTS := p.raw.value] else side.rawLine
    ensures Columned(true, Series(SeriesOf(ps).ts + [p.ts], SeriesOf(ps).values + [p.value]), after) ==
            ColumnsOf(ps + [p])
  {
    SeriesOfSnoc(ps, p);
    ColumnSnoc(ps, p, TagsOf);
    ColumnSnoc(ps, p, RawOf);
  }

  // ---- The permutation of a freeze --------------------------------------------------------

  predicate InKeyOrder(ts: seq<int>, order: seq<nat>) {
    && (forall i :: 0 <= i < |order| ==> order[i] < |ts|)
    && (forall i, j :: 0 <= i < j < |order| ==>
          KeyBelow(ts[order[i]], order[i], ts[order[j]], order[j]))
  }

  /** Behind every index that is not later, in front of the others. */
  function PlaceIndex(ts: seq<int>, order: seq<nat>, n: nat): (r: seq<nat>)
    requires n < |ts| && InKeyOrder(ts, order)
    ensures |r| == |order| + 1
    ensures forall x :: x in r <==> x == n || x in order
  {
    if order == [] || ts[order[|order| - 1]] <= ts[n] then order + [n]
    else PlaceIndex(ts, order[..|order| - 1], n) + [order[|order| - 1]]
  }

  predicate AllBelow(ts: seq<int>, order: seq<nat>, n: nat) {
    n < |ts| && forall i :: 0 <= i < |order| ==> order[i] < |ts| && KeyBelow(ts[order[i]], order[i], ts[n], n)
  }

  lemma KeyOrderSnoc(ts: seq<int>, order: seq<nat>, n: nat)
    requires InKeyOrder(ts, order) && AllBelow(ts, order, n)
    ensures InKeyOrder(ts, order + [n])
  {
  }

  lemma {:induction false} PlaceIndexOrders(ts: seq<int>, order: seq<nat>, n: nat)
    requires n < |ts| && InKeyOrder(ts, order) && forall i :: 0 <= i < |order| ==> order[i] < n
    ensures InKeyOrder(ts, PlaceIndex(ts, order, n))
  {
    if order == [] {
    } else if ts[order[|order| - 1]] <= ts[n] {
      var l := |order| - 1;
      forall i | 0 <= i < |order| ensures KeyBelow(ts[order[i]], order[i], ts[n], n) {
        assert i < l ==> KeyBelow(ts[order[i]], order[i], ts[order[l]], order[l]);
      }
      KeyOrderSnoc(ts, order, n);
    } else {
      var a, l := order[..|order| - 1], order[|order| - 1];
      PlaceIndexOrders(ts, a, n);
      var q := PlaceIndex(ts, a, n);
      forall i | 0 <= i < |q| ensures KeyBelow(ts[q[i]], q[i], ts[l], l) {
        assert q[i] in q;
        assert q[i] == n || exists j :: 0 <= j < |a| && a[j] == q[i] && KeyBelow(ts[a[j]], a[j], ts[l], l);
      }
      KeyOrderSnoc(ts, q, l);
    }
  }

  /** The index order the library sort returns for the key (timestamp, index). */
  function KeyOrder(ts: seq<int>, n: nat): (order: seq<nat>)
    requires n <= |ts|
    ensures |order| == n && InKeyOrder(ts, order)
    ensures forall x :: x in order ==> x < n
  {
    if n == 0 then [] else
      var rest := KeyOrder(ts, n - 1);
      assert forall i :: 0 <= i < |rest| ==> rest[i] in rest;
      PlaceIndexOrders(ts, rest, n - 1);
      PlaceIndex(ts, rest, n - 1)
  }

  /** `newPos` undoes `order`. */
  predicate Inverts(newPos: seq<nat>, order: seq<nat>) {
    && |newPos| == |order|
    && (forall i :: 0 <= i < |order| ==> order[i] < |newPos| && newPos[order[i]] == i)
    && (forall k :: 0 <= k < |newPos| ==> newPos[k] < |order| && order[newPos[k]] == k)
  }

  /** Re-keys a side table; two keys never collide because `newPos` can be undone. */
  function Rekey<V>(m: map<nat, V>, newPos: seq<nat>, order: seq<nat>): (r: map<nat, V>)
    requires Inverts(newPos, order) && forall k :: k in m ==> k < |newPos|
    ensures |r| == |m|
    ensures forall k :: k in m ==> newPos[k] in r && r[newPos[k]] == m[k]
    ensures forall p :: p in r ==> p < |order| && order[p] in m
  {
    var r := map k | k in m :: newPos[k] := m[k];
    RekeyKeepsSize(m.Keys, r.Keys, newPos, order);
    r
  }

  lemma {:induction false} RekeyKeepsSize(a: set<nat>, b: set<nat>, newPos: seq<nat>, order: seq<nat>)
    requires Inverts(newPos, order) && forall k :: k in a ==> k < |newPos|
    requires b == set k | k in a :: newPos[k]
    ensures |a| == |b|
  {
    if a != {} {
      var k :| k in a;
      assert b - {newPos[k]} == set j | j in a - {k} :: newPos[j];
      RekeyKeepsSize(a - {k}, b - {newPos[k]}, newPos, order);
    }
  }

  /** Re-keying a sparse column by the inverse permutation gives exactly the column of the
      re-ordered points: every key follows the record that carried it. */
  lemma RekeyedColumn<V>(ps: seq<Point>, f: Point -> Option<V>, order: seq<nat>, newPos: seq<nat>)
    requires IsKeyOrder(ps, order) && Inverts(newPos, order)
    ensures Column(Gather(ps, order), f) == Rekey(Column(ps, f), newPos, order)
  {
    var g, m := Gather(ps, order), Column(ps, f);
    var c, r := Column(g, f), Rekey(m, newPos, order);
    forall p: nat | p in c ensures p in r && r[p] == c[p] {
      var k := order[p];
      assert g[p] == ps[k] && k in m && newPos[k] == p;
    }
    forall p: nat | p in r ensures p in c {
      assert g[p] == ps[order[p]] && order[p] in m;
    }
  }

  // ---- One file -----------------------------------------------------------------------------

  class FileData {
    var state: FileState
    const whitelist: set<string>
    var series: map<string, Series>
    var side: map<string, SideTable>
    var rawCounters: map<string, nat>
    var tagsTotal: nat
    var droppedUndeclared: nat
    var droppedTags: nat
    var recordsReceived: nat
    var seqNext: nat
    var approximateBytes: nat
    /** Every record of every accepted batch, in arrival order. */
    ghost var received: seq<Record>

    constructor (metricWhitelist: seq<string>)
      ensures Valid() && state == Registered && received == [] && seqNext == 0
      ensures whitelist == set m | m in metricWhitelist
    {
      state := Registered;
      whitelist := set m | m in metricWhitelist;
      series, side, rawCounters := map[], map[], map[];
      tagsTotal, droppedUndeclared, droppedTags := 0, 0, 0;
      recordsReceived, seqNext, approximateBytes := 0, 0, 0;
      received := [];
    }

    function SeriesAt(m: string): Series reads this`series {
      if m in series then series[m] else NO_SERIES
    }

    function SideAt(m: string): SideTable reads this`side {
      if m in side then side[m] else NO_SIDE
    }

    function CounterAt(m: string): nat reads this`rawCounters {
      if m in rawCounters then rawCounters[m] else 0
    }

    /** What is stored for metric `m`. */
    function ColumnsAt(m: string): Columns reads this`series, this`side {
      Columned(m in series, SeriesAt(m), SideAt(m))
    }

    ghost predicate HoldsArrived(rs: seq<Record>) reads this`series, this`side {
      forall m :: ColumnsAt(m) == ColumnsOf(Points(whitelist, rs, m))
    }

    ghost predicate HoldsSorted(rs: seq<Record>) reads this`series, this`side {
      forall m :: ColumnsAt(m) == ColumnsOf(StableSort(Points(whitelist, rs, m)))
    }

    /** Columns and counters agree with the accepted records `rs`. */
    ghost predicate Ingested(rs: seq<Record>)
      reads this`series, this`side, this`rawCounters, this`tagsTotal, this`droppedTags,
            this`droppedUndeclared, this`approximateBytes
    {
      && HoldsArrived(rs)
      && Counted(rs)
    }

    ghost predicate Counted(rs: seq<Record>)
      reads this`rawCounters, this`tagsTotal, this`droppedTags, this`droppedUndeclared,
            this`approximateBytes
    {
      && (forall m :: CounterAt(m) == RawCount(whitelist, rs, m))
      && tagsTotal == TagsKept(whitelist, rs)
      && tagsTotal + droppedTags == TagEntries(whitelist, rs)
      && droppedUndeclared == Undeclared(whitelist, rs)
      && approximateBytes == Bytes(whitelist, rs)
    }

    ghost predicate Valid() reads this {
      && recordsReceived == |received|
      && Counted(received)
      && (if state == Frozen then HoldsSorted(received) else HoldsArrived(received))
    }

    /** Appends the columns of one accepted record; the index is cast to u32. */
    method AppendRecord(metric: string, timestamp: int, value: real) returns (point: nat)
      modifies this`series
      ensures series == old(series)[metric :=
                Series(old(SeriesAt(metric)).ts + [timestamp], old(SeriesAt(metric)).values + [value])]
      ensures point == |old(SeriesAt(metric)).ts| % MAX_POINTS
    {
      var s := SeriesAt(metric);
      series := series[metric := Series(s.ts + [timestamp], s.values + [value])];
      point := |s.ts| % MAX_POINTS;
    }

    /** Side tables are written at the still unsorted index: raw lines by stride, tags up to
        the per-file limit. */
    method AppendSide(metric: string, point: nat, rawLine: Option<string>, tags: Option<Tags>)
      modifies this`side, this`rawCounters, this`tagsTotal, this`droppedTags
      ensures CounterAt(metric) == old(CounterAt(metric)) + if IsText(rawLine) then 1 else 0
      ensures SideAt(metric).rawLine ==
              if IsText(rawLine) && CounterAt(metric) % RAW_LINE_STRIDE == 0
              then old(SideAt(metric)).rawLine[point := rawLine.value] else old(SideAt(metric)).rawLine
      ensures var n := EntryCount(tags);
              if 0 < n && old(tagsTotal) + n <= MAX_TAGS_PER_FILE
              then SideAt(metric).tags == old(SideAt(metric)).tags[point := tags.value]
                   && tagsTotal == old(tagsTotal) + n && droppedTags == old(droppedTags)
              else SideAt(metric).tags == old(SideAt(metric)).tags
                   && tagsTotal == old(tagsTotal) && droppedTags == old(droppedTags) + n
      ensures forall m :: m != metric ==> CounterAt(m) == old(CounterAt(m)) && SideAt(m) == old(SideAt(m))
    {
      if rawLine.Some? && rawLine.value != "" {
        var counter := (if metric in rawCounters then rawCounters[metric] else 0) + 1;
        rawCounters := rawCounters[metric := counter];
        if counter % RAW_LINE_STRIDE == 0 {
          var t := SideAt(metric);
          side := side[metric := t.(rawLine := t.rawLine[point := rawLine.value])];
        }
      }
      if tags.Some? && tags.value != [] {
        var len := |tags.value|;
        if tagsTotal + len <= MAX_TAGS_PER_FILE {
          var t := SideAt(metric);
          side := side[metric := t.(tags := t.tags[point := tags.value])];
          tagsTotal := tagsTotal + len;
        } else {
          droppedTags := droppedTags + len;
        }
      }
    }

    /** Stores an accepted record; `p` is the point it becomes behind `ps`. */
    method StoreRecord(record: Record, ghost ps: seq<Point>, ghost p: Point)
      requires ColumnsAt(record.metric) == ColumnsOf(ps)
      requires p.ts == record.timestamp && p.value == record.value
      requires p.tags == (if 0 < TagCount(record) && tagsTotal + TagCount(record) <= MAX_TAGS_PER_FILE
                          then record.tags else None)
      requires p.raw == (if HasRaw(record) && (CounterAt(record.metric) + 1) % RAW_LINE_STRIDE == 0
                         then record.rawLine else None)
      modifies this`series, this`side, this`rawCounters, this`tagsTotal, this`droppedTags,
               this`approximateBytes
      ensures ColumnsAt(record.metric) == ColumnsOf(ps + [p])
      ensures forall m :: m != record.metric ==> ColumnsAt(m) == old(ColumnsAt(m))
      ensures forall m :: CounterAt(m) == old(CounterAt(m)) + if m == record.metric && HasRaw(record) then 1 else 0
      ensures tagsTotal == old(tagsTotal) + if p.tags.Some? then TagCount(record) else 0
      ensures tagsTotal + droppedTags == old(tagsTotal + droppedTags) + TagCount(record)
      ensures approximateBytes == old(approximateBytes) + RecordApproxBytes(record)
    {
      var point := AppendRecord(record.metric, record.timestamp, record.value);
      AppendSide(record.metric, point, record.rawLine, record.tags);
      approximateBytes := approximateBytes + RecordApproxBytes(record);
      ColumnsNext(ps, p, old(SideAt(record.metric)), SideAt(record.metric));
    }

    /** One record of a batch: counted as undeclared, or appended to its columns. */
    method IngestRecord(record: Record, ghost before: seq<Record>) returns (accepted: bool)
      requires Ingested(before)
      modifies this`series, this`side, this`rawCounters, this`tagsTotal, this`droppedTags,
               this`droppedUndeclared, this`approximateBytes
      ensures Ingested(before + [record])
      ensures accepted <==> record.metric in whitelist
    {
      accepted := record.metric in whitelist;
      if accepted {
        IngestAccepted(record, before);
      } else {
        IngestedSnoc(before, record);
        droppedUndeclared := droppedUndeclared + 1;
        forall m ensures ColumnsAt(m) == ColumnsOf(Points(whitelist, before + [record], m)) {
          assert ColumnsAt(m) == old(ColumnsAt(m));
        }
      }
    }

    method IngestAccepted(record: Record, ghost before: seq<Record>)
      requires Ingested(before) && record.metric in whitelist
      modifies this`series, this`side, this`rawCounters, this`tagsTotal, this`droppedTags,
               this`approximateBytes
      ensures Ingested(before + [record])
    {
      IngestedSnoc(before, record);
      ghost var ps := Points(whitelist, before, record.metric);
      assert ColumnsAt(record.metric) == ColumnsOf(ps);
      StoreRecord(record, ps, PointOf(whitelist, before, record));
      forall m ensures ColumnsAt(m) == ColumnsOf(Points(whitelist, before + [record], m)) {
        if m != record.metric {
          assert ColumnsAt(m) == old(ColumnsAt(m));
        }
      }
      forall m ensures CounterAt(m) == RawCount(whitelist, before + [record], m) {
        assert old(CounterAt(m)) == RawCount(whitelist, before, m);
      }
    }

    lemma IngestedSnoc(before: seq<Record>, r: Record)
      ensures var rs := before + [r];
              var ok := r.metric in whitelist;
              && Undeclared(whitelist, rs) == Undeclared(whitelist, before) + (if ok then 0 else 1)
              && Bytes(whitelist, rs) == Bytes(whitelist, before) + (if ok then RecordApproxBytes(r) else 0)
              && TagEntries(whitelist, rs) == TagEntries(whitelist, before) + (if ok then TagCount(r) else 0)
              && TagsKept(whitelist, rs) == TagsKept(whitelist, before)
                 + (if KeepsTags(whitelist, before, r) then TagCount(r) else 0)
              && (forall m :: RawCount(whitelist, rs, m) == RawCount(whitelist, before, m)
                              + (if r.metric == m && ok && HasRaw(r) then 1 else 0))
              && (forall m :: Points(whitelist, rs, m) ==
                              if r.metric == m && ok then Points(whitelist, before, m) + [PointOf(whitelist, before, r)]
                              else Points(whitelist, before, m))
    {
      var rs := before + [r];
      assert rs[..|rs| - 1] == before && rs[|rs| - 1] == r;
    }

    /** Sorts every metric's columns by the key (timestamp, index) and moves the side-table
        keys along with their points. */
    method FreezeSort()
      requires Valid() && state != Frozen
      modifies this`series, this`side
      ensures HoldsSorted(received)
    {
      var todo := series.Keys;
      while todo != {}
        invariant todo <= series.Keys
        invariant forall m :: m in todo ==> ColumnsAt(m) == ColumnsOf(Points(whitelist, received, m))
        invariant forall m :: m !in todo ==> ColumnsAt(m) == ColumnsOf(StableSort(Points(whitelist, received, m)))
      {
        var metric :| metric in todo;
        label L:
        FreezeMetric(metric, Points(whitelist, received, metric));
        todo := todo - {metric};
        forall m | m in todo ensures ColumnsAt(m) == ColumnsOf(Points(whitelist, received, m)) {
          assert ColumnsAt(m) == old@L(ColumnsAt(m));
        }
        forall m | m !in todo ensures ColumnsAt(m) == ColumnsOf(StableSort(Points(whitelist, received, m))) {
          if m != metric {
            assert ColumnsAt(m) == old@L(ColumnsAt(m));
          }
        }
      }
    }

    method FreezeMetric(metric: string, ghost ps: seq<Point>)
      requires metric in series && ColumnsAt(metric) == ColumnsOf(ps)
      modifies this`series, this`side
      ensures ColumnsAt(metric) == ColumnsOf(StableSort(ps))
      ensures series.Keys == old(series).Keys
      ensures forall m :: m != metric ==> ColumnsAt(m) == old(ColumnsAt(m))
    {
      var s := series[metric];
      var order := KeyOrder(s.ts, |s.ts|);
      assert IsKeyOrder(ps, order);
      KeyOrderGathersStableSort(ps, order);
      series := series[metric := Series(Gather(s.ts, order), Gather(s.values, order))];
      assert SeriesOf(Gather(ps, order)) == series[metric];
      if metric in side {
        var newPos := InversePositions(order, ps);
        var table := side[metric];
        KeysAreIndices(ps, table);
        var tags := MoveKeys(table.tags, newPos, order);
        var rawLine := MoveKeys(table.rawLine, newPos, order);
        ColumnsMoved(ps, order, newPos, table, SideTable(tags, rawLine));
        side := side[metric := SideTable(tags, rawLine)];
      } else {
        ColumnsWithoutSide(ps, order);
      }
    }

    ghost function Log(): FileLog reads this {
      FileLog(state, seqNext, received)
    }

    /** What the columns of one metric add to the totals, in every state. */
    lemma MetricCounts(m: string)
      requires Valid()
      ensures Length(series, m) == |Points(whitelist, received, m)|
      ensures Length(series, m) <= MAX_POINTS ==>
                && StoredTags(series, side, m) == TagsOn(Points(whitelist, received, m))
                && StoredRaws(side, m) == RawCount(whitelist, received, m) / RAW_LINE_STRIDE
    {
      var arrived := Points(whitelist, received, m);
      var ps := if state == Frozen then StableSort(arrived) else arrived;
      assert ColumnsAt(m) == ColumnsOf(ps);
      SortKeepsCounts(arrived);
      RawLinesAreSampled(whitelist, received, m);
      ColumnCounts(ps);
      EntriesOfEmpty(|ps|);
    }

    /** The conservation laws, on the fields themselves and in every state. `lengths` and
        `tags` give the series length and the stored tag entries of each metric. */
    lemma Conservation(lengths: string -> nat, tags: string -> nat)
      requires Valid()
      requires forall m :: lengths(m) == Length(series, m)
      requires forall m :: tags(m) == StoredTags(series, side, m)
      ensures recordsReceived == SumOver(whitelist, lengths) + droppedUndeclared
      ensures (forall m :: m in whitelist ==> lengths(m) <= MAX_POINTS) ==> tagsTotal == SumOver(whitelist, tags)
      ensures tagsTotal <= MAX_TAGS_PER_FILE
      ensures tagsTotal + droppedTags == TagEntries(whitelist, received)
      ensures forall m :: lengths(m) <= MAX_POINTS ==>
                StoredRaws(side, m) == RawCount(whitelist, received, m) / RAW_LINE_STRIDE
      ensures approximateBytes == Bytes(whitelist, received)
    {
      forall m
        ensures lengths(m) == |Points(whitelist, received, m)|
        ensures lengths(m) <= MAX_POINTS ==>
                  && tags(m) == TagsOn(Points(whitelist, received, m))
                  && StoredRaws(side, m) == RawCount(whitelist, received, m) / RAW_LINE_STRIDE
      {
        MetricCounts(m);
      }
      RecordsAreConserved(whitelist, received, lengths);
      if forall m :: m in whitelist ==> lengths(m) <= MAX_POINTS {
        TagsAreConserved(whitelist, received, tags);
      }
    }

    method IngestAll(records: seq<Record>, ghost before: seq<Record>) returns (appended: nat)
      requires Ingested(before)
      modifies this`series, this`side, this`rawCounters, this`tagsTotal, this`droppedTags,
               this`droppedUndeclared, this`approximateBytes
      ensures Ingested(before + records)
      ensures appended == |records| - Undeclared(whitelist, records)
    {
      appended := 0;
      assert before + records[..0] == before;
      for i := 0 to |records|
        invariant Ingested(before + records[..i])
        invariant appended == i - Undeclared(whitelist, records[..i])
      {
        var accepted := IngestRecord(records[i], before + records[..i]);
        TakeSnoc(records, i);
        assert before + records[..i] + [records[i]] == before + (records[..i] + [records[i]]);
        if accepted {
          appended := appended + 1;
        }
      }
      assert records[..|records|] == records;
    }

    /** The per-file part of `append_batch`: a batch is appended whole or rejected whole. */
    method Append(id: string, batch: RecordBatch) returns (r: Result<AppendStats, StoreError>)
      requires Valid() && batch.fileId == id
      modifies this
      ensures Valid()
      ensures r.Err? ==> unchanged(this)
      ensures match AppendLog(id, old(Log()), batch)
              case Err(e) => r == Err(e)
              case Ok(log) =>
                && Log() == log
                && r == Ok(AppendStats(|batch.records| - Undeclared(whitelist, batch.records),
                                       droppedUndeclared))
    {
      if state == Frozen {
        return Err(NotIngesting(id));
      }
      if batch.seqNo != seqNext {
        return Err(if batch.seqNo > seqNext then SeqGap(seqNext, batch.seqNo)
                   else SeqDuplicate(seqNext, batch.seqNo));
      }
      var appended := Commit(batch.records);
      r := Ok(AppendStats(appended, droppedUndeclared));
    }

    method Commit(records: seq<Record>) returns (appended: nat)
      requires Valid() && state != Frozen
      modifies this
      ensures Valid() && Log() == FileLog(Ingesting, old(seqNext) + 1, old(received) + records)
      ensures appended == |records| - Undeclared(whitelist, records)
    {
      state := Ingesting;
      appended := IngestAll(records, received);
      seqNext := seqNext + 1;
      recordsReceived := recordsReceived + |records|;
      received := received + records;
    }

    /** The per-file part of `freeze`. */
    method FreezeFile(id: string, recordsTotal: nat) returns (r: Result<(), StoreError>)
      requires Valid()
      modifies this
      ensures Valid()
      ensures r.Err? ==> unchanged(this)
      ensures match FreezeLog(id, old(Log()), recordsTotal)
              case Err(e) => r == Err(e)
              case Ok(log) => r == Ok(()) && Log() == log && approximateBytes == old(approximateBytes)
    {
      if state == Frozen {
        return Err(AlreadyFrozen(id));
      }
      if recordsReceived != recordsTotal {
        return Err(CountMismatch(recordsTotal, recordsReceived));
      }
      FreezeSort();
      state := Frozen;
      r := Ok(());
    }
  }

  /** The new position of every index, cast to 32 bits: the inverse of `order` if that fits. */
  method InversePositions(order: seq<nat>, ghost ps: seq<Point>) returns (newPos: seq<nat>)
    requires IsKeyOrder(ps, order)
    ensures |newPos| == |order| && forall k :: 0 <= k < |newPos| ==> newPos[k] < MAX_POINTS
    ensures forall i :: 0 <= i < |order| ==> order[i] < |newPos| && newPos[order[i]] == i % MAX_POINTS
    ensures |order| <= MAX_POINTS ==> Inverts(newPos, order)
  {
    var a := new nat[|order|](_ => 0);
    for pos := 0 to |order|
      invariant forall k :: 0 <= k < a.Length ==> a[k] < MAX_POINTS
      invariant forall i :: 0 <= i < pos ==> a[order[i]] == i % MAX_POINTS
    {
      assert forall i :: 0 <= i < pos ==> KeyBelow(ps[order[i]].ts, order[i], ps[order[pos]].ts, order[pos]);
      a[order[pos]] := pos % MAX_POINTS;
    }
    newPos := a[..];
    KeyOrderIsOnto(ps, order);
    if |order| <= MAX_POINTS {
      forall k: nat | k < |newPos| ensures newPos[k] < |order| && order[newPos[k]] == k {
        assert k in order;
      }
    }
  }

  /** Moves the keys of a side table; keys that the cast made equal overwrite each other. */
  method MoveKeys<V>(m: map<nat, V>, newPos: seq<nat>, ghost order: seq<nat>) returns (r: map<nat, V>)
    requires forall k :: k in m ==> k < |newPos|
    requires forall k :: 0 <= k < |newPos| ==> newPos[k] < MAX_POINTS
    ensures forall p :: p in r ==> p < MAX_POINTS
    ensures Inverts(newPos, order) ==> r == Rekey(m, newPos, order)
  {
    r := map[];
    var todo := m.Keys;
    while todo != {}
      invariant todo <= m.Keys
      invariant forall p :: p in r ==> p < MAX_POINTS
      invariant Inverts(newPos, order) ==> forall k :: k in m && k !in todo ==> newPos[k] in r && r[newPos[k]] == m[k]
      invariant Inverts(newPos, order) ==> forall p :: p in r ==> p < |order| && order[p] in m
    {
      var k :| k in todo;
      r := r[newPos[k] := m[k]];
      todo := todo - {k};
    }
    if Inverts(newPos, order) {
      SameRekeyed(m, r, newPos, order);
    }
  }

  lemma SameRekeyed<V>(m: map<nat, V>, r: map<nat, V>, newPos: seq<nat>, order: seq<nat>)
    requires Inverts(newPos, order) && forall k :: k in m ==> k < |newPos|
    requires forall k :: k in m ==> newPos[k] in r && r[newPos[k]] == m[k]
    requires forall p :: p in r ==> p < |order| && order[p] in m
    ensures r == Rekey(m, newPos, order)
  {
    var q := Rekey(m, newPos, order);
    forall p | p in r || p in q ensures p in r && p in q && r[p] == q[p] {
      assert newPos[order[p]] == p;
    }
  }

  lemma EmptyColumn<V>(ps: seq<Point>, f: Point -> Option<V>, order: seq<nat>)
    requires Column(ps, f) == map[] && IsKeyOrder(ps, order)
    ensures Column(Gather(ps, order), f) == map[]
  {
    var c := Column(Gather(ps, order), f);
    assert forall i: nat :: i in c ==> order[i] in Column(ps, f);
  }

  lemma ColumnsWithoutSide(ps: seq<Point>, order: seq<nat>)
    requires Columned(ps != [], SeriesOf(ps), NO_SIDE) == ColumnsOf(ps) && IsKeyOrder(ps, order)
    ensures Columned(ps != [], SeriesOf(Gather(ps, order)), NO_SIDE) == ColumnsOf(Gather(ps, order))
  {
    if |ps| <= MAX_POINTS {
      EmptyColumn(ps, TagsOf, order);
      EmptyColumn(ps, RawOf, order);
    }
  }

  lemma ColumnsMoved(ps: seq<Point>, order: seq<nat>, newPos: seq<nat>, side: SideTable, after: SideTable)
    requires Columned(ps != [], SeriesOf(ps), side) == ColumnsOf(ps) && IsKeyOrder(ps, order) && KeysFit(after)
    requires |ps| <= MAX_POINTS ==>
               && Inverts(newPos, order) && KeysBelow(side, |newPos|)
               && after == SideTable(Rekey(side.tags, newPos, order), Rekey(side.rawLine, newPos, order))
    ensures Columned(ps != [], SeriesOf(Gather(ps, order)), after) == ColumnsOf(Gather(ps, order))
  {
    if |ps| <= MAX_POINTS {
      RekeyedColumn(ps, TagsOf, order, newPos);
      RekeyedColumn(ps, RawOf, order, newPos);
    }
  }

  /** Keys are indices of points: of those below 2^32, at any rate. */
  lemma KeysAreIndices(ps: seq<Point>, side: SideTable)
    requires Columned(ps != [], SeriesOf(ps), side) == ColumnsOf(ps)
    ensures KeysBelow(side, |ps|)
  {
    if |ps| <= MAX_POINTS {
      assert side == SideOf(ps);
    }
  }

  // ---- Counting what is stored ----------------------------------------------------------------

  function Length(series: map<string, Series>, m: string): nat {
    if m in series then |series[m].ts| else 0
  }

  /** Tag entries found in a side table at the keys below `n`. */
  function EntriesBelow(tags: map<nat, Tags>, n: nat): nat {
    if n == 0 then 0 else
      EntriesBelow(tags, n - 1) + if n - 1 in tags then |tags[n - 1]| else 0
  }

  function StoredTags(series: map<string, Series>, side: map<string, SideTable>, m: string): nat {
    if m in side then EntriesBelow(side[m].tags, Length(series, m)) else 0
  }

  function StoredRaws(side: map<string, SideTable>, m: string): nat {
    if m in side then |side[m].rawLine| else 0
  }

  lemma {:induction false} ColumnCounts(ps: seq<Point>)
    ensures EntriesBelow(Column(ps, TagsOf), |ps|) == TagsOn(ps)
    ensures |Column(ps, RawOf)| == RawsOn(ps)
  {
    if ps == [] {
      assert Column(ps, RawOf) == map[];
    } else {
      var a, p := ps[..|ps| - 1], ps[|ps| - 1];
      ColumnCounts(a);
      assert ps == a + [p];
      ColumnSnoc(a, p, TagsOf);
      ColumnSnoc(a, p, RawOf);
      EntriesAgree(Column(a, TagsOf), Column(ps, TagsOf), |a|);
    }
  }

  lemma {:induction false} EntriesOfEmpty(n: nat)
    ensures EntriesBelow(map[], n) == 0
  {
    if n > 0 {
      EntriesOfEmpty(n - 1);
    }
  }

  lemma {:induction false} EntriesAgree(a: map<nat, Tags>, b: map<nat, Tags>, n: nat)
    requires forall k: nat :: k < n ==> (k in a <==> k in b) && (k in a ==> a[k] == b[k])
    ensures EntriesBelow(a, n) == EntriesBelow(b, n)
  {
    if n > 0 {
      EntriesAgree(a, b, n - 1);
    }
  }

  // ---- The life of a file as a value ------------------------------------------------------------

  datatype FileLog = FileLog(state: FileState, seqNext: nat, received: seq<Record>)

  function AppendLog(id: string, log: FileLog, batch: RecordBatch): Result<FileLog, StoreError> {
    if batch.fileId != id then Err(BatchFileMismatch(id, batch.fileId))
    else if log.state == Frozen then Err(NotIngesting(id))
    else if batch.seqNo > log.seqNext then Err(SeqGap(log.seqNext, batch.seqNo))
    else if batch.seqNo < log.seqNext then Err(SeqDuplicate(log.seqNext, batch.seqNo))
    else Ok(FileLog(Ingesting, log.seqNext + 1, log.received + batch.records))
  }

  function FreezeLog(id: string, log: FileLog, recordsTotal: nat): Result<FileLog, StoreError> {
    if log.state == Frozen then Err(AlreadyFrozen(id))
    else if |log.received| != recordsTotal then Err(CountMismatch(recordsTotal, |log.received|))
    else Ok(log.(state := Frozen))
  }

  // ---- All files ----------------------------------------------------------------------------------

  class Store {
    var files: map<string, FileData>

    ghost predicate Valid() reads this, files.Values {
      && (forall id :: id in files ==> files[id].Valid())
      && (forall a, b :: a in files && b in files && a != b ==> files[a] != files[b])
    }

    ghost function Target(fileId: string): set<FileData> reads this {
      if fileId in files then {files[fileId]} else {}
    }

    constructor ()
      ensures Valid() && files == map[]
    {
      files := map[];
    }

    method Register(fileId: string, metricWhitelist: seq<string>) returns (r: Result<(), StoreError>)
      requires Valid()
      modifies this
      ensures Valid()
      ensures fileId in old(files) ==> r == Err(AlreadyRegistered(fileId)) && files == old(files)
      ensures fileId !in old(files) ==>
                && r == Ok(())
                && files.Keys == old(files).Keys + {fileId} && fresh(files[fileId])
                && (forall id :: id in old(files) ==> files[id] == old(files)[id])
                && files[fileId].Log() == FileLog(Registered, 0, [])
                && files[fileId].whitelist == set m | m in metricWhitelist
    {
      if fileId in files {
        return Err(AlreadyRegistered(fileId));
      }
      var data := new FileData(metricWhitelist);
      files := files[fileId := data];
      r := Ok(());
    }

    /** Appends a batch whole or rejects it whole. */
    method AppendBatch(fileId: string, batch: RecordBatch) returns (r: Result<AppendStats, StoreError>)
      requires Valid()
      modifies Target(fileId)
      ensures Valid()
      ensures batch.fileId != fileId ==> r == Err(BatchFileMismatch(fileId, batch.fileId))
      ensures batch.fileId == fileId && fileId !in files ==> r == Err(UnknownFile(fileId))
      ensures r.Err? ==> unchanged(Target(fileId))
      ensures fileId in files ==>
                match AppendLog(fileId, old(files[fileId].Log()), batch)
                case Err(e) => r == Err(e)
                case Ok(log) =>
                  && files[fileId].Log() == log
                  && r == Ok(AppendStats(
                       |batch.records| - Undeclared(files[fileId].whitelist, batch.records),
                       files[fileId].droppedUndeclared))
    {
      if batch.fileId != fileId {
        return Err(BatchFileMismatch(fileId, batch.fileId));
      }
      if fileId !in files {
        return Err(UnknownFile(fileId));
      }
      r := files[fileId].Append(fileId, batch);
    }

    /** Verifies the declared total, sorts the columns once and makes the file read-only. */
    method Freeze(fileId: string, recordsTotal: nat) returns (r: Result<(), StoreError>)
      requires Valid()
      modifies Target(fileId)
      ensures Valid()
      ensures fileId !in files ==> r == Err(UnknownFile(fileId))
      ensures r.Err? ==> unchanged(Target(fileId))
      ensures fileId in files ==>
                match FreezeLog(fileId, old(files[fileId].Log()), recordsTotal)
                case Err(e) => r == Err(e)
                case Ok(log) => r == Ok(()) && files[fileId].Log() == log
                                && files[fileId].approximateBytes == old(files[fileId].approximateBytes)
    {
      if fileId !in files {
        return Err(UnknownFile(fileId));
      }
      r := files[fileId].FreezeFile(fileId, recordsTotal);
    }

    method Unload(fileId: string)
      requires Valid()
      modifies this
      ensures Valid() && files == old(files) - {fileId}
    {
      files := files - {fileId};
    }

    ghost function FileBytes(): map<string, nat>
      reads this, files.Values
    {
      map id | id in files :: files[id].approximateBytes
    }

    /** The resident bytes of all files, summed file by file. */
    method MemoryBytes() returns (total: nat)
      requires Valid()
      ensures total == SumOver(files.Keys, AtOrZero(FileBytes()))
    {
      total := 0;
      var todo := files.Keys;
      while todo != {}
        invariant todo <= files.Keys
        invariant total + SumOver(todo, AtOrZero(FileBytes())) == SumOver(files.Keys, AtOrZero(FileBytes()))
      {
        var id :| id in todo;
        SumOverRemove(todo, AtOrZero(FileBytes()), id);
        total := total + files[id].approximateBytes;
        todo := todo - {id};
      }
    }

    /** The abstract value of the store. */
    ghost function Value(): map<string, FileValue>
      reads this, files.Values
    {
      map id | id in files :: FileValue(files[id].whitelist, files[id].Log())
    }

    /** The sorted columns of a frozen file's metric. */
    method FrozenSeries(fileId: string, metric: string) returns (r: Option<Series>)
      requires Valid()
      ensures var ps := FrozenPoints(Value(), fileId, metric);
              r == if ps == [] then None else Some(SeriesOf(ps))
    {
      if fileId !in files || files[fileId].state != Frozen {
        return None;
      }
      var data := files[fileId];
      assert data.ColumnsAt(metric) == ColumnsOf(StableSort(Points(data.whitelist, data.received, metric)));
      if metric !in data.series {
        return None;
      }
      r := Some(data.series[metric]);
    }
  }

  datatype FileValue = FileValue(whitelist: set<string>, log: FileLog)

  /** The accepted points of a metric in arrival order, if the file is frozen. */
  function FrozenArrivals(files: map<string, FileValue>, fileId: string, metric: string): seq<Point> {
    if fileId in files && files[fileId].log.state == Frozen
    then Points(files[fileId].whitelist, files[fileId].log.received, metric) else []
  }

  function FrozenPoints(files: map<string, FileValue>, fileId: string, metric: string): seq<Point> {
    StableSort(FrozenArrivals(files, fileId, metric))
  }
}
