/** The two passes of the CSV plugin over a file (plugins/builtin-csv/src/engine.rs): the load
    pass announces how many records there will be, the parse pass streams them in batches.

    Lines are the content split at line feeds, without a trailing carriage return. The column
    layout is whatever the load pass settled on. */
module CsvEngine {
  import opened Batches
  import opened Common
  import opened Protocol
  import opened Ledger
  import opened CsvLine
  import opened KeyValues
  import Store

  const BATCH_SIZE: nat := 4000
  const RAW_LINE_SAMPLE: nat := 500
  const REPORT_LINES: nat := 20000
  const BAD_SAMPLES: nat := 10

  /** Time stamps, numbers and quoted cells are read by foreign code. */
  datatype Codec = Codec(time: string -> Option<int>, number: string -> Option<real>, unquote: string -> string)

  datatype Layout = Layout(
    delimiter: char,
    hasHeader: bool,
    timeCol: Option<nat>,
    metricIds: seq<Option<string>>)
  {
    predicate Valid() { timeCol.Some? ==> timeCol.value < |metricIds| }
  }

  datatype RowError = ColumnCount | BadTimestamp | NoTimeColumn | NonNumeric

  predicate Numeric(codec: Codec, layout: Layout, fields: seq<string>)
    requires |fields| == |layout.metricIds|
  {
    forall j :: 0 <= j < |fields| && layout.metricIds[j].Some? ==> codec.number(fields[j]).Some?
  }

  function RowTs(codec: Codec, layout: Layout, fields: seq<string>): Result<int, RowError>
    requires layout.Valid()
  {
    if |fields| != |layout.metricIds| then Err(ColumnCount)
    else if layout.timeCol.None? then Err(NoTimeColumn)
    else match codec.time(fields[layout.timeCol.value])
         case None => Err(BadTimestamp)
         case Some(ts) => if Numeric(codec, layout, fields) then Ok(ts) else Err(NonNumeric)
  }

  function Fields(layout: Layout, line: string): seq<string> {
    Split(BuiltinCsv, layout.delimiter, line)
  }

  /** The line is a data row without errors. */
  predicate Good(codec: Codec, layout: Layout, line: string)
    requires layout.Valid()
  {
    line != "" && RowTs(codec, layout, Fields(layout, line)).Ok?
  }

  function GoodRows(codec: Codec, layout: Layout, lines: seq<string>, from: nat, to: nat): nat
    requires layout.Valid() && from <= to <= |lines|
  {
    if from == to then 0 else
      GoodRows(codec, layout, lines, from, to - 1) + if Good(codec, layout, lines[to - 1]) then 1 else 0
  }

  function MetricCount(ids: seq<Option<string>>): nat {
    if ids == [] then 0 else MetricCount(ids[..|ids| - 1]) + if ids[|ids| - 1].Some? then 1 else 0
  }

  function DataRows(lines: seq<string>, from: nat, to: nat): nat
    requires from <= to <= |lines|
  {
    if from == to then 0 else DataRows(lines, from, to - 1) + if lines[to - 1] != "" then 1 else 0
  }

  /** A good row with this time stamp. */
  ghost predicate GoodAt(codec: Codec, layout: Layout, lines: seq<string>, i: nat, ts: int)
    requires layout.Valid()
  {
    i < |lines| && Good(codec, layout, lines[i]) && RowTs(codec, layout, Fields(layout, lines[i])).value == ts
  }

  /** The smallest and the largest time stamp of the good rows between two lines. */
  ghost predicate IsRange(codec: Codec, layout: Layout, lines: seq<string>, from: nat, to: nat, range: (int, int))
    requires layout.Valid()
  {
    && (forall i, ts :: from <= i < to && GoodAt(codec, layout, lines, i, ts) ==> range.0 <= ts <= range.1)
    && (exists i :: from <= i < to && GoodAt(codec, layout, lines, i, range.0))
    && (exists i :: from <= i < to && GoodAt(codec, layout, lines, i, range.1))
  }

  /** The range that the load pass has found when it has seen the rows between two lines. */
  function RangeOf(codec: Codec, layout: Layout, lines: seq<string>, from: nat, to: nat): Option<(int, int)>
    requires layout.Valid() && from <= to <= |lines|
  {
    if from == to then None else
      var rest := RangeOf(codec, layout, lines, from, to - 1);
      if !Good(codec, layout, lines[to - 1]) then rest
      else Widened(rest, RowTs(codec, layout, Fields(layout, lines[to - 1])).value)
  }

  function Widened(range: Option<(int, int)>, ts: int): Option<(int, int)> {
    if range.None? then Some((ts, ts))
    else Some((if ts < range.value.0 then ts else range.value.0, if ts > range.value.1 then ts else range.value.1))
  }

  /** It is the exact range, and there is one iff a row is good. */
  lemma {:induction false} RangeIsExact(codec: Codec, layout: Layout, lines: seq<string>, from: nat, to: nat)
    requires layout.Valid() && from <= to <= |lines|
    ensures var range := RangeOf(codec, layout, lines, from, to);
            && (range.Some? <==> GoodRows(codec, layout, lines, from, to) > 0)
            && (range.Some? ==> IsRange(codec, layout, lines, from, to, range.value))
            && (range.None? ==> forall i, ts :: from <= i < to ==> !GoodAt(codec, layout, lines, i, ts))
  {
    if from < to {
      RangeIsExact(codec, layout, lines, from, to - 1);
      if Good(codec, layout, lines[to - 1]) {
        var ts := RowTs(codec, layout, Fields(layout, lines[to - 1])).value;
        assert GoodAt(codec, layout, lines, to - 1, ts);
      }
    }
  }

  // ---- The load pass -----------------------------------------------------------------------

  /** Index of the first line that is not empty. */
  function FirstLine(lines: seq<string>): (n: nat)
    ensures n <= |lines| && (forall i :: 0 <= i < n ==> lines[i] == "") && (n < |lines| ==> lines[n] != "")
  {
    if lines == [] || lines[0] != "" then 0 else FirstLine(lines[1..]) + 1
  }

  function DataStart(layout: Layout, lines: seq<string>): (n: nat)
    ensures n <= |lines|
  {
    var first := FirstLine(lines);
    if first == |lines| then 0 else if layout.hasHeader then first + 1 else first
  }

  datatype Announcement = Announcement(recordCountHint: Option<nat>, badLines: nat, timeRange: Option<(int, int)>)

  /** The number of records a hint stands for; there is no hint when no row is good. */
  function Announced(hint: Option<nat>): nat {
    if hint.Some? then hint.value else 0
  }

  /** Validates every data row. */
  method LoadPass(codec: Codec, layout: Layout, lines: seq<string>) returns (a: Announcement)
    requires layout.Valid()
    ensures Announced(a.recordCountHint) ==
            GoodRows(codec, layout, lines, DataStart(layout, lines), |lines|) * MetricCount(layout.metricIds)
    ensures a.recordCountHint.Some? <==> GoodRows(codec, layout, lines, DataStart(layout, lines), |lines|) > 0
    ensures a.badLines + GoodRows(codec, layout, lines, DataStart(layout, lines), |lines|) ==
            DataRows(lines, DataStart(layout, lines), |lines|)
    ensures a.timeRange.Some? <==> a.recordCountHint.Some?
    ensures a.timeRange.Some? ==> IsRange(codec, layout, lines, DataStart(layout, lines), |lines|, a.timeRange.value)
  {
    var start := DataStart(layout, lines);
    var goodRows, bad := 0, 0;
    var range: Option<(int, int)> := None;
    for i := start to |lines|
      invariant goodRows == GoodRows(codec, layout, lines, start, i)
      invariant bad + goodRows == DataRows(lines, start, i)
      invariant range == RangeOf(codec, layout, lines, start, i)
    {
      if lines[i] != "" {
        match RowTs(codec, layout, Fields(layout, lines[i]))
        case Ok(ts) =>
          goodRows := goodRows + 1;
          range := Widened(range, ts);
        case Err(_) =>
          bad := bad + 1;
      }
    }
    RangeIsExact(codec, layout, lines, start, |lines|);
    var hint := if goodRows > 0 then Some(goodRows * MetricCount(layout.metricIds)) else None;
    a := Announcement(hint, bad, range);
  }

  // ---- The parse pass ------------------------------------------------------------------------

  /** The records of one good row, up to column `j`. */
  function RowRecords(codec: Codec, layout: Layout, fields: seq<string>, ts: int, raw: Option<string>, j: nat)
    : seq<Record>
    requires |fields| == |layout.metricIds| && Numeric(codec, layout, fields) && j <= |fields|
  {
    if j == 0 then [] else
      var rest := RowRecords(codec, layout, fields, ts, raw, j - 1);
      var id := layout.metricIds[j - 1];
      if id.None? then rest
      else rest + [Record(ts, id.value, codec.number(fields[j - 1]).value, None, None, raw)]
  }

  /** The parse pass skips line 1 of a file with a header, wherever the header is. */
  predicate Skipped(layout: Layout, lines: seq<string>, i: nat)
    requires i < |lines|
  {
    lines[i] == "" || (layout.hasHeader && i == 0)
  }

  function LineRecords(codec: Codec, layout: Layout, lines: seq<string>, i: nat): seq<Record>
    requires layout.Valid() && i < |lines|
  {
    var fields := Fields(layout, lines[i]);
    if Skipped(layout, lines, i) || RowTs(codec, layout, fields).Err? then []
    else RowRecords(codec, layout, fields, RowTs(codec, layout, fields).value,
                    if (i + 1) % RAW_LINE_SAMPLE == 0 then Some(lines[i]) else None, |fields|)
  }

  /** Everything the parse pass has to say about the first `n` lines. */
  function RecordsUpTo(codec: Codec, layout: Layout, lines: seq<string>, n: nat): seq<Record>
    requires layout.Valid() && n <= |lines|
  {
    if n == 0 then [] else RecordsUpTo(codec, layout, lines, n - 1) + LineRecords(codec, layout, lines, n - 1)
  }

  predicate FullBatch(fileId: string, b: RecordBatch, seqNo: nat) {
    b.fileId == fileId && b.seqNo == seqNo && |b.records| == BATCH_SIZE && !b.done
  }

  /** Batches numbered from zero that are all full and not the last. */
  predicate FullBatches(fileId: string, batches: seq<RecordBatch>) {
    forall i :: 0 <= i < |batches| ==> FullBatch(fileId, batches[i], i)
  }

  lemma FullSnoc(fileId: string, batches: seq<RecordBatch>, b: RecordBatch)
    requires FullBatches(fileId, batches) && FullBatch(fileId, b, |batches|)
    ensures FullBatches(fileId, batches + [b])
  {
  }

  predicate CancelSeen(cancelled: nat -> bool, n: nat) {
    exists i :: 0 <= i < n && cancelled(i)
  }

  /** A raw line without its trailing carriage return. */
  function TextOf(raw: string): string {
    if raw != "" && raw[|raw| - 1] == '\r' then raw[..|raw| - 1] else raw
  }

  function TextsOf(raws: seq<string>): (lines: seq<string>)
    ensures |lines| == |raws|
  {
    seq(|raws|, i requires 0 <= i < |raws| => TextOf(raws[i]))
  }

  function Returned(lines: seq<string>): seq<string> {
    seq(|lines|, i requires 0 <= i < |lines| => lines[i] + "\r")
  }

  lemma TextOfReturned(line: string)
    ensures TextOf(line + "\r") == line && (line == "" || line[|line| - 1] != '\r' ==> TextOf(line) == line)
  {
    assert (line + "\r")[..|line|] == line;
  }

  /** A file with carriage returns in front of its line feeds has the same lines as one without. */
  lemma CrlfIsLf(lines: seq<string>)
    ensures TextsOf(Returned(lines)) == lines
    ensures (forall i :: 0 <= i < |lines| ==> lines[i] == "" || lines[i][|lines[i]| - 1] != '\r') ==>
              TextsOf(lines) == lines
  {
    forall i | 0 <= i < |lines|
      ensures TextOf(lines[i] + "\r") == lines[i]
      ensures lines[i] == "" || lines[i][|lines[i]| - 1] != '\r' ==> TextOf(lines[i]) == lines[i]
    {
      TextOfReturned(lines[i]);
    }
  }

  /** Rows among the first `n` lines that the parse pass finds bad. */
  function BadRows(codec: Codec, layout: Layout, lines: seq<string>, n: nat): nat
    requires layout.Valid() && n <= |lines|
  {
    if n == 0 then 0 else
      BadRows(codec, layout, lines, n - 1)
      + if !Skipped(layout, lines, n - 1) && !Good(codec, layout, lines[n - 1]) then 1 else 0
  }

  /** The size of the content, the bytes of a line, and whether the last report is two seconds
      ago in front of a line. */
  datatype Meter = Meter(contentBytes: nat, len: string -> nat, late: nat -> bool)
  {
    function Size(): nat {
      if contentBytes > 0 then contentBytes else 1
    }

    function Percent(bytes: nat): real {
      bytes as real / Size() as real * 100.0
    }

    /** There is a report in front of this line. */
    predicate Due(i: nat) {
      (i + 1) % REPORT_LINES == 0 || late(i)
    }
  }

  /** What a parse pass works on. */
  datatype Pass = Pass(fileId: string, codec: Codec, layout: Layout, raws: seq<string>, meter: Meter, kv: seq<KvColumn>)

  /** Bytes of the first `n` lines with their line feeds. */
  function BytesUpTo(meter: Meter, raws: seq<string>, n: nat): nat
    requires n <= |raws|
  {
    if n == 0 then 0 else BytesUpTo(meter, raws, n - 1) + meter.len(raws[n - 1]) + 1
  }

  function ReportAt(fileId: string, meter: Meter, bytes: nat, records: nat, i: nat): seq<ProgressParams> {
    if meter.Due(i) then [ProgressParams(fileId, Some(meter.Percent(bytes)), records)] else []
  }

  /** The reports in front of the first `n` lines, with the bytes and records after each line. */
  function Reports(fileId: string, meter: Meter, bytes: nat -> nat, records: nat -> nat, n: nat): seq<ProgressParams> {
    if n == 0 then [ProgressParams(fileId, Some(0.0), 0)] else
      Reports(fileId, meter, bytes, records, n - 1) + ReportAt(fileId, meter, bytes(n), records(n - 1), n - 1)
  }

  function BytesAfter(p: Pass): nat -> nat {
    (n: nat) => if n <= |p.raws| then BytesUpTo(p.meter, p.raws, n) else 0
  }

  function RecordsAfter(p: Pass): nat -> nat
    requires p.layout.Valid()
  {
    (n: nat) => if n <= |p.raws| then |RecordsUpTo(p.codec, p.layout, TextsOf(p.raws), n)| else 0
  }

  /** The reports of a parse that has read `n` lines. */
  function ReportsUpTo(p: Pass, n: nat): seq<ProgressParams>
    requires p.layout.Valid()
  {
    Reports(p.fileId, p.meter, BytesAfter(p), RecordsAfter(p), n)
  }

  function ReportIn(note: Notification): seq<ProgressParams> {
    if note.Progress? then [note.progress] else []
  }

  function ReportsIn(sink: seq<Notification>): seq<ProgressParams> {
    if sink == [] then [] else ReportsIn(sink[..|sink| - 1]) + ReportIn(sink[|sink| - 1])
  }

  lemma ReportsInSnoc(sink: seq<Notification>, note: Notification)
    ensures ReportsIn(sink + [note]) == ReportsIn(sink) + ReportIn(note)
    ensures note.Batch? ==> ReportsIn(sink + [note]) == ReportsIn(sink)
  {
    InitOfSnoc(sink, note);
  }

  /** What a parse notes beside the records: bad rows, the first of them with line and reason,
      and the text columns. */
  datatype Notes = Notes(bad: nat, samples: seq<(nat, RowError)>, kv: seq<KvColumn>)

  /** The cell of a good row for one text column: skipped when the column is given up, the row
      too short or the text empty. */
  function KvCell(codec: Codec, c: KvColumn, fields: seq<string>, ts: int): KvColumn {
    if !c.valid || c.idx >= |fields| || codec.unquote(fields[c.idx]) == "" then c
    else Sampled(c, Sample(ts, codec.unquote(fields[c.idx])))
  }

  function KvRow(codec: Codec, kv: seq<KvColumn>, fields: seq<string>, ts: int): (r: seq<KvColumn>)
    ensures |r| == |kv|
  {
    seq(|kv|, c requires 0 <= c < |kv| => KvCell(codec, kv[c], fields, ts))
  }

  function WithBad(n: Notes, lineNo: nat, e: RowError): Notes {
    Notes(n.bad + 1, if |n.samples| < BAD_SAMPLES then n.samples + [(lineNo, e)] else n.samples, n.kv)
  }

  /** The notes after one more line. */
  function NotesAfter(n: Notes, codec: Codec, layout: Layout, lines: seq<string>, i: nat): Notes
    requires layout.Valid() && i < |lines|
  {
    if Skipped(layout, lines, i) then n else
      var fields := Fields(layout, lines[i]);
      match RowTs(codec, layout, fields)
      case Ok(ts) => n.(kv := KvRow(codec, n.kv, fields, ts))
      case Err(e) => WithBad(n, i + 1, e)
  }

  function NotesUpTo(codec: Codec, layout: Layout, lines: seq<string>, kv: seq<KvColumn>, n: nat): Notes
    requires layout.Valid() && n <= |lines|
  {
    if n == 0 then Notes(0, [], kv)
    else NotesAfter(NotesUpTo(codec, layout, lines, kv, n - 1), codec, layout, lines, n - 1)
  }

  /** What a parse has to show for some lines. */
  datatype Tally = Tally(records: seq<Record>, notes: Notes, reports: seq<ProgressParams>)

  function NoLines(fileId: string, kv: seq<KvColumn>): Tally {
    Tally([], Notes(0, [], kv), [ProgressParams(fileId, Some(0.0), 0)])
  }

  function TallyUpTo(codec: Codec, layout: Layout, lines: seq<string>, kv: seq<KvColumn>, n: nat,
                     reports: seq<ProgressParams>): Tally
    requires layout.Valid() && n <= |lines|
  {
    Tally(RecordsUpTo(codec, layout, lines, n), NotesUpTo(codec, layout, lines, kv, n), reports)
  }

  /** The tally of one more line. */
  function WithLine(t: Tally, codec: Codec, layout: Layout, lines: seq<string>, i: nat): Tally
    requires layout.Valid() && i < |lines|
  {
    Tally(t.records + LineRecords(codec, layout, lines, i), NotesAfter(t.notes, codec, layout, lines, i), t.reports)
  }

  lemma TallyNext(codec: Codec, layout: Layout, lines: seq<string>, kv: seq<KvColumn>, i: nat,
                  reports: seq<ProgressParams>)
    requires layout.Valid() && i < |lines|
    ensures TallyUpTo(codec, layout, lines, kv, i + 1, reports) ==
            WithLine(TallyUpTo(codec, layout, lines, kv, i, reports), codec, layout, lines, i)
  {
  }

  /** The tally of a parse that has read `n` of its raw lines. */
  function TallyAt(p: Pass, n: nat): Tally
    requires p.layout.Valid() && n <= |p.raws|
  {
    TallyUpTo(p.codec, p.layout, TextsOf(p.raws), p.kv, n, ReportsUpTo(p, n))
  }

  /** A parse that has read `n` lines of so many bytes has this to show. */
  predicate Stands(p: Pass, n: nat, bytes: nat, t: Tally)
    requires p.layout.Valid() && n <= |p.raws|
  {
    bytes == BytesUpTo(p.meter, p.raws, n) && t == TallyAt(p, n)
  }

  lemma PassStarts(p: Pass)
    requires p.layout.Valid()
    ensures Stands(p, 0, 0, NoLines(p.fileId, p.kv))
  {
  }

  lemma PassNext(p: Pass, i: nat, t: Tally, bytes: nat)
    requires p.layout.Valid() && i < |p.raws| && t == TallyAt(p, i)
    requires bytes == BytesUpTo(p.meter, p.raws, i) + p.meter.len(p.raws[i]) + 1
    ensures BytesUpTo(p.meter, p.raws, i + 1) == bytes
    ensures TallyAt(p, i + 1) ==
            WithLine(t.(reports := t.reports + ReportAt(p.fileId, p.meter, bytes, |t.records|, i)),
                     p.codec, p.layout, TextsOf(p.raws), i)
  {
    TallyNext(p.codec, p.layout, TextsOf(p.raws), p.kv, i, ReportsUpTo(p, i + 1));
  }

  lemma CancelNext(cancelled: nat -> bool, n: nat)
    ensures CancelSeen(cancelled, n + 1) <==> CancelSeen(cancelled, n) || cancelled(n)
  {
  }

  /** A progress report: for the file, and less than a batch ahead of what was sent before it. */
  predicate IsReport(fileId: string, before: seq<Notification>, p: ProgressParams) {
    var n := |RecordsIn(BatchesOf(fileId, before))|;
    p.fileId == fileId && n <= p.recordsSoFar < n + BATCH_SIZE
  }

  ghost predicate HonestReports(fileId: string, sink: seq<Notification>) {
    forall i :: 0 <= i < |sink| && sink[i].Progress? ==> IsReport(fileId, sink[..i], sink[i].progress)
  }

  lemma HonestSnoc(fileId: string, sink: seq<Notification>, note: Notification)
    requires HonestReports(fileId, sink) && (note.Progress? ==> IsReport(fileId, sink, note.progress))
    ensures HonestReports(fileId, sink + [note])
  {
    var longer := sink + [note];
    forall i | 0 <= i < |longer| && longer[i].Progress? ensures IsReport(fileId, longer[..i], longer[i].progress) {
      assert longer[..i] == if i < |sink| then sink[..i] else sink;
    }
  }

  // ---- Sink and buffer as values ------------------------------------------------------------

  /** What was taken in so far, in full batches and the rest. */
  ghost function TakenIn(fileId: string, sink: seq<Notification>, seqNo: nat, buf: seq<Record>, total: nat,
                         notes: Notes): Option<Tally>
  {
    var sent := BatchesOf(fileId, sink);
    if FullBatches(fileId, sent) && seqNo == |sent| && |buf| < BATCH_SIZE && total == |RecordsIn(sent) + buf|
       && HonestReports(fileId, sink)
    then Some(Tally(RecordsIn(sent) + buf, notes, ReportsIn(sink))) else None
  }

  lemma NothingTaken(fileId: string, notes: Notes)
    ensures var first := ProgressParams(fileId, Some(0.0), 0);
            TakenIn(fileId, [Progress(first)], 0, [], 0, notes) == Some(Tally([], notes, [first]))
  {
    var sink := [Progress(ProgressParams(fileId, Some(0.0), 0))];
    assert sink[..0] == [] && sink[1..] == [];
    assert BatchesOf(fileId, sink) == [];
    assert ReportsIn(sink) == [] + ReportIn(sink[0]);
    assert [] + ReportIn(sink[0]) == [sink[0].progress];
  }

  lemma ReportTaken(fileId: string, sink: seq<Notification>, seqNo: nat, buf: seq<Record>, total: nat, notes: Notes,
                    percent: real, t: Tally)
    requires TakenIn(fileId, sink, seqNo, buf, total, notes) == Some(t)
    ensures var report := ProgressParams(fileId, Some(percent), |t.records|);
            TakenIn(fileId, sink + [Progress(report)], seqNo, buf, total, notes) ==
            Some(t.(reports := t.reports + [report]))
  {
    var note := Progress(ProgressParams(fileId, Some(percent), |t.records|));
    HonestSnoc(fileId, sink, note);
    ReportsInSnoc(sink, note);
    BatchesOfSnoc(fileId, sink, note);
    assert BatchesOf(fileId, sink + [note]) == BatchesOf(fileId, sink);
  }

  lemma RecordTaken(fileId: string, sink: seq<Notification>, seqNo: nat, buf: seq<Record>, total: nat, notes: Notes,
                    record: Record, t: Tally)
    requires TakenIn(fileId, sink, seqNo, buf, total, notes) == Some(t) && |buf| + 1 < BATCH_SIZE
    ensures TakenIn(fileId, sink, seqNo, buf + [record], total + 1, notes) ==
            Some(t.(records := t.records + [record]))
  {
    SumAssoc(RecordsIn(BatchesOf(fileId, sink)), buf, [record]);
  }

  lemma BatchTaken(fileId: string, sink: seq<Notification>, seqNo: nat, buf: seq<Record>, total: nat, notes: Notes,
                   record: Record, t: Tally)
    requires TakenIn(fileId, sink, seqNo, buf, total, notes) == Some(t) && |buf| + 1 == BATCH_SIZE
    ensures TakenIn(fileId, sink + [Batch(RecordBatch(fileId, seqNo, buf + [record], false))], seqNo + 1, [],
                    total + 1, notes) == Some(t.(records := t.records + [record]))
  {
    var sent, batch := BatchesOf(fileId, sink), RecordBatch(fileId, seqNo, buf + [record], false);
    HonestSnoc(fileId, sink, Batch(batch));
    ReportsInSnoc(sink, Batch(batch));
    BatchesOfSnoc(fileId, sink, Batch(batch));
    RecordsInSnoc(sent, batch);
    FullSnoc(fileId, sent, batch);
    SumAssoc(RecordsIn(sent), buf, [record]);
    assert RecordsIn(sent + [batch]) + [] == t.records + [record];
  }

  lemma LastTaken(fileId: string, sink: seq<Notification>, seqNo: nat, buf: seq<Record>, total: nat, notes: Notes,
                  t: Tally)
    requires TakenIn(fileId, sink, seqNo, buf, total, notes) == Some(t)
    ensures var all := sink + [Batch(RecordBatch(fileId, seqNo, buf, true))];
            && IsStream(fileId, BatchesOf(fileId, all), t.records) && HonestReports(fileId, all)
            && ReportsIn(all) == t.reports
  {
    var sent, last := BatchesOf(fileId, sink), RecordBatch(fileId, seqNo, buf, true);
    HonestSnoc(fileId, sink, Batch(last));
    ReportsInSnoc(sink, Batch(last));
    BatchesOfSnoc(fileId, sink, Batch(last));
    RecordsInSnoc(sent, last);
    InitOfSnoc(sent, last);
  }

  lemma PartIsTaken(fileId: string, sink: seq<Notification>, seqNo: nat, buf: seq<Record>, total: nat, notes: Notes,
                    part: Tally, whole: Tally)
    requires TakenIn(fileId, sink, seqNo, buf, total, notes) == Some(part)
    requires part.records <= whole.records && part.reports <= whole.reports
    ensures var sent := BatchesOf(fileId, sink);
            && HonestReports(fileId, sink) && FullBatches(fileId, sent)
            && RecordsIn(sent) <= whole.records && ReportsIn(sink) <= whole.reports
  {
  }

  /** The sink and the buffer of a parse. */
  class Parse {
    const fileId: string
    /** Everything sent, in order. */
    var sink: seq<Notification>
    var seqNo: nat
    var buf: seq<Record>
    var total: nat
    var bad: nat
    var badSamples: seq<(nat, RowError)>
    var kv: seq<KvColumn>

    ghost function Taken(): Option<Tally> reads this {
      TakenIn(fileId, sink, seqNo, buf, total, Notes(bad, badSamples, kv))
    }

    /** A parse starts with a report, so that the host sees a sign of life. */
    constructor (fileId: string, kv: seq<KvColumn>)
      ensures Taken() == Some(NoLines(fileId, kv)) && this.fileId == fileId
      ensures sink == [Progress(ProgressParams(fileId, Some(0.0), 0))]
    {
      this.fileId, sink := fileId, [Progress(ProgressParams(fileId, Some(0.0), 0))];
      seqNo, buf, total := 0, [], 0;
      bad, badSamples, this.kv := 0, [], kv;
      NothingTaken(fileId, Notes(0, [], kv));
    }

    /** A heartbeat between two lines. */
    method Report(percent: real, ghost t: Tally)
      requires Taken() == Some(t)
      modifies this`sink
      ensures Taken() == Some(t.(reports := t.reports + [ProgressParams(fileId, Some(percent), |t.records|)]))
      ensures sink == old(sink) + [Progress(ProgressParams(fileId, Some(percent), |t.records|))]
    {
      ReportTaken(fileId, sink, seqNo, buf, total, Notes(bad, badSamples, kv), percent, t);
      sink := sink + [Progress(ProgressParams(fileId, Some(percent), total))];
    }

    method Push(record: Record, ghost t: Tally)
      requires Taken() == Some(t)
      modifies this`sink, this`seqNo, this`buf, this`total
      ensures Taken() == Some(t.(records := t.records + [record]))
    {
      ghost var notes := Notes(bad, badSamples, kv);
      var longer := buf + [record];
      if |longer| >= BATCH_SIZE {
        BatchTaken(fileId, sink, seqNo, buf, total, notes, record, t);
        SendFull(longer);
        buf := [];
      } else {
        RecordTaken(fileId, sink, seqNo, buf, total, notes, record, t);
        buf := longer;
      }
      total := total + 1;
    }

    method SendFull(records: seq<Record>)
      modifies this`sink, this`seqNo
      ensures sink == old(sink) + [Batch(RecordBatch(fileId, old(seqNo), records, false))]
      ensures seqNo == old(seqNo) + 1
    {
      sink := sink + [Batch(RecordBatch(fileId, seqNo, records, false))];
      seqNo := seqNo + 1;
    }

    method PushRow(codec: Codec, layout: Layout, fields: seq<string>, ts: int, raw: Option<string>, ghost t: Tally)
      requires |fields| == |layout.metricIds| && Numeric(codec, layout, fields) && Taken() == Some(t)
      modifies this`sink, this`seqNo, this`buf, this`total
      ensures Taken() == Some(t.(records := t.records + RowRecords(codec, layout, fields, ts, raw, |fields|)))
    {
      assert t.records + [] == t.records;
      for j := 0 to |fields|
        invariant Taken() == Some(t.(records := t.records + RowRecords(codec, layout, fields, ts, raw, j)))
      {
        ghost var row := RowRecords(codec, layout, fields, ts, raw, j);
        var metric := layout.metricIds[j];
        if metric.Some? {
          var record := Record(ts, metric.value, codec.number(fields[j]).value, None, None, raw);
          Push(record, t.(records := t.records + row));
          SumAssoc(t.records, row, [record]);
        }
      }
    }

    /** The cells of a good row for the text columns. */
    method SampleRow(codec: Codec, fields: seq<string>, ts: int, ghost t: Tally)
      requires Taken() == Some(t)
      modifies this`kv
      ensures Taken() == Some(t.(notes := t.notes.(kv := KvRow(codec, t.notes.kv, fields, ts))))
    {
      SampleColumns(codec, fields, ts);
    }

    method SampleColumns(codec: Codec, fields: seq<string>, ts: int)
      modifies this`kv
      ensures kv == KvRow(codec, old(kv), fields, ts)
    {
      ghost var columns := kv;
      for c := 0 to |kv|
        invariant |kv| == |columns|
        invariant forall k :: 0 <= k < |kv| ==>
                    kv[k] == if k < c then KvCell(codec, columns[k], fields, ts) else columns[k]
      {
        var column := kv[c];
        if column.valid && column.idx < |fields| {
          var v := codec.unquote(fields[column.idx]);
          if v != "" {
            kv := kv[c := Sampled(column, Sample(ts, v))];
          }
        }
      }
      assert kv == KvRow(codec, columns, fields, ts);
    }

    method PushBad(lineNo: nat, e: RowError, ghost t: Tally)
      requires Taken() == Some(t)
      modifies this`bad, this`badSamples
      ensures Taken() == Some(t.(notes := WithBad(t.notes, lineNo, e)))
    {
      bad := bad + 1;
      if |badSamples| < BAD_SAMPLES {
        badSamples := badSamples + [(lineNo, e)];
      }
    }

    /** One line: skipped, counted as bad, or turned into its records and samples. */
    method PushLine(codec: Codec, layout: Layout, line: string, i: nat, ghost lines: seq<string>, ghost t: Tally)
      requires layout.Valid() && i < |lines| && lines[i] == line && Taken() == Some(t)
      modifies this
      ensures Taken() == Some(WithLine(t, codec, layout, lines, i))
    {
      assert t.records + [] == t.records;
      if line == "" || (layout.hasHeader && i == 0) {
        return;
      }
      var fields := Fields(layout, line);
      match RowTs(codec, layout, fields)
      case Ok(ts) =>
        var raw := if (i + 1) % RAW_LINE_SAMPLE == 0 then Some(line) else None;
        PushRow(codec, layout, fields, ts, raw, t);
        SampleRow(codec, fields, ts, t.(records := t.records + RowRecords(codec, layout, fields, ts, raw, |fields|)));
      case Err(e) =>
        PushBad(i + 1, e, t);
    }

    /** One raw line, behind the report that is due in front of it. */
    method PushRaw(p: Pass, bytes: nat, i: nat, ghost t: Tally)
      requires p.layout.Valid() && i < |p.raws| && p.fileId == fileId && Taken() == Some(t)
      modifies this
      ensures Taken() == Some(WithLine(t.(reports := t.reports + ReportAt(fileId, p.meter, bytes, |t.records|, i)),
                                       p.codec, p.layout, TextsOf(p.raws), i))
    {
      ghost var reports := ReportAt(fileId, p.meter, bytes, |t.records|, i);
      if (i + 1) % REPORT_LINES == 0 || p.meter.late(i) {
        Report(p.meter.Percent(bytes), t);
      } else {
        assert t.reports + [] == t.reports;
      }
      PushLine(p.codec, p.layout, TextOf(p.raws[i]), i, TextsOf(p.raws), t.(reports := t.reports + reports));
    }

    /** The last batch goes out even when it is empty. */
    method Close(ghost t: Tally)
      requires Taken() == Some(t)
      modifies this`sink
      ensures IsStream(fileId, BatchesOf(fileId, sink), t.records) && HonestReports(fileId, sink)
      ensures ReportsIn(sink) == t.reports
    {
      LastTaken(fileId, sink, seqNo, buf, total, Notes(bad, badSamples, kv), t);
      sink := sink + [Batch(RecordBatch(fileId, seqNo, buf, true))];
    }

    method PushNext(p: Pass, bytes: nat, i: nat) returns (more: nat)
      requires p.layout.Valid() && i < |p.raws| && p.fileId == fileId
      requires Taken().Some? && Stands(p, i, bytes, Taken().value)
      modifies this
      ensures Taken().Some? && Stands(p, i + 1, more, Taken().value)
    {
      ghost var t := TallyAt(p, i);
      more := bytes + p.meter.len(p.raws[i]) + 1;
      PushRaw(p, more, i, t);
      PassNext(p, i, t, more);
    }

    /** Streams the lines up to the first one that the flag stops, with a progress report in
        front of every 20000th line and wherever the clock asks for one. `cancelled(i)` is what
        the flag says in front of line `i`. */
    method StreamLines(p: Pass, cancelled: nat -> bool) returns (read: nat)
      requires p.layout.Valid() && p.fileId == fileId && p.kv == kv && Taken() == Some(NoLines(fileId, kv))
      modifies this
      ensures read <= |p.raws| && Taken() == Some(TallyAt(p, read))
      ensures !CancelSeen(cancelled, read) && (read < |p.raws| ==> cancelled(read))
    {
      PassStarts(p);
      var bytesRead: nat := 0;
      read := 0;
      while read < |p.raws| && !cancelled(read)
        invariant read <= |p.raws| && Taken().Some? && Stands(p, read, bytesRead, Taken().value)
        invariant !CancelSeen(cancelled, read)
      {
        bytesRead := PushNext(p, bytesRead, read);
        CancelNext(cancelled, read);
        read := read + 1;
      }
    }

    /** The whole pass over the raw lines. */
    method Run(p: Pass, cancelled: nat -> bool) returns (r: Result<nat, ()>)
      requires p.layout.Valid() && p.fileId == fileId && p.kv == kv && Taken() == Some(NoLines(fileId, kv))
      modifies this
      ensures HonestReports(fileId, sink)
      ensures r.Err? <==> CancelSeen(cancelled, |p.raws|)
      ensures var t, sent := TallyAt(p, |p.raws|), BatchesOf(fileId, sink);
              match r
              case Err(_) => FullBatches(fileId, sent) && RecordsIn(sent) <= t.records && ReportsIn(sink) <= t.reports
              case Ok(n) =>
                && IsStream(fileId, sent, t.records) && n == |t.records|
                && Notes(bad, badSamples, kv) == t.notes && ReportsIn(sink) == t.reports
    {
      var read := StreamLines(p, cancelled);
      if read < |p.raws| {
        CutShort(p, read, TallyAt(p, read), TallyAt(p, |p.raws|));
        PartIsTaken(fileId, sink, seqNo, buf, total, Notes(bad, badSamples, kv), TallyAt(p, read),
                    TallyAt(p, |p.raws|));
        return Err(());
      }
      Close(TallyAt(p, |p.raws|));
      r := Ok(total);
    }
  }

  // ---- The reports of a pass ------------------------------------------------------------------

  lemma {:induction false} ReportsArePrefix(fileId: string, meter: Meter, bytes: nat -> nat, records: nat -> nat,
                                            i: nat, n: nat)
    requires i <= n
    ensures Reports(fileId, meter, bytes, records, i) <= Reports(fileId, meter, bytes, records, n)
  {
    if i < n {
      ReportsArePrefix(fileId, meter, bytes, records, i, n - 1);
    }
  }

  lemma CutShort(p: Pass, i: nat, part: Tally, whole: Tally)
    requires p.layout.Valid() && i <= |p.raws| && part == TallyAt(p, i) && whole == TallyAt(p, |p.raws|)
    ensures part.records <= whole.records && part.reports <= whole.reports
  {
    UpToIsPrefix(p.codec, p.layout, TextsOf(p.raws), i, |p.raws|);
    ReportsArePrefix(p.fileId, p.meter, BytesAfter(p), RecordsAfter(p), i, |p.raws|);
  }

  // ---- The notes of a pass --------------------------------------------------------------------

  lemma {:induction false} BadIsCounted(codec: Codec, layout: Layout, lines: seq<string>, kv: seq<KvColumn>, n: nat)
    requires layout.Valid() && n <= |lines|
    ensures NotesUpTo(codec, layout, lines, kv, n).bad == BadRows(codec, layout, lines, n)
    ensures |NotesUpTo(codec, layout, lines, kv, n).samples| ==
            if BadRows(codec, layout, lines, n) < BAD_SAMPLES then BadRows(codec, layout, lines, n) else BAD_SAMPLES
  {
    if n > 0 {
      BadIsCounted(codec, layout, lines, kv, n - 1);
    }
  }

  /** The cell of line `i` in column `idx` with its time, if the line is a good row with text there. */
  function CellIn(codec: Codec, layout: Layout, lines: seq<string>, idx: nat, i: nat): seq<Sample>
    requires layout.Valid() && i < |lines|
  {
    var fields := Fields(layout, lines[i]);
    if Skipped(layout, lines, i) || RowTs(codec, layout, fields).Err? || idx >= |fields|
       || codec.unquote(fields[idx]) == "" then []
    else [Sample(RowTs(codec, layout, fields).value, codec.unquote(fields[idx]))]
  }

  function CellsIn(codec: Codec, layout: Layout, lines: seq<string>, idx: nat, n: nat): seq<Sample>
    requires layout.Valid() && n <= |lines|
  {
    if n == 0 then [] else CellsIn(codec, layout, lines, idx, n - 1) + CellIn(codec, layout, lines, idx, n - 1)
  }

  lemma SampledNext(c: KvColumn, cells: seq<Sample>, more: seq<Sample>)
    requires |more| <= 1
    ensures SampledAll(c, cells + more) ==
            if more == [] then SampledAll(c, cells) else Sampled(SampledAll(c, cells), more[0])
  {
    if more == [] {
      assert cells + more == cells;
    } else {
      InitOfSnoc(cells, more[0]);
    }
  }

  lemma CellIsSampled(codec: Codec, layout: Layout, lines: seq<string>, idx: nat, i: nat, before: Notes, c: nat)
    requires layout.Valid() && i < |lines| && c < |before.kv| && before.kv[c].idx == idx
    ensures var after, cell := NotesAfter(before, codec, layout, lines, i), CellIn(codec, layout, lines, idx, i);
            && |after.kv| == |before.kv| && |cell| <= 1
            && after.kv[c] == if cell == [] then before.kv[c] else Sampled(before.kv[c], cell[0])
  {
  }

  lemma {:induction false} NotesSample(codec: Codec, layout: Layout, lines: seq<string>, kv: seq<KvColumn>, n: nat,
                                       c: nat, after: Notes, cells: seq<Sample>)
    requires layout.Valid() && n <= |lines| && c < |kv|
    requires after == NotesUpTo(codec, layout, lines, kv, n)
    requires cells == CellsIn(codec, layout, lines, kv[c].idx, n)
    ensures |after.kv| == |kv| && after.kv[c].idx == kv[c].idx && after.kv[c] == SampledAll(kv[c], cells)
  {
    if n > 0 {
      var idx := kv[c].idx;
      var before, cell := NotesUpTo(codec, layout, lines, kv, n - 1), CellIn(codec, layout, lines, idx, n - 1);
      NotesSample(codec, layout, lines, kv, n - 1, c, before, CellsIn(codec, layout, lines, idx, n - 1));
      CellIsSampled(codec, layout, lines, idx, n - 1, before, c);
      SampledNext(kv[c], CellsIn(codec, layout, lines, idx, n - 1), cell);
    }
  }

  /** A text column has sampled exactly its own cells on the good rows, in file order. */
  lemma ColumnsSampleTheirCells(codec: Codec, layout: Layout, lines: seq<string>, kv: seq<KvColumn>, n: nat, c: nat)
    requires layout.Valid() && n <= |lines| && c < |kv|
    ensures var after := NotesUpTo(codec, layout, lines, kv, n).kv;
            && |after| == |kv| && after[c].idx == kv[c].idx
            && after[c] == SampledAll(kv[c], CellsIn(codec, layout, lines, kv[c].idx, n))
  {
    NotesSample(codec, layout, lines, kv, n, c, NotesUpTo(codec, layout, lines, kv, n),
                CellsIn(codec, layout, lines, kv[c].idx, n));
  }

  /** After a first parse `key_values` answers for a column exactly while it has at most ten
      different texts. The answer is the newest text at every instant exactly if there are at
      most 5000 cells and every cell that an earlier time follows comes once more behind it. */
  lemma KeyValuesIff(codec: Codec, layout: Layout, lines: seq<string>, kv: seq<KvColumn>, c: nat)
    requires layout.Valid() && c < |kv| && kv[c] == NewColumn(kv[c].idx)
    ensures var after := NotesUpTo(codec, layout, lines, kv, |lines|).kv;
            var cells := CellsIn(codec, layout, lines, kv[c].idx, |lines|);
            && |after| == |kv|
            && (after[c].valid <==> |ValuesOf(cells)| <= CARDINALITY_LIMIT)
            && (after[c].valid ==>
                  (FindsNewest(after[c].samples, cells) <==> |cells| <= SAMPLE_LIMIT && TimesRecur(cells)))
  {
    ColumnsSampleTheirCells(codec, layout, lines, kv, |lines|, c);
    var cells := CellsIn(codec, layout, lines, kv[c].idx, |lines|);
    ColumnHolds(kv[c].idx, cells);
    if NotesUpTo(codec, layout, lines, kv, |lines|).kv[c].valid {
      ShowsNewestIff(kv[c].idx, cells);
    }
  }

  lemma {:induction false} UpToIsPrefix(codec: Codec, layout: Layout, lines: seq<string>, i: nat, n: nat)
    requires layout.Valid() && i <= n <= |lines|
    ensures RecordsUpTo(codec, layout, lines, i) <= RecordsUpTo(codec, layout, lines, n)
  {
    if i < n {
      UpToIsPrefix(codec, layout, lines, i, n - 1);
    }
  }

  /** A complete stream: full batches, then one last batch with the rest, holding `rs` in all. */
  predicate IsStream(fileId: string, sent: seq<RecordBatch>, rs: seq<Record>) {
    && sent != []
    && FullBatches(fileId, sent[..|sent| - 1])
    && var last := sent[|sent| - 1];
    && last.fileId == fileId && last.seqNo == |sent| - 1 && last.done && |last.records| < BATCH_SIZE
    && RecordsIn(sent) == rs
  }

  lemma {:induction false} FullBatchesHold(fileId: string, batches: seq<RecordBatch>)
    requires FullBatches(fileId, batches)
    ensures |RecordsIn(batches)| == 4000 * |batches|
  {
    if batches != [] {
      FullBatchesHold(fileId, batches[..|batches| - 1]);
    }
  }

  /** The number of records says how many batches there are: a full one for every 4000, and the
      last one with the rest, which may be none. */
  lemma StreamHasBatches(fileId: string, sent: seq<RecordBatch>, rs: seq<Record>)
    requires IsStream(fileId, sent, rs)
    ensures |sent| == |rs| / 4000 + 1 && |sent[|sent| - 1].records| == |rs| % 4000
  {
    FullBatchesHold(fileId, sent[..|sent| - 1]);
  }

  // ---- Agreement of the two passes ----------------------------------------------------------------

  lemma {:induction false} RowLength(codec: Codec, layout: Layout, fields: seq<string>, ts: int,
                                     raw: Option<string>, j: nat)
    requires |fields| == |layout.metricIds| && Numeric(codec, layout, fields) && j <= |fields|
    ensures |RowRecords(codec, layout, fields, ts, raw, j)| == MetricCount(layout.metricIds[..j])
  {
    if j > 0 {
      RowLength(codec, layout, fields, ts, raw, j - 1);
      TakeSnoc(layout.metricIds, j - 1);
    }
  }

  /** Rows the parse pass takes for data. */
  function ParsedRows(codec: Codec, layout: Layout, lines: seq<string>, n: nat): nat
    requires layout.Valid() && n <= |lines|
  {
    if n == 0 then 0 else
      ParsedRows(codec, layout, lines, n - 1)
      + if !Skipped(layout, lines, n - 1) && Good(codec, layout, lines[n - 1]) then 1 else 0
  }

  lemma LineLength(codec: Codec, layout: Layout, lines: seq<string>, i: nat)
    requires layout.Valid() && i < |lines|
    ensures |LineRecords(codec, layout, lines, i)| ==
            if !Skipped(layout, lines, i) && Good(codec, layout, lines[i]) then MetricCount(layout.metricIds) else 0
  {
    if !Skipped(layout, lines, i) && Good(codec, layout, lines[i]) {
      var fields := Fields(layout, lines[i]);
      TakeAll(layout.metricIds);
      RowLength(codec, layout, fields, RowTs(codec, layout, fields).value,
                if (i + 1) % RAW_LINE_SAMPLE == 0 then Some(lines[i]) else None, |fields|);
    }
  }

  lemma {:induction false} RecordsPerRow(codec: Codec, layout: Layout, lines: seq<string>, n: nat, metrics: nat)
    requires layout.Valid() && n <= |lines| && metrics == MetricCount(layout.metricIds)
    ensures |RecordsUpTo(codec, layout, lines, n)| == Times(ParsedRows(codec, layout, lines, n), metrics)
  {
    if n > 0 {
      RecordsPerRow(codec, layout, lines, n - 1, metrics);
      LineLength(codec, layout, lines, n - 1);
    }
  }

  function Times(a: nat, b: nat): nat {
    if a == 0 then 0 else Times(a - 1, b) + b
  }

  lemma {:induction false} TimesIsProduct(a: nat, b: nat)
    ensures Times(a, b) == a * b
  {
    if a > 0 {
      TimesIsProduct(a - 1, b);
      TimesNext(a - 1, b);
    }
  }

  lemma TimesNext(a: nat, b: nat)
    ensures a * b + b == (a + 1) * b
  {
  }

  /** The parse pass takes a header that is not on line 1 for a data row. */
  predicate HeaderParsed(codec: Codec, layout: Layout, lines: seq<string>)
    requires layout.Valid()
  {
    var first := FirstLine(lines);
    layout.hasHeader && 0 < first < |lines| && Good(codec, layout, lines[first])
  }

  lemma {:induction false} RowsOfBothPasses(codec: Codec, layout: Layout, lines: seq<string>, n: nat)
    requires layout.Valid() && n <= |lines|
    ensures var first, start := FirstLine(lines), DataStart(layout, lines);
            ParsedRows(codec, layout, lines, n) ==
            (if n <= start then 0 else GoodRows(codec, layout, lines, start, n))
            + if HeaderParsed(codec, layout, lines) && first < n then 1 else 0
  {
    if n > 0 {
      RowsOfBothPasses(codec, layout, lines, n - 1);
    }
  }

  /** The parse pass emits exactly what the load pass announced, unless a header that is not on
      the first line reads as a good row and there is a metric column. */
  lemma PassesAgreeIff(codec: Codec, layout: Layout, lines: seq<string>, a: Announcement)
    requires layout.Valid()
    requires Announced(a.recordCountHint) ==
             GoodRows(codec, layout, lines, DataStart(layout, lines), |lines|) * MetricCount(layout.metricIds)
    ensures |RecordsUpTo(codec, layout, lines, |lines|)| == Announced(a.recordCountHint)
            <==> !(HeaderParsed(codec, layout, lines) && MetricCount(layout.metricIds) > 0)
  {
    RecordsPerRow(codec, layout, lines, |lines|, MetricCount(layout.metricIds));
    TimesIsProduct(ParsedRows(codec, layout, lines, |lines|), MetricCount(layout.metricIds));
    RowsOfBothPasses(codec, layout, lines, |lines|);
    TimesNext(GoodRows(codec, layout, lines, DataStart(layout, lines), |lines|), MetricCount(layout.metricIds));
  }

  lemma {:induction false} SomeMetric(ids: seq<Option<string>>) returns (j: nat)
    requires MetricCount(ids) > 0
    ensures j < |ids| && ids[j].Some?
  {
    if ids[|ids| - 1].Some? {
      j := |ids| - 1;
    } else {
      j := SomeMetric(ids[..|ids| - 1]);
    }
  }

  /** A header without a numeric cell, as automatic detection demands, never spoils the
      agreement. */
  lemma TextHeaderAgrees(codec: Codec, layout: Layout, lines: seq<string>, a: Announcement)
    requires layout.Valid()
    requires Announced(a.recordCountHint) ==
             GoodRows(codec, layout, lines, DataStart(layout, lines), |lines|) * MetricCount(layout.metricIds)
    requires FirstLine(lines) < |lines| ==>
               forall f :: f in Fields(layout, lines[FirstLine(lines)]) ==> codec.number(f).None?
    ensures |RecordsUpTo(codec, layout, lines, |lines|)| == Announced(a.recordCountHint)
  {
    PassesAgreeIff(codec, layout, lines, a);
    if HeaderParsed(codec, layout, lines) && MetricCount(layout.metricIds) > 0 {
      var j := SomeMetric(layout.metricIds);
      assert Fields(layout, lines[FirstLine(lines)])[j] in Fields(layout, lines[FirstLine(lines)]);
    }
  }

  /** A configured header behind an empty line that reads as numbers is emitted as data. */
  lemma HeaderOffLineOne() returns (codec: Codec, layout: Layout, lines: seq<string>)
    ensures layout.Valid() && lines == ["", "1,2", "3,4"]
    ensures HeaderParsed(codec, layout, lines) && MetricCount(layout.metricIds) > 0
  {
    codec := Codec(_ => Some(0), _ => Some(1.0), (s: string) => s);
    layout := Layout(',', true, Some(0), [None, Some("m")]);
    lines := ["", "1,2", "3,4"];
    var cells := [Cell("1", false), Cell("2", false)];
    assert PrintLine(',', cells[1..]) == "2";
    assert PrintLine(',', cells) == "1,2";
    SplitUndoesPrint(BuiltinCsv, ',', cells);
    assert Texts(cells[1..]) == ["2"] + Texts(cells[1..][1..]);
    assert |Fields(layout, "1,2")| == 2;
    assert FirstLine(lines[1..]) == 0;
  }

  // ---- Points of a metric ------------------------------------------------------------------------

  /** The (time stamp, value) pairs of metric `m` in one good row, up to column `j`. */
  function RowPoints(codec: Codec, layout: Layout, fields: seq<string>, ts: int, m: string, j: nat): seq<Point>
    requires |fields| == |layout.metricIds| && Numeric(codec, layout, fields) && j <= |fields|
  {
    if j == 0 then [] else
      var rest := RowPoints(codec, layout, fields, ts, m, j - 1);
      if layout.metricIds[j - 1] == Some(m) then rest + [Point(ts, codec.number(fields[j - 1]).value, None, None)]
      else rest
  }

  function LinePoints(codec: Codec, layout: Layout, lines: seq<string>, m: string, i: nat): seq<Point>
    requires layout.Valid() && i < |lines|
  {
    var fields := Fields(layout, lines[i]);
    if Skipped(layout, lines, i) || RowTs(codec, layout, fields).Err? then []
    else RowPoints(codec, layout, fields, RowTs(codec, layout, fields).value, m, |fields|)
  }

  /** The same for all good rows among the first `n` lines. */
  function PointsIn(codec: Codec, layout: Layout, lines: seq<string>, m: string, n: nat): seq<Point>
    requires layout.Valid() && n <= |lines|
  {
    if n == 0 then [] else PointsIn(codec, layout, lines, m, n - 1) + LinePoints(codec, layout, lines, m, n - 1)
  }

  lemma PointsSnoc(wl: set<string>, rs: seq<Record>, r: Record, m: string)
    ensures Bare(Points(wl, rs + [r], m)) ==
            Bare(Points(wl, rs, m)) + if r.metric == m && m in wl then [Point(r.timestamp, r.value, None, None)] else []
  {
    InitOfSnoc(rs, r);
    if r.metric == m && m in wl {
      BareSum(Points(wl, rs, m), [PointOf(wl, rs, r)]);
    }
  }

  lemma RecordIsStored(wl: set<string>, before: seq<Record>, row: seq<Record>, r: Record, m: string, ps: seq<Point>)
    requires Bare(Points(wl, before + row, m)) == Bare(Points(wl, before, m)) + ps
    ensures Bare(Points(wl, before + (row + [r]), m)) ==
            Bare(Points(wl, before, m))
            + if r.metric == m && m in wl then ps + [Point(r.timestamp, r.value, None, None)] else ps
  {
    SumAssoc(before, row, [r]);
    PointsSnoc(wl, before + row, r, m);
    SumAssoc(Bare(Points(wl, before, m)), ps, [Point(r.timestamp, r.value, None, None)]);
  }

  lemma {:induction false} RowIsStored(codec: Codec, layout: Layout, fields: seq<string>, ts: int, raw: Option<string>,
                                       m: string, j: nat, wl: set<string>, before: seq<Record>)
    requires |fields| == |layout.metricIds| && Numeric(codec, layout, fields) && j <= |fields| && Declared(layout, wl)
    ensures Bare(Points(wl, before + RowRecords(codec, layout, fields, ts, raw, j), m)) ==
            Bare(Points(wl, before, m)) + RowPoints(codec, layout, fields, ts, m, j)
  {
    if j == 0 {
      assert before + [] == before;
    } else {
      RowIsStored(codec, layout, fields, ts, raw, m, j - 1, wl, before);
      var id := layout.metricIds[j - 1];
      if id.Some? {
        var r := Record(ts, id.value, codec.number(fields[j - 1]).value, None, None, raw);
        RecordIsStored(wl, before, RowRecords(codec, layout, fields, ts, raw, j - 1), r, m,
                       RowPoints(codec, layout, fields, ts, m, j - 1));
      }
    }
  }

  lemma LineIsStored(codec: Codec, layout: Layout, lines: seq<string>, m: string, i: nat, wl: set<string>,
                     before: seq<Record>)
    requires layout.Valid() && i < |lines| && Declared(layout, wl)
    ensures Bare(Points(wl, before + LineRecords(codec, layout, lines, i), m)) ==
            Bare(Points(wl, before, m)) + LinePoints(codec, layout, lines, m, i)
  {
    var fields := Fields(layout, lines[i]);
    if Skipped(layout, lines, i) || RowTs(codec, layout, fields).Err? {
      assert before + [] == before;
    } else {
      RowIsStored(codec, layout, fields, RowTs(codec, layout, fields).value,
                  if (i + 1) % RAW_LINE_SAMPLE == 0 then Some(lines[i]) else None, m, |fields|, wl, before);
    }
  }

  lemma {:induction false} RowsAreStored(codec: Codec, layout: Layout, lines: seq<string>, m: string, n: nat,
                                         wl: set<string>, rs: seq<Record>, ps: seq<Point>)
    requires layout.Valid() && n <= |lines| && Declared(layout, wl)
    requires rs == RecordsUpTo(codec, layout, lines, n) && ps == PointsIn(codec, layout, lines, m, n)
    ensures Bare(Points(wl, rs, m)) == ps
  {
    if n > 0 {
      var before, stored := RecordsUpTo(codec, layout, lines, n - 1), PointsIn(codec, layout, lines, m, n - 1);
      RowsAreStored(codec, layout, lines, m, n - 1, wl, before, stored);
      LineIsStored(codec, layout, lines, m, n - 1, wl, before);
    }
  }

  /** What the ledger holds of the parsed records are the pairs of the good rows. */
  lemma PointsAreThoseOfTheRows(codec: Codec, layout: Layout, lines: seq<string>, m: string, n: nat, wl: set<string>)
    requires layout.Valid() && n <= |lines| && Declared(layout, wl)
    ensures Bare(Points(wl, RecordsUpTo(codec, layout, lines, n), m)) == PointsIn(codec, layout, lines, m, n)
  {
    RowsAreStored(codec, layout, lines, m, n, wl, RecordsUpTo(codec, layout, lines, n),
                  PointsIn(codec, layout, lines, m, n));
  }

  // ---- Acceptance by the store ---------------------------------------------------------------------

  predicate Declared(layout: Layout, wl: set<string>) {
    forall j :: 0 <= j < |layout.metricIds| && layout.metricIds[j].Some? ==> layout.metricIds[j].value in wl
  }

  lemma {:induction false} RowIsDeclared(codec: Codec, layout: Layout, fields: seq<string>, ts: int,
                                         raw: Option<string>, j: nat, wl: set<string>)
    requires |fields| == |layout.metricIds| && Numeric(codec, layout, fields) && j <= |fields| && Declared(layout, wl)
    ensures forall r :: r in RowRecords(codec, layout, fields, ts, raw, j) ==> r.metric in wl
  {
    if j > 0 {
      RowIsDeclared(codec, layout, fields, ts, raw, j - 1, wl);
    }
  }

  lemma {:induction false} RecordsAreDeclared(codec: Codec, layout: Layout, lines: seq<string>, n: nat, wl: set<string>)
    requires layout.Valid() && n <= |lines| && Declared(layout, wl)
    ensures forall r :: r in RecordsUpTo(codec, layout, lines, n) ==> r.metric in wl
  {
    if n > 0 {
      RecordsAreDeclared(codec, layout, lines, n - 1, wl);
      var fields := Fields(layout, lines[n - 1]);
      if !Skipped(layout, lines, n - 1) && RowTs(codec, layout, fields).Ok? {
        RowIsDeclared(codec, layout, fields, RowTs(codec, layout, fields).value,
                      if n % RAW_LINE_SAMPLE == 0 then Some(lines[n - 1]) else None, |fields|, wl);
      }
    }
  }

  lemma {:induction false} NoneUndeclared(wl: set<string>, rs: seq<Record>)
    requires forall r :: r in rs ==> r.metric in wl
    ensures Undeclared(wl, rs) == 0
  {
    if rs != [] {
      NoneUndeclared(wl, rs[..|rs| - 1]);
    }
  }

  lemma StreamIsNumbered(fileId: string, sent: seq<RecordBatch>, rs: seq<Record>)
    requires IsStream(fileId, sent, rs)
    ensures AllFor(fileId, sent) && Numbered(sent)
  {
    forall i | 0 <= i < |sent| ensures sent[i].fileId == fileId && sent[i].seqNo == i {
      assert i < |sent| - 1 ==> sent[..|sent| - 1][i] == sent[i];
    }
  }

  /** A store that registered the metrics of the load pass takes the whole stream, drops
      nothing as undeclared and freezes on the total that the parse returned. */
  lemma StoreTakesStream(codec: Codec, layout: Layout, lines: seq<string>, fileId: string,
                         sent: seq<RecordBatch>, wl: set<string>)
    requires layout.Valid() && Declared(layout, wl)
    requires IsStream(fileId, sent, RecordsUpTo(codec, layout, lines, |lines|))
    ensures var rs := RecordsUpTo(codec, layout, lines, |lines|);
            var log := Appended(fileId, EMPTY_LOG, sent);
            && log == Ok(Store.FileLog(Store.Ingesting, |sent|, rs))
            && Undeclared(wl, rs) == 0
            && Store.FreezeLog(fileId, log.value, |rs|).Ok?
  {
    StreamIsNumbered(fileId, sent, RecordsUpTo(codec, layout, lines, |lines|));
    StoreTakesNumbered(fileId, sent);
    RecordsAreDeclared(codec, layout, lines, |lines|, wl);
    NoneUndeclared(wl, RecordsUpTo(codec, layout, lines, |lines|));
  }
}
