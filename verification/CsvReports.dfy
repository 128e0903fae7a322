/** What the progress reports of a CSV parse tell (plugins/builtin-csv/src/engine.rs). */
module CsvReports {
  import opened Protocol
  import opened Common
  import opened CsvEngine

  /** Every report shows more bytes read and no fewer records than the one before it. */
  ghost predicate Ascending(rs: seq<ProgressParams>) {
    && (forall k :: 0 <= k < |rs| ==> rs[k].percent.Some?)
    && (forall j, k :: 0 <= j < k < |rs| ==>
          rs[j].percent.value < rs[k].percent.value && rs[j].recordsSoFar <= rs[k].recordsSoFar)
  }

  lemma AscendingSnoc(rs: seq<ProgressParams>, p: ProgressParams)
    requires rs != [] && Ascending(rs) && p.percent.Some?
    requires var last := rs[|rs| - 1];
             last.percent.value < p.percent.value && last.recordsSoFar <= p.recordsSoFar
    ensures Ascending(rs + [p])
  {
    var last := |rs| - 1;
    forall j | 0 <= j < |rs|
      ensures rs[j].percent.value < p.percent.value && rs[j].recordsSoFar <= p.recordsSoFar
    {
      assert j == last || rs[j].percent.value < rs[last].percent.value;
    }
  }

  lemma SharesGrow(a: real, b: real, size: real)
    requires size > 0.0
    ensures a < b <==> a / size * 100.0 < b / size * 100.0
    ensures 0.0 / size * 100.0 == 0.0 && size / size * 100.0 == 100.0
  {
    assert a == a / size * size && b == b / size * size;
  }

  lemma PercentGrows(meter: Meter, a: nat, b: nat)
    ensures a < b <==> meter.Percent(a) < meter.Percent(b)
    ensures meter.Percent(0) == 0.0 && meter.Percent(meter.Size()) == 100.0
  {
    SharesGrow(a as real, b as real, meter.Size() as real);
  }

  /** Reports in order, after `n` lines with a share of the bytes and a number of records. */
  ghost predicate Paced(fileId: string, n: nat, rs: seq<ProgressParams>, share: real, records: nat) {
    && rs != [] && Ascending(rs) && rs[0] == ProgressParams(fileId, Some(0.0), 0)
    && n < |rs| * REPORT_LINES
    && rs[|rs| - 1].percent.value <= share && rs[|rs| - 1].recordsSoFar <= records
  }

  lemma PacedNext(fileId: string, n: nat, rs: seq<ProgressParams>, share: real, records: nat,
                  report: seq<ProgressParams>, more: real, after: nat)
    requires Paced(fileId, n, rs, share, records) && share < more && records <= after
    requires report == [ProgressParams(fileId, Some(more), records)] || (report == [] && (n + 1) % REPORT_LINES != 0)
    ensures Paced(fileId, n + 1, rs + report, more, after)
  {
    if report != [] {
      AscendingSnoc(rs, report[0]);
    }
  }

  /** Lines add bytes and take no records away. */
  ghost predicate Climbs(bytes: nat -> nat, records: nat -> nat, n: nat) {
    forall k: nat :: k < n ==> bytes(k) < bytes(k + 1) && records(k) <= records(k + 1)
  }

  lemma {:induction false} ReportsClimb(fileId: string, meter: Meter, bytes: nat -> nat, records: nat -> nat, n: nat)
    requires Climbs(bytes, records, n)
    ensures Paced(fileId, n, Reports(fileId, meter, bytes, records, n), meter.Percent(bytes(n)), records(n))
  {
    if n == 0 {
      NothingReported(fileId, meter, bytes(0), records(0));
    } else {
      var k := n - 1;
      ReportsClimb(fileId, meter, bytes, records, k);
      assert bytes(k) < bytes(k + 1) && records(k) <= records(k + 1);
      PercentGrows(meter, bytes(k), bytes(n));
      PacedNext(fileId, k, Reports(fileId, meter, bytes, records, k), meter.Percent(bytes(k)), records(k),
                ReportAt(fileId, meter, bytes(n), records(k), k), meter.Percent(bytes(n)), records(n));
    }
  }

  lemma NothingReported(fileId: string, meter: Meter, bytes: nat, records: nat)
    ensures Paced(fileId, 0, [ProgressParams(fileId, Some(0.0), 0)], meter.Percent(bytes), records)
  {
    PercentGrows(meter, 0, bytes);
  }

  lemma LineClimbs(p: Pass, k: nat)
    requires p.layout.Valid() && k < |p.raws|
    ensures BytesAfter(p)(k) < BytesAfter(p)(k + 1) && RecordsAfter(p)(k) <= RecordsAfter(p)(k + 1)
  {
  }

  /** There is a report for every 20000 lines, bytes and records only grow, and the first report
      says that nothing was read. */
  lemma ReportsKeepPace(p: Pass, n: nat)
    requires p.layout.Valid() && n <= |p.raws|
    ensures Paced(p.fileId, n, ReportsUpTo(p, n), p.meter.Percent(BytesAfter(p)(n)), RecordsAfter(p)(n))
  {
    forall k: nat | k < n
      ensures BytesAfter(p)(k) < BytesAfter(p)(k + 1) && RecordsAfter(p)(k) <= RecordsAfter(p)(k + 1)
    {
      LineClimbs(p, k);
    }
    ReportsClimb(p.fileId, p.meter, BytesAfter(p), RecordsAfter(p), n);
  }

  lemma {:induction false} BytesGrow(meter: Meter, raws: seq<string>, i: nat, n: nat)
    requires i < n <= |raws|
    ensures BytesUpTo(meter, raws, i) < BytesUpTo(meter, raws, n)
  {
    if i < n - 1 {
      BytesGrow(meter, raws, i, n - 1);
    }
  }

  /** As long as a line is unread no report shows more than 100. */
  lemma WithinHundred(p: Pass, n: nat, rs: seq<ProgressParams>)
    requires p.layout.Valid() && n < |p.raws| && rs == ReportsUpTo(p, n)
    requires p.meter.contentBytes + 1 == BytesUpTo(p.meter, p.raws, |p.raws|)
    ensures forall k :: 0 <= k < |rs| ==> rs[k].percent.Some? && rs[k].percent.value <= 100.0
  {
    var bytes := BytesUpTo(p.meter, p.raws, n);
    ReportsKeepPace(p, n);
    BytesGrow(p.meter, p.raws, n, |p.raws|);
    PercentGrows(p.meter, p.meter.Size(), bytes);
    assert forall k :: 0 <= k < |rs| ==> k == |rs| - 1 || rs[k].percent.value < rs[|rs| - 1].percent.value;
  }

  lemma LastPassesHundredIff(before: seq<ProgressParams>, report: seq<ProgressParams>)
    requires forall k :: 0 <= k < |before| ==> before[k].percent.Some? && before[k].percent.value <= 100.0
    requires |report| <= 1 && (report != [] ==> report[0].percent.Some?)
    ensures var rs := before + report;
            && (forall k :: 0 <= k < |rs| ==> rs[k].percent.Some?)
            && ((exists k :: 0 <= k < |rs| && rs[k].percent.value > 100.0) <==>
                  report != [] && report[0].percent.value > 100.0)
  {
    if report != [] {
      assert (before + report)[|before|] == report[0];
    }
  }

  /** The content is its lines joined by line feeds, so that the last line is counted one byte too
      long: a parse shows more than 100 percent exactly if a report is due in front of the last
      line and the content is not empty. */
  lemma PassesHundredIff(p: Pass, rs: seq<ProgressParams>)
    requires p.layout.Valid() && p.raws != [] && rs == ReportsUpTo(p, |p.raws|)
    requires p.meter.contentBytes + 1 == BytesUpTo(p.meter, p.raws, |p.raws|)
    ensures forall k :: 0 <= k < |rs| ==> rs[k].percent.Some?
    ensures (exists k :: 0 <= k < |rs| && rs[k].percent.value > 100.0) <==>
            p.meter.Due(|p.raws| - 1) && p.meter.contentBytes > 0
  {
    var n, before := |p.raws| - 1, ReportsUpTo(p, |p.raws| - 1);
    var report := ReportAt(p.fileId, p.meter, p.meter.contentBytes + 1, RecordsAfter(p)(n), n);
    WithinHundred(p, n, before);
    PercentGrows(p.meter, p.meter.Size(), p.meter.contentBytes + 1);
    LastPassesHundredIff(before, report);
  }

  /** One line of one byte, reached two seconds after the start, is reported as 200 percent. */
  lemma TwoHundredPercent(codec: Codec, layout: Layout)
    requires layout.Valid()
    ensures var p := Pass("f", codec, layout, ["x"], Meter(1, line => |line|, i => true), []);
            |ReportsUpTo(p, 1)| == 2 && ReportsUpTo(p, 1)[1].percent == Some(200.0)
  {
    var p := Pass("f", codec, layout, ["x"], Meter(1, line => |line|, i => true), []);
    assert BytesUpTo(p.meter, p.raws, 1) == BytesUpTo(p.meter, p.raws, 0) + 2;
    assert ReportsUpTo(p, 0) == [ProgressParams("f", Some(0.0), 0)];
  }
}
