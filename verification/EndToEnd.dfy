/** A CSV file from its lines to the answers of a query: the parse pass, the lossy transport,
    the store and the query engine put together. */
module EndToEnd {
  import opened Batches
  import opened Common
  import opened Protocol
  import opened Ledger
  import Csv = CsvEngine
  import CsvTable
  import Host = HostBridge
  import Query
  import Store
  import Subscription

  /** Every answer of the plugin declares the true total. */
  ghost predicate TruthfulReplies(job: Host.Job, total: nat) {
    forall m :: m in job.sent && m.Reply? ==> m.recordsTotal == total
  }

  /** The file's batches among everything the plugin wrote. */
  function SentBatches(job: Host.Job): seq<RecordBatch> {
    Host.SentIn(job.fileId, job.sent, |job.sent|)
  }

  /** An answer is one that the plugin gave. */
  ghost predicate AnswerInv(job: Host.Job, c: Host.Link) {
    c.response.Some? && c.response.value.Ok? ==> Host.Reply(c.response.value.value) in job.sent
  }

  lemma {:induction false} RunKeepsAnswer(job: Host.Job, c: Host.Link, acts: seq<Subscription.Act>)
    requires AnswerInv(job, c) && Subscription.RunActs(job, c, acts).Some?
    ensures AnswerInv(job, Subscription.RunActs(job, c, acts).value)
    decreases |acts|
  {
    if acts != [] {
      RunKeepsAnswer(job, Subscription.Acted(job, c, acts[0]), acts[1..]);
    }
  }

  /** An import run from its subscription on. */
  datatype Import = Import(job: Host.Job, lastSeq: map<string, nat>, invalidJson: nat, acts: seq<Subscription.Act>,
                           end: Host.Link, dropsRead: nat)

  /** The run is possible, has ended and was found ready with this log. */
  ghost predicate EndsReady(i: Import, log: Store.FileLog) {
    && Subscription.RunActs(i.job, Subscription.Subscribed(i.lastSeq, i.invalidJson), i.acts) == Some(i.end)
    && Host.Finished(i.end)
    && Host.VerdictOf(i.job, i.end, i.dropsRead) == Host.Ready(log)
  }

  /** Whatever else the plugin wrote, progress reports included, and whatever the transport
      dropped: when the answers declare the true total, a ready file holds all records. */
  lemma ReadyMeansWholeStream(i: Import, log: Store.FileLog)
    requires EndsReady(i, log) && TruthfulReplies(i.job, |RecordsIn(SentBatches(i.job))|)
    ensures log.received == RecordsIn(SentBatches(i.job)) && log.state == Store.Frozen
  {
    RunKeepsAnswer(i.job, Subscription.Subscribed(i.lastSeq, i.invalidJson), i.acts);
    Subscription.ReadyMeansNothingMissing(i.job, i.lastSeq, i.invalidJson, i.acts, i.end, i.dropsRead, log);
  }

  // ---- The CSV plugin ------------------------------------------------------------------------------

  /** The plugin's output for one parse: what its sink was given, then the response. */
  function Output(sink: seq<Notification>, total: nat): seq<Host.Message> {
    seq(|sink|, i requires 0 <= i < |sink| => Host.Note(sink[i])) + [Host.Reply(total)]
  }

  lemma {:induction false} OutputCarriesSink(fileId: string, sink: seq<Notification>, total: nat, k: nat)
    requires k <= |sink|
    ensures Host.SentIn(fileId, Output(sink, total), k) == BatchesOf(fileId, sink[..k])
  {
    if k > 0 {
      OutputCarriesSink(fileId, sink, total, k - 1);
      TakeSnoc(sink, k - 1);
      BatchesOfSnoc(fileId, sink[..k - 1], sink[k - 1]);
    }
  }

  lemma OutputIsTruthful(fileId: string, sink: seq<Notification>, total: nat)
    ensures SentBatches(Host.Job(fileId, Output(sink, total))) == BatchesOf(fileId, sink)
    ensures TruthfulReplies(Host.Job(fileId, Output(sink, total)), total)
  {
    OutputCarriesSink(fileId, sink, total, |sink|);
    TakeAll(sink);
    assert Host.SentIn(fileId, Output(sink, total), |sink| + 1) == BatchesOf(fileId, sink) + [];
  }

  /** A file parsed without cancellation: the job carries exactly the stream of its records. */
  ghost predicate Parses(codec: Csv.Codec, layout: Csv.Layout, lines: seq<string>, job: Host.Job)
    requires layout.Valid()
  {
    var rs := Csv.RecordsUpTo(codec, layout, lines, |lines|);
    Csv.IsStream(job.fileId, SentBatches(job), rs) && TruthfulReplies(job, |rs|)
  }

  /** What a completed parse pass writes is such a job. */
  lemma ParsePassIsAJob(codec: Csv.Codec, layout: Csv.Layout, lines: seq<string>, fileId: string,
                        sink: seq<Notification>)
    requires layout.Valid()
    requires Csv.IsStream(fileId, BatchesOf(fileId, sink), Csv.RecordsUpTo(codec, layout, lines, |lines|))
    ensures var total := |Csv.RecordsUpTo(codec, layout, lines, |lines|)|;
            Parses(codec, layout, lines, Host.Job(fileId, Output(sink, total)))
  {
    OutputIsTruthful(fileId, sink, |Csv.RecordsUpTo(codec, layout, lines, |lines|)|);
  }

  /** A CSV import that becomes ready holds exactly the records of the file's good rows. */
  lemma ReadyMeansWholeFile(codec: Csv.Codec, layout: Csv.Layout, lines: seq<string>, i: Import, log: Store.FileLog)
    requires layout.Valid() && Parses(codec, layout, lines, i.job) && EndsReady(i, log)
    ensures log.received == Csv.RecordsUpTo(codec, layout, lines, |lines|) && log.state == Store.Frozen
  {
    ReadyMeansWholeStream(i, log);
  }

  // ---- Queries -----------------------------------------------------------------------------------------

  /** The (time stamp, value) pairs of a metric on the good rows of the file that lie in the
      window, in stable time order. */
  function RowsWanted(codec: Csv.Codec, layout: Csv.Layout, lines: seq<string>, m: string, t0: int, t1: int): seq<Point>
    requires layout.Valid()
  {
    StableSort(InWindow(Csv.PointsIn(codec, layout, lines, m, |lines|), t0, t1))
  }

  lemma WantedAreTheRows(codec: Csv.Codec, layout: Csv.Layout, lines: seq<string>, files: map<string, Store.FileValue>,
                         ref: Query.MetricRef, t0: int, t1: int, wl: set<string>, log: Store.FileLog)
    requires layout.Valid() && Csv.Declared(layout, wl)
    requires log.received == Csv.RecordsUpTo(codec, layout, lines, |lines|) && log.state == Store.Frozen
    requires ref.fileId in files && files[ref.fileId] == Store.FileValue(wl, log)
    ensures Bare(Query.Wanted(files, ref, t0, t1)) == RowsWanted(codec, layout, lines, ref.metric, t0, t1)
  {
    var stored := Points(wl, log.received, ref.metric);
    Csv.PointsAreThoseOfTheRows(codec, layout, lines, ref.metric, |lines|, wl);
    BareSort(InWindow(stored, t0, t1));
    BareWindow(stored, t0, t1);
  }

  /** What a query wants of a file behind a ready import are the pairs of its good rows. */
  lemma ImportedRowsAreWanted(codec: Csv.Codec, layout: Csv.Layout, lines: seq<string>, i: Import, log: Store.FileLog,
                              wl: set<string>, files: map<string, Store.FileValue>, m: string, t0: int, t1: int)
    requires layout.Valid() && Csv.Declared(layout, wl) && Parses(codec, layout, lines, i.job) && EndsReady(i, log)
    requires i.job.fileId in files && files[i.job.fileId] == Store.FileValue(wl, log)
    ensures Bare(Query.Wanted(files, Query.MetricRef(i.job.fileId, m), t0, t1)) ==
            RowsWanted(codec, layout, lines, m, t0, t1)
  {
    ReadyMeansWholeFile(codec, layout, lines, i, log);
    WantedAreTheRows(codec, layout, lines, files, Query.MetricRef(i.job.fileId, m), t0, t1, wl, log);
  }

  /** `out` answers for series `k` with `rows`: it is omitted iff there is no
      row; otherwise its slice stands behind those of the series before it and holds all rows
      if they fit the budget, or their downsampling. */
  ghost predicate AnswersWith(files: map<string, Store.FileValue>, req: Query.QueryRequest, k: nat, rows: seq<Point>,
                              out: seq<Query.SeriesSlice>)
    requires k < |req.metrics|
  {
    var choices := Query.Choices(files, req);
    var before, upTo := Query.Shown(choices[..k]), Query.Shown(choices[..k + 1]);
    && before <= upTo <= |out|
    && (if rows == [] then upTo == before
        else upTo == before + 1 && Query.Answers(out[before], req.metrics[k], rows, Query.Budget(req)))
  }

  /** The response `out` of a query to a store in which a ready import of the file lies: every
      requested metric of that file is answered from exactly the pairs of the file's good rows
      in the window, in stable time order. */
  lemma QueriesSeeWholeFile(codec: Csv.Codec, layout: Csv.Layout, lines: seq<string>, i: Import, log: Store.FileLog,
                            wl: set<string>, files: map<string, Store.FileValue>,
                            req: Query.QueryRequest, out: seq<Query.SeriesSlice>, k: nat)
    requires layout.Valid() && Csv.Declared(layout, wl) && Parses(codec, layout, lines, i.job) && EndsReady(i, log)
    requires i.job.fileId in files && files[i.job.fileId] == Store.FileValue(wl, log)
    requires Query.IsResponse(files, req, out)
    requires k < |req.metrics| && req.metrics[k].fileId == i.job.fileId
    ensures AnswersWith(files, req, k, RowsWanted(codec, layout, lines, req.metrics[k].metric, req.t0, req.t1), out)
  {
    ImportedRowsAreWanted(codec, layout, lines, i, log, wl, files, req.metrics[k].metric, req.t0, req.t1);
    AnswerOf(files, req, out, k);
  }

  /** How a response answers series `k`, side entries apart. */
  lemma AnswerOf(files: map<string, Store.FileValue>, req: Query.QueryRequest, out: seq<Query.SeriesSlice>, k: nat)
    requires Query.IsResponse(files, req, out) && k < |req.metrics|
    ensures AnswersWith(files, req, k, Bare(Query.Wanted(files, req.metrics[k], req.t0, req.t1)), out)
  {
    var choices := Query.Choices(files, req);
    var w := Query.Wanted(files, req.metrics[k], req.t0, req.t1);
    Query.ResponseLength(choices, out);
    Query.ShownGrows(choices, k);
    if w != [] {
      Query.ResponseByPosition(choices, out, k);
      Query.AnswersBare(out[Query.Shown(choices[..k])], req.metrics[k], w, Query.Budget(req));
    }
  }

  /** So a table of times and numbers that was printed, imported and found ready is shown again:
      every requested metric is answered with the times and numbers of its columns. */
  lemma QueriesShowTheTable(codec: Csv.Codec, layout: Csv.Layout, lines: seq<string>, rows: seq<CsvTable.Row>,
                            i: Import, log: Store.FileLog, wl: set<string>, files: map<string, Store.FileValue>,
                            req: Query.QueryRequest, out: seq<Query.SeriesSlice>, k: nat)
    requires layout.Valid() && Csv.Declared(layout, wl) && Parses(codec, layout, lines, i.job) && EndsReady(i, log)
    requires CsvTable.IsTable(codec, layout, lines, rows) && CsvTable.Shaped(layout, rows)
    requires i.job.fileId in files && files[i.job.fileId] == Store.FileValue(wl, log)
    requires Query.IsResponse(files, req, out)
    requires k < |req.metrics| && req.metrics[k].fileId == i.job.fileId
    ensures var points := CsvTable.TablePoints(layout, rows, req.metrics[k].metric, |rows|);
            AnswersWith(files, req, k, StableSort(InWindow(points, req.t0, req.t1)), out)
  {
    QueriesSeeWholeFile(codec, layout, lines, i, log, wl, files, req, out, k);
    CsvTable.TableIsRead(codec, layout, lines, rows, req.metrics[k].metric, |rows|);
  }

  /** And nothing of the file is lost on the way into its columns: each record is a point of
      exactly one declared metric. `counts` gives the points of each metric. */
  lemma EveryRowIsAPoint(codec: Csv.Codec, layout: Csv.Layout, lines: seq<string>, i: Import, log: Store.FileLog,
                         wl: set<string>, counts: string -> nat)
    requires layout.Valid() && Csv.Declared(layout, wl) && Parses(codec, layout, lines, i.job) && EndsReady(i, log)
    requires forall m :: m in wl ==> counts(m) == |Csv.PointsIn(codec, layout, lines, m, |lines|)|
    ensures SumOver(wl, counts) == |Csv.RecordsUpTo(codec, layout, lines, |lines|)|
  {
    ReadyMeansWholeFile(codec, layout, lines, i, log);
    Csv.RecordsAreDeclared(codec, layout, lines, |lines|, wl);
    Csv.NoneUndeclared(wl, log.received);
    forall m | m in wl ensures counts(m) == |Points(wl, log.received, m)| {
      Csv.PointsAreThoseOfTheRows(codec, layout, lines, m, |lines|, wl);
    }
    RecordsAreConserved(wl, log.received, counts);
  }
}
