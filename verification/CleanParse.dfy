/** A parse without trouble gets through the transport, and what a verdict says about a parse
    (core/ab-engine/src/host_bridge.rs:127-181, core/ab-engine/src/pipeline_bridge.rs:1165-1303). */
module CleanParse {
  import opened Batches
  import opened Common
  import opened Protocol
  import opened HostBridge
  import opened Store
  import Rpc
  import Runs

  // ---- Every clean parse can become ready -------------------------------------------------------

  function BadJsonIn(job: Job, k: nat): nat
    requires k <= |job.sent|
  {
    if k == 0 then 0 else BadJsonIn(job, k - 1) + if job.sent[k - 1].BadJson? then 1 else 0
  }

  /** Progress, ignored messages, batches of the file numbered from zero and at most one invalid
      line, then the answer with the true total. */
  ghost predicate IsClean(job: Job) {
    var n := |job.sent| - 1;
    && n >= 0 && job.sent[n] == Reply(|SentRecords(job)|)
    && Numbered(SentIn(job.fileId, job.sent, |job.sent|)) && BadJsonIn(job, n) <= 1
    && forall i :: 0 <= i < n ==>
         || job.sent[i].Ignored? || job.sent[i].BadJson?
         || (job.sent[i].Note? && (job.sent[i].note.Batch? ==> job.sent[i].note.batch.fileId == job.fileId))
  }

  const NOTHING_UNDER_WAY := Path([], None, true, [], [], [])

  /** Everything read so far is stored, and nothing is under way. */
  ghost predicate Caught(job: Job, c: Link, k: nat) {
    && k <= |job.sent| && c.pump.read == k && !c.pump.stopped && c.pump.invalidJson == BadJsonIn(job, k)
    && c.path == NOTHING_UNDER_WAY && c.response == None
    && c.tail.sinkOpen && c.tail.sinkError == None && c.tail.log.state != Frozen
    && c.tail.log.received == RecordsIn(SentIn(job.fileId, job.sent, k))
    && c.tail.receivedRecords == |c.tail.log.received|
    && c.tail.log.seqNext == |SentIn(job.fileId, job.sent, k)| == Rpc.ExpectedSeq(c.pump.lastSeq, job.fileId)
  }

  lemma CatchesIgnored(job: Job, from: Link, c: Link, k: nat) returns (d: Link)
    requires k < |job.sent| && Caught(job, c, k) && Runs.Reaches(Next(job), from, c)
    requires job.sent[k].Ignored? || (job.sent[k].BadJson? && BadJsonIn(job, k) == 0)
    ensures Caught(job, d, k + 1) && Runs.Reaches(Next(job), from, d)
  {
    NothingNew(job, k);
    d := Runs.Then(Next(job), from, c, ReadNext);
  }

  lemma CatchesProgress(job: Job, from: Link, c: Link, k: nat) returns (d: Link)
    requires k < |job.sent| && Caught(job, c, k) && Runs.Reaches(Next(job), from, c)
    requires job.sent[k].Note? && job.sent[k].note.Progress?
    ensures Caught(job, d, k + 1) && Runs.Reaches(Next(job), from, d)
  {
    NothingNew(job, k);
    var note := job.sent[k].note;
    d := Runs.Then(Next(job), from, c, ReadNext);
    assert d.path == NOTHING_UNDER_WAY.(queue := [note]);
    d := Runs.Then(Next(job), from, d, ForwardTake);
    if IsFor(job.fileId, note) {
      d := Runs.Then(Next(job), from, d, ForwardSend);
      d := Runs.Then(Next(job), from, d, SinkTake);
    }
  }

  /** One batch on its way from the queue into the store. */
  lemma Delivers(job: Job, from: Link, c: Link, b: RecordBatch) returns (d: Link)
    requires Runs.Reaches(Next(job), from, c) && c.path == NOTHING_UNDER_WAY.(queue := [Batch(b)])
    requires b.fileId == job.fileId && c.tail.sinkOpen && c.tail.sinkError == None
    requires c.tail.log.state != Frozen && c.tail.log.seqNext == b.seqNo
    ensures Runs.Reaches(Next(job), from, d)
    ensures d.pump == c.pump && d.path == NOTHING_UNDER_WAY && d.response == c.response
    ensures d.tail == c.tail.(receivedRecords := c.tail.receivedRecords + |b.records|,
                              log := FileLog(Ingesting, c.tail.log.seqNext + 1, c.tail.log.received + b.records))
  {
    d := Runs.Then(Next(job), from, c, ForwardTake);
    d := Runs.Then(Next(job), from, d, ForwardSend);
    assert d.path == NOTHING_UNDER_WAY.(sink := [Batch(b)]);
    d := Runs.Then(Next(job), from, d, SinkTake);
  }

  lemma CatchesBatch(job: Job, from: Link, c: Link, k: nat, b: RecordBatch) returns (d: Link)
    requires k < |job.sent| && Caught(job, c, k) && Runs.Reaches(Next(job), from, c)
    requires job.sent[k] == Note(Batch(b)) && b.fileId == job.fileId
    requires b.seqNo == |SentIn(job.fileId, job.sent, k)|
    ensures Caught(job, d, k + 1) && Runs.Reaches(Next(job), from, d)
  {
    var sent := SentIn(job.fileId, job.sent, k);
    assert SentIn(job.fileId, job.sent, k + 1) == sent + [b];
    RecordsInSnoc(sent, b);
    d := Runs.Then(Next(job), from, c, ReadNext);
    assert d.path == NOTHING_UNDER_WAY.(queue := [Batch(b)]);
    d := Delivers(job, from, d, b);
  }

  lemma {:induction false} BadJsonGrows(job: Job, k: nat, n: nat)
    requires k <= n <= |job.sent|
    ensures BadJsonIn(job, k) <= BadJsonIn(job, n)
  {
    if k < n {
      BadJsonGrows(job, k, n - 1);
    }
  }

  lemma NumberOfNext(job: Job, k: nat, b: RecordBatch)
    requires k < |job.sent| && job.sent[k] == Note(Batch(b)) && b.fileId == job.fileId
    requires Numbered(SentIn(job.fileId, job.sent, |job.sent|))
    ensures b.seqNo == |SentIn(job.fileId, job.sent, k)|
  {
    var sent, all := SentIn(job.fileId, job.sent, k), SentIn(job.fileId, job.sent, |job.sent|);
    SentInIsPrefix(job.fileId, job.sent, k + 1, |job.sent|);
    assert SentIn(job.fileId, job.sent, k + 1) == sent + [b];
    assert all[|sent|] == b;
  }

  lemma {:induction false} CatchesAll(job: Job, from: Link, c: Link, k: nat) returns (d: Link)
    requires IsClean(job) && k < |job.sent| && Caught(job, c, k) && Runs.Reaches(Next(job), from, c)
    ensures Caught(job, d, |job.sent| - 1) && Runs.Reaches(Next(job), from, d)
    decreases |job.sent| - k
  {
    d := c;
    if k < |job.sent| - 1 {
      var msg := job.sent[k];
      if msg.Note? && msg.note.Batch? {
        NumberOfNext(job, k, msg.note.batch);
        d := CatchesBatch(job, from, c, k, msg.note.batch);
      } else if msg.Note? {
        d := CatchesProgress(job, from, c, k);
      } else {
        BadJsonGrows(job, k + 1, |job.sent| - 1);
        d := CatchesIgnored(job, from, c, k);
      }
      d := CatchesAll(job, from, d, k + 1);
    }
  }

  /** A clean parse can become ready, with every record and nothing dropped. */
  lemma CleanParseCanBeReady(job: Job, lastSeq: map<string, nat>) returns (c: Link)
    requires IsClean(job)
    ensures Runs.Reaches(Next(job), Start(job, lastSeq, 0), c) && Finished(c)
    ensures VerdictOf(job, c, 0).Ready? && VerdictOf(job, c, 0).log.received == SentRecords(job)
    ensures c.path.overflowed == c.path.late == []
  {
    var s := Start(job, lastSeq, 0);
    Runs.ReachesItself(Next(job), s);
    c := CatchesAll(job, s, s, 0);
    NothingNew(job, |job.sent| - 1);
    c := Runs.Then(Next(job), s, c, ReadNext);
    c := Runs.Then(Next(job), s, c, ForwardStop);
  }

  // ---- What a verdict says --------------------------------------------------------------------------

  /** Where the outcome of the parse call came from. */
  predicate FromPlugin(job: Job, r: Result<nat, ()>) {
    match r
    case Ok(total) => Reply(total) in job.sent
    case Err(_) => ErrorReply in job.sent
  }

  lemma ResponseStep(job: Job, c: Link, step: Step)
    requires Enabled(job, c, step)
    ensures var d := Apply(job, c, step);
            && (c.response.Some? ==> d.response == c.response)
            && (c.response.None? && d.response.Some? ==> FromPlugin(job, d.response.value) || step.Abandon?)
  {
  }

  lemma {:induction false} ResponseTellsTheTruth(job: Job, c: Link, steps: seq<Step>)
    requires RunFrom(job, c, steps).Some?
    ensures var e := RunFrom(job, c, steps).value;
            && (c.response.Some? ==> e.response == c.response)
            && (c.response.None? && e.response.Some? ==>
                  FromPlugin(job, e.response.value) || (e.response.value.Err? && Abandon in steps))
    decreases |steps|
  {
    if steps != [] {
      ResponseStep(job, c, steps[0]);
      ResponseTellsTheTruth(job, Apply(job, c, steps[0]), steps[1..]);
    }
  }

  lemma {:induction false} OnlyPanicsClose(job: Job, c: Link, steps: seq<Step>)
    requires RunFrom(job, c, steps).Some?
    ensures c.tail.sinkOpen && !RunFrom(job, c, steps).value.tail.sinkOpen ==> SinkPanics in steps
    decreases |steps|
  {
    if steps != [] {
      OnlyPanicsClose(job, Apply(job, c, steps[0]), steps[1..]);
    }
  }

  function Rejections(steps: seq<Step>): nat {
    if steps == [] then 0 else (if steps[0].ForwardRejected? then 1 else 0) + Rejections(steps[1..])
  }

  /** The drop count of a parse is the number of deliveries that a closed sink refused: at most
      one, because the forward task ends with it, and one only after the sink has panicked. */
  lemma {:induction false} DropsAreCounted(job: Job, c: Link, steps: seq<Step>)
    requires RunFrom(job, c, steps).Some?
    ensures var e := RunFrom(job, c, steps).value;
            && e.tail.droppedBySink == c.tail.droppedBySink + Rejections(steps)
            && Rejections(steps) <= (if c.path.forwarding then 1 else 0)
            && (!c.path.forwarding || Rejections(steps) > 0 ==> !e.path.forwarding)
            && (Rejections(steps) > 0 ==> !c.tail.sinkOpen || SinkPanics in steps)
    decreases |steps|
  {
    if steps != [] {
      DropsAreCounted(job, Apply(job, c, steps[0]), steps[1..]);
    }
  }

  /** In every run: an import fails by its plugin iff the call failed, and then the plugin said
      so or the call was abandoned; it fails at the store only if the sink panicked or a batch
      was lost; and it is ready iff the call gave a total, the sink made no error and the total
      is what it stored. */
  lemma VerdictTellsTheTruth(job: Job, lastSeq: map<string, nat>, invalidJson: nat, steps: seq<Step>, c: Link,
                             dropsRead: nat)
    requires RunFrom(job, Start(job, lastSeq, invalidJson), steps) == Some(c) && Finished(c)
    ensures var v, r := VerdictOf(job, c, dropsRead), c.response.value;
            && (v.PluginFailed? <==> r.Err?)
            && (v.PluginFailed? ==> ErrorReply in job.sent || Abandon in steps)
            && (v.AppendFailed? ==> SinkPanics in steps || LostIn(job.fileId, c.path) > 0)
            && (v.Ready? <==> r.Ok? && c.tail.sinkError.None? && r.value == |c.tail.log.received|)
            && (v.Ready? ==> Reply(r.value) in job.sent)
  {
    var s := Start(job, lastSeq, invalidJson);
    RunKeepsLinkInv(job, s, steps);
    ResponseTellsTheTruth(job, s, steps);
    OnlyPanicsClose(job, s, steps);
  }

  // ---- No deadlock ------------------------------------------------------------------------------------

  /** What is left to do for the call, the forward task and the sink. */
  function Work(c: Link): nat {
    var p := c.path;
    (if c.response.None? then 1 else 0) + 3 * |p.queue| + (if p.hand.Some? then 2 else 0) + |p.sink|
    + if p.forwarding then 1 else 0
  }

  lemma WorkGoesOn(job: Job, c: Link) returns (step: Step)
    requires !Finished(c)
    ensures Enabled(job, c, step) && Work(Apply(job, c, step)) < Work(c)
    ensures !step.ReadNext? && !step.SinkPanics? && (step.Abandon? ==> c.response.None?)
    ensures c.tail.sinkError.Some? ==> Apply(job, c, step).tail.sinkError.Some?
  {
    var p := c.path;
    if c.response.None? {
      step := Abandon;
    } else if !p.forwarding || (p.hand.Some? && c.tail.sinkOpen && |p.sink| >= SINK_CAP) {
      step := SinkTake;
    } else if p.hand.Some? {
      step := if c.tail.sinkOpen then ForwardSend else ForwardRejected;
    } else {
      step := if p.queue != [] then ForwardTake else ForwardStop;
    }
  }

  /** Whatever state forward task and sink are in, full channels and a closed sink included, a
      parse of a plugin that says nothing more can come to its verdict; the outcome of the call
      stays what it is. */
  lemma ParseCanFinish(job: Job, from: Link, c: Link) returns (e: Link)
    requires Runs.Reaches(Next(job), from, c)
    ensures Runs.Reaches(Next(job), from, e) && Finished(e)
    ensures e.pump == c.pump && (c.response.Some? ==> e.response == c.response)
    ensures c.tail.sinkError.Some? ==> e.tail.sinkError.Some?
    decreases Work(c)
  {
    if Finished(c) {
      e := c;
    } else {
      var step := WorkGoesOn(job, c);
      var d := Runs.Then(Next(job), from, c, step);
      e := ParseCanFinish(job, from, d);
    }
  }

  /** A sink that panics fails its import at the store, whatever it had stored before. */
  lemma PanicFailsTheImport(job: Job, c: Link, dropsRead: nat) returns (e: Link)
    requires c.tail.sinkOpen && c.response.Some? && c.response.value.Ok?
    ensures Runs.Reaches(Next(job), c, e) && Finished(e) && VerdictOf(job, e, dropsRead) == AppendFailed
  {
    Runs.ReachesItself(Next(job), c);
    var d := Runs.Then(Next(job), c, c, SinkPanics);
    e := ParseCanFinish(job, c, d);
  }

  lemma {:induction false} StoppedPumpStays(job: Job, c: Link, steps: seq<Step>)
    requires c.pump.stopped && RunFrom(job, c, steps).Some?
    ensures RunFrom(job, c, steps).value.pump == c.pump
    decreases |steps|
  {
    if steps != [] {
      StoppedPumpStays(job, Apply(job, c, steps[0]), steps[1..]);
    }
  }

  /** A session can end at any moment, and then nothing more of it is read. */
  lemma SessionCanEnd(job: Job, c: Link, steps: seq<Step>)
    ensures Next(job)(c, SessionEnds).Some?
    ensures var e := RunFrom(job, c, [SessionEnds] + steps);
            e.Some? ==> e.value.pump.read == c.pump.read && e.value.pump.lastSeq == c.pump.lastSeq
  {
    assert ([SessionEnds] + steps)[1..] == steps;
    var d := Apply(job, c, SessionEnds);
    if RunFrom(job, d, steps).Some? {
      StoppedPumpStays(job, d, steps);
    }
  }
}
