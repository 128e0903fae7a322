/** One parse through the lossy transport (core/ab-engine/src/host_bridge.rs:127-181, the read
    pump in core/ab-host and the sink task of core/ab-engine/src/pipeline_bridge.rs:1124-1303).

    The plugin writes a stream of messages; the read pump validates and fans them out without
    ever blocking, so it may drop; the forward task passes the wanted ones on with back-pressure;
    the sink task appends them to the store. Every step below is one atomic action of one of
    these tasks, and a run is any interleaving of them. */
module HostBridge {
  import opened Batches
  import opened Common
  import opened Protocol
  import opened Rpc
  import Runs
  import opened Store

  const SINK_CAP: nat := 256

  /** A frame of the plugin's output as the read pump sees it. `Fatal` is a frame error or an
      invalid notification, `Ignored` an unknown method or a response to another call. */
  datatype Message =
    | Note(note: Notification)
    | Reply(recordsTotal: nat)
    | ErrorReply
    | BadJson
    | Ignored
    | Fatal

  datatype Job = Job(fileId: string, sent: seq<Message>)

  datatype SinkError = Append(error: StoreError) | Panicked

  /** The read pump. */
  datatype Pump = Pump(read: nat, stopped: bool, invalidJson: nat, lastSeq: map<string, nat>)

  /** From the subscription of the forward task to the sink. `overflowed` was dropped because
      the queue was full, `late` was fanned out when the forward task was gone. */
  datatype Path = Path(
    queue: seq<Notification>,
    hand: Option<Notification>,
    forwarding: bool,
    sink: seq<Notification>,
    overflowed: seq<Notification>,
    late: seq<Notification>)

  /** The sink task and the file it fills. */
  datatype Tail = Tail(
    sinkOpen: bool,
    log: FileLog,
    sinkError: Option<SinkError>,
    receivedRecords: nat,
    droppedBySink: nat)

  /** `response` is the outcome of the parse call. */
  datatype Link = Link(pump: Pump, path: Path, tail: Tail, response: Option<Result<nat, ()>>)

  datatype Step =
    | ReadNext
    | SessionEnds
    | Abandon                               // the parse call times out or is drained
    | ForwardTake
    | ForwardSend
    | ForwardRejected                       // the sink is closed
    | ForwardStop                           // completion seen and the queue drained
    | SinkTake
    | SinkPanics

  predicate IsFor(fileId: string, note: Notification) {
    match note
    case Batch(batch) => batch.fileId == fileId
    case Progress(progress) => progress.fileId == fileId
  }

  function Fan(p: Path, note: Notification): Path {
    if !p.forwarding then p.(late := p.late + [note])
    else if |p.queue| >= NOTIFICATION_CAP then p.(overflowed := p.overflowed + [note])
    else p.(queue := Offer(p.queue, note))
  }

  function ReadBatch(c: Link, batch: RecordBatch): Link {
    match AcceptSeq(c.pump.lastSeq, batch)
    case None => c.(pump := c.pump.(stopped := true))
    case Some(table) =>
      c.(pump := c.pump.(read := c.pump.read + 1, lastSeq := table), path := Fan(c.path, Batch(batch)))
  }

  /** Every message but a batch leaves the validator alone. */
  function ReadOther(pump: Pump, msg: Message): Pump {
    if msg == Fatal || (msg == BadJson && pump.invalidJson > 0) then pump.(stopped := true)
    else pump.(read := pump.read + 1, invalidJson := pump.invalidJson + if msg == BadJson then 1 else 0)
  }

  function Answer(c: Link, answer: Result<nat, ()>): Option<Result<nat, ()>> {
    if c.response.None? then Some(answer) else c.response
  }

  /** The forward task's subscription is served like any other subscriber. */
  lemma FanIsFanOut(p: Path, note: Notification)
    ensures var subs, next := [Subscriber(p.queue, p.forwarding)], Fan(p, note);
            && FanOutTo(subs, note) == (if p.forwarding then [Subscriber(next.queue, true)] else [])
            && |next.overflowed| == |p.overflowed| + Overflows(subs)
  {
    InitOfSnoc([], Subscriber(p.queue, p.forwarding));
  }

  function Read(c: Link, msg: Message): Link {
    match msg
    case Note(Batch(batch)) => ReadBatch(c, batch)
    case Note(Progress(p)) => c.(pump := ReadOther(c.pump, msg), path := Fan(c.path, Progress(p)))
    case Reply(total) => c.(pump := ReadOther(c.pump, msg), response := Answer(c, Ok(total)))
    case ErrorReply => c.(pump := ReadOther(c.pump, msg), response := Answer(c, Err(())))
    case _ => c.(pump := ReadOther(c.pump, msg))
  }

  /** The sink counts every batch and appends until the store refuses one. */
  function Consume(fileId: string, t: Tail, note: Notification): Tail {
    match note
    case Progress(_) => t
    case Batch(batch) =>
      var counted := t.(receivedRecords := t.receivedRecords + |batch.records|);
      if t.sinkError.Some? then counted
      else match AppendLog(fileId, t.log, batch)
           case Err(e) => counted.(sinkError := Some(Append(e)))
           case Ok(log) => counted.(log := log)
  }

  predicate Enabled(job: Job, c: Link, step: Step) {
    var p := c.path;
    match step
    case ReadNext => !c.pump.stopped && c.pump.read < |job.sent|
    case SessionEnds => true
    case Abandon => c.response.None?
    case ForwardTake => p.forwarding && p.hand.None? && p.queue != []
    case ForwardSend => p.forwarding && p.hand.Some? && c.tail.sinkOpen && |p.sink| < SINK_CAP
    case ForwardRejected => p.forwarding && p.hand.Some? && !c.tail.sinkOpen
    case ForwardStop => p.forwarding && p.hand.None? && p.queue == [] && c.response.Some?
    case SinkTake => c.tail.sinkOpen && p.sink != []
    case SinkPanics => c.tail.sinkOpen
  }

  function Apply(job: Job, c: Link, step: Step): Link
    requires Enabled(job, c, step)
  {
    var p := c.path;
    match step
    case ReadNext => Read(c, job.sent[c.pump.read])
    case SessionEnds => c.(pump := c.pump.(stopped := true))
    case Abandon => c.(response := Some(Err(())))
    case ForwardTake =>
      c.(path := p.(queue := p.queue[1..], hand := if IsFor(job.fileId, p.queue[0]) then Some(p.queue[0]) else None))
    case ForwardSend => c.(path := p.(sink := p.sink + [p.hand.value], hand := None))
    case ForwardRejected =>
      c.(path := p.(hand := None, queue := [], forwarding := false),
         tail := c.tail.(droppedBySink := c.tail.droppedBySink + 1))
    case ForwardStop => c.(path := p.(forwarding := false))
    case SinkTake => c.(path := p.(sink := p.sink[1..]), tail := Consume(job.fileId, c.tail, p.sink[0]))
    case SinkPanics =>
      c.(path := p.(sink := []), tail := c.tail.(sinkOpen := false, sinkError := Some(Panicked)))
  }

  /** Both tasks have ended, so the import goes on to its verdict. */
  predicate Finished(c: Link) {
    !c.path.forwarding && (c.tail.sinkOpen ==> c.path.sink == []) && c.response.Some?
  }

  datatype Verdict = Ready(log: FileLog) | PluginFailed | AppendFailed | Backpressure | CountDiffers

  predicate LostBatchError(total: nat, received: nat, dropped: nat) {
    total != received && dropped > 0
  }

  /** `dropsRead` is the drop count of the adapter that the import finds under the plugin's
      name, which after a reload of the session need not be the one that ran the parse. */
  function VerdictOf(job: Job, c: Link, dropsRead: nat): Verdict
    requires Finished(c)
  {
    match c.response.value
    case Err(_) => PluginFailed
    case Ok(total) =>
      if c.tail.sinkError.Some? then AppendFailed
      else if LostBatchError(total, c.tail.receivedRecords, dropsRead) then Backpressure
      else match FreezeLog(job.fileId, c.tail.log, total)
           case Err(_) => CountDiffers
           case Ok(log) => Ready(log)
  }

  // ---- What was sent and what is under way --------------------------------------------------

  /** The batch of the file in one message, if any, as a list. */
  function SentAs(fileId: string, msg: Message): seq<RecordBatch> {
    if msg.Note? then BatchIn(fileId, msg.note) else []
  }

  /** The batches of the file among the first `k` messages. */
  function SentIn(fileId: string, msgs: seq<Message>, k: nat): seq<RecordBatch>
    requires k <= |msgs|
  {
    if k == 0 then [] else SentIn(fileId, msgs, k - 1) + SentAs(fileId, msgs[k - 1])
  }

  function HandIn(fileId: string, hand: Option<Notification>): seq<RecordBatch> {
    if hand.Some? then BatchIn(fileId, hand.value) else []
  }

  /** The file's batches between read pump and store, oldest first. */
  function UnderWay(fileId: string, p: Path): seq<RecordBatch> {
    BatchesOf(fileId, p.sink) + (HandIn(fileId, p.hand) + BatchesOf(fileId, p.queue))
  }

  /** How many batches of the file the fan-out could not deliver. */
  function LostIn(fileId: string, p: Path): nat {
    |BatchesOf(fileId, p.overflowed)| + |BatchesOf(fileId, p.late)|
  }

  // ---- Invariants -------------------------------------------------------------------------------

  /** A link as seen by one file: the batches validated so far, those still under way, the next
      expected number, what is stored and whether the sink has failed. */
  datatype View = View(all: seq<RecordBatch>, under: seq<RecordBatch>, expected: nat, log: FileLog, failed: bool)

  /** How many messages the read pump has handled. */
  function Handled(job: Job, pump: Pump): nat {
    if pump.read <= |job.sent| then pump.read else |job.sent|
  }

  function ViewOf(job: Job, c: Link): View {
    View(SentIn(job.fileId, job.sent, Handled(job, c.pump)), UnderWay(job.fileId, c.path),
         ExpectedSeq(c.pump.lastSeq, job.fileId), c.tail.log, c.tail.sinkError.Some?)
  }

  /** How one step can change the view. */
  datatype Change =
    | Keep
    | Accept(batch: RecordBatch, delivered: bool)   // validated, and queued or dropped
    | Take(batch: RecordBatch)                      // reached the sink
    | Lose                                          // the sink is gone

  ghost predicate Moves(fileId: string, v: View, w: View, ch: Change) {
    match ch
    case Keep => w == v
    case Accept(b, delivered) =>
      && b.seqNo == v.expected && b.fileId == fileId
      && w == View(v.all + [b], if delivered then v.under + [b] else v.under, v.expected + 1, v.log, v.failed)
    case Take(b) =>
      && v.under == [b] + w.under && w.all == v.all && w.expected == v.expected && b.fileId == fileId
      && (if v.failed || AppendLog(fileId, v.log, b).Err? then w.log == v.log && w.failed
          else AppendLog(fileId, v.log, b) == Ok(w.log) && !w.failed)
    case Lose =>
      w.all == v.all && w.expected == v.expected && w.log == v.log && forall b :: b in w.under ==> b in v.under
  }

  /** Each of `bs` is one of the batches `all`, found there at its own number. */
  ghost predicate Genuine(bs: seq<RecordBatch>, all: seq<RecordBatch>) {
    forall b :: b in bs ==> b.seqNo < |all| && all[b.seqNo] == b
  }

  /** Validated batches are numbered from zero, only such batches are under way, and the store
      holds the records of the first of them. */
  ghost predicate ViewInv(v: View) {
    && v.expected == |v.all| && Numbered(v.all) && Genuine(v.under, v.all)
    && v.log.state != Frozen && v.log.seqNext <= |v.all|
    && v.log.received == RecordsIn(v.all[..v.log.seqNext])
  }

  lemma MovesKeepInv(fileId: string, v: View, w: View, ch: Change)
    requires ViewInv(v) && Moves(fileId, v, w, ch)
    ensures ViewInv(w)
  {
    match ch
    case Accept(b, _) =>
      assert (v.all + [b])[..v.log.seqNext] == v.all[..v.log.seqNext];
    case Take(b) => TakeKeepsInv(fileId, v, w, b);
    case _ =>
  }

  lemma TakeKeepsInv(fileId: string, v: View, w: View, b: RecordBatch)
    requires ViewInv(v) && Moves(fileId, v, w, Take(b))
    ensures ViewInv(w)
  {
    assert b in v.under;
    assert forall x :: x in w.under ==> x in v.under;
    if w.log != v.log {
      TakeSnoc(v.all, v.log.seqNext);
    }
  }

  lemma FanMoves(fileId: string, p: Path, note: Notification) returns (delivered: bool)
    ensures UnderWay(fileId, Fan(p, note)) ==
            if delivered then UnderWay(fileId, p) + BatchIn(fileId, note) else UnderWay(fileId, p)
    ensures LostIn(fileId, Fan(p, note)) ==
            LostIn(fileId, p) + if delivered then 0 else |BatchIn(fileId, note)|
  {
    delivered := p.forwarding && |p.queue| < NOTIFICATION_CAP;
    if delivered {
      BatchesOfSnoc(fileId, p.queue, note);
    } else {
      BatchesOfSnoc(fileId, p.late, note);
      BatchesOfSnoc(fileId, p.overflowed, note);
    }
  }

  lemma FanIgnored(fileId: string, p: Path, note: Notification)
    requires BatchIn(fileId, note) == []
    ensures UnderWay(fileId, Fan(p, note)) == UnderWay(fileId, p)
    ensures LostIn(fileId, Fan(p, note)) == LostIn(fileId, p)
  {
    var delivered := FanMoves(fileId, p, note);
    assert UnderWay(fileId, p) + [] == UnderWay(fileId, p);
  }

  lemma OwnBatchMoves(job: Job, c: Link, batch: RecordBatch) returns (delivered: bool)
    requires c.pump.read < |job.sent| && job.sent[c.pump.read] == Note(Batch(batch))
    requires batch.fileId == job.fileId && AcceptSeq(c.pump.lastSeq, batch).Some?
    ensures var d := ReadBatch(c, batch);
            && Moves(job.fileId, ViewOf(job, c), ViewOf(job, d), Accept(batch, delivered))
            && LostIn(job.fileId, d.path) == LostIn(job.fileId, c.path) + if delivered then 0 else 1
  {
    delivered := FanMoves(job.fileId, c.path, Batch(batch));
    var d := ReadBatch(c, batch);
    OwnBatchCounts(job, c, batch);
    assert d.path == Fan(c.path, Batch(batch)) && d.tail == c.tail;
    var v := ViewOf(job, c);
    assert UnderWay(job.fileId, c.path) + [] == UnderWay(job.fileId, c.path);
    assert ViewOf(job, d) == View(v.all + [batch], if delivered then v.under + [batch] else v.under,
                                  v.expected + 1, v.log, v.failed);
  }

  lemma OwnBatchCounts(job: Job, c: Link, batch: RecordBatch)
    requires c.pump.read < |job.sent| && job.sent[c.pump.read] == Note(Batch(batch))
    requires batch.fileId == job.fileId && AcceptSeq(c.pump.lastSeq, batch).Some?
    ensures var d := ReadBatch(c, batch);
            && SentIn(job.fileId, job.sent, Handled(job, d.pump)) ==
               SentIn(job.fileId, job.sent, Handled(job, c.pump)) + [batch]
            && batch.seqNo == ExpectedSeq(c.pump.lastSeq, job.fileId)
            && ExpectedSeq(d.pump.lastSeq, job.fileId) == ExpectedSeq(c.pump.lastSeq, job.fileId) + 1
  {
    assert SentAs(job.fileId, job.sent[c.pump.read]) == [batch];
  }

  lemma ForeignBatchMoves(job: Job, c: Link, batch: RecordBatch)
    requires c.pump.read < |job.sent| && job.sent[c.pump.read] == Note(Batch(batch))
    requires batch.fileId != job.fileId || AcceptSeq(c.pump.lastSeq, batch).None?
    ensures var d := ReadBatch(c, batch);
            ViewOf(job, d) == ViewOf(job, c) && LostIn(job.fileId, d.path) == LostIn(job.fileId, c.path)
  {
    if AcceptSeq(c.pump.lastSeq, batch).Some? {
      NothingNew(job, c.pump.read);
      FanIgnored(job.fileId, c.path, Batch(batch));
    }
  }

  lemma NothingNew(job: Job, k: nat)
    requires k < |job.sent| && SentAs(job.fileId, job.sent[k]) == []
    ensures SentIn(job.fileId, job.sent, k + 1) == SentIn(job.fileId, job.sent, k)
  {
  }

  lemma ProgressMoves(job: Job, c: Link)
    requires c.pump.read < |job.sent|
    requires job.sent[c.pump.read].Note? && job.sent[c.pump.read].note.Progress?
    ensures var d := Read(c, job.sent[c.pump.read]);
            && ViewOf(job, d) == ViewOf(job, c)
            && LostIn(job.fileId, d.path) == LostIn(job.fileId, c.path)
  {
    NothingNew(job, c.pump.read);
    var note, d := job.sent[c.pump.read].note, Read(c, job.sent[c.pump.read]);
    assert d.path == Fan(c.path, note) && d.tail == c.tail && d.pump.lastSeq == c.pump.lastSeq;
    FanIgnored(job.fileId, c.path, note);
  }

  lemma OtherMoves(job: Job, c: Link)
    requires c.pump.read < |job.sent| && !job.sent[c.pump.read].Note?
    ensures var d := Read(c, job.sent[c.pump.read]);
            ViewOf(job, d) == ViewOf(job, c) && d.path == c.path
  {
    OthersAreHandled(job, c, Read(c, job.sent[c.pump.read]));
  }

  lemma OthersAreHandled(job: Job, c: Link, d: Link)
    requires c.pump.read < |job.sent| && !job.sent[c.pump.read].Note?
    requires d.path == c.path && d.tail == c.tail
    requires d.pump.lastSeq == c.pump.lastSeq && c.pump.read <= d.pump.read <= c.pump.read + 1
    ensures ViewOf(job, d) == ViewOf(job, c)
  {
    NothingNew(job, c.pump.read);
  }

  lemma SinkMoves(job: Job, c: Link) returns (ch: Change)
    requires Enabled(job, c, SinkTake) && FileOf(c.path.sink[0]) == job.fileId
    ensures Moves(job.fileId, ViewOf(job, c), ViewOf(job, Apply(job, c, SinkTake)), ch) && (ch.Keep? || ch.Take?)
  {
    var head := BatchIn(job.fileId, c.path.sink[0]);
    assert UnderWay(job.fileId, c.path) == head + UnderWay(job.fileId, c.path.(sink := c.path.sink[1..]));
    ch := if head == [] then Keep else Take(head[0]);
  }

  /** Passing an event on neither loses nor adds a batch of the file. */
  lemma ForwardKeepsUnderWay(job: Job, c: Link, step: Step)
    requires Enabled(job, c, step) && (step.ForwardTake? || step.ForwardSend?)
    ensures UnderWay(job.fileId, Apply(job, c, step).path) == UnderWay(job.fileId, c.path)
  {
    if step.ForwardSend? {
      BatchesOfSnoc(job.fileId, c.path.sink, c.path.hand.value);
    }
  }

  lemma ForwardMoves(job: Job, c: Link, step: Step)
    requires Enabled(job, c, step) && !step.ReadNext? && !step.SinkTake?
    requires !step.ForwardRejected? && !step.SinkPanics?
    ensures var d := Apply(job, c, step);
            ViewOf(job, d) == ViewOf(job, c) && LostIn(job.fileId, d.path) == LostIn(job.fileId, c.path)
  {
    if step.ForwardTake? || step.ForwardSend? {
      ForwardKeepsUnderWay(job, c, step);
    }
  }

  lemma LossMoves(job: Job, c: Link, step: Step)
    requires Enabled(job, c, step) && (step.ForwardRejected? || step.SinkPanics?)
    ensures var d := Apply(job, c, step);
            && Moves(job.fileId, ViewOf(job, c), ViewOf(job, d), Lose) && !d.tail.sinkOpen
            && LostIn(job.fileId, d.path) == LostIn(job.fileId, c.path)
  {
  }

  function FileOf(note: Notification): string {
    if note.Batch? then note.batch.fileId else note.progress.fileId
  }

  /** Only what is meant for this parse comes near the sink. */
  ghost predicate FilteredInv(job: Job, c: Link) {
    && (forall n :: n in c.path.sink ==> FileOf(n) == job.fileId)
    && (c.path.hand.Some? ==> FileOf(c.path.hand.value) == job.fileId)
  }

  lemma FilteredStep(job: Job, c: Link, step: Step)
    requires FilteredInv(job, c) && Enabled(job, c, step)
    ensures FilteredInv(job, Apply(job, c, step))
  {
  }

  /** Only a drop by the fan-out or the end of the sink can lose a batch. */
  lemma StepMoves(job: Job, c: Link, step: Step) returns (ch: Change)
    requires FilteredInv(job, c) && Enabled(job, c, step)
    ensures var d := Apply(job, c, step);
            && Moves(job.fileId, ViewOf(job, c), ViewOf(job, d), ch)
            && (ch.Accept? && !ch.delivered ==> LostIn(job.fileId, d.path) > 0)
            && (ch.Lose? ==> !d.tail.sinkOpen) && (ch.Take? ==> c.tail.sinkOpen)
            && LostIn(job.fileId, d.path) >= LostIn(job.fileId, c.path)
  {
    ch := Keep;
    if step.SinkTake? {
      ch := SinkMoves(job, c);
    } else if step.ForwardRejected? || step.SinkPanics? {
      LossMoves(job, c, step);
      ch := Lose;
    } else if !step.ReadNext? {
      ForwardMoves(job, c, step);
    } else {
      var msg := job.sent[c.pump.read];
      if msg.Note? && msg.note.Batch? {
        if msg.note.batch.fileId == job.fileId && AcceptSeq(c.pump.lastSeq, msg.note.batch).Some? {
          var delivered := OwnBatchMoves(job, c, msg.note.batch);
          ch := Accept(msg.note.batch, delivered);
        } else {
          ForeignBatchMoves(job, c, msg.note.batch);
        }
      } else if msg.Note? {
        ProgressMoves(job, c);
      } else {
        OtherMoves(job, c);
      }
    }
  }

  // ---- No loss ------------------------------------------------------------------------------------

  predicate NothingLost(job: Job, c: Link) {
    c.tail.sinkOpen && LostIn(job.fileId, c.path) == 0
  }

  /** What is validated is stored or under way. */
  ghost predicate Complete(v: View) {
    !v.failed && v.log.seqNext <= |v.all| && v.under == v.all[v.log.seqNext..]
  }

  lemma MovesKeepComplete(fileId: string, v: View, w: View, ch: Change)
    requires ViewInv(v) && Complete(v) && Moves(fileId, v, w, ch)
    requires !ch.Lose? && (ch.Accept? ==> ch.delivered)
    ensures Complete(w)
  {
    match ch
    case Accept(b, _) =>
      assert (v.all + [b])[v.log.seqNext..] == v.all[v.log.seqNext..] + [b];
    case Take(b) =>
      assert b == v.under[0];
    case _ =>
  }

  /** The sink gives an error when it ended early, and only then does the forward task drop.
      Without an error the sink has counted exactly what is stored. */
  predicate SinkInv(c: Link) {
    && (c.tail.sinkError.None? ==> c.tail.receivedRecords == |c.tail.log.received|)
    && |c.tail.log.received| <= c.tail.receivedRecords
    && (!c.tail.sinkOpen ==> c.tail.sinkError.Some? && c.path.sink == [])
    && (c.tail.droppedBySink > 0 ==> !c.tail.sinkOpen)
    && (c.path.forwarding ==> c.path.late == [])
    && (!c.path.forwarding ==> c.path.queue == [] && c.path.hand.None?)
    && |c.path.sink| <= SINK_CAP && |c.path.queue| <= NOTIFICATION_CAP
  }

  lemma SinkInvStep(job: Job, c: Link, step: Step)
    requires SinkInv(c) && Enabled(job, c, step)
    ensures SinkInv(Apply(job, c, step))
  {
  }

  lemma OnceClosedStaysClosed(job: Job, c: Link, step: Step)
    requires Enabled(job, c, step) && Apply(job, c, step).tail.sinkOpen
    ensures c.tail.sinkOpen
  {
  }

  ghost predicate LinkInv(job: Job, c: Link) {
    && FilteredInv(job, c) && SinkInv(c) && ViewInv(ViewOf(job, c))
    && (NothingLost(job, c) ==> Complete(ViewOf(job, c)))
  }

  lemma LinkStep(job: Job, c: Link, step: Step)
    requires LinkInv(job, c) && Enabled(job, c, step)
    ensures LinkInv(job, Apply(job, c, step))
  {
    var d := Apply(job, c, step);
    FilteredStep(job, c, step);
    SinkInvStep(job, c, step);
    var ch := StepMoves(job, c, step);
    MovesKeepInv(job.fileId, ViewOf(job, c), ViewOf(job, d), ch);
    if NothingLost(job, d) {
      OnceClosedStaysClosed(job, c, step);
      MovesKeepComplete(job.fileId, ViewOf(job, c), ViewOf(job, d), ch);
    }
  }

  // ---- Runs -----------------------------------------------------------------------------------------

  function Next(job: Job): (Link, Step) -> Option<Link> {
    (c: Link, step: Step) => if Enabled(job, c, step) then Some(Apply(job, c, step)) else None
  }

  function RunFrom(job: Job, c: Link, steps: seq<Step>): Option<Link> {
    Runs.RunFrom(Next(job), c, steps)
  }

  /** The start of a parse: the validator was reset for the file, which is registered and empty. */
  function Start(job: Job, lastSeq: map<string, nat>, invalidJson: nat): Link {
    Link(Pump(0, false, invalidJson, lastSeq - {job.fileId}), Path([], None, true, [], [], []),
         Tail(true, FileLog(FileState.Registered, 0, []), None, 0, 0), None)
  }

  lemma {:induction false} RunKeepsLinkInv(job: Job, c: Link, steps: seq<Step>)
    requires LinkInv(job, c) && RunFrom(job, c, steps).Some?
    ensures LinkInv(job, RunFrom(job, c, steps).value)
    decreases |steps|
  {
    if steps != [] {
      LinkStep(job, c, steps[0]);
      RunKeepsLinkInv(job, Apply(job, c, steps[0]), steps[1..]);
    }
  }

  /** The records of the file in the order the plugin sent them. */
  function SentRecords(job: Job): seq<Record> {
    RecordsIn(SentIn(job.fileId, job.sent, |job.sent|))
  }

  lemma {:induction false} SentInIsPrefix(fileId: string, msgs: seq<Message>, k: nat, n: nat)
    requires k <= n <= |msgs|
    ensures SentIn(fileId, msgs, k) <= SentIn(fileId, msgs, n)
  {
    if k < n {
      SentInIsPrefix(fileId, msgs, k, n - 1);
    }
  }

  /** Whatever is dropped wherever, at every moment the store holds exactly the first records
      the plugin sent for the file: no gap, no duplicate, no reordering. */
  lemma StoredIsAPrefix(job: Job, lastSeq: map<string, nat>, invalidJson: nat, steps: seq<Step>, c: Link)
    requires RunFrom(job, Start(job, lastSeq, invalidJson), steps) == Some(c)
    ensures LinkInv(job, c)
    ensures c.tail.log.received <= SentRecords(job)
  {
    RunKeepsLinkInv(job, Start(job, lastSeq, invalidJson), steps);
    var v, all := ViewOf(job, c), SentIn(job.fileId, job.sent, |job.sent|);
    SentInIsPrefix(job.fileId, job.sent, Handled(job, c.pump), |job.sent|);
    assert v.all[..v.log.seqNext] == all[..v.log.seqNext];
    RecordsOfPrefix(all, v.log.seqNext);
  }

  /** A parse holds at most 1281 notifications outside the store, whoever stalls. */
  lemma ChannelsStayBounded(job: Job, lastSeq: map<string, nat>, invalidJson: nat, steps: seq<Step>, c: Link)
    requires RunFrom(job, Start(job, lastSeq, invalidJson), steps) == Some(c)
    ensures |c.path.queue| + (if c.path.hand.Some? then 1 else 0) + |c.path.sink| <= 1281
  {
    RunKeepsLinkInv(job, Start(job, lastSeq, invalidJson), steps);
  }

  /** A file becomes ready only with the declared number of records, and these are the first
      ones that were sent. So when the declared total is the true one, nothing is missing:
      every loss shows as an import that fails. */
  lemma ReadyMeansNothingMissing(job: Job, lastSeq: map<string, nat>, invalidJson: nat,
                                 steps: seq<Step>, c: Link, dropsRead: nat, total: nat, log: FileLog)
    requires RunFrom(job, Start(job, lastSeq, invalidJson), steps) == Some(c) && Finished(c)
    requires c.response == Some(Ok(total)) && VerdictOf(job, c, dropsRead) == Ready(log)
    ensures total <= |SentRecords(job)| && log.received == SentRecords(job)[..total]
    ensures total == |SentRecords(job)| ==> log.received == SentRecords(job)
  {
    StoredIsAPrefix(job, lastSeq, invalidJson, steps, c);
  }

  /** The plugin sends no batch of the file behind the response to its parse call. */
  ghost predicate RepliesLast(job: Job) {
    forall i, j :: 0 <= i < j < |job.sent| && job.sent[i].Reply? ==> SentAs(job.fileId, job.sent[j]) == []
  }

  predicate ReplyRead(job: Job, c: Link) {
    exists i :: 0 <= i < Handled(job, c.pump) && job.sent[i].Reply?
  }

  ghost predicate ReplyInv(job: Job, c: Link) {
    && c.pump.read <= |job.sent|
    && (c.response.Some? && c.response.value.Ok? ==> ReplyRead(job, c))
    && (c.response.None? && c.tail.sinkOpen ==> c.path.forwarding)
    && (c.path.forwarding ==> c.path.late == [])
    && (ReplyRead(job, c) && c.response.Some? && c.response.value.Ok? && c.tail.sinkOpen ==>
          BatchesOf(job.fileId, c.path.late) == [])
  }

  /** A batch of the file that comes too late shows that no reply was read before it. */
  lemma LateOnlyWithoutReply(job: Job, c: Link)
    requires RepliesLast(job) && ReplyRead(job, c) && c.pump.read < |job.sent|
    ensures var d := Read(c, job.sent[c.pump.read]);
            BatchesOf(job.fileId, d.path.late) == BatchesOf(job.fileId, c.path.late)
  {
    var msg := job.sent[c.pump.read];
    assert SentAs(job.fileId, msg) == [];
    if msg.Note? {
      BatchesOfSnoc(job.fileId, c.path.late, msg.note);
    }
  }

  lemma ReadKeepsReply(job: Job, c: Link)
    requires c.pump.read < |job.sent|
    ensures var d := Read(c, job.sent[c.pump.read]);
            && (ReplyRead(job, c) ==> ReplyRead(job, d))
            && (d.response == c.response || d.response == Some(Err(())) || ReplyRead(job, d))
            && (c.response.Some? ==> d.response == c.response)
            && (c.path.forwarding ==> d.path.late == c.path.late) && d.path.forwarding == c.path.forwarding
  {
    var d := Read(c, job.sent[c.pump.read]);
    if job.sent[c.pump.read].Reply? {
      assert 0 <= c.pump.read < Handled(job, d.pump);
    }
  }

  lemma LateStep(job: Job, c: Link)
    requires RepliesLast(job) && ReplyInv(job, c) && Enabled(job, c, ReadNext)
    ensures ReplyInv(job, Apply(job, c, ReadNext))
  {
    ReadKeepsReply(job, c);
    if ReplyRead(job, c) {
      LateOnlyWithoutReply(job, c);
    }
  }

  lemma ReplyStep(job: Job, c: Link, step: Step)
    requires RepliesLast(job) && ReplyInv(job, c) && Enabled(job, c, step)
    ensures ReplyInv(job, Apply(job, c, step))
  {
    if step.ReadNext? {
      LateStep(job, c);
    } else {
      assert Apply(job, c, step).pump.read == c.pump.read;
      assert ReplyRead(job, Apply(job, c, step)) == ReplyRead(job, c);
    }
  }

  lemma {:induction false} RunKeepsReplyInv(job: Job, c: Link, steps: seq<Step>)
    requires RepliesLast(job) && ReplyInv(job, c) && RunFrom(job, c, steps).Some?
    ensures ReplyInv(job, RunFrom(job, c, steps).value)
    decreases |steps|
  {
    if steps != [] {
      ReplyStep(job, c, steps[0]);
      RunKeepsReplyInv(job, Apply(job, c, steps[0]), steps[1..]);
    }
  }

  lemma {:induction false} NothingSentFrom(fileId: string, msgs: seq<Message>, k: nat, n: nat)
    requires k <= n <= |msgs| && forall j :: k <= j < n ==> SentAs(fileId, msgs[j]) == []
    ensures SentIn(fileId, msgs, n) == SentIn(fileId, msgs, k)
  {
    if k < n {
      NothingSentFrom(fileId, msgs, k, n - 1);
    }
  }

  /** The other direction: a parse that answers with its true total, drops nothing on the way
      and keeps its sink is ready, with every record in the order it was sent. */
  lemma UndroppedParseIsReady(job: Job, lastSeq: map<string, nat>, invalidJson: nat, steps: seq<Step>, c: Link,
                              dropsRead: nat)
    requires RepliesLast(job)
    requires RunFrom(job, Start(job, lastSeq, invalidJson), steps) == Some(c) && Finished(c)
    requires c.response == Some(Ok(|SentRecords(job)|)) && c.tail.sinkOpen
    requires BatchesOf(job.fileId, c.path.overflowed) == []
    ensures VerdictOf(job, c, dropsRead).Ready? && VerdictOf(job, c, dropsRead).log.received == SentRecords(job)
  {
    RunKeepsLinkInv(job, Start(job, lastSeq, invalidJson), steps);
    RunKeepsReplyInv(job, Start(job, lastSeq, invalidJson), steps);
    var i :| 0 <= i < Handled(job, c.pump) && job.sent[i].Reply?;
    NothingSentFrom(job.fileId, job.sent, c.pump.read, |job.sent|);
    EverythingStored(job, c);
  }

  lemma EverythingStored(job: Job, c: Link)
    requires LinkInv(job, c) && Finished(c) && NothingLost(job, c)
    ensures c.tail.log.received == RecordsIn(SentIn(job.fileId, job.sent, Handled(job, c.pump)))
    ensures c.tail.sinkError.None? && c.tail.droppedBySink == 0 && c.tail.log.state != Frozen
  {
    var v := ViewOf(job, c);
    assert v.all[..v.log.seqNext] == v.all by {
      EmptyWhenDone(job, c);
    }
  }

  /** A forward task that ended with an open sink has emptied queue and hand. */
  lemma EmptyWhenDone(job: Job, c: Link)
    requires LinkInv(job, c) && Finished(c) && NothingLost(job, c)
    ensures UnderWay(job.fileId, c.path) == []
  {
  }

  /** When the count read is that of this parse, the back-pressure verdict is never reached: a
      forward task that was rejected by the sink leaves a sink error behind, and a wrong total
      is found by the freeze instead. */
  lemma NeverBackpressure(job: Job, lastSeq: map<string, nat>, invalidJson: nat, steps: seq<Step>, c: Link)
    requires RunFrom(job, Start(job, lastSeq, invalidJson), steps) == Some(c) && Finished(c)
    ensures VerdictOf(job, c, c.tail.droppedBySink) != Backpressure
    ensures VerdictOf(job, c, c.tail.droppedBySink) == CountDiffers <==>
              c.response.value.Ok? && c.tail.sinkError.None? && c.response.value.value != c.tail.receivedRecords
  {
    RunKeepsLinkInv(job, Start(job, lastSeq, invalidJson), steps);
  }

  /** In general it takes a wrong total and a count that is left over from another parse. */
  lemma BackpressureIff(job: Job, lastSeq: map<string, nat>, invalidJson: nat, steps: seq<Step>, c: Link,
                        dropsRead: nat)
    requires RunFrom(job, Start(job, lastSeq, invalidJson), steps) == Some(c) && Finished(c)
    ensures VerdictOf(job, c, dropsRead) == Backpressure <==>
              && c.response.value.Ok? && c.tail.sinkError.None?
              && c.response.value.value != |c.tail.log.received| && c.tail.droppedBySink == 0 < dropsRead
  {
    RunKeepsLinkInv(job, Start(job, lastSeq, invalidJson), steps);
  }

  /** A parse that loses nothing and declares a wrong total is then blamed on back-pressure. */
  lemma StaleCountMisleads(fileId: string) returns (job: Job, steps: seq<Step>, c: Link)
    ensures RunFrom(job, Start(job, map[], 0), steps) == Some(c) && Finished(c)
    ensures c.tail.droppedBySink == 0 && c.path.overflowed == c.path.late == []
    ensures VerdictOf(job, c, 1) == Backpressure
  {
    job, steps := Job(fileId, [Reply(1)]), [ReadNext, ForwardStop];
    var s := Start(job, map[], 0);
    var d := Apply(job, s, ReadNext);
    c := Apply(job, d, ForwardStop);
    assert steps[1..] == [ForwardStop] && steps[1..][1..] == [];
    assert RunFrom(job, d, [ForwardStop]) == Some(c);
  }
}
