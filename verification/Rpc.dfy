/** Routing of one plugin session (core/ab-host/src/rpc.rs): sequence checking, notification
    fan-out and the table of pending calls. */
module Rpc {
  import opened Common
  import opened Protocol
  import Runs

  // ---- Sequence validation ----------------------------------------------------------------

  function ExpectedSeq(lastSeq: map<string, nat>, fileId: string): nat {
    if fileId in lastSeq then lastSeq[fileId] + 1 else 0
  }

  /** The validator's table after an accepted batch, or nothing when the batch is rejected. */
  function AcceptSeq(lastSeq: map<string, nat>, batch: RecordBatch): Option<map<string, nat>> {
    if batch.seqNo != ExpectedSeq(lastSeq, batch.fileId) then None
    else Some(lastSeq[batch.fileId := batch.seqNo])
  }

  class SeqValidator {
    var lastSeq: map<string, nat>

    constructor ()
      ensures lastSeq == map[]
    {
      lastSeq := map[];
    }

    method Reset(fileId: string)
      modifies this
      ensures lastSeq == old(lastSeq) - {fileId} && ExpectedSeq(lastSeq, fileId) == 0
    {
      lastSeq := lastSeq - {fileId};
    }

    method Accept(batch: RecordBatch) returns (ok: bool)
      modifies this
      ensures match AcceptSeq(old(lastSeq), batch)
              case None => !ok && lastSeq == old(lastSeq)
              case Some(next) => ok && lastSeq == next
    {
      var expected := if batch.fileId in lastSeq then lastSeq[batch.fileId] + 1 else 0;
      if batch.seqNo != expected {
        return false;
      }
      lastSeq := lastSeq[batch.fileId := batch.seqNo];
      ok := true;
    }
  }

  // ---- Fan-out ------------------------------------------------------------------------------

  const NOTIFICATION_CAP: nat := 1024

  /** A subscriber's bounded queue; it closes when the receiver is dropped. */
  datatype Subscriber = Subscriber(queue: seq<Notification>, open: bool)

  function Offer(queue: seq<Notification>, msg: Notification): seq<Notification> {
    if |queue| < NOTIFICATION_CAP then queue + [msg] else queue
  }

  function FanOutTo(subs: seq<Subscriber>, msg: Notification): seq<Subscriber> {
    if subs == [] then [] else
      var rest := FanOutTo(subs[..|subs| - 1], msg);
      var s := subs[|subs| - 1];
      if s.open then rest + [s.(queue := Offer(s.queue, msg))] else rest
  }

  /** Open subscribers that a message cannot reach because their queue is full. */
  function Overflows(subs: seq<Subscriber>): nat {
    if subs == [] then 0 else
      var s := subs[|subs| - 1];
      Overflows(subs[..|subs| - 1]) + if s.open && |s.queue| >= NOTIFICATION_CAP then 1 else 0
  }

  function OpenCount(subs: seq<Subscriber>): nat {
    if subs == [] then 0 else OpenCount(subs[..|subs| - 1]) + if subs[|subs| - 1].open then 1 else 0
  }

  function Queued(subs: seq<Subscriber>): nat {
    if subs == [] then 0 else
      Queued(subs[..|subs| - 1]) + if subs[|subs| - 1].open then |subs[|subs| - 1].queue| else 0
  }

  class NotificationFan {
    var subs: seq<Subscriber>
    var dropped: nat

    constructor ()
      ensures subs == [] && dropped == 0
    {
      subs, dropped := [], 0;
    }

    /** A subscription, and what comes of it if it is not read. */
    method Subscribe()
      modifies this
      ensures subs == old(subs) + [Subscriber([], true)] && dropped == old(dropped)
      ensures forall msgs :: FanOutAll(subs, msgs) == FanOutAll(old(subs), msgs) + [Subscriber(FirstOf(msgs), true)]
    {
      subs := subs + [Subscriber([], true)];
      forall msgs ensures FanOutAll(subs, msgs) == FanOutAll(old(subs), msgs) + [Subscriber(FirstOf(msgs), true)] {
        SubscriberSeesFirstMessages(old(subs), msgs);
      }
    }

    /** Offers the message to every subscriber; closed ones are removed, full ones are counted. */
    method FanOut(msg: Notification)
      modifies this
      ensures subs == FanOutTo(old(subs), msg)
      ensures dropped == old(dropped) + Overflows(old(subs))
    {
      var kept: seq<Subscriber> := [];
      for i := 0 to |subs|
        invariant subs == old(subs)
        invariant kept == FanOutTo(subs[..i], msg)
        invariant dropped == old(dropped) + Overflows(subs[..i])
      {
        TakeSnoc(subs, i);
        var s := subs[i];
        if s.open {
          if |s.queue| >= NOTIFICATION_CAP {
            dropped := dropped + 1;
          }
          kept := kept + [s.(queue := Offer(s.queue, msg))];
        }
      }
      TakeAll(subs);
      subs := kept;
    }
  }

  /** A message reaches every open subscriber or is counted as dropped for it, and no queue
      grows past its capacity. */
  lemma {:induction false} FanOutConserves(subs: seq<Subscriber>, msg: Notification)
    requires forall i :: 0 <= i < |subs| ==> |subs[i].queue| <= NOTIFICATION_CAP
    ensures Queued(FanOutTo(subs, msg)) + Overflows(subs) == Queued(subs) + OpenCount(subs)
    ensures forall i :: 0 <= i < |FanOutTo(subs, msg)| ==>
              FanOutTo(subs, msg)[i].open && |FanOutTo(subs, msg)[i].queue| <= NOTIFICATION_CAP
  {
    if subs != [] {
      var s := subs[|subs| - 1];
      FanOutConserves(subs[..|subs| - 1], msg);
      if s.open {
        InitOfSnoc(FanOutTo(subs[..|subs| - 1], msg), s.(queue := Offer(s.queue, msg)));
      }
    }
  }

  /** The subscriptions after several messages, if nobody takes any. */
  function FanOutAll(subs: seq<Subscriber>, msgs: seq<Notification>): seq<Subscriber> {
    if msgs == [] then subs else FanOutTo(FanOutAll(subs, msgs[..|msgs| - 1]), msgs[|msgs| - 1])
  }

  lemma FanOutSnoc(subs: seq<Subscriber>, s: Subscriber, msg: Notification)
    requires s.open
    ensures FanOutTo(subs + [s], msg) == FanOutTo(subs, msg) + [s.(queue := Offer(s.queue, msg))]
  {
    InitOfSnoc(subs, s);
  }

  function FirstOf(msgs: seq<Notification>): seq<Notification> {
    if |msgs| <= NOTIFICATION_CAP then msgs else msgs[..NOTIFICATION_CAP]
  }

  /** A new subscription sees the messages from its start on, up to the capacity, in order, and
      changes nothing for the others. */
  lemma {:induction false} SubscriberSeesFirstMessages(subs: seq<Subscriber>, msgs: seq<Notification>)
    ensures FanOutAll(subs + [Subscriber([], true)], msgs) ==
            FanOutAll(subs, msgs) + [Subscriber(FirstOf(msgs), true)]
  {
    if msgs != [] {
      var before, msg := msgs[..|msgs| - 1], msgs[|msgs| - 1];
      SubscriberSeesFirstMessages(subs, before);
      FanOutSnoc(FanOutAll(subs, before), Subscriber(FirstOf(before), true), msg);
      assert Offer(FirstOf(before), msg) == FirstOf(msgs);
    }
  }

  // ---- Pending calls --------------------------------------------------------------------------

  datatype Outcome =
    | Value(result: string)
    | PluginError(code: int)
    | Transport

  /** A finished call returned an outcome, or failed because the channel was dead: before it
      got an id (`Refused`) or after. */
  datatype CallState =
    | Checked
    | Allocated(id: nat)
    | Registered(id: nat)
    | Waiting(id: nat)
    | Returned(id: nat, outcome: Outcome)
    | Failed(id: nat)
    | Refused

  datatype Frame = Frame(id: nat, outcome: Outcome)

  /** The shared state of a channel. `calls` are the callers by token; `sent` holds what was
      put into each call's one-shot channel, `frames` the responses read so far. */
  datatype Channel = Channel(
    nextId: nat,
    pending: set<nat>,
    broken: bool,
    writerOpen: bool,
    calls: map<nat, CallState>,
    sent: map<nat, Outcome>,
    completions: map<nat, nat>,
    frames: seq<Frame>)

  function CompletionsOf(c: Channel, id: nat): nat {
    if id in c.completions then c.completions[id] else 0
  }

  /** Completes the listed calls: their entries are gone and their one-shots are filled. */
  function Complete(c: Channel, ids: set<nat>, outcome: Outcome): Channel {
    c.(pending := c.pending - ids,
       sent := c.sent + (map id | id in ids :: outcome),
       completions := c.completions + (map id | id in ids :: CompletionsOf(c, id) + 1))
  }

  datatype Step =
    | Check(t: nat)                            // broken is read
    | AllocateId(t: nat)                       // next_id.fetch_add
    | InsertPending(t: nat)                    // pending.insert
    | WriterClosed(t: nat)                     // no writer: own entry removed
    | Written(t: nat)                          // request frame handed to the writer
    | WriteFailed(t: nat)                      // writer task gone: returns after its own drain
    | MarkBroken                               // first half of drain_pending
    | TakePending                              // second half of drain_pending
    | CloseWriter
    | Response(frame: Frame)                   // a response frame is read and routed
    | TimedOut(t: nat)                         // own entry removed
    | Received(t: nat)                         // the one-shot delivers

  predicate Enabled(c: Channel, step: Step) {
    match step
    case Check(t) => t !in c.calls
    case AllocateId(t) => t in c.calls && c.calls[t].Checked?
    case InsertPending(t) => t in c.calls && c.calls[t].Allocated?
    case WriterClosed(t) => t in c.calls && c.calls[t].Registered? && !c.writerOpen
    case Written(t) => t in c.calls && c.calls[t].Registered?
    case WriteFailed(t) =>
      t in c.calls && c.calls[t].Registered? && c.broken && c.calls[t].id !in c.pending
    case MarkBroken => true
    case TakePending => c.broken
    case CloseWriter => true
    case Response(frame) => !frame.outcome.Transport?
    case TimedOut(t) => t in c.calls && c.calls[t].Waiting?
    case Received(t) => t in c.calls && c.calls[t].Waiting? && c.calls[t].id in c.sent
  }

  function Apply(c: Channel, step: Step): Channel
    requires Enabled(c, step)
  {
    match step
    case Check(t) => c.(calls := c.calls[t := if c.broken then Refused else Checked])
    case AllocateId(t) => c.(nextId := c.nextId + 1, calls := c.calls[t := Allocated(c.nextId + 1)])
    case InsertPending(t) =>
      c.(pending := c.pending + {c.calls[t].id}, calls := c.calls[t := Registered(c.calls[t].id)])
    case WriterClosed(t) =>
      c.(pending := c.pending - {c.calls[t].id}, calls := c.calls[t := Failed(c.calls[t].id)])
    case Written(t) => c.(calls := c.calls[t := Waiting(c.calls[t].id)])
    case WriteFailed(t) => c.(calls := c.calls[t := Failed(c.calls[t].id)])
    case MarkBroken => c.(broken := true)
    case TakePending => Complete(c, c.pending, Transport)
    case CloseWriter => c.(writerOpen := false)
    case Response(frame) =>
      var read := c.(frames := c.frames + [frame]);
      if frame.id in c.pending then Complete(read, {frame.id}, frame.outcome) else read
    case TimedOut(t) =>
      c.(pending := c.pending - {c.calls[t].id}, calls := c.calls[t := Returned(c.calls[t].id, Transport)])
    case Received(t) =>
      c.(calls := c.calls[t := Returned(c.calls[t].id, c.sent[c.calls[t].id])])
  }

  predicate HasId(s: CallState) {
    s.Allocated? || s.Registered? || s.Waiting? || s.Returned? || s.Failed?
  }

  // Ids are handed out once.
  ghost predicate IdsInv(c: Channel) {
    && (forall t :: t in c.calls && HasId(c.calls[t]) ==> 1 <= c.calls[t].id <= c.nextId)
    && (forall t, u :: t in c.calls && u in c.calls && t != u && HasId(c.calls[t]) && HasId(c.calls[u]) ==>
          c.calls[t].id != c.calls[u].id)
  }

  function KnownIds(c: Channel): set<nat> {
    c.pending + c.sent.Keys
  }

  // An entry of the table belongs to an id handed out before and not answered yet.
  ghost predicate EntriesInv(c: Channel) {
    && (forall id :: id in c.pending ==> id <= c.nextId && id !in c.sent)
    && (forall id :: id in c.sent ==> id <= c.nextId)
  }

  // A call enters the table when it registers and stays in it until it is answered.
  ghost predicate CallersInv(c: Channel) {
    && (forall id :: id in KnownIds(c) ==> id <= c.nextId)
    && (forall t :: t in c.calls && c.calls[t].Allocated? ==> c.calls[t].id !in KnownIds(c))
    && (forall t :: t in c.calls && (c.calls[t].Registered? || c.calls[t].Waiting?) ==>
          c.calls[t].id in KnownIds(c))
  }

  // Every one-shot is filled once.
  ghost predicate CountInv(c: Channel) {
    && (forall id :: id in c.pending ==> id !in c.sent)
    && c.completions.Keys == c.sent.Keys
    && (forall id :: id in c.completions ==> c.completions[id] == 1)
  }

  // What was not made up by the host came in a frame of the same id.
  ghost predicate FramesInv(c: Channel) {
    && (forall id :: id in c.sent && !c.sent[id].Transport? ==> Frame(id, c.sent[id]) in c.frames)
    && (forall t :: t in c.calls && c.calls[t].Returned? && !c.calls[t].outcome.Transport? ==>
          Frame(c.calls[t].id, c.calls[t].outcome) in c.frames)
  }

  ghost predicate ChannelInv(c: Channel) {
    IdsInv(c) && EntriesInv(c) && CallersInv(c) && CountInv(c) && FramesInv(c)
  }

  /** At most the call `t` moved on, and it kept its id or got the next one. */
  ghost predicate OneCallMoves(c: Channel, d: Channel, t: nat) {
    && c.nextId <= d.nextId
    && (forall u :: u in d.calls && u != t ==> u in c.calls && d.calls[u] == c.calls[u])
    && (t in d.calls && HasId(d.calls[t]) ==>
          || c.nextId < d.calls[t].id == d.nextId
          || (t in c.calls && HasId(c.calls[t]) && d.calls[t].id == c.calls[t].id))
  }

  lemma MovesKeepIds(c: Channel, d: Channel, t: nat)
    requires IdsInv(c) && OneCallMoves(c, d, t)
    ensures IdsInv(d)
  {
  }

  lemma IdsStep(c: Channel, step: Step)
    requires IdsInv(c) && Enabled(c, step)
    ensures IdsInv(Apply(c, step))
  {
    MovesKeepIds(c, Apply(c, step), if step.Response? || step.MarkBroken? || step.TakePending? || step.CloseWriter?
                                    then 0 else step.t);
  }

  lemma CountStep(c: Channel, step: Step)
    requires CountInv(c) && EntriesInv(c) && CallersInv(c) && Enabled(c, step)
    ensures CountInv(Apply(c, step))
  {
  }

  lemma EntriesStep(c: Channel, step: Step)
    requires IdsInv(c) && EntriesInv(c) && CallersInv(c) && Enabled(c, step)
    ensures EntriesInv(Apply(c, step))
  {
  }

  /** Routing and draining move ids from the table to the answered ones; only a caller's own
      steps add or forget an id. */
  lemma KnownIdsStep(c: Channel, step: Step)
    requires Enabled(c, step)
    ensures KnownIds(Apply(c, step)) ==
            match step
            case InsertPending(t) => KnownIds(c) + {c.calls[t].id}
            case WriterClosed(t) => c.pending - {c.calls[t].id} + c.sent.Keys
            case TimedOut(t) => c.pending - {c.calls[t].id} + c.sent.Keys
            case _ => KnownIds(c)
  {
  }

  /** Whoever does not call leaves callers and known ids alone. */
  lemma CallersUntouched(c: Channel, d: Channel)
    requires CallersInv(c) && d.calls == c.calls && d.nextId == c.nextId && KnownIds(d) == KnownIds(c)
    ensures CallersInv(d)
  {
  }

  /** An end of the call `t` can only forget its own id. */
  lemma CallersWhenOneEnds(c: Channel, d: Channel, t: nat)
    requires IdsInv(c) && CallersInv(c) && t in c.calls && HasId(c.calls[t]) && d.nextId == c.nextId
    requires KnownIds(c) - {c.calls[t].id} <= KnownIds(d) <= KnownIds(c)
    requires t in d.calls && (d.calls[t].Failed? || d.calls[t].Returned?) && d.calls == c.calls[t := d.calls[t]]
    ensures CallersInv(d)
  {
  }

  lemma CallersWhenOneAdvances(c: Channel, step: Step)
    requires IdsInv(c) && CallersInv(c) && Enabled(c, step)
    requires step.Check? || step.AllocateId? || step.InsertPending? || step.Written?
    ensures CallersInv(Apply(c, step))
  {
  }

  lemma CallersStep(c: Channel, step: Step)
    requires IdsInv(c) && CallersInv(c) && Enabled(c, step)
    ensures CallersInv(Apply(c, step))
  {
    KnownIdsStep(c, step);
    var d := Apply(c, step);
    match step
    case Check(_) => CallersWhenOneAdvances(c, step);
    case AllocateId(_) => CallersWhenOneAdvances(c, step);
    case InsertPending(_) => CallersWhenOneAdvances(c, step);
    case Written(_) => CallersWhenOneAdvances(c, step);
    case WriterClosed(t) => CallersWhenOneEnds(c, d, t);
    case WriteFailed(t) => CallersWhenOneEnds(c, d, t);
    case TimedOut(t) => CallersWhenOneEnds(c, d, t);
    case Received(t) => CallersWhenOneEnds(c, d, t);
    case _ => CallersUntouched(c, d);
  }

  /** New answers came in a frame or from the host, and new returns from the answers. */
  ghost predicate AnswersCome(c: Channel, d: Channel) {
    && (forall f :: f in c.frames ==> f in d.frames)
    && (forall id :: id in d.sent && !d.sent[id].Transport? ==>
          (id in c.sent && d.sent[id] == c.sent[id]) || Frame(id, d.sent[id]) in d.frames)
    && (forall t :: t in d.calls && d.calls[t].Returned? && !d.calls[t].outcome.Transport? ==>
          || (t in c.calls && d.calls[t] == c.calls[t])
          || (d.calls[t].id in c.sent && c.sent[d.calls[t].id] == d.calls[t].outcome))
  }

  lemma FramesKept(c: Channel, d: Channel)
    requires FramesInv(c) && AnswersCome(c, d)
    ensures FramesInv(d)
  {
  }

  lemma FramesStep(c: Channel, step: Step)
    requires FramesInv(c) && Enabled(c, step)
    ensures FramesInv(Apply(c, step))
  {
    var d := Apply(c, step);
    if step.Response? {
      assert d.frames[|c.frames|] == step.frame;
    }
    FramesKept(c, d);
  }

  function Next(c: Channel, step: Step): Option<Channel> {
    if Enabled(c, step) then Some(Apply(c, step)) else None
  }

  /** The channel after a run of steps from `c`, if the run is possible. */
  function RunFrom(c: Channel, steps: seq<Step>): Option<Channel> {
    Runs.RunFrom(Next, c, steps)
  }

  lemma InvStep(c: Channel, step: Step)
    requires ChannelInv(c) && Enabled(c, step)
    ensures ChannelInv(Apply(c, step))
  {
    IdsStep(c, step);
    EntriesStep(c, step);
    CallersStep(c, step);
    CountStep(c, step);
    FramesStep(c, step);
  }

  lemma {:induction false} RunKeepsChannelInv(c: Channel, steps: seq<Step>)
    requires ChannelInv(c) && RunFrom(c, steps).Some?
    ensures ChannelInv(RunFrom(c, steps).value)
    decreases |steps|
  {
    if steps != [] {
      InvStep(c, steps[0]);
      RunKeepsChannelInv(Apply(c, steps[0]), steps[1..]);
    }
  }

  const NEW_CHANNEL := Channel(0, {}, false, true, map[], map[], map[], [])

  /** In every run: ids belong to one call each, every call is completed at most once, a
      returned value or plugin error came in a frame with the call's own id, and a waiting
      call is either still pending or already answered. */
  lemma RoutingIsSound(steps: seq<Step>, c: Channel)
    requires RunFrom(NEW_CHANNEL, steps) == Some(c)
    ensures forall id :: CompletionsOf(c, id) <= 1
    ensures forall t, u ::
              (t in c.calls && u in c.calls && HasId(c.calls[t]) && HasId(c.calls[u])
               && c.calls[t].id == c.calls[u].id) ==> t == u
    ensures forall t :: t in c.calls && c.calls[t].Returned? && !c.calls[t].outcome.Transport? ==>
              Frame(c.calls[t].id, c.calls[t].outcome) in c.frames
    ensures forall t :: t in c.calls && c.calls[t].Waiting? ==>
              (c.calls[t].id in c.pending <==> c.calls[t].id !in c.sent)
  {
    RunKeepsChannelInv(NEW_CHANNEL, steps);
  }

  // ---- What a call gets --------------------------------------------------------------------------

  /** On a live channel nobody is refused and no answer is made up by the host. */
  ghost predicate LiveInv(c: Channel) {
    !c.broken ==>
      && (forall id :: id in c.sent ==> !c.sent[id].Transport?)
      && (forall t :: t in c.calls ==> !c.calls[t].Refused? && (c.calls[t].Failed? ==> !c.writerOpen))
  }

  lemma LiveStep(c: Channel, step: Step)
    requires LiveInv(c) && Enabled(c, step)
    ensures LiveInv(Apply(c, step))
  {
  }

  lemma {:induction false} RunKeepsLive(c: Channel, steps: seq<Step>)
    requires LiveInv(c) && RunFrom(c, steps).Some?
    ensures LiveInv(RunFrom(c, steps).value)
    decreases |steps|
  {
    if steps != [] {
      LiveStep(c, steps[0]);
      RunKeepsLive(Apply(c, steps[0]), steps[1..]);
    }
  }

  /** Until the channel is marked broken, whatever a one-shot holds was sent by the plugin. */
  lemma LiveAnswersAreThePlugins(steps: seq<Step>, c: Channel)
    requires RunFrom(NEW_CHANNEL, steps) == Some(c) && !c.broken
    ensures forall id :: id in c.sent ==> !c.sent[id].Transport? && Frame(id, c.sent[id]) in c.frames
    ensures forall t :: t in c.calls ==> !c.calls[t].Refused? && (c.calls[t].Failed? ==> !c.writerOpen)
  {
    RunKeepsLive(NEW_CHANNEL, steps);
    RunKeepsChannelInv(NEW_CHANNEL, steps);
  }

  predicate IsMadeUp(c: Channel, t: nat) {
    t in c.calls && c.calls[t].Returned? && c.calls[t].outcome.Transport?
  }

  lemma MadeUpStep(c: Channel, step: Step, t: nat)
    requires LiveInv(c) && Enabled(c, step) && !Apply(c, step).broken && IsMadeUp(Apply(c, step), t) && !IsMadeUp(c, t)
    ensures step == TimedOut(t)
  {
  }

  lemma {:induction false} BrokenStays(c: Channel, steps: seq<Step>)
    requires c.broken && RunFrom(c, steps).Some?
    ensures RunFrom(c, steps).value.broken
    decreases |steps|
  {
    if steps != [] {
      BrokenStays(Apply(c, steps[0]), steps[1..]);
    }
  }

  /** ... and a call gets a made-up outcome only by its own time-out. */
  lemma {:induction false} OnlyTimeoutsAreMadeUp(c: Channel, steps: seq<Step>, e: Channel, t: nat)
    requires LiveInv(c) && RunFrom(c, steps) == Some(e) && !e.broken && IsMadeUp(e, t) && !IsMadeUp(c, t)
    ensures TimedOut(t) in steps
    decreases |steps|
  {
    if steps != [] {
      var d := Apply(c, steps[0]);
      if d.broken {
        BrokenStays(d, steps[1..]);
      } else if IsMadeUp(d, t) {
        MadeUpStep(c, steps[0], t);
      } else {
        LiveStep(c, steps[0]);
        OnlyTimeoutsAreMadeUp(d, steps[1..], e, t);
      }
    }
  }

  /** The step neither answers the call `t` of this id nor ends it. */
  predicate Spares(step: Step, t: nat, id: nat) {
    match step
    case Response(frame) => frame.id != id
    case TakePending => false
    case TimedOut(u) => u != t
    case WriterClosed(u) => u != t
    case _ => true
  }

  ghost predicate Pends(c: Channel, t: nat, id: nat) {
    && t in c.calls && (c.calls[t] == Registered(id) || c.calls[t] == Waiting(id))
    && id in c.pending && id !in c.sent
  }

  lemma SparedStep(c: Channel, step: Step, t: nat, id: nat)
    requires IdsInv(c) && Pends(c, t, id) && Enabled(c, step) && Spares(step, t, id)
    ensures Pends(Apply(c, step), t, id)
  {
  }

  lemma {:induction false} SparedCallPends(c: Channel, steps: seq<Step>, t: nat, id: nat)
    requires ChannelInv(c) && Pends(c, t, id) && RunFrom(c, steps).Some?
    requires forall i :: 0 <= i < |steps| ==> Spares(steps[i], t, id)
    ensures ChannelInv(RunFrom(c, steps).value) && Pends(RunFrom(c, steps).value, t, id)
    decreases |steps|
  {
    if steps != [] {
      SparedStep(c, steps[0], t, id);
      InvStep(c, steps[0]);
      SparedCallPends(Apply(c, steps[0]), steps[1..], t, id);
    }
  }

  /** The call has this answer, now or when it looks. */
  ghost predicate Answered(c: Channel, t: nat, id: nat, outcome: Outcome) {
    && id in c.sent && c.sent[id] == outcome && id !in c.pending
    && t in c.calls
    && (c.calls[t] == Registered(id) || c.calls[t] == Waiting(id) || c.calls[t] == Returned(id, outcome))
  }

  /** The step does not end the call `t` without an answer. */
  predicate LetsLive(step: Step, t: nat) {
    step != TimedOut(t) && step != WriterClosed(t) && step != WriteFailed(t)
  }

  lemma AnswerStays(c: Channel, step: Step, t: nat, id: nat, outcome: Outcome)
    requires IdsInv(c) && EntriesInv(c) && Answered(c, t, id, outcome) && Enabled(c, step) && LetsLive(step, t)
    ensures Answered(Apply(c, step), t, id, outcome)
  {
  }

  lemma {:induction false} RunKeepsAnswer(c: Channel, steps: seq<Step>, t: nat, id: nat, outcome: Outcome)
    requires ChannelInv(c) && Answered(c, t, id, outcome) && RunFrom(c, steps).Some?
    requires forall i :: 0 <= i < |steps| ==> LetsLive(steps[i], t)
    ensures Answered(RunFrom(c, steps).value, t, id, outcome)
    decreases |steps|
  {
    if steps != [] {
      AnswerStays(c, steps[0], t, id, outcome);
      InvStep(c, steps[0]);
      RunKeepsAnswer(Apply(c, steps[0]), steps[1..], t, id, outcome);
    }
  }

  lemma ResponseAnswers(d: Channel, frame: Frame, t: nat)
    requires Pends(d, t, frame.id) && Enabled(d, Response(frame))
    ensures Answered(Apply(d, Response(frame)), t, frame.id, frame.outcome)
  {
  }

  lemma AnsweredCallReturns(e: Channel, t: nat, id: nat, outcome: Outcome)
    requires Answered(e, t, id, outcome) && e.calls[t].Waiting?
    ensures Enabled(e, Received(t)) && Apply(e, Received(t)).calls[t] == Returned(id, outcome)
  {
  }

  /** In every run: the first response with the id of a pending call that was neither drained
      nor given up is the call's answer. It stays that whatever follows, and the call returns
      exactly it when it looks. */
  lemma FirstResponseIsTheAnswer(steps: seq<Step>, c: Channel, spared: seq<Step>, d: Channel, frame: Frame,
                                 rest: seq<Step>, e: Channel, t: nat)
    requires RunFrom(NEW_CHANNEL, steps) == Some(c) && Pends(c, t, frame.id)
    requires RunFrom(c, spared) == Some(d) && forall i :: 0 <= i < |spared| ==> Spares(spared[i], t, frame.id)
    requires !frame.outcome.Transport? && RunFrom(Apply(d, Response(frame)), rest) == Some(e)
    requires forall i :: 0 <= i < |rest| ==> LetsLive(rest[i], t)
    ensures Answered(e, t, frame.id, frame.outcome)
    ensures e.calls[t].Waiting? ==>
              && Enabled(e, Received(t))
              && Apply(e, Received(t)).calls[t] == Returned(frame.id, frame.outcome)
  {
    RunKeepsChannelInv(NEW_CHANNEL, steps);
    SparedCallPends(c, spared, t, frame.id);
    InvStep(d, Response(frame));
    ResponseAnswers(d, frame, t);
    RunKeepsAnswer(Apply(d, Response(frame)), rest, t, frame.id, frame.outcome);
    if e.calls[t].Waiting? {
      AnsweredCallReturns(e, t, frame.id, frame.outcome);
    }
  }

  lemma CallCanWait(c: Channel, t: nat) returns (d: Channel)
    requires !c.broken && t !in c.calls
    ensures Runs.Reaches(Next, c, d)
    ensures var id := c.nextId + 1;
            d == c.(nextId := id, pending := c.pending + {id}, calls := c.calls[t := Waiting(id)])
  {
    Runs.ReachesItself(Next, c);
    d := Runs.Then(Next, c, c, Check(t));
    d := Runs.Then(Next, c, d, AllocateId(t));
    d := Runs.Then(Next, c, d, InsertPending(t));
    d := Runs.Then(Next, c, d, Written(t));
  }

  /** On every live channel a new call can be made and get any answer. */
  lemma CallCanReturn(c: Channel, t: nat, outcome: Outcome) returns (e: Channel)
    requires !c.broken && t !in c.calls && !outcome.Transport?
    ensures Runs.Reaches(Next, c, e) && e.calls == c.calls[t := Returned(c.nextId + 1, outcome)] && !e.broken
  {
    var d := CallCanWait(c, t);
    e := Runs.Then(Next, c, d, Response(Frame(c.nextId + 1, outcome)));
    e := Runs.Then(Next, c, e, Received(t));
  }

  predicate HasEnded(s: CallState) {
    s.Returned? || s.Failed? || s.Refused?
  }

  /** No call depends on the plugin to end, nor on any other call: its own steps are enough. */
  lemma CallCanEnd(from: Channel, c: Channel, t: nat) returns (e: Channel)
    requires Runs.Reaches(Next, from, c) && t in c.calls
    ensures Runs.Reaches(Next, from, e) && t in e.calls && HasEnded(e.calls[t])
    ensures e.frames == c.frames && e.broken == c.broken && forall u :: u in c.calls && u != t ==>
              u in e.calls && e.calls[u] == c.calls[u]
    decreases match c.calls[t] case Checked => 4 case Allocated(_) => 3 case Registered(_) => 2 case Waiting(_) => 1
                               case _ => 0
  {
    if HasEnded(c.calls[t]) {
      e := c;
    } else {
      var step := match c.calls[t]
                  case Checked => AllocateId(t)
                  case Allocated(_) => InsertPending(t)
                  case Registered(_) => Written(t)
                  case _ => TimedOut(t);
      var d := Runs.Then(Next, from, c, step);
      e := CallCanEnd(from, d, t);
    }
  }

  /** A call that finds the writer closed fails and takes its entry along. */
  lemma CallCanFail(c: Channel, t: nat) returns (e: Channel)
    requires t in c.calls && c.calls[t].Registered?
    ensures Runs.Reaches(Next, c, e)
    ensures e == c.(writerOpen := false, pending := c.pending - {c.calls[t].id},
                    calls := c.calls[t := Failed(c.calls[t].id)])
  {
    Runs.ReachesItself(Next, c);
    e := Runs.Then(Next, c, c, CloseWriter);
    e := Runs.Then(Next, c, e, WriterClosed(t));
  }

  /** A call drained before its request was written fails, and its one-shot says that the channel
      is broken. */
  lemma DrainedCallCanFail(c: Channel, t: nat) returns (e: Channel)
    requires t in c.calls && c.calls[t].Registered? && c.calls[t].id in c.pending
    ensures Runs.Reaches(Next, c, e) && e.broken && e.pending == {}
    ensures e.calls == c.calls[t := Failed(c.calls[t].id)]
    ensures c.calls[t].id in e.sent && e.sent[c.calls[t].id] == Transport
  {
    Runs.ReachesItself(Next, c);
    e := Runs.Then(Next, c, c, MarkBroken);
    e := Runs.Then(Next, c, e, TakePending);
    e := Runs.Then(Next, c, e, WriteFailed(t));
  }

  /** The second half of a drain completes exactly the calls that are pending at that moment. */
  lemma DrainCompletesPending(steps: seq<Step>, c: Channel)
    requires RunFrom(NEW_CHANNEL, steps) == Some(c) && c.broken
    ensures var d := Apply(c, TakePending);
            && d.pending == {}
            && (forall id :: id in c.pending ==> id in d.sent && d.sent[id] == Transport && CompletionsOf(d, id) == 1)
            && (forall id :: id !in c.pending ==> (id in d.sent <==> id in c.sent))
            && (forall id :: id in c.sent ==> d.sent[id] == c.sent[id])
  {
    RunKeepsChannelInv(NEW_CHANNEL, steps);
  }

  /** A caller that was past the check of `broken` but not yet in the table. */
  predicate Early(c: Channel, t: nat) {
    t in c.calls && (c.calls[t].Checked? || c.calls[t].Allocated?)
  }

  predicate Unanswered(c: Channel, t: nat) {
    || Early(c, t)
    || (t in c.calls && (c.calls[t].Registered? || c.calls[t].Waiting?) && c.calls[t].id !in c.sent)
  }

  /** On a broken channel only the callers of `early` can still be without an answer. */
  ghost predicate OnlyUnanswered(c: Channel, early: set<nat>) {
    c.broken && forall t :: Unanswered(c, t) ==> t in early
  }

  lemma OnlyUnansweredStep(c: Channel, step: Step, early: set<nat>)
    requires OnlyUnanswered(c, early) && Enabled(c, step)
    ensures OnlyUnanswered(Apply(c, step), early)
  {
    var d := Apply(c, step);
    forall t | Unanswered(d, t) ensures t in early {
      assert Unanswered(c, t);
    }
  }

  lemma {:induction false} RunKeepsOnlyUnanswered(c: Channel, steps: seq<Step>, early: set<nat>)
    requires OnlyUnanswered(c, early) && RunFrom(c, steps).Some?
    ensures OnlyUnanswered(RunFrom(c, steps).value, early)
    decreases |steps|
  {
    if steps != [] {
      OnlyUnansweredStep(c, steps[0], early);
      RunKeepsOnlyUnanswered(Apply(c, steps[0]), steps[1..], early);
    }
  }

  predicate WaitsInVain(e: Channel, t: nat) {
    t in e.calls && e.calls[t].Waiting? && e.calls[t].id !in e.sent
  }

  /** Behind the drain of a broken channel nobody waits but callers that were early at it. */
  lemma DrainMissesOnlyEarly(steps: seq<Step>, c: Channel, more: seq<Step>, e: Channel, t: nat)
    requires RunFrom(NEW_CHANNEL, steps) == Some(c) && c.broken
    requires RunFrom(Apply(c, TakePending), more) == Some(e) && WaitsInVain(e, t)
    ensures Early(c, t)
  {
    RunKeepsChannelInv(NEW_CHANNEL, steps);
    var d, early := Apply(c, TakePending), set u | u in c.calls && Early(c, u);
    assert OnlyUnanswered(d, early);
    RunKeepsOnlyUnanswered(d, more, early);
    assert Unanswered(e, t);
  }

  /** A caller that has its id registers and waits. */
  lemma AllocatedCanWait(from: Channel, d: Channel, t: nat) returns (e: Channel)
    requires CallersInv(d) && t in d.calls && d.calls[t].Allocated? && Runs.Reaches(Next, from, d)
    ensures Runs.Reaches(Next, from, e) && WaitsInVain(e, t)
  {
    e := Runs.Then(Next, from, d, InsertPending(t));
    e := Runs.Then(Next, from, e, Written(t));
  }

  /** ... and every early caller can be one of them. */
  lemma DrainCanMissEarly(steps: seq<Step>, c: Channel, t: nat) returns (e: Channel)
    requires RunFrom(NEW_CHANNEL, steps) == Some(c) && c.broken && Early(c, t)
    ensures Runs.Reaches(Next, Apply(c, TakePending), e) && WaitsInVain(e, t)
  {
    RunKeepsChannelInv(NEW_CHANNEL, steps);
    var d := Apply(c, TakePending);
    IdsStep(c, TakePending);
    CallersStep(c, TakePending);
    Runs.ReachesItself(Next, d);
    if d.calls[t].Allocated? {
      e := AllocatedCanWait(d, d, t);
    } else {
      CallersStep(d, AllocateId(t));
      e := Runs.Then(Next, d, d, AllocateId(t));
      e := AllocatedCanWait(d, e, t);
    }
  }

  /** Some continuation leaves the caller waiting. */
  ghost predicate CanMiss(d: Channel, t: nat) {
    exists e :: Runs.Reaches(Next, d, e) && WaitsInVain(e, t)
  }

  /** A drain can miss exactly the callers that had seen the channel alive and had not yet
      entered the table. */
  lemma DrainMissesIff(steps: seq<Step>, c: Channel, t: nat)
    requires RunFrom(NEW_CHANNEL, steps) == Some(c) && c.broken
    ensures CanMiss(Apply(c, TakePending), t) <==> Early(c, t)
  {
    var d := Apply(c, TakePending);
    if Early(c, t) {
      var e := DrainCanMissEarly(steps, c, t);
    }
    if CanMiss(d, t) {
      var e :| Runs.Reaches(Next, d, e) && WaitsInVain(e, t);
      var more := Runs.StepsTo(Next, d, e);
      DrainMissesOnlyEarly(steps, c, more, e, t);
    }
  }

  lemma DrainedBehindCheck() returns (c: Channel)
    ensures Runs.Reaches(Next, NEW_CHANNEL, c)
    ensures c.broken && c.calls == map[7 := Checked] && c.nextId == 0 && c.pending == {} && c.sent == map[]
  {
    Runs.ReachesItself(Next, NEW_CHANNEL);
    c := Runs.Then(Next, NEW_CHANNEL, NEW_CHANNEL, Check(7));
    c := Runs.Then(Next, NEW_CHANNEL, c, MarkBroken);
    c := Runs.Then(Next, NEW_CHANNEL, c, TakePending);
  }

  /** A caller that read `broken` before the drain and registers after it is not drained: it
      waits on a dead channel until its own timeout. */
  lemma DrainCanMissACall() returns (steps: seq<Step>, c: Channel)
    ensures RunFrom(NEW_CHANNEL, steps) == Some(c)
    ensures c.broken && c.calls == map[7 := Waiting(1)] && c.pending == {1} && 1 !in c.sent
  {
    c := DrainedBehindCheck();
    c := Runs.Then(Next, NEW_CHANNEL, c, AllocateId(7));
    c := Runs.Then(Next, NEW_CHANNEL, c, InsertPending(7));
    c := Runs.Then(Next, NEW_CHANNEL, c, Written(7));
    steps := Runs.StepsTo(Next, NEW_CHANNEL, c);
  }
}
