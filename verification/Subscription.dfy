/** One parse from the subscription of its forward task on (core/ab-engine/src/host_bridge.rs:
    127-181, core/ab-host/src/session.rs:439-466). The validator is reset somewhere behind the
    subscription, so batches of the file may already be under way by then. */
module Subscription {
  import opened Batches
  import opened Common
  import opened Protocol
  import opened HostBridge
  import Runs
  import opened Store

  datatype Act = Do(step: Step) | ResetSeq

  predicate CanAct(job: Job, c: Link, act: Act) {
    act.Do? ==> Enabled(job, c, act.step)
  }

  function Acted(job: Job, c: Link, act: Act): Link
    requires CanAct(job, c, act)
  {
    match act
    case Do(step) => Apply(job, c, step)
    case ResetSeq => c.(pump := c.pump.(lastSeq := c.pump.lastSeq - {job.fileId}))
  }

  function NextAct(job: Job): (Link, Act) -> Option<Link> {
    (c: Link, act: Act) => if CanAct(job, c, act) then Some(Acted(job, c, act)) else None
  }

  function RunActs(job: Job, c: Link, acts: seq<Act>): Option<Link> {
    Runs.RunFrom(NextAct(job), c, acts)
  }

  /** The subscription: whatever the validator has seen before, the file is registered and empty. */
  function Subscribed(lastSeq: map<string, nat>, invalidJson: nat): Link {
    Link(Pump(0, false, invalidJson, lastSeq), Path([], None, true, [], [], []),
         Tail(true, FileLog(FileState.Registered, 0, []), None, 0, 0), None)
  }

  function Done(steps: seq<Step>): (acts: seq<Act>)
    ensures |acts| == |steps|
  {
    seq(|steps|, i requires 0 <= i < |steps| => Do(steps[i]))
  }

  lemma {:induction false} StepsAreActs(job: Job, c: Link, steps: seq<Step>)
    ensures RunActs(job, c, Done(steps)) == RunFrom(job, c, steps)
    decreases |steps|
  {
    if steps != [] {
      var acts := Done(steps);
      assert acts[0] == Do(steps[0]) && acts[1..] == Done(steps[1..]);
      if Enabled(job, c, steps[0]) {
        StepsAreActs(job, Apply(job, c, steps[0]), steps[1..]);
      }
    }
  }

  /** With the reset right behind the subscription, whatever the validator has seen before, the
      runs are those of a parse that starts with number 0. */
  lemma ResetStartsTheParse(job: Job, lastSeq: map<string, nat>, invalidJson: nat, steps: seq<Step>)
    ensures RunActs(job, Subscribed(lastSeq, invalidJson), [ResetSeq] + Done(steps)) ==
            RunFrom(job, Start(job, lastSeq, invalidJson), steps)
  {
    var acts := [ResetSeq] + Done(steps);
    assert acts[1..] == Done(steps);
    StepsAreActs(job, Start(job, lastSeq, invalidJson), steps);
  }

  // ---- Subsequences ---------------------------------------------------------------------------

  predicate IsSub<T(==)>(a: seq<T>, b: seq<T>)
    decreases |b|
  {
    if a == [] then true else if b == [] then false else
      || IsSub(a, b[..|b| - 1])
      || (a[|a| - 1] == b[|b| - 1] && IsSub(a[..|a| - 1], b[..|b| - 1]))
  }

  lemma SubSnoc<T>(a: seq<T>, b: seq<T>, x: T)
    requires IsSub(a, b)
    ensures IsSub(a, b + [x]) && IsSub(a + [x], b + [x])
  {
    InitOfSnoc(a, x);
    InitOfSnoc(b, x);
  }

  /** One element less is still a subsequence. */
  lemma {:induction false} SubDrop<T>(a: seq<T>, x: T, c: seq<T>, b: seq<T>)
    requires IsSub(a + [x] + c, b)
    ensures IsSub(a + c, b)
    decreases |b|
  {
    var s := a + [x] + c;
    var init := b[..|b| - 1];
    assert b == init + [b[|b| - 1]];
    if IsSub(s, init) {
      SubDrop(a, x, c, init);
      SubSnoc(a + c, init, b[|b| - 1]);
    } else if c == [] {
      assert s[..|s| - 1] == a && a + c == a;
      SubSnoc(a, init, b[|b| - 1]);
    } else {
      var front := c[..|c| - 1];
      assert s[..|s| - 1] == a + [x] + front;
      SubDrop(a, x, front, init);
      SubSnoc(a + front, init, b[|b| - 1]);
      assert a + c == a + front + [b[|b| - 1]];
    }
  }

  lemma {:induction false} SubFront<T>(a: seq<T>, c: seq<T>, b: seq<T>)
    requires IsSub(a + c, b)
    ensures IsSub(a, b)
    decreases |c|
  {
    if c == [] {
      assert a + c == a;
    } else {
      assert a + c == a + [c[0]] + c[1..];
      SubDrop(a, c[0], c[1..], b);
      SubFront(a, c[1..], b);
    }
  }

  lemma {:induction false} SubOfLonger<T>(a: seq<T>, b: seq<T>, longer: seq<T>)
    requires IsSub(a, b) && b <= longer
    ensures IsSub(a, longer)
    decreases |longer|
  {
    if |b| < |longer| {
      var n := |longer| - 1;
      var init, last := longer[..n], longer[n];
      assert b <= init && init + [last] == longer;
      SubOfLonger(a, b, init);
      SubSnoc(a, init, last);
    } else {
      assert b == longer;
    }
  }

  /** Batches left out show in the number of records, unless they are empty. */
  lemma {:induction false} SubRecords(a: seq<RecordBatch>, b: seq<RecordBatch>)
    requires IsSub(a, b)
    ensures |RecordsIn(a)| <= |RecordsIn(b)|
    ensures |RecordsIn(a)| == |RecordsIn(b)| ==> RecordsIn(a) == RecordsIn(b)
    decreases |b|
  {
    if a != [] {
      if IsSub(a, b[..|b| - 1]) {
        SubRecords(a, b[..|b| - 1]);
      } else {
        SubRecords(a[..|a| - 1], b[..|b| - 1]);
      }
    }
  }

  // ---- What is stored or under way -----------------------------------------------------------------

  /** `taken` are batches the store has appended; with what is under way they are some of the
      batches that were read, in order. */
  ghost predicate Takes(taken: seq<RecordBatch>, v: View, open: bool) {
    && RecordsIn(taken) == v.log.received && IsSub(taken, v.all)
    && (open && !v.failed ==> IsSub(taken + v.under, v.all))
  }

  lemma MovesTake(fileId: string, v: View, w: View, ch: Change, taken: seq<RecordBatch>, open: bool, openAfter: bool)
    returns (after: seq<RecordBatch>)
    requires Moves(fileId, v, w, ch) && Takes(taken, v, open)
    requires (openAfter ==> open) && (ch.Lose? ==> !openAfter) && (ch.Take? ==> open)
    ensures Takes(after, w, openAfter)
  {
    after := taken;
    match ch
    case Keep =>
    case Accept(b, delivered) =>
      SubSnoc(taken, v.all, b);
      if open && !v.failed {
        SubSnoc(taken + v.under, v.all, b);
        SumAssoc(taken, v.under, [b]);
      }
    case Take(b) =>
      if !w.failed {
        after := taken + [b];
        RecordsInSnoc(taken, b);
        SumAssoc(taken, [b], w.under);
        SubFront(after, w.under, v.all);
      }
    case Lose =>
  }

  ghost predicate Stores(job: Job, c: Link) {
    exists taken :: Takes(taken, ViewOf(job, c), c.tail.sinkOpen)
  }

  lemma StepKeepsStored(job: Job, c: Link, step: Step)
    requires FilteredInv(job, c) && Stores(job, c) && Enabled(job, c, step)
    ensures Stores(job, Apply(job, c, step))
  {
    var d := Apply(job, c, step);
    var ch := StepMoves(job, c, step);
    if d.tail.sinkOpen {
      OnceClosedStaysClosed(job, c, step);
    }
    var taken :| Takes(taken, ViewOf(job, c), c.tail.sinkOpen);
    var after := MovesTake(job.fileId, ViewOf(job, c), ViewOf(job, d), ch, taken, c.tail.sinkOpen, d.tail.sinkOpen);
  }

  lemma ResetKeepsStored(job: Job, c: Link)
    requires Stores(job, c)
    ensures Stores(job, Acted(job, c, ResetSeq))
  {
    var taken :| Takes(taken, ViewOf(job, c), c.tail.sinkOpen);
    assert Takes(taken, ViewOf(job, Acted(job, c, ResetSeq)), c.tail.sinkOpen);
  }

  lemma {:induction false} RunKeepsStored(job: Job, c: Link, acts: seq<Act>)
    requires FilteredInv(job, c) && Stores(job, c) && RunActs(job, c, acts).Some?
    ensures var e := RunActs(job, c, acts).value;
            FilteredInv(job, e) && Stores(job, e)
    decreases |acts|
  {
    if acts != [] {
      if acts[0].Do? {
        FilteredStep(job, c, acts[0].step);
        StepKeepsStored(job, c, acts[0].step);
      } else {
        ResetKeepsStored(job, c);
      }
      RunKeepsStored(job, Acted(job, c, acts[0]), acts[1..]);
    }
  }

  lemma NothingStoredYet(job: Job, lastSeq: map<string, nat>, invalidJson: nat)
    ensures FilteredInv(job, Subscribed(lastSeq, invalidJson)) && Stores(job, Subscribed(lastSeq, invalidJson))
  {
    var s := Subscribed(lastSeq, invalidJson);
    assert UnderWay(job.fileId, s.path) == [];
    assert Takes([], ViewOf(job, s), true);
  }

  /** What the store holds are the records of some of the batches that the plugin wrote. */
  lemma StoredAreSome(job: Job, c: Link) returns (taken: seq<RecordBatch>)
    requires Stores(job, c)
    ensures RecordsIn(taken) == c.tail.log.received && IsSub(taken, SentIn(job.fileId, job.sent, |job.sent|))
  {
    taken :| Takes(taken, ViewOf(job, c), c.tail.sinkOpen);
    SentInIsPrefix(job.fileId, job.sent, Handled(job, c.pump), |job.sent|);
    SubOfLonger(taken, ViewOf(job, c).all, SentIn(job.fileId, job.sent, |job.sent|));
  }

  /** The verdict lets a log through only with the declared number of records. */
  lemma ReadyIsCounted(job: Job, c: Link, dropsRead: nat, total: nat, log: FileLog)
    requires Finished(c) && c.response == Some(Ok(total)) && VerdictOf(job, c, dropsRead) == Ready(log)
    ensures log.received == c.tail.log.received && |log.received| == total && log.state == Frozen
  {
  }

  /** From the subscription on, wherever the validator is reset and whatever is dropped or was
      under way before: an import that becomes ready with the true total of everything the
      plugin wrote holds all of it, in order. */
  lemma ReadyMeansNothingMissing(job: Job, lastSeq: map<string, nat>, invalidJson: nat, acts: seq<Act>, c: Link,
                                 dropsRead: nat, log: FileLog)
    requires RunActs(job, Subscribed(lastSeq, invalidJson), acts) == Some(c) && Finished(c)
    requires c.response == Some(Ok(|SentRecords(job)|)) && VerdictOf(job, c, dropsRead) == Ready(log)
    ensures log.received == SentRecords(job) && log.state == Frozen
  {
    NothingStoredYet(job, lastSeq, invalidJson);
    RunKeepsStored(job, Subscribed(lastSeq, invalidJson), acts);
    var taken := StoredAreSome(job, c);
    SubRecords(taken, SentIn(job.fileId, job.sent, |job.sent|));
    ReadyIsCounted(job, c, dropsRead, |SentRecords(job)|, log);
  }
}
