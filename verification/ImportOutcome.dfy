/** How an import ends and what its end means (core/ab-engine/src/pipeline_bridge.rs:994-1396),
    over the runs of `PipelineBridge`. */
module ImportOutcome {
  import opened Common
  import opened PipelineBridge
  import Runs

  // ---- The outcome tells the truth ------------------------------------------------------------

  /** The step refuses the import: the plugin or the budget says no, or the store has the file
      already or has it no longer. */
  predicate Refuses(s: State, step: Step) {
    step.Task? &&
    match s.task
    case Loading => step.choice.Fails?
    case ReadingSchema => !step.choice.Succeeds?
    case Registering => StoreTable in s.tables
    case Parsing => !step.choice.Succeeds?
    case Freezing => !step.choice.Succeeds? || StoreTable !in s.tables
    case CheckingBudget => !step.choice.Succeeds?
    case _ => false
  }

  function Refusals(s: State, steps: seq<Step>): nat
    requires RunFrom(s, steps).Some?
    decreases |steps|
  {
    if steps == [] then 0 else
      (if Refuses(s, steps[0]) then 1 else 0) + Refusals(Apply(s, steps[0]), steps[1..])
  }

  predicate GivenUp(t: TaskState) {
    t.LoadExhausted? || t.Broken? || t.Undo?
  }

  /** Nothing is refused on the way to a ready file, and a failed one was refused once. */
  predicate TruthInv(t: TaskState, refusals: nat) {
    if InFinish(t) then
      && refusals <= 1 && (t.outcome.Ready? ==> refusals == 0) && (t.outcome.Failed? ==> refusals == 1)
    else refusals == if GivenUp(t) then 1 else 0
  }

  lemma BodyIsTrue(s: State, choice: Choice, refusals: nat)
    requires TruthInv(s.task, refusals) && !InFinish(s.task)
    ensures TruthInv(Body(s, choice).task, refusals + if Refuses(s, Task(choice)) then 1 else 0)
  {
  }

  lemma StepIsTrue(s: State, step: Step, refusals: nat)
    requires TruthInv(s.task, refusals) && Enabled(s, step)
    ensures TruthInv(Apply(s, step).task, refusals + if Refuses(s, step) then 1 else 0)
  {
    if step.Task? && !InFinish(s.task) {
      BodyIsTrue(s, step.choice, refusals);
    }
  }

  lemma {:induction false} RunIsTrue(s: State, steps: seq<Step>, refusals: nat)
    requires TruthInv(s.task, refusals) && RunFrom(s, steps).Some?
    ensures TruthInv(RunFrom(s, steps).value.task, refusals + Refusals(s, steps))
    decreases |steps|
  {
    if steps != [] {
      StepIsTrue(s, steps[0], refusals);
      RunIsTrue(Apply(s, steps[0]), steps[1..], refusals + if Refuses(s, steps[0]) then 1 else 0);
    }
  }

  /** Whoever interferes: a file is reported ready only if nothing was refused, and failed only
      if something was. Without a cancelled job it is one of the two. */
  lemma OutcomeTellsTheTruth(steps: seq<Step>, s: State)
    requires RunFrom(FRESH, steps) == Some(s) && s.task.Returned?
    ensures s.task.outcome.Ready? ==> Refusals(FRESH, steps) == 0
    ensures s.task.outcome.Failed? ==> Refusals(FRESH, steps) == 1
    ensures s.task.outcome.Cancelled? ==> s.flags.cancelled
    ensures !s.flags.cancelled ==>
              s.task.outcome == if Refusals(FRESH, steps) == 0 then Ready else Failed
  {
    RunIsTrue(FRESH, steps, 0);
    RunKeepsInv(FRESH, steps);
  }

  /** Left alone, an import can become ready. */
  lemma ImportCanBeReady() returns (s: State)
    ensures Runs.Reaches(Next, FRESH, s) && s.task == Returned(Ready) && !s.flags.cancelled
    ensures s.cancels == map[] && s.unloads == map[]
    ensures s.tables == {StoreTable, FrozenTable, PathsTable, IndexTable}
  {
    Runs.ReachesItself(Next, FRESH);
    s := Runs.Then(Next, FRESH, FRESH, Task(Succeeds));
    s := Runs.Then(Next, FRESH, s, Task(Succeeds));
    s := ReachesParse(FRESH, s);
    s := GetsReady(FRESH, s);
  }

  lemma GetsReady(from: State, s: State) returns (e: State)
    requires Runs.Reaches(Next, from, s) && s.task == Parsing && StoreTable in s.tables
    requires !s.flags.cancelled && !s.flags.cleanedUp
    ensures Runs.Reaches(Next, from, e) && e.task == Returned(Ready) && !e.flags.cancelled
    ensures e.tables == s.tables + {FrozenTable} && e.cancels == s.cancels && e.unloads == s.unloads
  {
    e := ParseAndFreeze(from, s);
    e := Publish(from, e);
    e := FinishClean(from, e);
  }

  // ---- A cancel in time --------------------------------------------------------------------------

  /** The import has not passed its last look at the flag. */
  predicate InTime(t: TaskState) {
    || t.Loading? || t.LoadExhausted? || t.ReadingSchema? || t.Registering? || t.RecordingPath? || t.Parsing?
    || t.Freezing? || t.Gate? || t.Rollback? || t.Broken?
  }

  predicate WillBeCancelled(s: State) {
    s.flags.cancelled && (InTime(s.task) || (InFinish(s.task) && s.task.outcome.Cancelled?))
  }

  lemma CancelledBody(s: State, choice: Choice)
    requires s.flags.cancelled && InTime(s.task)
    ensures WillBeCancelled(Body(s, choice))
  {
  }

  lemma CancelledFinish(s: State)
    requires WillBeCancelled(s) && InFinish(s.task)
    ensures WillBeCancelled(Finish(s))
  {
  }

  /** Calls keep a cancelled job cancelled and leave its task alone. */
  lemma CallsKeepCancelled(s: State, step: Step)
    requires Enabled(s, step) && !step.Task?
    ensures Apply(s, step).task == s.task && (s.flags.cancelled ==> Apply(s, step).flags.cancelled)
  {
  }

  lemma CancelledStep(s: State, step: Step)
    requires WillBeCancelled(s) && Enabled(s, step)
    ensures WillBeCancelled(Apply(s, step))
  {
    if !step.Task? {
      CallsKeepCancelled(s, step);
    } else if InFinish(s.task) {
      CancelledFinish(s);
    } else {
      CancelledBody(s, step.choice);
    }
  }

  lemma {:induction false} RunIsCancelled(s: State, steps: seq<Step>)
    requires WillBeCancelled(s) && RunFrom(s, steps).Some?
    ensures WillBeCancelled(RunFrom(s, steps).value)
    decreases |steps|
  {
    if steps != [] {
      CancelledStep(s, steps[0]);
      RunIsCancelled(Apply(s, steps[0]), steps[1..]);
    }
  }

  /** A job cancelled before its last look at the flag ends cancelled, whatever its plugin says. */
  lemma CancelInTimeCancels(s: State, steps: seq<Step>, e: State)
    requires s.flags.cancelled && InTime(s.task) && RunFrom(s, steps) == Some(e) && e.task.Returned?
    ensures e.task.outcome == Cancelled
  {
    RunIsCancelled(s, steps);
  }

  /** A cancel behind that look no longer changes the outcome. */
  lemma {:induction false} LateCancelIsIgnored(s: State, steps: seq<Step>, e: State)
    requires IsLate(s.task) && RunFrom(s, steps) == Some(e)
    ensures IsLate(e.task) && (e.task.Returned? ==> !e.task.outcome.Cancelled?)
    decreases |steps|
  {
    if steps != [] {
      LateCancelIsIgnored(Apply(s, steps[0]), steps[1..], e);
    }
  }

  predicate IsLate(t: TaskState) {
    t.CheckingBudget? || t.Publishing? || t.Undo? || (InFinish(t) && !t.outcome.Cancelled?)
  }

  // ---- A cancelled import ends ---------------------------------------------------------------------

  /** How many actions the import has left at most, once it is cancelled. */
  function StepsLeft(t: TaskState, discard: nat): nat {
    match t
    case Begin => 24
    case Indexed => 23
    case Loading => 22
    case ReadingSchema => 21
    case Registering => 20
    case RecordingPath => 19
    case Parsing => 18
    case Freezing => 17
    case Gate => 16
    case CheckingBudget => 15
    case LoadExhausted => 14
    case Broken(undo) => 12 + |undo|
    case Undo(left) => 11 + |left|
    case Rollback => 11
    case Publishing => 11
    case SendDone(_) => 10
    case Unregister(_) => 9
    case CheckFlag(_) => 8
    case SwapFlag(_) => 7
    case Discard(_) => 1 + discard
    case Returned(_) => 0
  }

  function Left(s: State): nat {
    StepsLeft(s.task, |s.flags.discardLeft|)
  }

  lemma BodyKeepsFlag(s: State, choice: Choice)
    ensures Body(s, choice).flags.cancelled == s.flags.cancelled
  {
  }

  lemma SwapKeepsFlag(f: Flags, who: Winner)
    ensures Swapped(f, who).cancelled == f.cancelled
  {
  }

  lemma FinishKeepsFlag(s: State)
    ensures Finish(s).flags.cancelled == s.flags.cancelled
  {
    match s.task
    case SwapFlag(_) => SwapKeepsFlag(s.flags, TheTask);
    case _ =>
  }

  lemma BodyAdvances(s: State, choice: Choice)
    requires !InFinish(s.task)
    ensures Left(Body(s, choice)) <= Left(s) && (s.flags.cancelled ==> Left(Body(s, choice)) < Left(s))
  {
  }

  lemma FinishAdvances(s: State)
    requires InFinish(s.task) && !s.task.Returned?
    ensures Left(Finish(s)) < Left(s)
  {
  }

  /** Calls can only help with a running discard. */
  lemma CallsDoNotHinder(s: State, step: Step)
    requires FlagsInv(s) && Enabled(s, step) && !step.Task?
    ensures Left(Apply(s, step)) <= Left(s)
  {
  }

  lemma StepAdvances(s: State, step: Step)
    requires FlagsInv(s) && Enabled(s, step)
    ensures Left(Apply(s, step)) <= Left(s)
    ensures step.Task? && s.flags.cancelled && !s.task.Returned? ==> Left(Apply(s, step)) < Left(s)
    ensures s.flags.cancelled ==> Apply(s, step).flags.cancelled
  {
    if !step.Task? {
      CallsKeepCancelled(s, step);
      CallsDoNotHinder(s, step);
    } else {
      BodyKeepsFlag(s, step.choice);
      FinishKeepsFlag(s);
      if !InFinish(s.task) {
        BodyAdvances(s, step.choice);
      } else if !s.task.Returned? {
        FinishAdvances(s);
      }
    }
  }

  function Actions(steps: seq<Step>): nat {
    if steps == [] then 0 else (if steps[0].Task? then 1 else 0) + Actions(steps[1..])
  }

  lemma {:induction false} RunAdvances(s: State, steps: seq<Step>, e: State)
    requires Inv(s) && RunFrom(s, steps) == Some(e)
    ensures Left(e) <= Left(s)
    ensures s.flags.cancelled ==> e.flags.cancelled && (e.task.Returned? || Left(e) + Actions(steps) <= Left(s))
    decreases |steps|
  {
    if steps != [] {
      var d := Apply(s, steps[0]);
      InvStep(s, steps[0]);
      StepAdvances(s, steps[0]);
      RunAdvances(d, steps[1..], e);
      if s.flags.cancelled {
        ReturnedStays(d, steps[1..], e);
      }
    }
  }

  lemma {:induction false} ReturnedStays(s: State, steps: seq<Step>, e: State)
    requires RunFrom(s, steps) == Some(e)
    ensures s.task.Returned? ==> e.task == s.task
    decreases |steps|
  {
    if steps != [] {
      ReturnedStays(Apply(s, steps[0]), steps[1..], e);
    }
  }

  /** Whatever plugin, store and other calls do, a cancelled import is over after 24 more of its own
      actions: in particular it does not retry for ever. */
  lemma CancelledImportEnds(steps: seq<Step>, s: State, more: seq<Step>, e: State)
    requires RunFrom(FRESH, steps) == Some(s) && s.flags.cancelled && RunFrom(s, more) == Some(e)
    ensures Actions(more) >= 24 ==> e.task.Returned?
  {
    RunKeepsInv(FRESH, steps);
    RunAdvances(FRESH, steps, s);
    RunAdvances(s, more, e);
  }

  // ---- Waiting cancels -----------------------------------------------------------------------------

  /** Who has been woken without a time-out has seen the end of the import. */
  predicate Patient(s: State) {
    !s.flags.swappedEarly && forall t :: t in s.cancels && s.cancels[t].Woken? ==> s.flags.done
  }

  lemma PatientStep(s: State, step: Step)
    requires FlagsInv(s) && Patient(s) && Enabled(s, step) && !step.CancelTimeout?
    ensures Patient(Apply(s, step))
  {
  }

  lemma {:induction false} RunIsPatient(s: State, steps: seq<Step>)
    requires Inv(s) && Patient(s) && RunFrom(s, steps).Some?
    requires forall i :: 0 <= i < |steps| ==> !steps[i].CancelTimeout?
    ensures Patient(RunFrom(s, steps).value)
    decreases |steps|
  {
    if steps != [] {
      PatientStep(s, steps[0]);
      InvStep(s, steps[0]);
      RunIsPatient(Apply(s, steps[0]), steps[1..]);
    }
  }

  /** As long as no cancel gives up waiting, no discard starts before the import is done; so a
      call that observed the job leaves nothing behind. */
  lemma PatientCancelsLeaveNothing(steps: seq<Step>, s: State)
    requires RunFrom(FRESH, steps) == Some(s)
    requires forall i :: 0 <= i < |steps| ==> !steps[i].CancelTimeout?
    ensures !s.flags.swappedEarly
    ensures Quiet(s) && Observed(s) ==> s.tables == {}
  {
    RunIsPatient(FRESH, steps);
    ObservedImportLeavesNothing(steps, s);
  }

  // ---- The job registry ----------------------------------------------------------------------------

  predicate SawEnd(u: UnloadState) {
    (u.Removing? || u.UnloadDone?) && u.effective
  }

  /** Whoever is through with the job has found or left it unregistered, for good. */
  predicate GoneInv(s: State) {
    && (s.flags.inJobs ==> Registered(s.task))
    && (s.flags.inJobs ==> !s.task.CheckFlag? && !s.task.SwapFlag? && !s.task.Discard? && !s.task.Returned?)
    && (forall t :: t in s.cancels && s.cancels[t].CancelDone? ==> !s.flags.inJobs && Registered(s.task))
    && (forall t :: t in s.unloads && SawEnd(s.unloads[t]) ==> !s.flags.inJobs && Registered(s.task))
  }

  /** The body of the import touches the registry once, when the job is inserted. */
  lemma BodyMovesOn(s: State, choice: Choice)
    requires !InFinish(s.task)
    ensures var d := Body(s, choice);
            && d.cancels == s.cancels && d.unloads == s.unloads
            && d.flags == (if s.task.Indexed? then s.flags.(inJobs := true) else s.flags)
            && (Registered(s.task) || s.task.Indexed? <==> Registered(d.task))
            && (InFinish(d.task) ==> d.task.SendDone?)
  {
  }

  lemma FinishKeepsGone(s: State)
    requires GoneInv(s) && InFinish(s.task)
    ensures GoneInv(Finish(s))
  {
  }

  lemma TaskKeepsGone(s: State, choice: Choice)
    requires GoneInv(s)
    ensures GoneInv(Apply(s, Task(choice)))
  {
    if InFinish(s.task) {
      FinishKeepsGone(s);
    } else {
      BodyMovesOn(s, choice);
    }
  }

  lemma GoneStep(s: State, step: Step)
    requires Inv(s) && GoneInv(s) && Enabled(s, step)
    ensures GoneInv(Apply(s, step))
  {
    match step
    case Task(choice) => TaskKeepsGone(s, choice);
    case UnloadStep(t) => assert UnloadInv(s, s.unloads[t]);
    case CancelStep(t) => assert CancelsInv(s) && JobInv(s);
    case _ =>
  }

  lemma {:induction false} RunKeepsGone(s: State, steps: seq<Step>)
    requires Inv(s) && GoneInv(s) && RunFrom(s, steps).Some?
    ensures GoneInv(RunFrom(s, steps).value)
    decreases |steps|
  {
    if steps != [] {
      GoneStep(s, steps[0]);
      InvStep(s, steps[0]);
      RunKeepsGone(Apply(s, steps[0]), steps[1..]);
    }
  }

  /** When the import has returned, a cancel is done or an unload saw the job, no job is
      registered for the file any more. */
  lemma NoJobStaysRegistered(steps: seq<Step>, s: State)
    requires RunFrom(FRESH, steps) == Some(s)
    requires s.task.Returned? || (exists t :: t in s.cancels && s.cancels[t].CancelDone?)
             || (exists t :: t in s.unloads && s.unloads[t] == UnloadDone(true))
    ensures !s.flags.inJobs
  {
    RunKeepsGone(FRESH, steps);
  }
}
