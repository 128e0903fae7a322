/** One import job of the server (core/ab-server/src/jobs.rs:82-262): its own run against any
    number of cancel requests. A step is one lock section or atomic operation. */
module Jobs {
  import opened Common
  import Runs

  datatype JobState = Queued | Running | Completed | Failed | Cancelled

  predicate Terminal(j: JobState) {
    j.Completed? || j.Failed? || j.Cancelled?
  }

  /** `spawn_import` up to `Waiting`, then `run_import` over the paths from 0 on. */
  datatype TaskState =
    | Unborn
    | Inserted                      // job visible, its flag not yet
    | Waiting                       // for a permit
    | Permitted
    | Marking
    | Looping(next: nat)
    | Starting(next: nat)           // flag seen clear
    | Importing(next: nat)
    | Deciding(failed: bool, stopped: bool)
    | Finishing(state: JobState)
    | Unflagging
    | Gone

  datatype CancelState = LookedUp(found: bool) | Answered(flipped: bool, found: bool)

  /** `flag` is the shared flag, `flagListed` says that requests can find it. */
  datatype State = State(
    paths: nat,
    job: Option<JobState>,
    task: TaskState,
    flag: bool,
    flagListed: bool,
    inflight: bool,
    started: nat,
    cancels: map<nat, CancelState>)

  datatype Step = Task(succeeds: bool) | CancelFlag(t: nat) | CancelJob(t: nat) | TakeInflight

  /** Cancelled is kept once it has been shown. */
  function Finished(job: Option<JobState>, state: JobState): Option<JobState> {
    if job.None? || (job.value.Cancelled? && !state.Cancelled?) then job else Some(state)
  }

  function Run(s: State, succeeds: bool): State {
    match s.task
    case Unborn => s.(job := Some(Queued), task := Inserted)
    case Inserted => s.(flagListed := true, task := Waiting)
    case Waiting => s.(task := Permitted)
    case Permitted => s.(task := if s.flag then Finishing(Cancelled) else Marking)
    case Marking => s.(job := if s.job == Some(Queued) then Some(Running) else s.job, task := Looping(0))
    case Looping(k) =>
      s.(task := if k >= s.paths then Deciding(false, false)
                 else if s.flag then Deciding(false, true) else Starting(k))
    case Starting(k) => s.(inflight := true, started := s.started + 1, task := Importing(k))
    case Importing(k) =>
      s.(inflight := false, task := if succeeds then Looping(k + 1) else Deciding(true, false))
    case Deciding(failed, stopped) =>
      s.(task := Finishing(if failed then Failed else if stopped || s.flag then Cancelled else Completed))
    case Finishing(state) => s.(job := Finished(s.job, state), task := Unflagging)
    case Unflagging => s.(flagListed := false, task := Gone)
    case Gone => s
  }

  predicate Enabled(s: State, step: Step) {
    match step
    case Task(_) => true
    case CancelFlag(t) => t !in s.cancels
    case CancelJob(t) => t in s.cancels && s.cancels[t].LookedUp?
    case TakeInflight => true
  }

  function Apply(s: State, step: Step): State
    requires Enabled(s, step)
  {
    match step
    case Task(succeeds) => Run(s, succeeds)
    case CancelFlag(t) =>
      s.(flag := s.flag || s.flagListed, cancels := s.cancels[t := LookedUp(s.flagListed)])
    case CancelJob(t) =>
      var flips := s.job == Some(Queued);
      s.(job := if flips then Some(Cancelled) else s.job,
         cancels := s.cancels[t := Answered(flips, s.cancels[t].found)])
    case TakeInflight => s.(inflight := false)
  }

  /** A cancel that found the flag and turned the queued job over. */
  predicate Flipped(c: CancelState) {
    c.Answered? && c.flipped && c.found
  }

  /** A cancel that missed the flag and turned the queued job over. */
  predicate FlippedBlindly(c: CancelState) {
    c.Answered? && c.flipped && !c.found
  }

  predicate WorksOnPaths(t: TaskState) {
    t.Looping? || t.Starting? || t.Importing? || t.Deciding?
  }

  predicate Ending(t: TaskState) {
    t.Unflagging? || t.Gone?
  }

  ghost predicate TaskInv(s: State) {
    && (s.job.None? <==> s.task.Unborn?)
    && (s.flagListed <==> !s.task.Unborn? && !s.task.Inserted? && !s.task.Gone?)
    && (s.inflight ==> s.task.Importing?)
    && (s.job == Some(Queued) ==> s.started == 0 && !WorksOnPaths(s.task))
    && (s.job == Some(Running) ==> WorksOnPaths(s.task) || s.task.Finishing?)
    && (s.job.Some? && (s.job.value.Completed? || s.job.value.Failed?) ==> Ending(s.task))
    && (Ending(s.task) ==> s.job.Some? && Terminal(s.job.value))
    && (s.task.Finishing? ==> Terminal(s.task.state))
    && (s.started > 0 ==> WorksOnPaths(s.task) || s.task.Finishing? || Ending(s.task))
    && (s.job == Some(Queued) && s.task.Finishing? ==> s.flag)
  }

  /** A flip that found the flag came before any path was started, and the flag stops them all. */
  ghost predicate FlipInv(s: State) {
    && (forall t :: t in s.cancels && s.cancels[t].found ==> s.flag)
    && (forall t :: t in s.cancels && Flipped(s.cancels[t]) ==> NothingStarts(s))
  }

  predicate NothingStarts(s: State) {
    s.flag && s.started == 0 && !s.task.Starting? && !s.task.Importing? && s.job == Some(Cancelled)
  }

  lemma TaskStep(s: State, step: Step)
    requires TaskInv(s) && Enabled(s, step)
    ensures TaskInv(Apply(s, step))
  {
  }

  lemma FlipStep(s: State, step: Step)
    requires TaskInv(s) && FlipInv(s) && Enabled(s, step)
    ensures FlipInv(Apply(s, step))
  {
  }

  // ---- Runs -----------------------------------------------------------------------------------------

  function Next(s: State, step: Step): Option<State> {
    if Enabled(s, step) then Some(Apply(s, step)) else None
  }

  function RunFrom(s: State, steps: seq<Step>): Option<State> {
    Runs.RunFrom(Next, s, steps)
  }

  function New(paths: nat): State {
    State(paths, None, Unborn, false, false, false, 0, map[])
  }

  lemma {:induction false} RunKeepsInv(s: State, steps: seq<Step>)
    requires TaskInv(s) && FlipInv(s) && RunFrom(s, steps).Some?
    ensures TaskInv(RunFrom(s, steps).value) && FlipInv(RunFrom(s, steps).value)
    decreases |steps|
  {
    if steps != [] {
      TaskStep(s, steps[0]);
      FlipStep(s, steps[0]);
      RunKeepsInv(Apply(s, steps[0]), steps[1..]);
    }
  }

  lemma {:induction false} TerminalStays(s: State, steps: seq<Step>)
    requires TaskInv(s) && s.job.Some? && Terminal(s.job.value) && RunFrom(s, steps).Some?
    ensures RunFrom(s, steps).value.job == s.job
    decreases |steps|
  {
    if steps != [] {
      TaskStep(s, steps[0]);
      TerminalStays(Apply(s, steps[0]), steps[1..]);
    }
  }

  /** A terminal state that has once been reached stays for ever, whoever comes. */
  lemma TerminalStateIsFinal(paths: nat, steps: seq<Step>, s: State, more: seq<Step>, later: State)
    requires RunFrom(New(paths), steps) == Some(s) && RunFrom(s, more) == Some(later)
    requires s.job.Some? && Terminal(s.job.value)
    ensures later.job == s.job
  {
    RunKeepsInv(New(paths), steps);
    TerminalStays(s, more);
  }

  /** A job that a cancel turned over while it was queued starts no path, provided the cancel
      found the flag; and when the run has ended the job is over and nothing is left behind. */
  lemma CancelledWhileQueuedStartsNothing(paths: nat, steps: seq<Step>, s: State)
    requires RunFrom(New(paths), steps) == Some(s)
    ensures (exists t :: t in s.cancels && Flipped(s.cancels[t])) ==> s.started == 0 && s.job == Some(Cancelled)
    ensures s.task.Gone? ==> !s.flagListed && !s.inflight && s.job.Some? && Terminal(s.job.value)
  {
    RunKeepsInv(New(paths), steps);
  }

  function StepsToImport(t: TaskState): nat {
    match t
    case Inserted => 6
    case Waiting => 5
    case Permitted => 4
    case Marking => 3
    case Looping(_) => 2
    case Starting(_) => 1
    case _ => 0
  }

  /** Without the flag a job with paths comes to import its first one, whatever it is shown as. */
  lemma {:induction false} ReachesImport(from: State, s: State) returns (next: State)
    requires Runs.Reaches(Next, from, s) && StepsToImport(s.task) > 0 && !s.flag && s.started == 0
    requires s.paths > 0 && (s.task.Looping? || s.task.Starting? ==> s.task.next == 0)
    ensures Runs.Reaches(Next, from, next) && next.task == Importing(0) && next.started == 1 && !next.flag
    ensures s.job == Some(Cancelled) ==> next.job == s.job
    decreases StepsToImport(s.task)
  {
    next := Runs.Then(Next, from, s, Task(true));
    if !next.task.Importing? {
      next := ReachesImport(from, next);
    }
  }

  /** A cancel between the insertion of the job and that of its flag shows the job as cancelled,
      yet the paths are imported all the same. */
  lemma BlindCancelStartsPaths(paths: nat) returns (steps: seq<Step>, s: State)
    requires paths > 0
    ensures RunFrom(New(paths), steps) == Some(s)
    ensures s.job == Some(Cancelled) && s.started == 1 && !s.flag
  {
    Runs.ReachesItself(Next, New(paths));
    s := Runs.Then(Next, New(paths), New(paths), Task(true));
    s := Runs.Then(Next, New(paths), s, CancelFlag(7));
    s := Runs.Then(Next, New(paths), s, CancelJob(7));
    s := ReachesImport(New(paths), s);
    steps := Runs.StepsTo(Next, New(paths), s);
  }

  /** Some continuation imports a path. */
  ghost predicate CanImport(d: State) {
    exists e :: Runs.Reaches(Next, d, e) && e.task.Importing?
  }

  predicate NoImport(s: State) {
    (s.paths == 0 || NothingStarts(s)) && !s.task.Starting? && !s.task.Importing?
  }

  lemma {:induction false} RunImportsNothing(s: State, steps: seq<Step>)
    requires TaskInv(s) && NoImport(s) && RunFrom(s, steps).Some?
    ensures NoImport(RunFrom(s, steps).value)
    decreases |steps|
  {
    if steps != [] {
      TaskStep(s, steps[0]);
      RunImportsNothing(Apply(s, steps[0]), steps[1..]);
    }
  }

  /** Turning a queued job over stops its paths exactly if the flag is set by then. */
  lemma FlipLeaksIff(paths: nat, steps: seq<Step>, c: State, t: nat)
    requires RunFrom(New(paths), steps) == Some(c)
    requires t in c.cancels && c.cancels[t].LookedUp? && c.job == Some(Queued)
    ensures Apply(c, CancelJob(t)).job == Some(Cancelled)
    ensures CanImport(Apply(c, CancelJob(t))) <==> c.paths > 0 && !c.flag
  {
    RunKeepsInv(New(paths), steps);
    var d := Apply(c, CancelJob(t));
    if c.paths > 0 && !c.flag {
      Runs.ReachesItself(Next, d);
      var e := ReachesImport(d, d);
    } else {
      TaskStep(c, CancelJob(t));
      forall e | Runs.Reaches(Next, d, e) ensures !e.task.Importing? {
        var more := Runs.StepsTo(Next, d, e);
        RunImportsNothing(d, more);
      }
    }
  }

  /** A path can start in a job shown as cancelled only if the cancel came before the flag. */
  lemma OnlyBlindCancelsLeak(paths: nat, steps: seq<Step>, s: State)
    requires RunFrom(New(paths), steps) == Some(s) && s.task.Importing? && s.job == Some(Cancelled)
    ensures exists t :: t in s.cancels && FlippedBlindly(s.cancels[t])
  {
    RunKeepsFlips(New(paths), steps);
    RunKeepsInv(New(paths), steps);
  }

  /** Before the end only a cancel makes a job cancelled. */
  ghost predicate FlipsInv(s: State) {
    s.job == Some(Cancelled) && !Ending(s.task) ==>
      exists t :: t in s.cancels && s.cancels[t].Answered? && s.cancels[t].flipped
  }

  lemma FlipsStep(s: State, step: Step)
    requires TaskInv(s) && FlipsInv(s) && Enabled(s, step)
    ensures FlipsInv(Apply(s, step))
  {
    var d := Apply(s, step);
    if s.job == Some(Cancelled) && !Ending(s.task) {
      var t :| t in s.cancels && s.cancels[t].Answered? && s.cancels[t].flipped;
      assert t in d.cancels && d.cancels[t] == s.cancels[t];
    } else if step.CancelJob? {
      assert step.t in d.cancels;
    }
  }

  lemma {:induction false} RunKeepsFlips(s: State, steps: seq<Step>)
    requires TaskInv(s) && FlipsInv(s) && RunFrom(s, steps).Some?
    ensures FlipsInv(RunFrom(s, steps).value)
    decreases |steps|
  {
    if steps != [] {
      TaskStep(s, steps[0]);
      FlipsStep(s, steps[0]);
      RunKeepsFlips(Apply(s, steps[0]), steps[1..]);
    }
  }

  // ---- How a run ends --------------------------------------------------------------------------------

  predicate FailsHere(s: State, step: Step) {
    s.task.Importing? && step == Task(false)
  }

  /** How many imports of a run have failed. */
  function Failures(s: State, steps: seq<Step>): nat
    requires RunFrom(s, steps).Some?
    decreases |steps|
  {
    if steps == [] then 0 else
      (if FailsHere(s, steps[0]) then 1 else 0) + Failures(Apply(s, steps[0]), steps[1..])
  }

  /** What the state of the task tells about the imports so far: how many were started, and
      whether the last one failed. */
  predicate ImportsInv(s: State, failures: nat) {
    match s.task
    case Looping(k) => s.started == k <= s.paths && failures == 0
    case Starting(k) => s.started == k < s.paths && failures == 0
    case Importing(k) => s.started == k + 1 <= s.paths && failures == 0
    case Deciding(failed, stopped) =>
      && failures == (if failed then 1 else 0) && !(failed && stopped)
      && (stopped ==> s.flag) && (!failed && !stopped ==> s.started == s.paths)
    case Finishing(state) => Fits(s, failures, state)
    case Unflagging => s.job.Some? && Fits(s, failures, s.job.value)
    case Gone => s.job.Some? && Fits(s, failures, s.job.value)
    case _ => s.started == 0 && failures == 0
  }

  /** Completed says that every path was imported, Failed that an import failed; without a cancel
      it is one of these. */
  predicate Fits(s: State, failures: nat, state: JobState) {
    && failures <= 1
    && (state.Completed? ==> failures == 0 && s.started == s.paths)
    && (state.Failed? ==> failures == 1)
    && (state.Cancelled? ==> s.cancels != map[])
    && Terminal(state)
  }

  /** Without a cancel there is no flag and no cancelled job. */
  predicate CancelsInv(s: State) {
    s.cancels == map[] ==> !s.flag && s.job != Some(Cancelled)
  }

  lemma TaskImports(s: State, succeeds: bool, failures: nat)
    requires TaskInv(s) && CancelsInv(s) && ImportsInv(s, failures)
    ensures CancelsInv(Run(s, succeeds))
    ensures ImportsInv(Run(s, succeeds), failures + if FailsHere(s, Task(succeeds)) then 1 else 0)
  {
  }

  lemma OthersImport(s: State, step: Step, failures: nat)
    requires TaskInv(s) && CancelsInv(s) && ImportsInv(s, failures) && Enabled(s, step) && !step.Task?
    ensures CancelsInv(Apply(s, step)) && ImportsInv(Apply(s, step), failures)
  {
    var d := Apply(s, step);
    if step.CancelFlag? || step.CancelJob? {
      assert step.t in d.cancels;
    }
  }

  lemma {:induction false} RunImports(s: State, steps: seq<Step>, failures: nat)
    requires TaskInv(s) && CancelsInv(s) && ImportsInv(s, failures) && RunFrom(s, steps).Some?
    ensures var e := RunFrom(s, steps).value;
            TaskInv(e) && CancelsInv(e) && ImportsInv(e, failures + Failures(s, steps))
    decreases |steps|
  {
    if steps != [] {
      TaskStep(s, steps[0]);
      if steps[0].Task? {
        TaskImports(s, steps[0].succeeds, failures);
      } else {
        OthersImport(s, steps[0], failures);
      }
      RunImports(Apply(s, steps[0]), steps[1..], failures + if FailsHere(s, steps[0]) then 1 else 0);
    }
  }

  /** In every run that has ended: a completed job has imported every path and no import failed;
      a failed job has had a failed import, which was its last; a cancelled one was cancelled by
      somebody. Left alone a job completes iff no import fails, and fails otherwise. */
  lemma FinishedJobTellsTheTruth(paths: nat, steps: seq<Step>, s: State)
    requires RunFrom(New(paths), steps) == Some(s) && s.task.Gone?
    ensures s.job.Some? && Failures(New(paths), steps) <= 1
    ensures s.job.value.Completed? ==> s.started == s.paths && Failures(New(paths), steps) == 0
    ensures s.job.value.Failed? ==> Failures(New(paths), steps) == 1
    ensures s.job.value.Cancelled? ==> s.cancels != map[]
    ensures s.cancels == map[] ==> s.job.value == if Failures(New(paths), steps) == 0 then Completed else Failed
  {
    RunImports(New(paths), steps, 0);
  }

  /** The task has not decided on its final state. */
  predicate Undecided(t: TaskState) {
    !t.Finishing? && !Ending(t)
  }

  /** Paths that a task whose flag is set has started or will still start. */
  function StartedAtMost(s: State): nat {
    s.started + if s.task.Starting? then 1 else 0
  }

  ghost predicate Stops(s: State, limit: nat) {
    && s.flag && StartedAtMost(s) <= limit
    && (s.job.Some? ==> !s.job.value.Completed?)
    && (s.task.Finishing? ==> !s.task.state.Completed?)
  }

  lemma FlaggedTaskStops(s: State, step: Step, limit: nat)
    requires TaskInv(s) && Stops(s, limit) && Enabled(s, step)
    ensures Stops(Apply(s, step), limit)
  {
  }

  lemma {:induction false} RunStops(s: State, steps: seq<Step>, limit: nat)
    requires TaskInv(s) && Stops(s, limit) && RunFrom(s, steps).Some?
    ensures Stops(RunFrom(s, steps).value, limit)
    decreases |steps|
  {
    if steps != [] {
      TaskStep(s, steps[0]);
      FlaggedTaskStops(s, steps[0], limit);
      RunStops(Apply(s, steps[0]), steps[1..], limit);
    }
  }

  /** A running job stops at a file boundary: once its flag is set, before it has decided on its
      end, it starts no path but one it had already seen itself free to start, and it does not
      complete. */
  lemma FlagStopsTheJob(paths: nat, steps: seq<Step>, s: State, more: seq<Step>, e: State)
    requires RunFrom(New(paths), steps) == Some(s) && s.flag && Undecided(s.task) && RunFrom(s, more) == Some(e)
    ensures e.started <= s.started + if s.task.Starting? then 1 else 0
    ensures e.job != Some(Completed)
  {
    RunKeepsInv(New(paths), steps);
    RunStops(s, more, StartedAtMost(s));
  }

  /** A task that finds its flag set behind the wait for a permit goes straight to its end. */
  ghost predicate NeverRuns(s: State) {
    && s.flag && s.started == 0 && (s.job == Some(Queued) || s.job == Some(Cancelled))
    && (s.task.Waiting? || s.task.Permitted? || s.task == Finishing(Cancelled) || Ending(s.task))
  }

  lemma {:induction false} RunNeverRuns(s: State, steps: seq<Step>)
    requires TaskInv(s) && NeverRuns(s) && RunFrom(s, steps).Some?
    ensures TaskInv(RunFrom(s, steps).value) && NeverRuns(RunFrom(s, steps).value)
    decreases |steps|
  {
    if steps != [] {
      TaskStep(s, steps[0]);
      RunNeverRuns(Apply(s, steps[0]), steps[1..]);
    }
  }

  /** A job whose flag is set while it waits for its permit is never shown as running, imports
      nothing and ends as cancelled. */
  lemma FlaggedWhileWaitingNeverRuns(paths: nat, steps: seq<Step>, s: State, more: seq<Step>, e: State)
    requires RunFrom(New(paths), steps) == Some(s) && s.flag && (s.task.Waiting? || s.task.Permitted?)
    requires RunFrom(s, more) == Some(e)
    ensures e.job != Some(Running) && e.started == 0 && (e.task.Gone? ==> e.job == Some(Cancelled))
  {
    RunKeepsInv(New(paths), steps);
    RunNeverRuns(s, more);
  }

  /** Every number of paths can be imported to the end. */
  lemma {:induction false} ImportsTheRest(from: State, s: State) returns (e: State)
    requires Runs.Reaches(Next, from, s) && s.task.Looping? && s.task.next <= s.paths && !s.flag
    requires s.job == Some(Running)
    ensures Runs.Reaches(Next, from, e) && e.task.Gone? && e.job == Some(Completed)
    ensures e.started == s.started + (s.paths - s.task.next)
    decreases s.paths - s.task.next
  {
    e := Runs.Then(Next, from, s, Task(true));
    if s.task.next < s.paths {
      e := Runs.Then(Next, from, e, Task(true));
      e := Runs.Then(Next, from, e, Task(true));
      e := ImportsTheRest(from, e);
    } else {
      e := Decided(from, e);
    }
  }

  lemma Decided(from: State, s: State) returns (e: State)
    requires Runs.Reaches(Next, from, s) && s.task == Deciding(false, false) && !s.flag && s.job == Some(Running)
    ensures Runs.Reaches(Next, from, e) && e.task.Gone? && e.job == Some(Completed) && e.started == s.started
  {
    e := Runs.Then(Next, from, s, Task(true));
    e := Runs.Then(Next, from, e, Task(true));
    e := Runs.Then(Next, from, e, Task(true));
  }

  /** ... from the first step on. */
  lemma JobCanComplete(paths: nat) returns (e: State)
    ensures Runs.Reaches(Next, New(paths), e)
    ensures e.task.Gone? && e.job == Some(Completed) && e.started == paths
  {
    Runs.ReachesItself(Next, New(paths));
    e := Runs.Then(Next, New(paths), New(paths), Task(true));
    e := Runs.Then(Next, New(paths), e, Task(true));
    e := Runs.Then(Next, New(paths), e, Task(true));
    e := Runs.Then(Next, New(paths), e, Task(true));
    e := Runs.Then(Next, New(paths), e, Task(true));
    e := ImportsTheRest(New(paths), e);
  }

  /** A path being imported can be found, unless somebody has taken it. */
  lemma {:induction false} InflightIsListed(s: State, steps: seq<Step>)
    requires (s.task.Importing? ==> s.inflight) && TakeInflight !in steps && RunFrom(s, steps).Some?
    ensures RunFrom(s, steps).value.task.Importing? ==> RunFrom(s, steps).value.inflight
    decreases |steps|
  {
    if steps != [] {
      InflightIsListed(Apply(s, steps[0]), steps[1..]);
    }
  }

  /** A job can be cancelled while it imports a path: that path is found, and if its import then
      ends without a failure the job ends as cancelled and starts no other. */
  lemma RunningJobCanBeCancelled(s: State, t: nat) returns (e: State)
    requires s.task.Importing? && s.inflight && s.flagListed && s.job == Some(Running) && t !in s.cancels
    ensures Runs.Reaches(Next, s, e) && e.task.Gone? && e.job == Some(Cancelled) && e.started == s.started
  {
    Runs.ReachesItself(Next, s);
    e := Runs.Then(Next, s, s, CancelFlag(t));
    e := Runs.Then(Next, s, e, CancelJob(t));
    e := Runs.Then(Next, s, e, TakeInflight);
    e := StopsCancelled(s, e);
  }

  lemma StopsCancelled(from: State, s: State) returns (e: State)
    requires Runs.Reaches(Next, from, s) && s.task.Importing? && s.flag && s.job == Some(Running)
    ensures Runs.Reaches(Next, from, e) && e.task.Gone? && e.job == Some(Cancelled) && e.started == s.started
  {
    e := Runs.Then(Next, from, s, Task(true));
    e := Runs.Then(Next, from, e, Task(true));
    e := DecidesCancelled(from, e);
  }

  lemma DecidesCancelled(from: State, s: State) returns (e: State)
    requires Runs.Reaches(Next, from, s) && s.task.Deciding? && !s.task.failed && s.flag && s.job == Some(Running)
    ensures Runs.Reaches(Next, from, e) && e.task.Gone? && e.job == Some(Cancelled) && e.started == s.started
  {
    e := Runs.Then(Next, from, s, Task(true));
    e := Runs.Then(Next, from, e, Task(true));
    e := Runs.Then(Next, from, e, Task(true));
  }
}
