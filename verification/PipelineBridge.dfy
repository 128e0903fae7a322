/** The import protocol of one file (core/ab-engine/src/pipeline_bridge.rs): the import task
    against any number of concurrent `cancel_parse` and `unload_file` calls.

    A step is one lock section or one atomic operation. Every import works on a fresh file id,
    so the state below is all the shared state that concerns it. */
module PipelineBridge {
  import opened Common
  import Runs

  /** The four tables that can hold the file id. */
  datatype Table = StoreTable | FrozenTable | PathsTable | IndexTable

  const EVERY_TABLE := [StoreTable, FrozenTable, PathsTable, IndexTable]

  datatype Outcome = Ready | Failed | Cancelled

  /** Where the import task stands. `Broken` is a failure whose cancel check is still to come,
      `Undo` removes the listed tables, and the last six states are `finish_job`. */
  datatype TaskState =
    | Begin
    | Indexed
    | Loading
    | LoadExhausted
    | ReadingSchema
    | Registering
    | RecordingPath
    | Parsing
    | Freezing
    | Gate
    | Rollback
    | CheckingBudget
    | Publishing
    | Broken(undo: seq<Table>)
    | Undo(left: seq<Table>)
    | SendDone(outcome: Outcome)
    | Unregister(outcome: Outcome)
    | CheckFlag(outcome: Outcome)
    | SwapFlag(outcome: Outcome)
    | Discard(outcome: Outcome)
    | Returned(outcome: Outcome)

  datatype CancelState = CancelMissed | Found | Flagged | Woken | Discarding | Dropping | CancelDone

  /** `effective`: the job had been registered when this call looked it up. */
  datatype UnloadState =
    | UnloadMissed
    | FoundIndex
    | SawJob
    | UnloadFlagged
    | Removing(left: seq<Table>, effective: bool)
    | UnloadDone(effective: bool)

  datatype Winner = Nobody | TheTask | Canceller(t: nat)

  /** `winner` is whoever swapped `cleaned_up` first. `skipped`: the import found itself not
      cancelled when it finished. `swappedEarly`: the swap was won before the import was done.
      `discards` counts runs of `discard_job_state`, and `discardLeft` is what the one of them
      still has to remove. */
  datatype Flags = Flags(
    inJobs: bool,
    cancelled: bool,
    done: bool,
    cleanedUp: bool,
    winner: Winner,
    skipped: bool,
    swappedEarly: bool,
    discards: nat,
    discardLeft: seq<Table>)

  datatype State = State(
    tables: set<Table>,
    flags: Flags,
    task: TaskState,
    cancels: map<nat, CancelState>,
    unloads: map<nat, UnloadState>)

  datatype Choice = Succeeds | Fails | Retries

  datatype Step =
    | Task(choice: Choice)          // next action of the import; the choice is the plugin's
    | CancelLookup(t: nat)
    | CancelStep(t: nat)
    | CancelTimeout(t: nat)         // the wait for `done` gives up
    | UnloadLookup(t: nat)
    | UnloadStep(t: nat)

  // ---- The import task ----------------------------------------------------------------------

  function Bail(s: State): State {
    s.(task := SendDone(Cancelled))
  }

  function Broke(s: State, undo: seq<Table>): State {
    s.(task := Broken(undo))
  }

  const LOADED := [IndexTable]
  const PARSED := [StoreTable, IndexTable, PathsTable]

  function Body(s: State, choice: Choice): State {
    match s.task
    case Begin => s.(tables := s.tables + {IndexTable}, task := Indexed)
    case Indexed => s.(flags := s.flags.(inJobs := true), task := Loading)
    case Loading =>
      if choice.Succeeds? then s.(task := ReadingSchema)
      else if s.flags.cancelled then Bail(s)
      else if choice.Retries? then s
      else s.(task := LoadExhausted)
    case LoadExhausted => if s.flags.cancelled then Bail(s) else s.(task := Undo(LOADED))
    case ReadingSchema => if choice.Succeeds? then s.(task := Registering) else Broke(s, LOADED)
    case Registering =>
      if StoreTable in s.tables then Broke(s, LOADED)
      else s.(tables := s.tables + {StoreTable}, task := RecordingPath)
    case RecordingPath => s.(tables := s.tables + {PathsTable}, task := Parsing)
    case Parsing => if choice.Succeeds? then s.(task := Freezing) else Broke(s, PARSED)
    case Freezing =>
      if choice.Succeeds? && StoreTable in s.tables then s.(task := Gate) else Broke(s, PARSED)
    case Gate => s.(task := if s.flags.cancelled then Rollback else CheckingBudget)
    case Rollback => Bail(s.(tables := s.tables - {FrozenTable}))
    case CheckingBudget => s.(task := if choice.Succeeds? then Publishing else Undo(PARSED))
    case Publishing => s.(tables := s.tables + {FrozenTable}, task := SendDone(Ready))
    case Broken(undo) => if s.flags.cancelled then Bail(s) else s.(task := Undo(undo))
    case Undo(left) =>
      if left == [] then s.(task := SendDone(Failed))
      else s.(tables := s.tables - {left[0]}, task := Undo(left[1..]))
    case _ => s
  }

  /** The swap of `cleaned_up`: the first to come gets to discard. */
  function Swapped(f: Flags, who: Winner): Flags {
    if f.cleanedUp then f
    else f.(cleanedUp := true, winner := who, swappedEarly := !f.done,
            discards := f.discards + 1, discardLeft := EVERY_TABLE)
  }

  /** One removal of the running discard. */
  function Discarded(s: State): State {
    if s.flags.discardLeft == [] then s
    else s.(tables := s.tables - {s.flags.discardLeft[0]},
            flags := s.flags.(discardLeft := s.flags.discardLeft[1..]))
  }

  function Finish(s: State): State {
    var f := s.flags;
    match s.task
    case SendDone(o) => s.(flags := f.(done := true), task := Unregister(o))
    case Unregister(o) => s.(flags := f.(inJobs := false), task := CheckFlag(o))
    case CheckFlag(o) =>
      if f.cancelled then s.(task := SwapFlag(o)) else s.(flags := f.(skipped := true), task := Returned(o))
    case SwapFlag(o) => s.(flags := Swapped(f, TheTask), task := if f.cleanedUp then Returned(o) else Discard(o))
    case Discard(o) => if f.discardLeft == [] then s.(task := Returned(o)) else Discarded(s)
    case _ => s
  }

  predicate InFinish(t: TaskState) {
    t.SendDone? || t.Unregister? || t.CheckFlag? || t.SwapFlag? || t.Discard? || t.Returned?
  }

  // ---- cancel_parse and unload_file -----------------------------------------------------------

  function Cancel(s: State, t: nat): State
    requires t in s.cancels
  {
    var f := s.flags;
    match s.cancels[t]
    case Found => s.(flags := f.(cancelled := true), cancels := s.cancels[t := Flagged])
    case Flagged => if f.done then s.(cancels := s.cancels[t := Woken]) else s
    case Woken =>
      s.(flags := Swapped(f, Canceller(t)), cancels := s.cancels[t := if f.cleanedUp then Dropping else Discarding])
    case Discarding => if f.discardLeft == [] then s.(cancels := s.cancels[t := Dropping]) else Discarded(s)
    case Dropping => s.(flags := f.(inJobs := false), cancels := s.cancels[t := CancelDone])
    case _ => s
  }

  predicate Registered(t: TaskState) {
    !t.Begin? && !t.Indexed?
  }

  function Unload(s: State, t: nat): State
    requires t in s.unloads
  {
    var f := s.flags;
    match s.unloads[t]
    case FoundIndex =>
      s.(unloads := s.unloads[t := if f.inJobs then SawJob else Removing(EVERY_TABLE, Registered(s.task))])
    case SawJob => s.(flags := f.(cancelled := true), unloads := s.unloads[t := UnloadFlagged])
    case UnloadFlagged =>
      s.(flags := f.(inJobs := false), unloads := s.unloads[t := Removing(EVERY_TABLE, true)])
    case Removing(left, effective) =>
      if left == [] then s.(unloads := s.unloads[t := UnloadDone(effective)])
      else s.(tables := s.tables - {left[0]}, unloads := s.unloads[t := Removing(left[1..], effective)])
    case _ => s
  }

  predicate Enabled(s: State, step: Step) {
    match step
    case Task(_) => true
    case CancelLookup(t) => t !in s.cancels
    case CancelStep(t) => t in s.cancels
    case CancelTimeout(t) => t in s.cancels && s.cancels[t].Flagged?
    case UnloadLookup(t) => t !in s.unloads
    case UnloadStep(t) => t in s.unloads
  }

  function Apply(s: State, step: Step): State
    requires Enabled(s, step)
  {
    match step
    case Task(choice) => if InFinish(s.task) then Finish(s) else Body(s, choice)
    case CancelLookup(t) => s.(cancels := s.cancels[t := if s.flags.inJobs then Found else CancelMissed])
    case CancelStep(t) => Cancel(s, t)
    case CancelTimeout(t) => s.(cancels := s.cancels[t := Woken])
    case UnloadLookup(t) =>
      s.(unloads := s.unloads[t := if IndexTable in s.tables then FoundIndex else UnloadMissed])
    case UnloadStep(t) => Unload(s, t)
  }

  // ---- What every step keeps --------------------------------------------------------------------

  predicate PastDone(t: TaskState) {
    InFinish(t) && !t.SendDone?
  }

  predicate SaysCancelled(t: TaskState) {
    InFinish(t) && t.outcome == Cancelled
  }

  /** The flags follow the import. */
  predicate FlagsInv(s: State) {
    var f := s.flags;
    && (f.done <==> PastDone(s.task))
    && (f.skipped ==> s.task.Returned?)
    && (f.cleanedUp ==> f.cancelled)
    && f.discards == (if f.cleanedUp then 1 else 0)
    && (s.task.SwapFlag? || s.task.Rollback? || SaysCancelled(s.task) ==> f.cancelled)
    && (s.task.Discard? || (s.task.Returned? && !f.skipped) ==> f.cleanedUp)
  }

  /** The job is registered from its start until it ends or someone cancelled it, and before
      that nobody can find or cancel it. */
  ghost predicate JobInv(s: State) {
    && (s.flags.inJobs ==> Registered(s.task))
    && (Registered(s.task) && !s.flags.inJobs ==> s.flags.cancelled || s.flags.done)
    && (s.flags.cancelled ==> Registered(s.task))
    && (forall t :: t in s.cancels && s.cancels[t].Found? ==> Registered(s.task))
  }

  /** The winner of the swap is the only one to discard, and does so until nothing is left. */
  ghost predicate WinnerInv(s: State) {
    var f := s.flags;
    && (f.winner.Nobody? <==> !f.cleanedUp)
    && (f.winner.Nobody? ==> f.discardLeft == [])
    && (f.winner.TheTask? && f.discardLeft != [] ==> s.task.Discard?)
    && (f.winner.Canceller? && f.discardLeft != [] ==>
          f.winner.t in s.cancels && s.cancels[f.winner.t].Discarding?)
    && (s.task.Discard? ==> f.winner.TheTask?)
    && (forall t :: t in s.cancels && s.cancels[t].Discarding? ==> f.winner == Canceller(t))
  }

  predicate PastSwap(c: CancelState) {
    c.Discarding? || c.Dropping? || c.CancelDone?
  }

  /** A cancelling call has the job cancelled and has swapped when it is through. */
  ghost predicate CancelsInv(s: State) {
    var f := s.flags;
    && (forall t :: t in s.cancels && s.cancels[t].Flagged? ==> f.cancelled)
    && (forall t :: t in s.cancels && s.cancels[t].Woken? ==> f.cancelled)
    && (forall t :: t in s.cancels && PastSwap(s.cancels[t]) ==> f.cleanedUp)
    && (f.cleanedUp && !f.swappedEarly ==> f.done)
    && (f.swappedEarly ==> f.cleanedUp)
  }

  /** What the discard has removed stays away: it starts when the import is done. */
  ghost predicate DiscardInv(s: State) {
    s.flags.cleanedUp && !s.flags.swappedEarly ==> forall x :: x in s.tables ==> x in s.flags.discardLeft
  }

  /** An unload that came late enough either made the import clean up or cleans up behind it. */
  ghost predicate UnloadInv(s: State, u: UnloadState) {
    match u
    case SawJob => Registered(s.task)
    case UnloadFlagged => s.flags.cancelled
    case Removing(left, effective) => effective ==> Covered(s, left)
    case UnloadDone(effective) => effective ==> Covered(s, [])
    case _ => true
  }

  ghost predicate UnloadsInv(s: State) {
    forall t :: t in s.unloads ==> UnloadInv(s, s.unloads[t])
  }

  ghost predicate Covered(s: State, left: seq<Table>) {
    || (s.flags.cancelled && !s.flags.skipped)
    || (s.flags.done && forall x :: x in s.tables ==> x in left)
  }

  function AsSet(ts: seq<Table>): set<Table> {
    set x | x in ts
  }

  /** Left alone, the import leaves exactly the tables of its stage. */
  function Stage(t: TaskState): set<Table> {
    match t
    case Begin => {}
    case Broken(undo) => AsSet(undo)
    case Undo(left) => AsSet(left)
    case RecordingPath => {IndexTable, StoreTable}
    case Parsing => {IndexTable, StoreTable, PathsTable}
    case Freezing => {IndexTable, StoreTable, PathsTable}
    case Gate => {IndexTable, StoreTable, PathsTable}
    case CheckingBudget => {IndexTable, StoreTable, PathsTable}
    case Publishing => {IndexTable, StoreTable, PathsTable}
    case SendDone(o) => StageOf(o)
    case Unregister(o) => StageOf(o)
    case CheckFlag(o) => StageOf(o)
    case Returned(o) => StageOf(o)
    case _ => {IndexTable}
  }

  function StageOf(o: Outcome): set<Table> {
    if o.Ready? then {StoreTable, FrozenTable, PathsTable, IndexTable} else {}
  }

  predicate Distinct(ts: seq<Table>) {
    forall i, j :: 0 <= i < j < |ts| ==> ts[i] != ts[j]
  }

  predicate UndoesOnce(t: TaskState) {
    match t
    case Broken(undo) => Distinct(undo)
    case Undo(left) => Distinct(left)
    case _ => true
  }

  ghost predicate AloneInv(s: State) {
    !s.flags.cancelled && s.unloads == map[] ==> s.tables == Stage(s.task) && UndoesOnce(s.task)
  }

  ghost predicate Inv(s: State) {
    && FlagsInv(s) && JobInv(s) && WinnerInv(s) && CancelsInv(s) && DiscardInv(s) && AloneInv(s)
    && UnloadsInv(s)
  }

  lemma TaskKeepsFlags(s: State, choice: Choice)
    requires FlagsInv(s)
    ensures FlagsInv(Apply(s, Task(choice)))
  {
  }

  lemma FlagsStep(s: State, step: Step)
    requires FlagsInv(s) && CancelsInv(s) && Enabled(s, step)
    ensures FlagsInv(Apply(s, step))
  {
    if step.Task? {
      TaskKeepsFlags(s, step.choice);
    }
  }

  lemma TaskKeepsJob(s: State, choice: Choice)
    requires FlagsInv(s) && JobInv(s)
    ensures JobInv(Apply(s, Task(choice)))
  {
  }

  lemma CancelKeepsJob(s: State, t: nat)
    requires FlagsInv(s) && JobInv(s) && CancelsInv(s) && t in s.cancels
    ensures JobInv(Cancel(s, t))
  {
  }

  lemma JobStep(s: State, step: Step)
    requires FlagsInv(s) && JobInv(s) && CancelsInv(s) && UnloadsInv(s) && Enabled(s, step)
    ensures JobInv(Apply(s, step))
  {
    match step
    case Task(choice) => TaskKeepsJob(s, choice);
    case CancelStep(t) => CancelKeepsJob(s, t);
    case UnloadStep(t) => assert UnloadInv(s, s.unloads[t]);
    case _ =>
  }

  lemma TaskKeepsWinner(s: State, choice: Choice)
    requires FlagsInv(s) && WinnerInv(s)
    ensures WinnerInv(Apply(s, Task(choice)))
  {
  }

  lemma CancelKeepsWinner(s: State, t: nat)
    requires FlagsInv(s) && WinnerInv(s) && CancelsInv(s) && t in s.cancels
    ensures WinnerInv(Cancel(s, t))
  {
  }

  lemma WinnerStep(s: State, step: Step)
    requires FlagsInv(s) && WinnerInv(s) && CancelsInv(s) && Enabled(s, step)
    ensures WinnerInv(Apply(s, step))
  {
    match step
    case Task(choice) => TaskKeepsWinner(s, choice);
    case CancelStep(t) => CancelKeepsWinner(s, t);
    case _ =>
  }

  lemma TaskKeepsCancels(s: State, choice: Choice)
    requires FlagsInv(s) && CancelsInv(s)
    ensures CancelsInv(Apply(s, Task(choice)))
  {
  }

  lemma CancelKeepsCancels(s: State, t: nat)
    requires FlagsInv(s) && CancelsInv(s) && t in s.cancels
    ensures CancelsInv(Apply(s, CancelStep(t)))
  {
  }

  lemma CancelsStep(s: State, step: Step)
    requires FlagsInv(s) && CancelsInv(s) && Enabled(s, step)
    ensures CancelsInv(Apply(s, step))
  {
    if step.Task? {
      TaskKeepsCancels(s, step.choice);
    } else if step.CancelStep? {
      CancelKeepsCancels(s, step.t);
    }
  }

  lemma EveryTableHasAll(x: Table)
    ensures x in EVERY_TABLE
  {
    assert EVERY_TABLE[0] == StoreTable && EVERY_TABLE[1] == FrozenTable
           && EVERY_TABLE[2] == PathsTable && EVERY_TABLE[3] == IndexTable;
  }

  lemma EveryTableCovers(tables: set<Table>)
    ensures forall x :: x in tables ==> x in EVERY_TABLE
  {
    forall x | x in tables ensures x in EVERY_TABLE {
      EveryTableHasAll(x);
    }
  }

  lemma RemovalCovers(tables: set<Table>, left: seq<Table>)
    requires left != [] && forall x :: x in tables ==> x in left
    ensures forall x :: x in tables - {left[0]} ==> x in left[1..]
  {
    assert left == [left[0]] + left[1..];
  }

  lemma TaskKeepsDiscard(s: State, choice: Choice)
    requires FlagsInv(s) && CancelsInv(s) && DiscardInv(s)
    ensures DiscardInv(Apply(s, Task(choice)))
  {
    EveryTableCovers(s.tables);
    if s.flags.cleanedUp && !s.flags.swappedEarly && s.flags.discardLeft != [] {
      RemovalCovers(s.tables, s.flags.discardLeft);
    }
  }

  lemma DiscardStep(s: State, step: Step)
    requires FlagsInv(s) && CancelsInv(s) && DiscardInv(s) && Enabled(s, step)
    ensures DiscardInv(Apply(s, step))
  {
    if step.Task? {
      TaskKeepsDiscard(s, step.choice);
    } else {
      EveryTableCovers(s.tables);
      if s.flags.cleanedUp && !s.flags.swappedEarly && s.flags.discardLeft != [] {
        RemovalCovers(s.tables, s.flags.discardLeft);
      }
    }
  }

  lemma UndoStage(left: seq<Table>)
    requires left != [] && Distinct(left)
    ensures Stage(Undo(left)) - {left[0]} == Stage(Undo(left[1..])) && Distinct(left[1..])
  {
    assert left == [left[0]] + left[1..];
  }

  lemma UndoLists()
    ensures Stage(Broken(LOADED)) == Stage(Undo(LOADED)) == {IndexTable} && Distinct(LOADED)
    ensures Stage(Broken(PARSED)) == Stage(Undo(PARSED)) == {StoreTable, IndexTable, PathsTable} && Distinct(PARSED)
  {
    assert PARSED[0] == StoreTable && PARSED[1] == IndexTable && PARSED[2] == PathsTable;
    assert LOADED[0] == IndexTable;
  }

  lemma BodyAlone(s: State, choice: Choice)
    requires FlagsInv(s) && !InFinish(s.task) && !s.flags.cancelled
    requires s.tables == Stage(s.task) && UndoesOnce(s.task)
    ensures Body(s, choice).tables == Stage(Body(s, choice).task) && UndoesOnce(Body(s, choice).task)
  {
    UndoLists();
    if s.task.Undo? && s.task.left != [] {
      UndoStage(s.task.left);
    }
  }

  lemma FinishAlone(s: State)
    requires FlagsInv(s) && InFinish(s.task) && !s.flags.cancelled && s.tables == Stage(s.task)
    ensures Finish(s).tables == Stage(Finish(s).task)
  {
  }

  lemma TaskAlone(s: State, choice: Choice)
    requires FlagsInv(s) && AloneInv(s)
    ensures AloneInv(Apply(s, Task(choice)))
  {
    if !s.flags.cancelled && s.unloads == map[] {
      if InFinish(s.task) {
        FinishAlone(s);
      } else {
        BodyAlone(s, choice);
      }
    }
  }

  lemma CancelAlone(s: State, t: nat)
    requires FlagsInv(s) && CancelsInv(s) && AloneInv(s) && t in s.cancels
    ensures AloneInv(Cancel(s, t))
  {
    var d := Cancel(s, t);
    if !d.flags.cancelled && d.unloads == map[] {
      assert PastSwap(s.cancels[t]) ==> s.flags.cleanedUp;
      assert s.cancels[t].Discarding? ==> s.flags.cancelled;
      assert d.tables == s.tables && d.task == s.task;
    }
  }

  lemma AloneStep(s: State, step: Step)
    requires FlagsInv(s) && CancelsInv(s) && AloneInv(s) && Enabled(s, step)
    ensures AloneInv(Apply(s, step))
  {
    match step
    case Task(choice) => TaskAlone(s, choice);
    case CancelStep(t) => CancelAlone(s, t);
    case CancelLookup(_) =>
    case CancelTimeout(_) =>
    case UnloadLookup(t) => assert t in Apply(s, step).unloads;
    case UnloadStep(t) => assert t in Apply(s, step).unloads;
  }

  lemma TaskKeepsCovered(s: State, choice: Choice, left: seq<Table>)
    requires FlagsInv(s) && Covered(s, left)
    ensures Covered(Apply(s, Task(choice)), left)
  {
  }

  lemma CoveredStep(s: State, step: Step, left: seq<Table>)
    requires FlagsInv(s) && Covered(s, left) && Enabled(s, step)
    ensures Covered(Apply(s, step), left)
  {
    if step.Task? {
      TaskKeepsCovered(s, step.choice, left);
    }
  }

  /** What an unload relies on is not disturbed by anyone. */
  lemma UnloadStays(s: State, step: Step, u: UnloadState)
    requires FlagsInv(s) && UnloadInv(s, u) && Enabled(s, step)
    ensures UnloadInv(Apply(s, step), u)
  {
    match u
    case Removing(left, effective) => if effective { CoveredStep(s, step, left); }
    case UnloadDone(effective) => if effective { CoveredStep(s, step, []); }
    case _ =>
  }

  lemma UnloadMoves(s: State, t: nat)
    requires FlagsInv(s) && JobInv(s) && t in s.unloads && UnloadInv(s, s.unloads[t])
    ensures UnloadInv(Unload(s, t), Unload(s, t).unloads[t])
  {
    EveryTableCovers(s.tables);
    var u := s.unloads[t];
    if u.Removing? && u.effective && u.left != [] && !(s.flags.cancelled && !s.flags.skipped) {
      RemovalCovers(s.tables, u.left);
    }
  }

  lemma OneUnloadStep(s: State, step: Step, d: State, t: nat)
    requires FlagsInv(s) && JobInv(s) && UnloadsInv(s) && Enabled(s, step) && d == Apply(s, step) && t in d.unloads
    ensures UnloadInv(d, d.unloads[t])
  {
    if step == UnloadStep(t) {
      UnloadMoves(s, t);
    } else if t in s.unloads {
      UnloadStays(s, step, s.unloads[t]);
    }
  }

  lemma UnloadsStep(s: State, step: Step)
    requires FlagsInv(s) && JobInv(s) && UnloadsInv(s) && Enabled(s, step)
    ensures UnloadsInv(Apply(s, step))
  {
    var d := Apply(s, step);
    forall t | t in d.unloads ensures UnloadInv(d, d.unloads[t]) {
      OneUnloadStep(s, step, d, t);
    }
  }

  lemma InvStep(s: State, step: Step)
    requires Inv(s) && Enabled(s, step)
    ensures Inv(Apply(s, step))
  {
    FlagsStep(s, step);
    JobStep(s, step);
    WinnerStep(s, step);
    CancelsStep(s, step);
    DiscardStep(s, step);
    AloneStep(s, step);
    UnloadsStep(s, step);
  }

  // ---- Runs -----------------------------------------------------------------------------------------

  function Next(s: State, step: Step): Option<State> {
    if Enabled(s, step) then Some(Apply(s, step)) else None
  }

  function RunFrom(s: State, steps: seq<Step>): Option<State> {
    Runs.RunFrom(Next, s, steps)
  }

  const FRESH := State({}, Flags(false, false, false, false, Nobody, false, false, 0, []), Begin, map[], map[])

  lemma {:induction false} RunKeepsInv(s: State, steps: seq<Step>)
    requires Inv(s) && RunFrom(s, steps).Some?
    ensures Inv(RunFrom(s, steps).value)
    decreases |steps|
  {
    if steps != [] {
      InvStep(s, steps[0]);
      RunKeepsInv(Apply(s, steps[0]), steps[1..]);
    }
  }

  /** Everyone who began has ended. */
  ghost predicate Quiet(s: State) {
    && s.task.Returned?
    && (forall t :: t in s.cancels ==> s.cancels[t].CancelMissed? || s.cancels[t].CancelDone?)
    && (forall t :: t in s.unloads ==> s.unloads[t].UnloadMissed? || s.unloads[t].UnloadDone?)
  }

  /** Some call found the job, or an unload looked for it after it had been registered. */
  ghost predicate Observed(s: State) {
    || (exists t :: t in s.cancels && s.cancels[t].CancelDone?)
    || (exists t :: t in s.unloads && s.unloads[t] == UnloadDone(true))
  }

  /** However the import, any number of cancels and any number of unloads interleave: once all
      have ended, a call that observed the job leaves no trace of the file, unless a cancel gave
      up waiting and won the swap before the import was done; and the discard runs at most once
      in any case. */
  lemma ObservedImportLeavesNothing(steps: seq<Step>, s: State)
    requires RunFrom(FRESH, steps) == Some(s)
    ensures s.flags.discards <= 1
    ensures Quiet(s) && Observed(s) && !s.flags.swappedEarly ==> s.tables == {}
  {
    RunKeepsInv(FRESH, steps);
    if Quiet(s) && Observed(s) && !s.flags.swappedEarly {
      if !s.flags.cleanedUp {
        var t :| t in s.unloads && s.unloads[t] == UnloadDone(true);
        assert UnloadInv(s, s.unloads[t]);
      }
    }
  }

  /** With no interference a ready file is in all four tables, a failed one in none, and
      nothing is discarded. */
  lemma UndisturbedImport(steps: seq<Step>, s: State)
    requires RunFrom(FRESH, steps) == Some(s)
    requires s.task.Returned? && !s.flags.cancelled && s.unloads == map[]
    ensures s.flags.discards == 0 && s.task.outcome != Cancelled
    ensures s.task.outcome == Ready ==> s.tables == {StoreTable, FrozenTable, PathsTable, IndexTable}
    ensures s.task.outcome == Failed ==> s.tables == {}
  {
    RunKeepsInv(FRESH, steps);
  }

  // ---- Where the guarantee ends ---------------------------------------------------------------------

  predicate BeforeParse(t: TaskState) {
    t.Loading? || t.ReadingSchema? || t.Registering? || t.RecordingPath?
  }

  function StepsToParse(t: TaskState): nat {
    match t
    case Loading => 4
    case ReadingSchema => 3
    case Registering => 2
    case RecordingPath => 1
    case _ => 0
  }

  /** An import that loads reaches its parse with the file in the store and in the paths. */
  lemma {:induction false} ReachesParse(from: State, s: State) returns (next: State)
    requires Runs.Reaches(Next, from, s) && BeforeParse(s.task) && (StoreTable in s.tables ==> s.task.RecordingPath?)
    ensures Runs.Reaches(Next, from, next)
    ensures next == s.(tables := s.tables + (if s.task.RecordingPath? then {} else {StoreTable}) + {PathsTable},
                       task := Parsing)
    decreases StepsToParse(s.task)
  {
    next := Runs.Then(Next, from, s, Task(Succeeds));
    if next.task != Parsing {
      next := ReachesParse(from, next);
    }
  }

  lemma ParseAndFreeze(from: State, s: State) returns (next: State)
    requires Runs.Reaches(Next, from, s) && s.task == Parsing && StoreTable in s.tables
    requires !s.flags.cancelled
    ensures Runs.Reaches(Next, from, next) && next == s.(task := CheckingBudget)
  {
    next := Runs.Then(Next, from, s, Task(Succeeds));
    next := Runs.Then(Next, from, next, Task(Succeeds));
    next := Runs.Then(Next, from, next, Task(Succeeds));
  }

  lemma Publish(from: State, s: State) returns (next: State)
    requires Runs.Reaches(Next, from, s) && (s.task == CheckingBudget || s.task == Publishing)
    ensures Runs.Reaches(Next, from, next)
    ensures next == s.(tables := s.tables + {FrozenTable}, task := SendDone(Ready))
  {
    next := Runs.Then(Next, from, s, Task(Succeeds));
    if s.task == CheckingBudget {
      next := Runs.Then(Next, from, next, Task(Succeeds));
    }
  }

  lemma ParseFailsCancelled(from: State, s: State) returns (next: State)
    requires Runs.Reaches(Next, from, s) && s.task == Parsing && s.flags.cancelled
    ensures Runs.Reaches(Next, from, next) && next == s.(task := SendDone(Cancelled))
  {
    next := Runs.Then(Next, from, s, Task(Fails));
    next := Runs.Then(Next, from, next, Task(Fails));
  }

  /** A finishing import has nothing to clean up when it was not cancelled or when somebody
      else has cleaned up. */
  lemma FinishClean(from: State, s: State) returns (next: State)
    requires Runs.Reaches(Next, from, s) && s.task.SendDone? && s.flags.cancelled == s.flags.cleanedUp
    ensures Runs.Reaches(Next, from, next) && next.task == Returned(s.task.outcome)
    ensures next.tables == s.tables && next.cancels == s.cancels && next.unloads == s.unloads
    ensures next.flags.discardLeft == s.flags.discardLeft && next.flags.swappedEarly == s.flags.swappedEarly
    ensures next.flags.cancelled == s.flags.cancelled
  {
    next := Announce(from, s);
    next := Runs.Then(Next, from, next, Task(Fails));
    if s.flags.cancelled {
      next := Runs.Then(Next, from, next, Task(Fails));
    }
  }

  lemma Announce(from: State, s: State) returns (next: State)
    requires Runs.Reaches(Next, from, s) && s.task.SendDone?
    ensures Runs.Reaches(Next, from, next)
    ensures next == s.(flags := s.flags.(done := true, inJobs := false), task := CheckFlag(s.task.outcome))
  {
    next := Runs.Then(Next, from, s, Task(Fails));
    next := Runs.Then(Next, from, next, Task(Fails));
  }

  /** A running unload takes the file out of the tables still on its list. */
  lemma {:induction false} UnloadRuns(from: State, s: State, t: nat) returns (next: State)
    requires Runs.Reaches(Next, from, s) && t in s.unloads && s.unloads[t].Removing?
    ensures Runs.Reaches(Next, from, next)
    ensures next == s.(tables := s.tables - AsSet(s.unloads[t].left),
                       unloads := s.unloads[t := UnloadDone(s.unloads[t].effective)])
    decreases if t in s.unloads && s.unloads[t].Removing? then |s.unloads[t].left| else 0
  {
    next := Runs.Then(Next, from, s, UnloadStep(t));
    var left := s.unloads[t].left;
    if left != [] {
      assert left == [left[0]] + left[1..];
      next := UnloadRuns(from, next, t);
    }
  }

  /** The winner's discard takes the file out of the tables still on its list. */
  lemma {:induction false} DiscardRuns(from: State, s: State, t: nat) returns (next: State)
    requires Runs.Reaches(Next, from, s) && t in s.cancels && s.cancels[t] == Discarding
    ensures Runs.Reaches(Next, from, next)
    ensures next == s.(tables := s.tables - AsSet(s.flags.discardLeft),
                       flags := s.flags.(discardLeft := [], inJobs := false),
                       cancels := s.cancels[t := CancelDone])
    decreases |s.flags.discardLeft|
  {
    next := Runs.Then(Next, from, s, CancelStep(t));
    var left := s.flags.discardLeft;
    if left != [] {
      assert left == [left[0]] + left[1..];
      next := DiscardRuns(from, next, t);
    } else {
      next := Runs.Then(Next, from, next, CancelStep(t));
    }
  }

  /** The import and the discard are over, and the file is still somewhere. */
  predicate EndsWithResidue(e: State) {
    e.task.Returned? && e.flags.discardLeft == [] && e.tables != {}
  }

  // ---- A cancel that gives up waiting --------------------------------------------------------------

  /** The import can still add a table although it is cancelled. */
  predicate MayAdd(t: TaskState) {
    BeforeParse(t) || t.CheckingBudget? || t.Publishing?
  }

  ghost predicate CanLeaveResidue(d: State) {
    exists e :: Runs.Reaches(Next, d, e) && EndsWithResidue(e)
  }

  /** Nothing is added any more, and what is left is on the list of the discard. */
  ghost predicate NothingToCome(s: State) {
    && s.flags.cancelled && s.flags.cleanedUp && Registered(s.task) && !MayAdd(s.task)
    && forall x :: x in s.tables ==> x in s.flags.discardLeft
  }

  lemma BodyAddsNothing(s: State, choice: Choice)
    requires s.flags.cancelled && Registered(s.task) && !MayAdd(s.task)
    ensures var d := Body(s, choice);
            d.tables <= s.tables && d.flags == s.flags && Registered(d.task) && !MayAdd(d.task)
  {
  }

  lemma FinishAddsNothing(s: State)
    requires NothingToCome(s) && InFinish(s.task)
    ensures NothingToCome(Finish(s))
  {
    if s.flags.discardLeft != [] {
      RemovalCovers(s.tables, s.flags.discardLeft);
    }
  }

  lemma CancelAddsNothing(s: State, t: nat)
    requires NothingToCome(s) && t in s.cancels
    ensures NothingToCome(Cancel(s, t))
  {
    if s.flags.discardLeft != [] {
      RemovalCovers(s.tables, s.flags.discardLeft);
    }
  }

  lemma NothingToComeStep(s: State, step: Step)
    requires NothingToCome(s) && Enabled(s, step)
    ensures NothingToCome(Apply(s, step))
  {
    match step
    case Task(choice) =>
      if InFinish(s.task) {
        FinishAddsNothing(s);
      } else {
        BodyAddsNothing(s, choice);
      }
    case CancelStep(t) => CancelAddsNothing(s, t);
    case _ =>
  }

  lemma {:induction false} RunAddsNothing(s: State, steps: seq<Step>)
    requires NothingToCome(s) && RunFrom(s, steps).Some?
    ensures NothingToCome(RunFrom(s, steps).value)
    decreases |steps|
  {
    if steps != [] {
      NothingToComeStep(s, steps[0]);
      RunAddsNothing(Apply(s, steps[0]), steps[1..]);
    }
  }

  /** The discard runs first, and the import goes on behind it. */
  lemma EarlySwapCanLeaveResidue(d: State, t: nat) returns (e: State)
    requires t in d.cancels && d.cancels[t] == Discarding && d.flags.discardLeft == EVERY_TABLE
    requires d.flags.cancelled && d.flags.cleanedUp && MayAdd(d.task)
    ensures Runs.Reaches(Next, d, e) && EndsWithResidue(e)
  {
    Runs.ReachesItself(Next, d);
    EveryTableCovers(d.tables);
    e := DiscardRuns(d, d, t);
    assert e.tables == {};
    if BeforeParse(e.task) {
      e := ReachesParse(d, e);
      assert PathsTable in e.tables;
      e := ParseFailsCancelled(d, e);
    } else {
      e := Publish(d, e);
      assert FrozenTable in e.tables;
    }
    e := FinishClean(d, e);
  }

  /** When a cancel wins the swap, a trace of the file can remain exactly if the import is then
      at a stage at which it still adds a table: it has not reached its parse, or has passed the
      last look at the flag. */
  lemma SwapLeavesResidueIff(steps: seq<Step>, c: State, t: nat)
    requires RunFrom(FRESH, steps) == Some(c)
    requires t in c.cancels && c.cancels[t].Woken? && !c.flags.cleanedUp
    ensures CanLeaveResidue(Apply(c, CancelStep(t))) <==> MayAdd(c.task)
  {
    RunKeepsInv(FRESH, steps);
    var d := Apply(c, CancelStep(t));
    if MayAdd(c.task) {
      var e := EarlySwapCanLeaveResidue(d, t);
    } else {
      EveryTableCovers(d.tables);
      assert NothingToCome(d);
      forall e | Runs.Reaches(Next, d, e) ensures !EndsWithResidue(e) {
        var more := Runs.StepsTo(Next, d, e);
        RunAddsNothing(d, more);
      }
    }
  }

  /** A run in which that happens: a cancel gives up waiting while the import loads. */
  lemma TimeoutLeavesResidue() returns (steps: seq<Step>, s: State)
    ensures RunFrom(FRESH, steps) == Some(s) && Quiet(s) && Observed(s)
    ensures s.tables == {StoreTable, PathsTable}
  {
    s := CancelTimesOut();
    s := Runs.Then(Next, FRESH, s, CancelStep(7));
    EveryTableCovers(s.tables);
    s := DiscardRuns(FRESH, s, 7);
    s := ReachesParse(FRESH, s);
    s := ParseFailsCancelled(FRESH, s);
    s := FinishClean(FRESH, s);
    assert s.cancels[7] == CancelDone;
    steps := Runs.StepsTo(Next, FRESH, s);
  }

  lemma CancelTimesOut() returns (s: State)
    ensures Runs.Reaches(Next, FRESH, s)
    ensures s.task == Loading && s.cancels == map[7 := Woken] && s.unloads == map[]
    ensures s.flags.cancelled && !s.flags.cleanedUp
  {
    Runs.ReachesItself(Next, FRESH);
    s := Runs.Then(Next, FRESH, FRESH, Task(Succeeds));
    s := Runs.Then(Next, FRESH, s, Task(Succeeds));
    s := Runs.Then(Next, FRESH, s, CancelLookup(7));
    s := Runs.Then(Next, FRESH, s, CancelStep(7));
    s := Runs.Then(Next, FRESH, s, CancelTimeout(7));
  }

  // ---- An unload that comes early ------------------------------------------------------------------

  /** The unload `t` ends, and no cancel discarded early, but the file is still somewhere. */
  ghost predicate CanLose(d: State, t: nat) {
    exists e :: Runs.Reaches(Next, d, e) && LosesUnload(e, t)
  }

  predicate LosesUnload(e: State, t: nat) {
    EndsWithResidue(e) && !e.flags.swappedEarly && t in e.unloads && e.unloads[t].UnloadDone?
  }

  predicate SawTheJob(u: UnloadState) {
    u.SawJob? || u.UnloadFlagged? || ((u.Removing? || u.UnloadDone?) && u.effective)
  }

  lemma {:induction false} RunKeepsSawTheJob(s: State, steps: seq<Step>, t: nat)
    requires t in s.unloads && SawTheJob(s.unloads[t]) && RunFrom(s, steps).Some?
    ensures var e := RunFrom(s, steps).value;
            t in e.unloads && SawTheJob(e.unloads[t])
    decreases |steps|
  {
    if steps != [] {
      RunKeepsSawTheJob(Apply(s, steps[0]), steps[1..], t);
    }
  }

  lemma SeenUnloadIsNotLost(e: State, t: nat)
    requires Inv(e) && t in e.unloads && SawTheJob(e.unloads[t])
    ensures !LosesUnload(e, t)
  {
    assert UnloadInv(e, e.unloads[t]);
  }

  /** The unload clears the tables first, and the import fills them behind it. */
  lemma EarlyUnloadCanLose(d: State, t: nat) returns (e: State)
    requires t in d.unloads && d.unloads[t] == Removing(EVERY_TABLE, false) && !Registered(d.task)
    requires !d.flags.cancelled && !d.flags.cleanedUp && !d.flags.swappedEarly && d.flags.discardLeft == []
    ensures Runs.Reaches(Next, d, e) && LosesUnload(e, t)
  {
    Runs.ReachesItself(Next, d);
    EveryTableCovers(d.tables);
    e := UnloadRuns(d, d, t);
    assert e.tables == {};
    if e.task == Begin {
      e := Runs.Then(Next, d, e, Task(Succeeds));
    }
    e := Runs.Then(Next, d, e, Task(Succeeds));
    e := ReachesParse(d, e);
    e := ParseAndFreeze(d, e);
    e := Publish(d, e);
    assert FrozenTable in e.tables;
    e := FinishClean(d, e);
  }

  /** An unload that found the file can be lost exactly if it looks for the job before the
      import has registered it. */
  lemma UnloadIsLostIff(steps: seq<Step>, c: State, t: nat)
    requires RunFrom(FRESH, steps) == Some(c)
    requires t in c.unloads && c.unloads[t].FoundIndex?
    ensures CanLose(Apply(c, UnloadStep(t)), t) <==> !Registered(c.task)
  {
    RunKeepsInv(FRESH, steps);
    var d := Apply(c, UnloadStep(t));
    if !Registered(c.task) {
      var e := EarlyUnloadCanLose(d, t);
    } else {
      InvStep(c, UnloadStep(t));
      forall e | Runs.Reaches(Next, d, e) ensures !LosesUnload(e, t) {
        var more := Runs.StepsTo(Next, d, e);
        RunKeepsInv(d, more);
        RunKeepsSawTheJob(d, more, t);
        SeenUnloadIsNotLost(e, t);
      }
    }
  }

  /** A run in which that happens: the import ends ready with a file that is missing from the
      index. */
  lemma EarlyUnloadIsLost() returns (steps: seq<Step>, s: State)
    ensures RunFrom(FRESH, steps) == Some(s) && Quiet(s) && s.task == Returned(Ready)
    ensures s.tables == {StoreTable, PathsTable, FrozenTable}
  {
    s := UnloadsEarly();
    s := ReachesParse(FRESH, s);
    s := ParseAndFreeze(FRESH, s);
    s := Publish(FRESH, s);
    s := FinishClean(FRESH, s);
    steps := Runs.StepsTo(Next, FRESH, s);
  }

  /** An unload between the insertion into the index and the registration of the job. */
  lemma UnloadsEarly() returns (s: State)
    ensures Runs.Reaches(Next, FRESH, s)
    ensures s == FRESH.(task := Loading, flags := FRESH.flags.(inJobs := true), unloads := map[7 := UnloadDone(false)])
  {
    Runs.ReachesItself(Next, FRESH);
    s := Runs.Then(Next, FRESH, FRESH, Task(Succeeds));
    s := Runs.Then(Next, FRESH, s, UnloadLookup(7));
    s := Runs.Then(Next, FRESH, s, UnloadStep(7));
    EveryTableCovers(s.tables);
    s := UnloadRuns(FRESH, s, 7);
    assert s.tables == {};
    s := Runs.Then(Next, FRESH, s, Task(Succeeds));
  }
}
