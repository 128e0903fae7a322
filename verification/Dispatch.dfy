/** The parse slot of the plugin runtime (core/ab-plugin-rt/src/dispatch.rs): one reader thread
    that answers requests in order, and the parse threads it starts.

    A parse moves its file out of the table of loaded files and back again; the slot keeps the
    other requests away from that file meanwhile. A step is one lock section. */
module Dispatch {
  import opened Common
  import Runs

  datatype Request = LoadFile | Parse | KeyValues | UnloadFile | CancelParse

  datatype Answer = Done | LoadFailed | NotLoaded | Busy

  /** `loaded`: whether the host had the file loaded when it was answered. `parsing`: the file
      that held the parse slot then. */
  datatype Reply = Reply(request: Request, id: string, answer: Answer, loaded: bool, parsing: Option<string>)

  /** The reader between two lock sections of one request. */
  datatype ReaderState =
    | Idle
    | MayLoad(id: string)         // not being parsed
    | MayParse(id: string)        // found among the loaded files
    | SlotTaken(id: string)       // parse thread about to be spawned
    | MayRead(id: string)         // not being parsed
    | MayUnload(id: string)       // not being parsed

  datatype Thread =
    | Spawned(id: string)
    | Panicked(id: string)        // its file was missing
    | Running(id: string)         // owns the file
    | Returned(id: string)        // the file is back, the slot still taken
    | Ended

  datatype Slot = Slot(id: string, thread: nat, cancelled: bool)

  /** `loaded` is what the host has loaded and not unloaded again. */
  datatype State = State(
    files: set<string>,
    slot: Option<Slot>,
    reader: ReaderState,
    threads: map<nat, Thread>,
    loaded: set<string>,
    replies: seq<Reply>)

  datatype Step =
    | Receive(request: Request, id: string)
    | Continue(succeeds: bool, thread: nat)   // `thread` names a thread not used before
    | RunThread(t: nat)

  predicate IsParsing(s: State, id: string) {
    s.slot.Some? && s.slot.value.id == id
  }

  function Parsed(s: State): Option<string> {
    if s.slot.Some? then Some(s.slot.value.id) else None
  }

  function Answered(s: State, request: Request, id: string, answer: Answer): State {
    s.(reader := Idle, replies := s.replies + [Reply(request, id, answer, id in s.loaded, Parsed(s))])
  }

  function Begin(s: State, request: Request, id: string): State {
    match request
    case LoadFile => if IsParsing(s, id) then Answered(s, LoadFile, id, Busy) else s.(reader := MayLoad(id))
    case Parse => if id in s.files then s.(reader := MayParse(id)) else Answered(s, Parse, id, NotLoaded)
    case KeyValues => if IsParsing(s, id) then Answered(s, KeyValues, id, Busy) else s.(reader := MayRead(id))
    case UnloadFile => if IsParsing(s, id) then Answered(s, UnloadFile, id, Busy) else s.(reader := MayUnload(id))
    case CancelParse =>
      var flagged := if IsParsing(s, id) then s.(slot := Some(s.slot.value.(cancelled := true))) else s;
      Answered(flagged, CancelParse, id, Done)
  }

  function Proceed(s: State, succeeds: bool, thread: nat): State {
    match s.reader
    case Idle => s
    case MayLoad(id) =>
      if succeeds then Answered(s.(files := s.files + {id}, loaded := s.loaded + {id}), LoadFile, id, Done)
      else Answered(s, LoadFile, id, LoadFailed)
    case MayParse(id) =>
      if s.slot.Some? then Answered(s, Parse, id, Busy)
      else s.(slot := Some(Slot(id, thread, false)), reader := SlotTaken(id))
    case SlotTaken(id) =>
      if s.slot.Some? then s.(threads := s.threads[s.slot.value.thread := Spawned(id)], reader := Idle) else s
    case MayRead(id) => Answered(s, KeyValues, id, if id in s.files then Done else NotLoaded)
    case MayUnload(id) =>
      Answered(s.(files := s.files - {id}, loaded := s.loaded - {id}), UnloadFile, id, Done)
  }

  function Advance(s: State, t: nat): State
    requires t in s.threads
  {
    match s.threads[t]
    case Spawned(id) =>
      if id in s.files then s.(files := s.files - {id}, threads := s.threads[t := Running(id)])
      else s.(threads := s.threads[t := Panicked(id)])
    case Running(id) => s.(files := s.files + {id}, threads := s.threads[t := Returned(id)])
    case Returned(_) => s.(slot := None, threads := s.threads[t := Ended])
    case _ => s
  }

  predicate Enabled(s: State, step: Step) {
    match step
    case Receive(_, _) => s.reader.Idle?
    case Continue(_, thread) => !s.reader.Idle? && thread !in s.threads
    case RunThread(t) => t in s.threads
  }

  function Apply(s: State, step: Step): State
    requires Enabled(s, step)
  {
    match step
    case Receive(request, id) => Begin(s, request, id)
    case Continue(succeeds, thread) => Proceed(s, succeeds, thread)
    case RunThread(t) => Advance(s, t)
  }

  // ---- What every step keeps --------------------------------------------------------------------

  /** The thread named by the slot, and nobody else, works on the slot's file. */
  ghost predicate SlotInv(s: State) {
    && (forall t :: t in s.threads && !s.threads[t].Ended? ==>
          s.slot.Some? && s.slot.value.thread == t && s.slot.value.id == s.threads[t].id && !s.reader.SlotTaken?)
    && (s.reader.SlotTaken? ==> s.slot.Some? && s.slot.value.id == s.reader.id)
    && (s.slot.Some? && !s.reader.SlotTaken? ==>
          s.slot.value.thread in s.threads && !s.threads[s.slot.value.thread].Ended?)
  }

  /** The file inside the running parse. */
  function Moved(s: State): set<string> {
    if s.slot.Some? && s.slot.value.thread in s.threads && s.threads[s.slot.value.thread].Running?
    then {s.slot.value.id} else {}
  }

  /** Loaded files are in the table, except the one inside the running parse. */
  ghost predicate FilesInv(s: State) {
    && s.files !! Moved(s)
    && s.loaded == s.files + Moved(s)
    && (s.slot.Some? ==> s.slot.value.id in s.loaded)
  }

  /** No thread missed its file; the reader acts on files that no parse holds. */
  ghost predicate ReaderInv(s: State) {
    && (forall t :: t in s.threads ==> !s.threads[t].Panicked?)
    && (s.reader.MayLoad? || s.reader.MayRead? || s.reader.MayUnload? ==> !IsParsing(s, s.reader.id))
    && (s.reader.MayParse? ==> s.reader.id in s.loaded)
  }

  /** Every answer but one is the right one for what is loaded and what is being parsed: `parse`
      denies a file that is being parsed, because it looks into the table only. */
  predicate Truthful(r: Reply) {
    var parsed := r.parsing == Some(r.id);
    match r.request
    case KeyValues => r.answer == if parsed then Busy else if r.loaded then Done else NotLoaded
    case Parse =>
      || (r.answer.Busy? && r.loaded && r.parsing.Some?)
      || (r.answer.NotLoaded? && (!r.loaded || parsed))
    case LoadFile =>
      if parsed then r.answer == Busy else (r.answer == Done && r.loaded) || r.answer == LoadFailed
    case UnloadFile => if parsed then r.answer == Busy else r.answer == Done && !r.loaded
    case CancelParse => r.answer == Done
  }

  ghost predicate RepliesInv(s: State) {
    forall r :: r in s.replies ==> Truthful(r)
  }

  ghost predicate Inv(s: State) {
    SlotInv(s) && FilesInv(s) && ReaderInv(s) && RepliesInv(s)
  }

  lemma SlotStep(s: State, step: Step)
    requires SlotInv(s) && ReaderInv(s) && FilesInv(s) && Enabled(s, step)
    ensures SlotInv(Apply(s, step))
  {
  }

  lemma FilesStep(s: State, step: Step)
    requires SlotInv(s) && ReaderInv(s) && FilesInv(s) && Enabled(s, step)
    ensures FilesInv(Apply(s, step))
  {
  }

  lemma ReaderStep(s: State, step: Step)
    requires SlotInv(s) && ReaderInv(s) && FilesInv(s) && Enabled(s, step)
    ensures ReaderInv(Apply(s, step))
  {
  }

  lemma BeginReplies(s: State, request: Request, id: string)
    requires SlotInv(s) && FilesInv(s) && RepliesInv(s) && Enabled(s, Receive(request, id))
    ensures RepliesInv(Begin(s, request, id))
  {
  }

  lemma ProceedReplies(s: State, succeeds: bool, thread: nat)
    requires SlotInv(s) && ReaderInv(s) && FilesInv(s) && RepliesInv(s)
    ensures RepliesInv(Proceed(s, succeeds, thread))
  {
  }

  lemma RepliesStep(s: State, step: Step)
    requires SlotInv(s) && ReaderInv(s) && FilesInv(s) && RepliesInv(s) && Enabled(s, step)
    ensures RepliesInv(Apply(s, step))
  {
    match step
    case Receive(request, id) => BeginReplies(s, request, id);
    case Continue(succeeds, thread) => ProceedReplies(s, succeeds, thread);
    case RunThread(_) =>
  }

  // ---- Runs -----------------------------------------------------------------------------------------

  function Next(s: State, step: Step): Option<State> {
    if Enabled(s, step) then Some(Apply(s, step)) else None
  }

  function RunFrom(s: State, steps: seq<Step>): Option<State> {
    Runs.RunFrom(Next, s, steps)
  }

  const START := State({}, None, Idle, map[], {}, [])

  lemma InvStep(s: State, step: Step)
    requires Inv(s) && Enabled(s, step)
    ensures Inv(Apply(s, step))
  {
    SlotStep(s, step);
    FilesStep(s, step);
    ReaderStep(s, step);
    RepliesStep(s, step);
  }

  lemma {:induction false} RunKeepsInv(s: State, steps: seq<Step>)
    requires Inv(s) && RunFrom(s, steps).Some?
    ensures Inv(RunFrom(s, steps).value)
    decreases |steps|
  {
    if steps != [] {
      InvStep(s, steps[0]);
      RunKeepsInv(Apply(s, steps[0]), steps[1..]);
    }
  }

  /** In every run: loaded files are those in the table plus the one a parse holds, no parse
      thread misses its file, at most one of them is at work, and every answer is the right one
      for what is loaded and parsed at that moment. */
  lemma SlotGuardsTheFile(steps: seq<Step>, s: State)
    requires RunFrom(START, steps) == Some(s)
    ensures s.loaded == s.files + Moved(s) && s.files !! Moved(s)
    ensures forall t :: t in s.threads ==> !s.threads[t].Panicked?
    ensures forall t, u :: (t in s.threads && u in s.threads && !s.threads[t].Ended? && !s.threads[u].Ended?) ==> t == u
    ensures forall r :: r in s.replies ==> Truthful(r)
  {
    RunKeepsInv(START, steps);
  }

  /** `parse` is turned away as not loaded exactly when the file is not loaded or is inside the
      running parse at that moment. */
  lemma ParseDeniedIff(steps: seq<Step>, s: State, id: string)
    requires RunFrom(START, steps) == Some(s) && s.reader.Idle?
    ensures var d := Apply(s, Receive(Parse, id));
            d.replies == s.replies + [Reply(Parse, id, NotLoaded, id in s.loaded, Parsed(s))]
            <==> id !in s.loaded || id in Moved(s)
  {
    RunKeepsInv(START, steps);
  }

  /** So a second `parse` of a loaded file can be told that the file is not loaded, where every
      other request would be told that the plugin is busy. */
  lemma ParseCanDenyALoadedFile() returns (steps: seq<Step>, s: State)
    ensures RunFrom(START, steps) == Some(s)
    ensures Reply(Parse, "a", NotLoaded, true, Some("a")) in s.replies
  {
    Runs.ReachesItself(Next, START);
    s := Runs.Then(Next, START, START, Receive(LoadFile, "a"));
    s := Runs.Then(Next, START, s, Continue(true, 1));
    s := Runs.Then(Next, START, s, Receive(Parse, "a"));
    s := Runs.Then(Next, START, s, Continue(true, 1));
    s := Runs.Then(Next, START, s, Continue(true, 2));
    s := Runs.Then(Next, START, s, RunThread(1));
    assert s.files == {} && s.loaded == {"a"};
    s := Runs.Then(Next, START, s, Receive(Parse, "a"));
    assert s.replies[|s.replies| - 1] == Reply(Parse, "a", NotLoaded, true, Some("a"));
    steps := Runs.StepsTo(Next, START, s);
  }

  // ---- What the requests do -------------------------------------------------------------------------

  /** A file comes to be loaded by a load that succeeds and goes by an unload, and by nothing
      else; and a load that fails says so. */
  lemma LoadedChangesOnlyByRequest(s: State, step: Step, id: string)
    requires Enabled(s, step)
    ensures var d := Apply(s, step);
            && (id in d.loaded && id !in s.loaded ==> step.Continue? && step.succeeds && s.reader == MayLoad(id))
            && (id !in d.loaded && id in s.loaded ==> step.Continue? && s.reader == MayUnload(id))
            && (step.Continue? && s.reader == MayLoad(id) ==>
                  d.replies == s.replies + [Reply(LoadFile, id, if step.succeeds then Done else LoadFailed,
                                                  step.succeeds || id in s.loaded, Parsed(s))])
  {
  }

  /** A spawned parse gives file and slot back. */
  lemma ParseEnds(steps: seq<Step>, s: State, t: nat) returns (d: State)
    requires RunFrom(START, steps) == Some(s) && t in s.threads && s.threads[t].Spawned?
    ensures Runs.Reaches(Next, s, d)
    ensures d == s.(slot := None, threads := s.threads[t := Ended])
  {
    RunKeepsInv(START, steps);
    var id := s.threads[t].id;
    Runs.ReachesItself(Next, s);
    d := Runs.Then(Next, s, s, RunThread(t));
    d := Runs.Then(Next, s, d, RunThread(t));
    assert d.files == s.files;
    d := Runs.Then(Next, s, d, RunThread(t));
  }

  /** The slot of thread `t`. */
  predicate Holds(s: State, t: nat) {
    s.slot.Some? && s.slot.value.thread == t
  }

  /** Thread `t` has had its slot and will not have it again. */
  predicate HasEnded(s: State, t: nat) {
    t in s.threads && s.threads[t].Ended? && !Holds(s, t)
  }

  lemma EndedStays(s: State, step: Step, t: nat)
    requires SlotInv(s) && HasEnded(s, t) && Enabled(s, step)
    ensures HasEnded(Apply(s, step), t)
  {
  }

  lemma {:induction false} RunKeepsEnded(s: State, steps: seq<Step>, t: nat)
    requires Inv(s) && HasEnded(s, t) && RunFrom(s, steps).Some?
    ensures HasEnded(RunFrom(s, steps).value, t)
    decreases |steps|
  {
    if steps != [] {
      EndedStays(s, steps[0], t);
      InvStep(s, steps[0]);
      RunKeepsEnded(Apply(s, steps[0]), steps[1..], t);
    }
  }

  lemma FlagStep(s: State, step: Step, t: nat)
    requires Inv(s) && Holds(s, t) && Enabled(s, step)
    ensures var d := Apply(s, step);
            || HasEnded(d, t)
            || (Holds(d, t) && d.slot.value.id == s.slot.value.id
                && (d.slot.value.cancelled <==>
                      s.slot.value.cancelled || step == Receive(CancelParse, s.slot.value.id)))
  {
  }

  /** As long as a parse holds the slot, its flag is set exactly if a `cancel_parse` of its file
      has come in meanwhile. */
  lemma {:induction false} CancelReachesTheParse(s: State, steps: seq<Step>, e: State, t: nat)
    requires Inv(s) && Holds(s, t) && RunFrom(s, steps) == Some(e) && Holds(e, t)
    ensures e.slot.value.id == s.slot.value.id
    ensures e.slot.value.cancelled <==> s.slot.value.cancelled || Receive(CancelParse, s.slot.value.id) in steps
    decreases |steps|
  {
    if steps != [] {
      var d := Apply(s, steps[0]);
      FlagStep(s, steps[0], t);
      InvStep(s, steps[0]);
      if HasEnded(d, t) {
        RunKeepsEnded(d, steps[1..], t);
      } else {
        CancelReachesTheParse(d, steps[1..], e, t);
      }
    }
  }
}
