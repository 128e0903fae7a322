/** The memory budget of concurrent imports (core/ab-engine/src/pipeline_bridge.rs:1318-1355 and
    `memory_bytes` in core/ab-pipeline/src/store.rs).

    A check holds the store's read lock and adds up one file after the other, so batches may be
    appended meanwhile, but no file can be registered or unloaded. File ids are never reused. */
module MemoryBudget {
  import opened Common
  import Runs

  datatype File = File(bytes: nat, frozen: bool)

  /** The budget check of one import: its place in the order of starts, what it has not added
      yet, and the sum so far. */
  datatype Check =
    | Summing(start: nat, todo: set<string>, total: nat)
    | Passed(start: nat, total: nat)
    | Rejected(start: nat)

  datatype State = State(
    budget: nat,
    files: map<string, File>,
    used: set<string>,
    checks: map<string, Check>,
    clock: nat)

  datatype Step =
    | Register(id: string)
    | Append(id: string, bytes: nat)
    | Freeze(id: string)
    | StartCheck(id: string)                // the read lock is taken
    | AddFile(id: string, other: string)
    | EndCheck(id: string)                  // the sum is compared with the budget
    | Unload(id: string)

  ghost predicate Unlocked(s: State) {
    forall id :: id in s.checks ==> !s.checks[id].Summing?
  }

  ghost predicate Enabled(s: State, step: Step) {
    match step
    case Register(id) => id !in s.used && Unlocked(s)
    case Append(id, _) => id in s.files && !s.files[id].frozen
    case Freeze(id) => id in s.files && !s.files[id].frozen
    case StartCheck(id) => id in s.used && id !in s.checks && (id in s.files ==> s.files[id].frozen)
    case AddFile(id, other) =>
      id in s.checks && s.checks[id].Summing? && other in s.checks[id].todo && other in s.files
    case EndCheck(id) => id in s.checks && s.checks[id].Summing? && s.checks[id].todo == {}
    case Unload(_) => Unlocked(s)
  }

  ghost function Apply(s: State, step: Step): State
    requires Enabled(s, step)
  {
    match step
    case Register(id) => s.(files := s.files[id := File(0, false)], used := s.used + {id})
    case Append(id, n) => s.(files := s.files[id := s.files[id].(bytes := s.files[id].bytes + n)])
    case Freeze(id) => s.(files := s.files[id := s.files[id].(frozen := true)])
    case StartCheck(id) =>
      s.(checks := s.checks[id := Summing(s.clock, s.files.Keys, 0)], clock := s.clock + 1)
    case AddFile(id, other) =>
      var c := s.checks[id];
      s.(checks := s.checks[id := Summing(c.start, c.todo - {other}, c.total + s.files[other].bytes)])
    case EndCheck(id) =>
      var c := s.checks[id];
      s.(checks := s.checks[id := if c.total > s.budget then Rejected(c.start) else Passed(c.start, c.total)])
    case Unload(id) => s.(files := s.files - {id})
  }

  // ---- Counting bytes -------------------------------------------------------------------------

  function BytesIn(files: map<string, File>): string -> nat {
    (id: string) => if id in files then files[id].bytes else 0
  }

  ghost function Total(files: map<string, File>, ids: set<string>): nat {
    SumOver(ids, BytesIn(files))
  }

  lemma TotalRemove(files: map<string, File>, ids: set<string>, id: string)
    requires id in ids && id in files
    ensures Total(files, ids) == files[id].bytes + Total(files, ids - {id})
  {
    SumOverRemove(ids, BytesIn(files), id);
  }

  // ---- The invariant ----------------------------------------------------------------------------

  function Todo(c: Check): set<string> {
    if c.Summing? then c.todo else {}
  }

  /** The stored files whose own check started no later than `c` and that `c` has added. */
  function Counted(s: State, c: Check): set<string> {
    set g | g in s.files && g in s.checks && s.checks[g].start <= c.start && g !in Todo(c)
  }

  ghost predicate CheckInv(s: State, c: Check) {
    && c.start < s.clock
    && (c.Rejected? || Total(s.files, Counted(s, c)) <= c.total)
    && (c.Passed? ==> c.total <= s.budget)
  }

  ghost predicate FilesInv(s: State) {
    && (forall g :: g in s.files || g in s.checks ==> g in s.used)
    && (forall g :: g in s.files && g in s.checks ==> s.files[g].frozen)
  }

  ghost predicate Inv(s: State) {
    && FilesInv(s)
    && (forall f :: f in s.checks ==> CheckInv(s, s.checks[f]))
  }

  /** Checked files keep their bytes, so a step of anyone else can only shrink what a check has
      to account for. */
  lemma OthersKeepCheck(s: State, step: Step, c: Check)
    requires FilesInv(s) && Enabled(s, step) && CheckInv(s, c)
    ensures CheckInv(Apply(s, step), c)
  {
    var d := Apply(s, step);
    if !c.Rejected? {
      var before, after := Counted(s, c), Counted(d, c);
      assert after <= before;
      SumOverSame(after, BytesIn(d.files), BytesIn(s.files));
      SumOverSubset(after, before, BytesIn(s.files));
    }
  }

  lemma StartKeepsInv(s: State, id: string)
    requires Inv(s) && Enabled(s, StartCheck(id))
    ensures var d := Apply(s, StartCheck(id)); CheckInv(d, d.checks[id])
  {
    var d := Apply(s, StartCheck(id));
    assert Counted(d, d.checks[id]) == {};
  }

  lemma AddKeepsInv(s: State, id: string, other: string)
    requires Inv(s) && Enabled(s, AddFile(id, other))
    ensures var d := Apply(s, AddFile(id, other)); CheckInv(d, d.checks[id])
  {
    var d := Apply(s, AddFile(id, other));
    var before, after := Counted(s, s.checks[id]), Counted(d, d.checks[id]);
    assert CheckInv(s, s.checks[id]);
    if other in after {
      TotalRemove(s.files, after, other);
      assert after - {other} == before;
    } else {
      assert after == before;
    }
  }

  lemma EndKeepsInv(s: State, id: string)
    requires Inv(s) && Enabled(s, EndCheck(id))
    ensures var d := Apply(s, EndCheck(id)); CheckInv(d, d.checks[id])
  {
    var d := Apply(s, EndCheck(id));
    assert CheckInv(s, s.checks[id]);
    assert Counted(d, d.checks[id]) == Counted(s, s.checks[id]);
  }

  lemma InvStep(s: State, step: Step)
    requires Inv(s) && Enabled(s, step)
    ensures Inv(Apply(s, step))
  {
    var d := Apply(s, step);
    forall f | f in d.checks ensures CheckInv(d, d.checks[f]) {
      if f in s.checks && d.checks[f] == s.checks[f] {
        OthersKeepCheck(s, step, s.checks[f]);
      } else {
        match step
        case StartCheck(id) => StartKeepsInv(s, id);
        case AddFile(id, other) => AddKeepsInv(s, id, other);
        case EndCheck(id) => EndKeepsInv(s, id);
        case _ =>
      }
    }
  }

  ghost function Next(s: State, step: Step): Option<State> {
    if Enabled(s, step) then Some(Apply(s, step)) else None
  }

  ghost function RunFrom(s: State, steps: seq<Step>): Option<State> {
    Runs.RunFrom(Next, s, steps)
  }

  lemma {:induction false} RunKeepsInv(s: State, steps: seq<Step>)
    requires Inv(s) && RunFrom(s, steps).Some?
    ensures Inv(RunFrom(s, steps).value) && RunFrom(s, steps).value.budget == s.budget
    decreases |steps|
  {
    if steps != [] {
      InvStep(s, steps[0]);
      RunKeepsInv(Apply(s, steps[0]), steps[1..]);
    }
  }

  // ---- The bound ----------------------------------------------------------------------------------

  /** The stored files of imports that passed their check. */
  function Accepted(s: State): set<string> {
    set g | g in s.files && g in s.checks && s.checks[g].Passed?
  }

  lemma {:induction false} LatestCheck(s: State, ids: set<string>) returns (f: string)
    requires ids != {} && ids <= s.checks.Keys
    ensures f in ids && forall g :: g in ids ==> s.checks[g].start <= s.checks[f].start
  {
    var x :| x in ids;
    if ids == {x} {
      f := x;
    } else {
      var rest := LatestCheck(s, ids - {x});
      f := if s.checks[x].start <= s.checks[rest].start then rest else x;
    }
  }

  /** However imports and unloads interleave, at every moment the accepted files together stay
      within the budget: the latest check to start has counted all the others. */
  lemma AcceptedFilesFitTheBudget(budget: nat, steps: seq<Step>, s: State)
    requires RunFrom(State(budget, map[], {}, map[], 0), steps) == Some(s)
    ensures Total(s.files, Accepted(s)) <= budget
  {
    RunKeepsInv(State(budget, map[], {}, map[], 0), steps);
    if Accepted(s) != {} {
      var f := LatestCheck(s, Accepted(s));
      assert CheckInv(s, s.checks[f]);
      SumOverSubset(Accepted(s), Counted(s, s.checks[f]), BytesIn(s.files));
    } else {
      assert Total(s.files, {}) == 0;
    }
  }

  // ---- When a check passes -------------------------------------------------------------------------

  /** While the check of `id` runs, files keep their names and only grow; what it has added lies
      between the bytes at its start, `base`, and those of now. */
  ghost predicate Between(s: State, id: string, base: map<string, File>) {
    && id in s.checks && s.checks[id].Summing?
    && s.files.Keys == base.Keys && s.checks[id].todo <= s.files.Keys
    && (forall f :: f in base ==> base[f].bytes <= s.files[f].bytes)
    && Total(base, base.Keys) <= s.checks[id].total + Total(base, s.checks[id].todo)
    && s.checks[id].total <= Total(s.files, s.files.Keys - s.checks[id].todo)
  }

  lemma {:induction false} TotalGrows(a: map<string, File>, b: map<string, File>, ids: set<string>)
    requires ids <= a.Keys && ids <= b.Keys && forall f :: f in ids ==> a[f].bytes <= b[f].bytes
    ensures Total(a, ids) <= Total(b, ids)
  {
    if ids != {} {
      var x :| x in ids;
      TotalRemove(a, ids, x);
      TotalRemove(b, ids, x);
      TotalGrows(a, b, ids - {x});
    }
  }

  lemma StartIsBetween(s: State, id: string)
    requires Enabled(s, StartCheck(id))
    ensures Between(Apply(s, StartCheck(id)), id, s.files)
  {
    assert s.files.Keys - s.files.Keys == {};
  }

  lemma AddIsBetween(s: State, id: string, other: string, base: map<string, File>)
    requires Between(s, id, base) && Enabled(s, AddFile(id, other))
    ensures Between(Apply(s, AddFile(id, other)), id, base)
  {
    var todo := s.checks[id].todo;
    TotalRemove(base, todo, other);
    TotalRemove(s.files, s.files.Keys - (todo - {other}), other);
    assert s.files.Keys - (todo - {other}) - {other} == s.files.Keys - todo;
  }

  lemma StepIsBetween(s: State, step: Step, id: string, base: map<string, File>)
    requires Between(s, id, base) && Enabled(s, step) && step != EndCheck(id)
    ensures Between(Apply(s, step), id, base)
  {
    var d := Apply(s, step);
    assert !Unlocked(s);
    if step.AddFile? && step.id == id {
      AddIsBetween(s, id, step.other, base);
    } else {
      assert d.files.Keys == s.files.Keys;
      TotalGrows(s.files, d.files, s.files.Keys - s.checks[id].todo);
    }
  }

  lemma {:induction false} EndedStays(s: State, steps: seq<Step>, id: string)
    requires id in s.checks && !s.checks[id].Summing? && RunFrom(s, steps).Some?
    ensures var d := RunFrom(s, steps).value; id in d.checks && d.checks[id] == s.checks[id]
    decreases |steps|
  {
    if steps != [] {
      EndedStays(Apply(s, steps[0]), steps[1..], id);
    }
  }

  lemma {:induction false} RunIsBetween(s: State, steps: seq<Step>, id: string, base: map<string, File>)
    requires Between(s, id, base) && RunFrom(s, steps).Some?
    requires id in RunFrom(s, steps).value.checks && RunFrom(s, steps).value.checks[id].Summing?
    ensures Between(RunFrom(s, steps).value, id, base)
    decreases |steps|
  {
    if steps != [] {
      var d := Apply(s, steps[0]);
      if steps[0] == EndCheck(id) {
        EndedStays(d, steps[1..], id);
      } else {
        StepIsBetween(s, steps[0], id, base);
        RunIsBetween(d, steps[1..], id, base);
      }
    }
  }

  /** From the start of a check at `s` to its end at `e`: it turns its file down only if the
      resident files exceed the budget at the end, and must if they did at the start. In
      between it may go either way, because files grow while they are added up. */
  lemma CheckDecides(s: State, id: string, steps: seq<Step>, e: State)
    requires Enabled(s, StartCheck(id)) && RunFrom(Apply(s, StartCheck(id)), steps) == Some(e)
    requires Enabled(e, EndCheck(id))
    ensures var c := Apply(e, EndCheck(id)).checks[id];
            && (c.Passed? || c.Rejected?)
            && (c.Rejected? ==> Total(e.files, e.files.Keys) > e.budget)
            && (Total(s.files, s.files.Keys) > e.budget ==> c.Rejected?)
  {
    StartIsBetween(s, id);
    RunIsBetween(Apply(s, StartCheck(id)), steps, id, s.files);
    assert e.files.Keys - {} == e.files.Keys;
    assert Total(s.files, {}) == 0;
  }

  // ---- What a file weighs ---------------------------------------------------------------------------

  /** The bytes appended to a file by some steps. */
  function AppendedTo(id: string, steps: seq<Step>): nat {
    if steps == [] then 0 else
      (if steps[0].Append? && steps[0].id == id then steps[0].bytes else 0) + AppendedTo(id, steps[1..])
  }

  function BytesAt(s: State, id: string): nat {
    if id in s.files then s.files[id].bytes else 0
  }

  /** A resident file has exactly the bytes appended to it: ids are not used twice. */
  lemma {:induction false} FileBytesAreAppends(s: State, steps: seq<Step>, e: State, id: string)
    requires FilesInv(s) && (id in s.used ==> id in s.files) && RunFrom(s, steps) == Some(e) && id in e.files
    ensures e.files[id].bytes == BytesAt(s, id) + AppendedTo(id, steps)
    decreases |steps|
  {
    if steps != [] {
      var d := Apply(s, steps[0]);
      if id in d.used && id !in d.files {
        GoneStaysGone(d, steps[1..], id);
      } else {
        FilesStep(s, steps[0]);
        FileBytesAreAppends(d, steps[1..], e, id);
      }
    }
  }

  lemma FilesStep(s: State, step: Step)
    requires FilesInv(s) && Enabled(s, step)
    ensures FilesInv(Apply(s, step))
  {
  }

  lemma {:induction false} GoneStaysGone(s: State, steps: seq<Step>, id: string)
    requires id in s.used && id !in s.files && RunFrom(s, steps).Some?
    ensures id !in RunFrom(s, steps).value.files
    decreases |steps|
  {
    if steps != [] {
      GoneStaysGone(Apply(s, steps[0]), steps[1..], id);
    }
  }

  function Nothing(budget: nat): State {
    State(budget, map[], {}, map[], 0)
  }

  lemma LoneFileIsFrozen(budget: nat, bytes: nat) returns (s: State)
    ensures Runs.Reaches(Next, Nothing(budget), s)
    ensures s == State(budget, map["f" := File(bytes, true)], {"f"}, map[], 0)
  {
    var none := Nothing(budget);
    Runs.ReachesItself(Next, none);
    s := Runs.Then(Next, none, none, Register("f"));
    s := Runs.Then(Next, none, s, Append("f", bytes));
    s := Runs.Then(Next, none, s, Freeze("f"));
  }

  /** A file alone in the store passes iff it fits. */
  lemma LoneFileIsChecked(budget: nat, bytes: nat) returns (s: State)
    ensures Runs.Reaches(Next, Nothing(budget), s)
    ensures s.files == map["f" := File(bytes, true)]
    ensures s.checks == map["f" := if bytes > budget then Rejected(0) else Passed(0, bytes)]
  {
    s := LoneFileIsFrozen(budget, bytes);
    s := Runs.Then(Next, Nothing(budget), s, StartCheck("f"));
    assert s.checks["f"] == Summing(0, {"f"}, 0);
    s := Runs.Then(Next, Nothing(budget), s, AddFile("f", "f"));
    assert s.checks["f"] == Summing(0, {}, bytes);
    s := Runs.Then(Next, Nothing(budget), s, EndCheck("f"));
  }

  /** A file can be unloaded whenever no check runs, and then its bytes count no longer. */
  lemma UnloadFreesBytes(s: State, id: string)
    requires Unlocked(s) && id in s.files
    ensures var d := Next(s, Unload(id));
            d.Some? && Total(d.value.files, d.value.files.Keys) + s.files[id].bytes == Total(s.files, s.files.Keys)
  {
    var rest := s.files - {id};
    TotalRemove(s.files, s.files.Keys, id);
    assert rest.Keys == s.files.Keys - {id};
    SumOverSame(rest.Keys, BytesIn(rest), BytesIn(s.files));
  }
}
