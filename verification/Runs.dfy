/** Runs of a state machine: lists of steps each of which is possible. */
module Runs {
  import opened Common

  /** The state after the steps, if all of them are possible in turn. */
  function RunFrom<S, T>(next: (S, T) -> Option<S>, s: S, steps: seq<T>): Option<S>
    decreases |steps|
  {
    if steps == [] then Some(s)
    else match next(s, steps[0])
         case None => None
         case Some(d) => RunFrom(next, d, steps[1..])
  }

  lemma {:induction false} RunSnoc<S, T>(next: (S, T) -> Option<S>, s: S, steps: seq<T>, step: T)
    requires RunFrom(next, s, steps).Some? && next(RunFrom(next, s, steps).value, step).Some?
    ensures RunFrom(next, s, steps + [step]) == next(RunFrom(next, s, steps).value, step)
    decreases |steps|
  {
    if steps == [] {
      assert [step][1..] == [] && steps + [step] == [step];
      assert RunFrom(next, next(s, step).value, []) == next(s, step);
    } else {
      assert (steps + [step])[1..] == steps[1..] + [step];
      RunSnoc(next, next(s, steps[0]).value, steps[1..], step);
    }
  }

  ghost predicate Reaches<S(!new), T(!new)>(next: (S, T) -> Option<S>, from: S, s: S) {
    exists steps :: RunFrom(next, from, steps) == Some(s)
  }

  lemma ReachesItself<S(!new), T(!new)>(next: (S, T) -> Option<S>, s: S)
    ensures Reaches(next, s, s)
  {
    var none: seq<T> := [];
    assert RunFrom(next, s, none) == Some(s);
  }

  /** One more step. */
  lemma Then<S(!new), T(!new)>(next: (S, T) -> Option<S>, from: S, s: S, step: T) returns (d: S)
    requires Reaches(next, from, s) && next(s, step).Some?
    ensures Some(d) == next(s, step) && Reaches(next, from, d)
  {
    var steps :| RunFrom(next, from, steps) == Some(s);
    RunSnoc(next, from, steps, step);
    d := next(s, step).value;
    assert RunFrom(next, from, steps + [step]) == Some(d);
  }

  lemma StepsTo<S(!new), T(!new)>(next: (S, T) -> Option<S>, from: S, s: S) returns (steps: seq<T>)
    requires Reaches(next, from, s)
    ensures RunFrom(next, from, steps) == Some(s)
  {
    steps :| RunFrom(next, from, steps) == Some(s);
  }
}
