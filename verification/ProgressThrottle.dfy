/** Progress throttling per file (core/ab-engine/src/events.rs:148-206). Instants are natural
    numbers. */
module ProgressThrottle {
  import opened Common
  import opened Protocol

  predicate IsFinal(p: ProgressParams) {
    p.percent.Some? && p.percent.value >= 100.0
  }

  /** What the throttle knows about one file. */
  datatype Slot = Slot(lastEmit: Option<nat>, pending: Option<ProgressParams>)

  predicate Due(window: nat, slot: Slot, now: nat) {
    slot.lastEmit.None? || now >= slot.lastEmit.value + window
  }

  predicate EmitsNow(window: nat, slot: Slot, p: ProgressParams, now: nat) {
    IsFinal(p) || Due(window, slot, now)
  }

  function Accepted(window: nat, slot: Slot, p: ProgressParams, now: nat): Slot {
    if EmitsNow(window, slot, p, now) then Slot(Some(now), None) else slot.(pending := Some(p))
  }

  function Flushed(slot: Slot, now: nat): Slot {
    if slot.pending.Some? then Slot(Some(now), None) else slot
  }

  // ---- The history of a throttle ---------------------------------------------------------------

  /** What happens to one file in the course of time. */
  datatype Event = Update(params: ProgressParams, now: nat) | FlushAt(now: nat)

  /** An emission at event `cause` of the update of event `source`. */
  datatype Emission = Emission(source: nat, cause: nat)

  /** `waiting` is the event whose update is pending. */
  datatype Trace = Trace(slot: Slot, waiting: Option<nat>, emissions: seq<Emission>)

  function Run(window: nat, events: seq<Event>): Trace {
    if events == [] then Trace(Slot(None, None), None, []) else
      var k := |events| - 1;
      var t := Run(window, events[..k]);
      match events[k]
      case Update(p, now) =>
        Trace(Accepted(window, t.slot, p, now),
              if EmitsNow(window, t.slot, p, now) then None else Some(k),
              if EmitsNow(window, t.slot, p, now) then t.emissions + [Emission(k, k)] else t.emissions)
      case FlushAt(now) =>
        Trace(Flushed(t.slot, now), None,
              if t.waiting.Some? then t.emissions + [Emission(t.waiting.value, k)] else t.emissions)
  }

  datatype Call = Offer(params: ProgressParams, now: nat) | FlushAll(now: nat)

  /** What one call means for file `f`. */
  function EventIn(f: string, call: Call): seq<Event> {
    match call
    case Offer(params, now) => if params.fileId == f then [Update(params, now)] else []
    case FlushAll(now) => [FlushAt(now)]
  }

  function EventsOf(f: string, calls: seq<Call>): seq<Event> {
    if calls == [] then [] else EventsOf(f, calls[..|calls| - 1]) + EventIn(f, calls[|calls| - 1])
  }

  /** What came out for file `f`, in order. */
  function OutOf(f: string, out: seq<ProgressParams>): seq<ProgressParams> {
    if out == [] then [] else
      var rest := OutOf(f, out[..|out| - 1]);
      if out[|out| - 1].fileId == f then rest + [out[|out| - 1]] else rest
  }

  lemma OutSnoc(f: string, out: seq<ProgressParams>, p: ProgressParams)
    ensures OutOf(f, out + [p]) == if p.fileId == f then OutOf(f, out) + [p] else OutOf(f, out)
  {
    InitOfSnoc(out, p);
  }

  lemma {:induction false} OutSum(f: string, a: seq<ProgressParams>, b: seq<ProgressParams>)
    ensures OutOf(f, a + b) == OutOf(f, a) + OutOf(f, b)
  {
    if b == [] {
      assert a + b == a;
    } else {
      var init, last := b[..|b| - 1], b[|b| - 1];
      OutSum(f, a, init);
      assert a + b == a + init + [last];
      OutSnoc(f, a + init, last);
    }
  }

  /** What one event makes come out of a file. */
  function Emitted(window: nat, slot: Slot, event: Event): seq<ProgressParams> {
    match event
    case Update(p, now) => if EmitsNow(window, slot, p, now) then [p] else []
    case FlushAt(_) => if slot.pending.Some? then [slot.pending.value] else []
  }

  function After(window: nat, slot: Slot, event: Event): Slot {
    match event
    case Update(p, now) => Accepted(window, slot, p, now)
    case FlushAt(now) => Flushed(slot, now)
  }

  /** A file's slot and all that came out of it. */
  datatype Story = Story(slot: Slot, out: seq<ProgressParams>)

  function StoryOf(window: nat, events: seq<Event>): Story {
    if events == [] then Story(Slot(None, None), []) else
      var before := StoryOf(window, events[..|events| - 1]);
      Continued(window, before, events[|events| - 1])
  }

  function Continued(window: nat, before: Story, event: Event): Story {
    Story(After(window, before.slot, event), before.out + Emitted(window, before.slot, event))
  }

  function StoryAfter(window: nat, before: Story, events: seq<Event>): Story
    requires |events| <= 1
  {
    if events == [] then before else Continued(window, before, events[0])
  }

  lemma StoryNext(window: nat, f: string, calls: seq<Call>, call: Call)
    ensures StoryOf(window, EventsOf(f, calls + [call])) ==
            StoryAfter(window, StoryOf(window, EventsOf(f, calls)), EventIn(f, call))
  {
    InitOfSnoc(calls, call);
    var events, more := EventsOf(f, calls), EventIn(f, call);
    if more == [] {
      assert events + [] == events;
    } else {
      InitOfSnoc(events, more[0]);
    }
  }

  lemma OfferContinues(window: nat, f: string, calls: seq<Call>, emitted: seq<ProgressParams>, slot: Slot,
                       params: ProgressParams, now: nat, r: Option<ProgressParams>, slotAfter: Slot)
    requires Story(slot, OutOf(f, emitted)) == StoryOf(window, EventsOf(f, calls))
    requires r.Some? ==> r.value == params
    requires if f != params.fileId then slotAfter == slot
             else slotAfter == Accepted(window, slot, params, now) && (r.Some? <==> EmitsNow(window, slot, params, now))
    ensures Story(slotAfter, OutOf(f, emitted + if r.Some? then [r.value] else [])) ==
            StoryOf(window, EventsOf(f, calls + [Offer(params, now)]))
  {
    StoryNext(window, f, calls, Offer(params, now));
    if r.Some? {
      OutSnoc(f, emitted, params);
    } else {
      assert emitted + [] == emitted;
      assert OutOf(f, emitted) + [] == OutOf(f, emitted);
    }
  }

  lemma FlushContinues(window: nat, f: string, calls: seq<Call>, emitted: seq<ProgressParams>, slot: Slot,
                       now: nat, out: seq<ProgressParams>, slotAfter: Slot)
    requires Story(slot, OutOf(f, emitted)) == StoryOf(window, EventsOf(f, calls))
    requires slotAfter == Flushed(slot, now)
    requires OutOf(f, out) == if slot.pending.Some? then [slot.pending.value] else []
    ensures Story(slotAfter, OutOf(f, emitted + out)) == StoryOf(window, EventsOf(f, calls + [FlushAll(now)]))
  {
    StoryNext(window, f, calls, FlushAll(now));
    OutSum(f, emitted, out);
  }

  class Throttle {
    const window: nat
    var lastEmit: map<string, nat>
    var pending: map<string, ProgressParams>
    /** All calls so far and everything that came out of them. */
    ghost var calls: seq<Call>
    ghost var emitted: seq<ProgressParams>

    ghost predicate Keyed() reads this`pending {
      forall f :: f in pending ==> pending[f].fileId == f
    }

    /** For every file the fields and the output are those of the file's own events. */
    ghost predicate Valid() reads this {
      Keyed() && forall f :: StoryAt(f) == StoryOf(window, EventsOf(f, calls))
    }

    ghost function StoryAt(f: string): Story reads this {
      Story(SlotOf(f), OutOf(f, emitted))
    }

    function SlotOf(f: string): Slot reads this`lastEmit, this`pending {
      Slot(if f in lastEmit then Some(lastEmit[f]) else None, if f in pending then Some(pending[f]) else None)
    }

    constructor (window: nat)
      ensures Valid() && this.window == window && forall f :: SlotOf(f) == Slot(None, None)
      ensures calls == [] && emitted == []
    {
      this.window, lastEmit, pending := window, map[], map[];
      calls, emitted := [], [];
    }

    /** An update comes out at once or replaces what waits for its file. */
    method Accept(params: ProgressParams, now: nat) returns (r: Option<ProgressParams>)
      requires Valid()
      modifies this
      ensures Valid() && calls == old(calls) + [Offer(params, now)]
      ensures emitted == old(emitted) + if r.Some? then [r.value] else []
      ensures r == if EmitsNow(window, old(SlotOf(params.fileId)), params, now) then Some(params) else None
      ensures SlotOf(params.fileId) == Accepted(window, old(SlotOf(params.fileId)), params, now)
      ensures forall f :: f != params.fileId ==> SlotOf(f) == old(SlotOf(f))
    {
      r := Take(params, now);
      Record(Offer(params, now), if r.Some? then [r.value] else []);
      forall f ensures StoryAt(f) == StoryOf(window, EventsOf(f, calls)) {
        assert old(StoryAt(f)) == StoryOf(window, EventsOf(f, old(calls)));
        OfferContinues(window, f, old(calls), old(emitted), old(SlotOf(f)), params, now, r, SlotOf(f));
      }
    }

    ghost method Record(call: Call, out: seq<ProgressParams>)
      modifies this`calls, this`emitted
      ensures calls == old(calls) + [call] && emitted == old(emitted) + out
    {
      calls, emitted := calls + [call], emitted + out;
    }

    method Take(params: ProgressParams, now: nat) returns (r: Option<ProgressParams>)
      requires Keyed()
      modifies this`lastEmit, this`pending
      ensures Keyed()
      ensures r == if EmitsNow(window, old(SlotOf(params.fileId)), params, now) then Some(params) else None
      ensures SlotOf(params.fileId) == Accepted(window, old(SlotOf(params.fileId)), params, now)
      ensures forall f :: f != params.fileId ==> SlotOf(f) == old(SlotOf(f))
    {
      var fileId := params.fileId;
      if params.percent.Some? && params.percent.value >= 100.0 {
        pending := pending - {fileId};
        lastEmit := lastEmit[fileId := now];
        return Some(params);
      }
      var due := if fileId in lastEmit then now >= lastEmit[fileId] + window else true;
      pending := pending[fileId := params];
      if due {
        r := FlushFile(fileId, now);
      } else {
        r := None;
      }
    }

    method FlushFile(fileId: string, now: nat) returns (r: Option<ProgressParams>)
      requires Keyed()
      modifies this`lastEmit, this`pending
      ensures Keyed() && r == old(SlotOf(fileId)).pending
      ensures SlotOf(fileId) == Flushed(old(SlotOf(fileId)), now)
      ensures pending.Keys == old(pending).Keys - {fileId}
      ensures forall f :: f != fileId ==> SlotOf(f) == old(SlotOf(f))
    {
      if fileId !in pending {
        return None;
      }
      r := Some(pending[fileId]);
      pending := pending - {fileId};
      lastEmit := lastEmit[fileId := now];
    }

    /** Everything that waits comes out, once. */
    method Flush(now: nat) returns (out: seq<ProgressParams>)
      requires Valid()
      modifies this
      ensures Valid() && pending == map[] && calls == old(calls) + [FlushAll(now)]
      ensures emitted == old(emitted) + out
      ensures forall f :: SlotOf(f) == Flushed(old(SlotOf(f)), now)
      ensures forall f :: OutOf(f, out) == if f in old(pending) then [old(pending)[f]] else []
    {
      out := FlushFiles(now);
      Record(FlushAll(now), out);
      forall f ensures StoryAt(f) == StoryOf(window, EventsOf(f, calls)) {
        assert old(StoryAt(f)) == StoryOf(window, EventsOf(f, old(calls)));
        FlushContinues(window, f, old(calls), old(emitted), old(SlotOf(f)), now, out, SlotOf(f));
      }
    }

    method FlushFiles(now: nat) returns (out: seq<ProgressParams>)
      requires Keyed()
      modifies this`lastEmit, this`pending
      ensures Keyed() && pending == map[]
      ensures forall f :: SlotOf(f) == Flushed(old(SlotOf(f)), now)
      ensures forall f :: OutOf(f, out) == if f in old(pending) then [old(pending)[f]] else []
    {
      out := [];
      var ids := pending.Keys;
      while ids != {}
        invariant Keyed() && ids == pending.Keys && ids <= old(pending).Keys
        invariant forall f :: f in ids ==> SlotOf(f) == old(SlotOf(f))
        invariant forall f :: f !in ids ==> SlotOf(f) == Flushed(old(SlotOf(f)), now)
        invariant forall f :: OutOf(f, out) == if f in old(pending).Keys - ids then [old(pending)[f]] else []
      {
        var id :| id in ids;
        label L:
        assert SlotOf(id) == old(SlotOf(id)) && SlotOf(id).pending == Some(old(pending)[id]);
        var p := FlushFile(id, now);
        ghost var before := out;
        ids := ids - {id};
        out := out + [p.value];
        forall f ensures OutOf(f, out) == if f in old(pending).Keys - ids then [old(pending)[f]] else [] {
          OutSnoc(f, before, p.value);
        }
        forall f | f in ids ensures SlotOf(f) == old(SlotOf(f)) {
          assert SlotOf(f) == old@L(SlotOf(f));
        }
        forall f | f !in ids ensures SlotOf(f) == Flushed(old(SlotOf(f)), now) {
          if f != id {
            assert SlotOf(f) == old@L(SlotOf(f));
          }
        }
      }
    }
  }

  // ---- Whole runs ------------------------------------------------------------------------------

  predicate IsUpdate(events: seq<Event>, i: nat) {
    i < |events| && events[i].Update?
  }

  ghost predicate NoUpdateBehind(events: seq<Event>, i: int) {
    forall k :: 0 <= k < |events| && i < k ==> !events[k].Update?
  }

  /** The bookkeeping of a run: the slot mirrors the last emission and the waiting update. */
  ghost predicate TraceInv(events: seq<Event>, t: Trace) {
    && (t.waiting.Some? <==> t.slot.pending.Some?)
    && (t.waiting.Some? ==> IsUpdate(events, t.waiting.value) && t.slot.pending == Some(events[t.waiting.value].params)
                            && NoUpdateBehind(events, t.waiting.value))
    && (forall e :: e in t.emissions ==> IsUpdate(events, e.source) && e.source <= e.cause < |events|)
    && (if t.emissions == [] then t.slot.lastEmit.None?
        else t.slot.lastEmit == Some(events[t.emissions[|t.emissions| - 1].cause].now))
    && (t.waiting.None? ==>
          NoUpdateBehind(events, if t.emissions == [] then -1 else t.emissions[|t.emissions| - 1].source))
    && (t.waiting.Some? && t.emissions != [] ==> t.emissions[|t.emissions| - 1].source < t.waiting.value)
  }

  lemma {:induction false} RunKeepsTraceInv(window: nat, events: seq<Event>)
    ensures TraceInv(events, Run(window, events))
  {
    if events != [] {
      var k := |events| - 1;
      RunKeepsTraceInv(window, events[..k]);
    }
  }

  ghost predicate SourcesAscend(es: seq<Emission>) {
    forall i, j :: 0 <= i < j < |es| ==> es[i].source < es[j].source
  }

  /** An emission that an ordinary update caused keeps its distance from the one before. */
  predicate Apart(window: nat, events: seq<Event>, before: Emission, e: Emission) {
    before.cause < |events| && e.cause < |events| && events[e.cause].Update? && !IsFinal(events[e.cause].params) ==>
      events[e.cause].now >= events[before.cause].now + window
  }

  ghost predicate Spaced(window: nat, events: seq<Event>, es: seq<Emission>) {
    forall j :: 0 < j < |es| ==> Apart(window, events, es[j - 1], es[j])
  }

  ghost predicate FinalsOut(events: seq<Event>, es: seq<Emission>) {
    forall k: nat :: k < |events| && events[k].Update? && IsFinal(events[k].params) ==> Emission(k, k) in es
  }

  lemma {:induction false} RunAscends(window: nat, events: seq<Event>)
    ensures SourcesAscend(Run(window, events).emissions)
  {
    if events != [] {
      RunAscends(window, events[..|events| - 1]);
      RunKeepsTraceInv(window, events[..|events| - 1]);
      var es := Run(window, events[..|events| - 1]).emissions;
      assert es != [] ==> es[|es| - 1] in es;
    }
  }

  lemma {:induction false} RunSpaces(window: nat, events: seq<Event>)
    ensures Spaced(window, events, Run(window, events).emissions)
  {
    if events != [] {
      var before := events[..|events| - 1];
      RunSpaces(window, before);
      RunKeepsTraceInv(window, before);
      var es, fs := Run(window, before).emissions, Run(window, events).emissions;
      forall j | 0 < j < |fs| ensures Apart(window, events, fs[j - 1], fs[j]) {
        if j < |es| {
          assert es[j] in es && es[j - 1] in es && Apart(window, before, es[j - 1], es[j]);
        } else {
          assert es[j - 1] in es;
        }
      }
    }
  }

  lemma {:induction false} RunLetsFinalsOut(window: nat, events: seq<Event>)
    ensures FinalsOut(events, Run(window, events).emissions)
  {
    if events != [] {
      var k := |events| - 1;
      RunLetsFinalsOut(window, events[..k]);
      var es, fs := Run(window, events[..k]).emissions, Run(window, events).emissions;
      assert forall e :: e in es ==> e in fs;
      if events[k].Update? && IsFinal(events[k].params) {
        assert fs[|fs| - 1] == Emission(k, k);
      }
    }
  }

  /** An ordinary update that did not come out at once came within a window of an emission. */
  ghost predicate NotWithheld(window: nat, events: seq<Event>, es: seq<Emission>) {
    forall k: nat :: k < |events| && events[k].Update? && Emission(k, k) !in es ==>
      HeldBack(window, events, es, k)
  }

  ghost predicate HeldBack(window: nat, events: seq<Event>, es: seq<Emission>, k: nat)
    requires k < |events|
  {
    exists e :: e in es && e.cause < k && events[k].now < events[e.cause].now + window
  }

  lemma {:induction false} RunWithholdsNothing(window: nat, events: seq<Event>)
    ensures NotWithheld(window, events, Run(window, events).emissions)
  {
    if events != [] {
      var n := |events| - 1;
      var before := events[..n];
      RunWithholdsNothing(window, before);
      RunKeepsTraceInv(window, before);
      var es, fs := Run(window, before).emissions, Run(window, events).emissions;
      forall k: nat | k < |events| && events[k].Update? && Emission(k, k) !in fs
        ensures HeldBack(window, events, fs, k)
      {
        if k < n {
          assert Emission(k, k) !in es && HeldBack(window, before, es, k);
          var e :| e in es && e.cause < k && before[k].now < before[e.cause].now + window;
          assert e in fs;
        } else {
          assert fs == es && es != [] && es[|es| - 1] in es;
        }
      }
    }
  }

  /** Over every run: what comes out of a file is a subsequence of what went in, a final update
      comes out at once, any other emission caused by an update is at least one window behind
      the emission before it, an update is held back only within a window of an emission, and
      behind a flush the last value out is the last value in. */
  lemma ThrottleIsFaithful(window: nat, events: seq<Event>)
    ensures var es := Run(window, events).emissions;
            && (forall e :: e in es ==> IsUpdate(events, e.source) && e.source <= e.cause < |events|)
            && SourcesAscend(es) && Spaced(window, events, es) && FinalsOut(events, es)
            && NotWithheld(window, events, es)
            && (events != [] && events[|events| - 1].FlushAt? && (exists k :: IsUpdate(events, k)) ==>
                  es != [] && NoUpdateBehind(events, es[|es| - 1].source))
  {
    RunKeepsTraceInv(window, events);
    RunAscends(window, events);
    RunSpaces(window, events);
    RunLetsFinalsOut(window, events);
    RunWithholdsNothing(window, events);
  }

  // ---- Runs and stories ------------------------------------------------------------------------

  /** The updates that the emissions of a run stand for. */
  function ParamsOf(events: seq<Event>, es: seq<Emission>): seq<ProgressParams>
    requires forall e :: e in es ==> IsUpdate(events, e.source)
  {
    if es == [] then [] else
      var last := es[|es| - 1];
      assert last in es && IsUpdate(events, last.source);
      ParamsOf(events, es[..|es| - 1]) + [events[last.source].params]
  }

  lemma {:induction false} ParamsOfLonger(events: seq<Event>, longer: seq<Event>, es: seq<Emission>)
    requires events <= longer && forall e :: e in es ==> IsUpdate(events, e.source)
    ensures (forall e :: e in es ==> IsUpdate(longer, e.source)) && ParamsOf(longer, es) == ParamsOf(events, es)
  {
    if es != [] {
      assert es[|es| - 1] in es;
      ParamsOfLonger(events, longer, es[..|es| - 1]);
    }
  }

  /** One more event adds to the emissions of a run what comes out at it. */
  lemma EmissionsNext(window: nat, events: seq<Event>)
    requires events != []
    ensures var before, k := events[..|events| - 1], |events| - 1;
            var t, u := Run(window, before), Run(window, events);
            && (forall e :: e in t.emissions ==> IsUpdate(before, e.source))
            && (forall e :: e in u.emissions ==> IsUpdate(events, e.source))
            && ParamsOf(events, u.emissions) ==
               ParamsOf(before, t.emissions) + Emitted(window, t.slot, events[k])
  {
    var before := events[..|events| - 1];
    RunKeepsTraceInv(window, before);
    RunKeepsTraceInv(window, events);
    var t, u := Run(window, before), Run(window, events);
    ParamsOfLonger(before, events, t.emissions);
    if u.emissions != t.emissions {
      InitOfSnoc(t.emissions, u.emissions[|u.emissions| - 1]);
    } else {
      assert ParamsOf(before, t.emissions) + [] == ParamsOf(before, t.emissions);
    }
  }

  lemma {:induction false} RunTellsTheStory(window: nat, events: seq<Event>)
    ensures (forall e :: e in Run(window, events).emissions ==> IsUpdate(events, e.source))
    ensures StoryOf(window, events) == Story(Run(window, events).slot, ParamsOf(events, Run(window, events).emissions))
  {
    if events != [] {
      RunTellsTheStory(window, events[..|events| - 1]);
      EmissionsNext(window, events);
    }
  }

  /** Everything that ever came out of a throttle for a file are the emissions of the run of
      the file's own events. */
  lemma ThrottleFollowsRuns(t: Throttle, f: string)
    requires t.Valid()
    ensures var events := EventsOf(f, t.calls);
            && (forall e :: e in Run(t.window, events).emissions ==> IsUpdate(events, e.source))
            && OutOf(f, t.emitted) == ParamsOf(events, Run(t.window, events).emissions)
  {
    assert t.StoryAt(f) == StoryOf(t.window, EventsOf(f, t.calls));
    RunTellsTheStory(t.window, EventsOf(f, t.calls));
  }
}
