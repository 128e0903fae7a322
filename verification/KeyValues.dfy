/** Text columns with few values, sampled while a file is parsed and asked for the value at an
    instant (plugins/builtin-csv/src/engine.rs:32-40, 581-598, 612-628). */
module KeyValues {
  import opened Common

  const CARDINALITY_LIMIT: nat := 10
  const SAMPLE_LIMIT: nat := 5000

  datatype Sample = Sample(ts: int, value: string)

  datatype KvColumn = KvColumn(idx: nat, distinct: set<string>, samples: seq<Sample>, valid: bool)

  function NewColumn(idx: nat): KvColumn {
    KvColumn(idx, {}, [], true)
  }

  /** One more cell with text: a column with too many values is given up, and a full one takes
      no more samples. */
  function Sampled(c: KvColumn, s: Sample): KvColumn {
    if !c.valid then c else
      var distinct := c.distinct + {s.value};
      if s.value !in c.distinct && |distinct| > CARDINALITY_LIMIT then KvColumn(c.idx, distinct, [], false)
      else KvColumn(c.idx, distinct, if |c.samples| < SAMPLE_LIMIT then c.samples + [s] else c.samples, true)
  }

  function SampledAll(c: KvColumn, cells: seq<Sample>): KvColumn {
    if cells == [] then c else Sampled(SampledAll(c, cells[..|cells| - 1]), cells[|cells| - 1])
  }

  function ValuesOf(cells: seq<Sample>): (values: set<string>)
    ensures |values| <= |cells|
  {
    if cells == [] then {} else ValuesOf(cells[..|cells| - 1]) + {cells[|cells| - 1].value}
  }

  function FirstSamples(cells: seq<Sample>): seq<Sample> {
    if |cells| <= SAMPLE_LIMIT then cells else cells[..SAMPLE_LIMIT]
  }

  lemma {:induction false} ValuesGrow(cells: seq<Sample>, k: nat)
    requires k <= |cells|
    ensures ValuesOf(cells[..k]) <= ValuesOf(cells)
  {
    if k < |cells| {
      ValuesGrow(cells[..|cells| - 1], k);
      assert cells[..|cells| - 1][..k] == cells[..k];
    } else {
      assert cells[..k] == cells;
    }
  }

  lemma SubsetIsNotLarger<T>(a: set<T>, b: set<T>)
    requires a <= b
    ensures |a| <= |b|
  {
    assert a + (b - a) == b;
  }

  /** A column is valid exactly while it has at most ten different texts, and then it holds the
      first 5000 of its cells. */
  lemma {:induction false} ColumnHolds(idx: nat, cells: seq<Sample>)
    ensures var c := SampledAll(NewColumn(idx), cells);
            && (c.valid <==> |ValuesOf(cells)| <= CARDINALITY_LIMIT)
            && (c.valid ==> c.distinct == ValuesOf(cells) && c.samples == FirstSamples(cells))
            && (!c.valid ==> c.samples == [])
  {
    if cells != [] {
      var before, s := cells[..|cells| - 1], cells[|cells| - 1];
      ColumnHolds(idx, before);
      ValuesGrow(cells, |before|);
      SubsetIsNotLarger(ValuesOf(before), ValuesOf(cells));
      assert s.value in ValuesOf(before) ==> ValuesOf(cells) == ValuesOf(before);
    }
  }

  // ---- The value at an instant ---------------------------------------------------------------------

  /** The last sample in file order that is not later than `t`, by position. */
  function LastUpTo(samples: seq<Sample>, t: int): (r: Option<nat>)
    ensures r.Some? ==> r.value < |samples| && samples[r.value].ts <= t
    ensures forall k: nat :: k < |samples| && samples[k].ts <= t ==> r.Some? && k <= r.value
  {
    if samples == [] then None
    else if samples[|samples| - 1].ts <= t then Some(|samples| - 1)
    else LastUpTo(samples[..|samples| - 1], t)
  }

  function ValueAt(c: KvColumn, t: int): Option<string> {
    if !c.valid then None else
      match LastUpTo(c.samples, t)
      case None => None
      case Some(i) => Some(c.samples[i].value)
  }

  /** Cell `i` is the newest one up to `t`; of cells of one time the last in the file. */
  predicate IsNewest(cells: seq<Sample>, t: int, i: nat) {
    && i < |cells| && cells[i].ts <= t
    && forall k: nat :: k < |cells| && cells[k].ts <= t ==>
         cells[k].ts < cells[i].ts || (cells[k].ts == cells[i].ts && k <= i)
  }

  /** A cell that an earlier time follows comes once more behind it. */
  ghost predicate TimesRecur(cells: seq<Sample>) {
    forall i, j :: 0 <= i < j < |cells| && cells[j].ts < cells[i].ts ==> HasTime(cells, j + 1, cells[i].ts)
  }

  predicate HasTime(cells: seq<Sample>, from: nat, ts: int) {
    exists k :: from <= k < |cells| && cells[k].ts == ts
  }

  /** The newest cell of a time that occurs. */
  lemma {:induction false} NewestOf(cells: seq<Sample>, i: nat) returns (k: nat)
    requires i < |cells|
    ensures i <= k < |cells| && cells[k].ts == cells[i].ts && IsNewest(cells, cells[i].ts, k)
    decreases |cells| - i
  {
    if HasTime(cells, i + 1, cells[i].ts) {
      var j :| i + 1 <= j < |cells| && cells[j].ts == cells[i].ts;
      k := NewestOf(cells, j);
    } else {
      k := i;
    }
  }

  ghost predicate FindsNewest(samples: seq<Sample>, cells: seq<Sample>) {
    forall t, i: nat :: IsNewest(cells, t, i) ==> LastUpTo(samples, t) == Some(i)
  }

  lemma LateCellIsMissed(cells: seq<Sample>)
    requires |cells| > SAMPLE_LIMIT
    ensures !FindsNewest(cells[..SAMPLE_LIMIT], cells)
  {
    var t := cells[SAMPLE_LIMIT].ts;
    var k := NewestOf(cells, SAMPLE_LIMIT);
    assert IsNewest(cells, t, k) && LastUpTo(cells[..SAMPLE_LIMIT], t) != Some(k);
  }

  lemma OlderCellIsShown(cells: seq<Sample>)
    requires !TimesRecur(cells)
    ensures !FindsNewest(cells, cells)
  {
    var i, j :| 0 <= i < j < |cells| && cells[j].ts < cells[i].ts && !HasTime(cells, j + 1, cells[i].ts);
    var t := cells[i].ts;
    var k := NewestOf(cells, i);
    assert k < j;
    assert IsNewest(cells, t, k) && LastUpTo(cells, t) != Some(k);
  }

  lemma RecurringIsLast(cells: seq<Sample>, t: int, i: nat)
    requires TimesRecur(cells) && IsNewest(cells, t, i)
    ensures LastUpTo(cells, t) == Some(i)
  {
  }

  lemma FirstFindNewestIff(cells: seq<Sample>)
    ensures FindsNewest(FirstSamples(cells), cells) <==> |cells| <= SAMPLE_LIMIT && TimesRecur(cells)
  {
    if |cells| > SAMPLE_LIMIT {
      LateCellIsMissed(cells);
    } else if TimesRecur(cells) {
      forall t, i: nat | IsNewest(cells, t, i) ensures LastUpTo(cells, t) == Some(i) {
        RecurringIsLast(cells, t, i);
      }
    } else {
      OlderCellIsShown(cells);
    }
  }

  /** The answer of a valid column is the newest cell at every instant exactly if no cell was
      left out and every cell that an earlier time follows comes once more behind it. */
  lemma ShowsNewestIff(idx: nat, cells: seq<Sample>)
    requires SampledAll(NewColumn(idx), cells).valid
    ensures FindsNewest(SampledAll(NewColumn(idx), cells).samples, cells) <==>
            |cells| <= SAMPLE_LIMIT && TimesRecur(cells)
  {
    ColumnHolds(idx, cells);
    FirstFindNewestIff(cells);
  }

  /** In particular for a file in time order. */
  lemma OrderedShowsNewest(idx: nat, cells: seq<Sample>)
    requires SampledAll(NewColumn(idx), cells).valid && |cells| <= SAMPLE_LIMIT
    requires forall i, j :: 0 <= i < j < |cells| ==> cells[i].ts <= cells[j].ts
    ensures FindsNewest(SampledAll(NewColumn(idx), cells).samples, cells)
  {
    ShowsNewestIff(idx, cells);
  }

  /** Two rows the wrong way round: the older text is shown. */
  lemma OlderValueIsShown() returns (cells: seq<Sample>)
    ensures cells == [Sample(5, "new"), Sample(3, "old")]
    ensures IsNewest(cells, 5, 0) && ValueAt(SampledAll(NewColumn(0), cells), 5) == Some("old")
  {
    cells := [Sample(5, "new"), Sample(3, "old")];
    ColumnHolds(0, cells);
  }
}
