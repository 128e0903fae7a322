/** What a file's store should hold, stated over the plain list of records it received.

    The functions here read the record list directly; `Store` keeps columns, side tables and
    counters, and its class invariant says that they always agree with this module. */
module Ledger {
  import opened Common
  import opened Protocol

  const RAW_LINE_STRIDE: nat := 100
  const MAX_TAGS_PER_FILE: nat := 100_000

  /** One stored point together with what the side tables keep for it. */
  datatype Point = Point(ts: int, value: real, tags: Option<Tags>, raw: Option<string>)

  predicate IsText(line: Option<string>) {
    line.Some? && line.value != ""
  }

  function EntryCount(tags: Option<Tags>): nat {
    if tags.Some? then |tags.value| else 0
  }

  predicate HasRaw(r: Record) {
    IsText(r.rawLine)
  }

  function TagCount(r: Record): nat {
    EntryCount(r.tags)
  }

  function TagBytes(tags: Tags): nat {
    if tags == [] then 0 else |tags[0].0| + |tags[0].1| + TagBytes(tags[1..])
  }

  function TextBytes(text: Option<string>): nat {
    if text.Some? then |text.value| else 0
  }

  function RecordApproxBytes(r: Record): nat {
    24 + |r.metric| + TextBytes(r.level) + TextBytes(r.rawLine)
    + (if r.tags.Some? then TagBytes(r.tags.value) + 4 * |r.tags.value| else 0)
  }

  /** All texts of a record. */
  function TextsIn(r: Record): seq<string> {
    [r.metric] + (if r.level.Some? then [r.level.value] else []) + (if r.rawLine.Some? then [r.rawLine.value] else [])
    + (if r.tags.Some? then TagTexts(r.tags.value) else [])
  }

  function TagTexts(tags: Tags): seq<string> {
    if tags == [] then [] else [tags[0].0, tags[0].1] + TagTexts(tags[1..])
  }

  function Characters(texts: seq<string>): nat {
    if texts == [] then 0 else |texts[0]| + Characters(texts[1..])
  }

  lemma {:induction false} CharactersOfSum(a: seq<string>, b: seq<string>)
    ensures Characters(a + b) == Characters(a) + Characters(b)
  {
    if a == [] {
      assert a + b == b;
    } else {
      assert (a + b)[1..] == a[1..] + b;
      CharactersOfSum(a[1..], b);
    }
  }

  lemma {:induction false} TagBytesAreCharacters(tags: Tags)
    ensures TagBytes(tags) == Characters(TagTexts(tags))
  {
    if tags != [] {
      TagBytesAreCharacters(tags[1..]);
      CharactersOfSum([tags[0].0, tags[0].1], TagTexts(tags[1..]));
      assert [tags[0].0, tags[0].1][1..] == [tags[0].1];
      CharactersOfOne(tags[0].1);
    }
  }

  lemma CharactersOfOne(text: string)
    ensures Characters([text]) == |text|
  {
    assert [text][1..] == [];
  }

  /** A record weighs 24 bytes, its texts and four bytes per tag entry. */
  lemma RecordWeighsItsTexts(r: Record)
    ensures RecordApproxBytes(r) == 24 + Characters(TextsIn(r)) + 4 * TagCount(r)
  {
    var level := if r.level.Some? then [r.level.value] else [];
    var raw := if r.rawLine.Some? then [r.rawLine.value] else [];
    var tags := if r.tags.Some? then TagTexts(r.tags.value) else [];
    CharactersOfSum([r.metric] + level + raw, tags);
    CharactersOfSum([r.metric] + level, raw);
    CharactersOfSum([r.metric], level);
    CharactersOfOne(r.metric);
    if r.level.Some? {
      CharactersOfOne(r.level.value);
    }
    if r.rawLine.Some? {
      CharactersOfOne(r.rawLine.value);
    }
    if r.tags.Some? {
      TagBytesAreCharacters(r.tags.value);
    }
  }

  /** A file's bytes bound its points: each declared record weighs at least 24. */
  lemma {:induction false} BytesBoundRecords(wl: set<string>, rs: seq<Record>)
    ensures 24 * (|rs| - Undeclared(wl, rs)) <= Bytes(wl, rs)
  {
    if rs != [] {
      BytesBoundRecords(wl, rs[..|rs| - 1]);
    }
  }

  /** Records whose metric was not declared. */
  function Undeclared(wl: set<string>, rs: seq<Record>): (n: nat)
    ensures n <= |rs|
  {
    if rs == [] then 0 else
      Undeclared(wl, rs[..|rs| - 1]) + if rs[|rs| - 1].metric in wl then 0 else 1
  }

  /** Accepted records of metric `m` that carry a non-empty raw line. */
  function RawCount(wl: set<string>, rs: seq<Record>, m: string): nat {
    if rs == [] then 0 else
      RawCount(wl, rs[..|rs| - 1], m)
      + if rs[|rs| - 1].metric == m && m in wl && HasRaw(rs[|rs| - 1]) then 1 else 0
  }

  /** All tag entries on accepted records, kept or not. */
  function TagEntries(wl: set<string>, rs: seq<Record>): nat {
    if rs == [] then 0 else
      TagEntries(wl, rs[..|rs| - 1]) + if rs[|rs| - 1].metric in wl then TagCount(rs[|rs| - 1]) else 0
  }

  predicate KeepsTags(wl: set<string>, before: seq<Record>, r: Record) {
    r.metric in wl && TagCount(r) > 0 && TagsKept(wl, before) + TagCount(r) <= MAX_TAGS_PER_FILE
  }

  /** Tag entries kept under the per-file limit: a record's tags are kept whole or not at all. */
  function TagsKept(wl: set<string>, rs: seq<Record>): (n: nat)
    ensures n <= MAX_TAGS_PER_FILE && n <= TagEntries(wl, rs)
    decreases |rs|, 0
  {
    if rs == [] then 0 else
      var n := TagsKept(wl, rs[..|rs| - 1]);
      var c := TagCount(rs[|rs| - 1]);
      if rs[|rs| - 1].metric in wl && n + c <= MAX_TAGS_PER_FILE then n + c else n
  }

  predicate KeepsRaw(wl: set<string>, before: seq<Record>, r: Record) {
    HasRaw(r) && RawCount(wl, before + [r], r.metric) % RAW_LINE_STRIDE == 0
  }

  function Bytes(wl: set<string>, rs: seq<Record>): nat {
    if rs == [] then 0 else
      Bytes(wl, rs[..|rs| - 1]) + if rs[|rs| - 1].metric in wl then RecordApproxBytes(rs[|rs| - 1]) else 0
  }

  function PointOf(wl: set<string>, before: seq<Record>, r: Record): Point {
    Point(r.timestamp, r.value,
          if KeepsTags(wl, before, r) then r.tags else None,
          if KeepsRaw(wl, before, r) then r.rawLine else None)
  }

  /** The accepted points of one metric, in arrival order. */
  function Points(wl: set<string>, rs: seq<Record>, m: string): (ps: seq<Point>)
    ensures |ps| <= |rs|
    ensures m !in wl ==> ps == []
  {
    if rs == [] then [] else
      var ps := Points(wl, rs[..|rs| - 1], m);
      if rs[|rs| - 1].metric == m && m in wl then ps + [PointOf(wl, rs[..|rs| - 1], rs[|rs| - 1])] else ps
  }

  function TagsOn(ps: seq<Point>): nat {
    if ps == [] then 0 else
      TagsOn(ps[..|ps| - 1]) + if ps[|ps| - 1].tags.Some? then |ps[|ps| - 1].tags.value| else 0
  }

  function RawsOn(ps: seq<Point>): nat {
    if ps == [] then 0 else RawsOn(ps[..|ps| - 1]) + if ps[|ps| - 1].raw.Some? then 1 else 0
  }

  // ---- Conservation -------------------------------------------------------------------

  /** Nothing received is unaccounted for: every record is a point of exactly one declared
      metric or is counted as undeclared. */
  lemma {:induction false} RecordsAreConserved(wl: set<string>, rs: seq<Record>, f: string -> nat)
    requires forall m :: m in wl ==> f(m) == |Points(wl, rs, m)|
    ensures |rs| == SumOver(wl, f) + Undeclared(wl, rs)
  {
    if rs == [] {
      SumOverZero(wl, f);
    } else {
      var before := rs[..|rs| - 1];
      var g := (m: string) => |Points(wl, before, m)|;
      RecordsAreConserved(wl, before, g);
      if rs[|rs| - 1].metric in wl {
        SumOverChange(wl, g, f, rs[|rs| - 1].metric);
      } else {
        SumOverSame(wl, g, f);
      }
    }
  }

  /** The running tag total is the number of entries on the stored points. */
  lemma {:induction false} TagsAreConserved(wl: set<string>, rs: seq<Record>, f: string -> nat)
    requires forall m :: m in wl ==> f(m) == TagsOn(Points(wl, rs, m))
    ensures TagsKept(wl, rs) == SumOver(wl, f)
  {
    if rs == [] {
      SumOverZero(wl, f);
    } else {
      var before, r := rs[..|rs| - 1], rs[|rs| - 1];
      var g := (m: string) => TagsOn(Points(wl, before, m));
      TagsAreConserved(wl, before, g);
      forall m | m in wl ensures f(m) == g(m) + if m == r.metric then TagsKept(wl, rs) - TagsKept(wl, before) else 0 {
        TagsOfLast(wl, rs, m);
      }
      if r.metric in wl {
        SumOverChange(wl, g, f, r.metric);
      } else {
        SumOverSame(wl, g, f);
      }
    }
  }

  lemma TagsOfLast(wl: set<string>, rs: seq<Record>, m: string)
    requires rs != [] && m in wl
    ensures var before := rs[..|rs| - 1];
            TagsOn(Points(wl, rs, m)) ==
            TagsOn(Points(wl, before, m))
            + if m == rs[|rs| - 1].metric then TagsKept(wl, rs) - TagsKept(wl, before) else 0
  {
    CountsSnoc(Points(wl, rs[..|rs| - 1], m), PointOf(wl, rs[..|rs| - 1], rs[|rs| - 1]));
  }

  /** No tag is dropped while all of them fit the limit. */
  lemma {:induction false} TagsFitTheLimit(wl: set<string>, rs: seq<Record>)
    requires TagEntries(wl, rs) <= MAX_TAGS_PER_FILE
    ensures TagsKept(wl, rs) == TagEntries(wl, rs)
  {
    if rs != [] {
      TagsFitTheLimit(wl, rs[..|rs| - 1]);
    }
  }

  /** Of k accepted non-empty raw lines of a metric exactly floor(k / 100) are kept. */
  lemma {:induction false} RawLinesAreSampled(wl: set<string>, rs: seq<Record>, m: string)
    ensures RawsOn(Points(wl, rs, m)) == RawCount(wl, rs, m) / RAW_LINE_STRIDE
  {
    if rs != [] {
      RawLinesAreSampled(wl, rs[..|rs| - 1], m);
      if rs[|rs| - 1].metric == m && m in wl {
        CountsSnoc(Points(wl, rs[..|rs| - 1], m), PointOf(wl, rs[..|rs| - 1], rs[|rs| - 1]));
        assert rs[..|rs| - 1] + [rs[|rs| - 1]] == rs;
      }
    }
  }

  lemma {:induction false} SumOverZero(s: set<string>, f: string -> nat)
    requires forall m :: m in s ==> f(m) == 0
    ensures SumOver(s, f) == 0
  {
    if s != {} {
      var m :| m in s && SumOver(s, f) == f(m) + SumOver(s - {m}, f);
      SumOverZero(s - {m}, f);
    }
  }

  // ---- The stable order ---------------------------------------------------------------

  predicate Sorted(ps: seq<Point>) {
    forall i, j :: 0 <= i < j < |ps| ==> ps[i].ts <= ps[j].ts
  }

  /** A new last arrival goes behind the points that are not later than it. */
  function Insert(ps: seq<Point>, p: Point): (r: seq<Point>)
    ensures |r| == |ps| + 1
  {
    if ps == [] || ps[|ps| - 1].ts <= p.ts then ps + [p]
    else Insert(ps[..|ps| - 1], p) + [ps[|ps| - 1]]
  }

  /** Stable sort by timestamp: arrivals are inserted behind their equals. */
  function StableSort(ps: seq<Point>): (s: seq<Point>)
    ensures |s| == |ps|
  {
    if ps == [] then [] else Insert(StableSort(ps[..|ps| - 1]), ps[|ps| - 1])
  }

  lemma StableSortSnoc(ps: seq<Point>, p: Point)
    ensures StableSort(ps + [p]) == Insert(StableSort(ps), p)
  {
    assert (ps + [p])[..|ps + [p]| - 1] == ps;
  }

  lemma {:induction false} InsertSorts(ps: seq<Point>, p: Point)
    requires Sorted(ps)
    ensures Sorted(Insert(ps, p))
  {
    if ps != [] && p.ts < ps[|ps| - 1].ts {
      var a, l := ps[..|ps| - 1], ps[|ps| - 1];
      InsertSorts(a, p);
      InsertBelow(a, p, l.ts);
    }
  }

  lemma {:induction false} InsertBelow(ps: seq<Point>, p: Point, t: int)
    requires p.ts <= t && forall i :: 0 <= i < |ps| ==> ps[i].ts <= t
    ensures forall i :: 0 <= i < |Insert(ps, p)| ==> Insert(ps, p)[i].ts <= t
  {
    if ps != [] && p.ts < ps[|ps| - 1].ts {
      InsertBelow(ps[..|ps| - 1], p, t);
    }
  }

  lemma {:induction false} InsertIsBag(ps: seq<Point>, p: Point)
    ensures multiset(Insert(ps, p)) == multiset(ps) + multiset{p}
  {
    if ps != [] && p.ts < ps[|ps| - 1].ts {
      InsertIsBag(ps[..|ps| - 1], p);
      assert ps == ps[..|ps| - 1] + [ps[|ps| - 1]];
    }
  }

  /** The sort orders by time and keeps exactly the points it was given. */
  lemma {:induction false} StableSortSorts(ps: seq<Point>)
    ensures Sorted(StableSort(ps)) && multiset(StableSort(ps)) == multiset(ps)
  {
    if ps != [] {
      var a, p := ps[..|ps| - 1], ps[|ps| - 1];
      StableSortSorts(a);
      InsertSorts(StableSort(a), p);
      InsertIsBag(StableSort(a), p);
      assert ps == a + [p];
    }
  }

  function InWindow(ps: seq<Point>, t0: int, t1: int): seq<Point> {
    if ps == [] then [] else
      var w := InWindow(ps[..|ps| - 1], t0, t1);
      if t0 <= ps[|ps| - 1].ts <= t1 then w + [ps[|ps| - 1]] else w
  }

  lemma InWindowSnoc(ps: seq<Point>, p: Point, t0: int, t1: int)
    ensures InWindow(ps + [p], t0, t1) ==
            if t0 <= p.ts <= t1 then InWindow(ps, t0, t1) + [p] else InWindow(ps, t0, t1)
  {
    assert (ps + [p])[..|ps + [p]| - 1] == ps;
  }

  lemma InsertSnoc(ps: seq<Point>, l: Point, p: Point)
    ensures Insert(ps + [l], p) == if l.ts <= p.ts then ps + [l] + [p] else Insert(ps, p) + [l]
  {
    assert (ps + [l])[..|ps + [l]| - 1] == ps;
  }

  lemma {:induction false} InWindowInside(ps: seq<Point>, t0: int, t1: int)
    ensures forall q :: q in InWindow(ps, t0, t1) ==> t0 <= q.ts <= t1 && q in ps
  {
    if ps != [] {
      InWindowInside(ps[..|ps| - 1], t0, t1);
    }
  }

  /** A slice that keeps the window's part of a sorted list is found by position alone. */
  lemma {:induction false} WindowOfSorted(ps: seq<Point>, t0: int, t1: int, lo: nat, hi: nat)
    requires lo <= hi <= |ps|
    requires forall i :: 0 <= i < |ps| ==> (lo <= i < hi <==> t0 <= ps[i].ts <= t1)
    ensures ps[lo..hi] == InWindow(ps, t0, t1)
  {
    if ps != [] {
      var n := |ps| - 1;
      var a := ps[..n];
      if hi <= n {
        WindowOfSorted(a, t0, t1, lo, hi);
      } else if lo <= n {
        WindowOfSorted(a, t0, t1, lo, n);
        assert ps[lo..hi] == a[lo..n] + [ps[n]];
      } else {
        WindowOfSorted(a, t0, t1, n, n);
      }
    }
  }

  lemma InsertBehind(ps: seq<Point>, p: Point)
    requires forall q :: q in ps ==> q.ts <= p.ts
    ensures Insert(ps, p) == ps + [p]
  {
    assert ps != [] ==> ps[|ps| - 1] in ps;
  }

  lemma WindowOfAppend(s: seq<Point>, p: Point, t0: int, t1: int)
    requires forall q :: q in s ==> q.ts <= p.ts
    ensures InWindow(s + [p], t0, t1) ==
            if t0 <= p.ts <= t1 then Insert(InWindow(s, t0, t1), p) else InWindow(s, t0, t1)
  {
    InWindowSnoc(s, p, t0, t1);
    InsertBehind(InWindow(s, t0, t1), p) by {
      InWindowInside(s, t0, t1);
    }
  }

  lemma WindowBehind(a: seq<Point>, l: Point, p: Point, t0: int, t1: int)
    requires p.ts < l.ts
    requires InWindow(Insert(a, p), t0, t1) ==
             if t0 <= p.ts <= t1 then Insert(InWindow(a, t0, t1), p) else InWindow(a, t0, t1)
    ensures InWindow(Insert(a, p) + [l], t0, t1) ==
            if t0 <= p.ts <= t1 then Insert(InWindow(a + [l], t0, t1), p) else InWindow(a + [l], t0, t1)
  {
    InWindowSnoc(Insert(a, p), l, t0, t1);
    InWindowSnoc(a, l, t0, t1);
    InsertSnoc(InWindow(a, t0, t1), l, p);
  }

  lemma {:induction false} WindowOfInsert(s: seq<Point>, p: Point, t0: int, t1: int)
    requires Sorted(s)
    ensures InWindow(Insert(s, p), t0, t1) ==
            if t0 <= p.ts <= t1 then Insert(InWindow(s, t0, t1), p) else InWindow(s, t0, t1)
  {
    if s == [] || s[|s| - 1].ts <= p.ts {
      WindowOfAppend(s, p, t0, t1);
    } else {
      var a, l := s[..|s| - 1], s[|s| - 1];
      assert s == a + [l] && Insert(s, p) == Insert(a, p) + [l];
      WindowOfInsert(a, p, t0, t1);
      WindowBehind(a, l, p, t0, t1);
    }
  }

  /** Sorting commutes with restricting to a time window. With t0 == t1 this is stability:
      records with equal timestamps keep their arrival order. */
  lemma {:induction false} SortCommutesWithWindow(ps: seq<Point>, t0: int, t1: int)
    ensures InWindow(StableSort(ps), t0, t1) == StableSort(InWindow(ps, t0, t1))
  {
    if ps != [] {
      var a, p := ps[..|ps| - 1], ps[|ps| - 1];
      SortCommutesWithWindow(a, t0, t1);
      StableSortSorts(a);
      WindowOfInsert(StableSort(a), p, t0, t1);
      StableSortSnoc(InWindow(a, t0, t1), p);
    }
  }

  /** Points with one timestamp come out of the sort in arrival order. */
  lemma EqualTimestampsKeepArrivalOrder(ps: seq<Point>, t: int)
    ensures InWindow(StableSort(ps), t, t) == InWindow(ps, t, t)
  {
    SortCommutesWithWindow(ps, t, t);
    InWindowInside(ps, t, t);
    SortOfSorted(InWindow(ps, t, t));
  }

  lemma {:induction false} SortOfSorted(ps: seq<Point>)
    requires Sorted(ps)
    ensures StableSort(ps) == ps
  {
    if ps != [] {
      SortOfSorted(ps[..|ps| - 1]);
    }
  }

  lemma {:induction false} InsertKeepsCounts(ps: seq<Point>, p: Point)
    ensures TagsOn(Insert(ps, p)) == TagsOn(ps + [p]) && RawsOn(Insert(ps, p)) == RawsOn(ps + [p])
  {
    CountsSnoc(ps, p);
    if ps != [] && p.ts < ps[|ps| - 1].ts {
      var a, l := ps[..|ps| - 1], ps[|ps| - 1];
      InsertKeepsCounts(a, p);
      CountsSnoc(a, p);
      CountsSnoc(Insert(a, p), l);
    }
  }

  lemma CountsSnoc(ps: seq<Point>, p: Point)
    ensures TagsOn(ps + [p]) == TagsOn(ps) + if p.tags.Some? then |p.tags.value| else 0
    ensures RawsOn(ps + [p]) == RawsOn(ps) + if p.raw.Some? then 1 else 0
  {
    assert (ps + [p])[..|ps + [p]| - 1] == ps;
  }

  lemma {:induction false} SortKeepsCounts(ps: seq<Point>)
    ensures TagsOn(StableSort(ps)) == TagsOn(ps) && RawsOn(StableSort(ps)) == RawsOn(ps)
  {
    if ps != [] {
      var a, p := ps[..|ps| - 1], ps[|ps| - 1];
      SortKeepsCounts(a);
      InsertKeepsCounts(StableSort(a), p);
      CountsSnoc(StableSort(a), p);
    }
  }

  // ---- Points without their side entries ------------------------------------------------

  function BareOf(p: Point): Point {
    Point(p.ts, p.value, None, None)
  }

  function Bare(ps: seq<Point>): (r: seq<Point>)
    ensures |r| == |ps|
  {
    seq(|ps|, i requires 0 <= i < |ps| => BareOf(ps[i]))
  }

  lemma BareSum(ps: seq<Point>, qs: seq<Point>)
    ensures Bare(ps + qs) == Bare(ps) + Bare(qs)
  {
  }

  lemma BareInit(ps: seq<Point>)
    requires ps != []
    ensures Bare(ps)[..|ps| - 1] == Bare(ps[..|ps| - 1]) && Bare(ps)[|ps| - 1] == BareOf(ps[|ps| - 1])
  {
  }

  lemma {:induction false} BareInsert(ps: seq<Point>, p: Point)
    ensures Bare(Insert(ps, p)) == Insert(Bare(ps), BareOf(p))
  {
    if ps != [] {
      BareInit(ps);
      if p.ts < ps[|ps| - 1].ts {
        BareInsert(ps[..|ps| - 1], p);
      }
    }
  }

  /** Sorting and restricting to a window look at time stamps only. */
  lemma {:induction false} BareSort(ps: seq<Point>)
    ensures Bare(StableSort(ps)) == StableSort(Bare(ps))
  {
    if ps != [] {
      BareInit(ps);
      BareSort(ps[..|ps| - 1]);
      BareInsert(StableSort(ps[..|ps| - 1]), ps[|ps| - 1]);
    }
  }

  lemma {:induction false} BareWindow(ps: seq<Point>, t0: int, t1: int)
    ensures Bare(InWindow(ps, t0, t1)) == InWindow(Bare(ps), t0, t1)
  {
    if ps != [] {
      BareInit(ps);
      BareWindow(ps[..|ps| - 1], t0, t1);
      BareSum(InWindow(ps[..|ps| - 1], t0, t1), [ps[|ps| - 1]]);
    }
  }

  // ---- Sorting by an index permutation --------------------------------------------------

  /** `order` lists the indices 0..|ps| by the key (timestamp, index), the key that
      `freeze_sort` gives to the library sort. */
  predicate IsKeyOrder(ps: seq<Point>, order: seq<nat>) {
    && |order| == |ps|
    && (forall i :: 0 <= i < |order| ==> order[i] < |ps|)
    && (forall i, j :: 0 <= i < j < |order| ==>
          KeyBelow(ps[order[i]].ts, order[i], ps[order[j]].ts, order[j]))
  }

  predicate KeyBelow(ts: int, i: nat, ts': int, i': nat) {
    ts < ts' || (ts == ts' && i < i')
  }

  function Gather<T>(s: seq<T>, order: seq<nat>): (r: seq<T>)
    requires forall i :: 0 <= i < |order| ==> order[i] < |s|
    ensures |r| == |order|
  {
    seq(|order|, i requires 0 <= i < |order| => s[order[i]])
  }

  /** Every index occurs in a key order, so it is a permutation. */
  lemma KeyOrderIsOnto(ps: seq<Point>, order: seq<nat>)
    requires IsKeyOrder(ps, order)
    ensures forall i: nat :: i < |ps| ==> i in order
  {
    var used := Elements(order);
    var all := Below(|ps|);
    assert forall i, j :: 0 <= i < j < |order| ==> order[i] != order[j];
    DistinctCount(order);
    assert used <= all;
    forall i: nat | i < |ps| ensures i in order {
      if i !in used {
        assert used + {i} <= all;
        SubsetCount(used + {i}, all);
      }
    }
  }

  lemma {:induction false} SubsetCount(a: set<nat>, b: set<nat>)
    requires a <= b
    ensures |a| <= |b|
  {
    if a != {} {
      var x :| x in a;
      SubsetCount(a - {x}, b - {x});
    }
  }

  function Below(n: nat): (r: set<nat>)
    ensures |r| == n && forall i: nat :: i in r <==> i < n
  {
    if n == 0 then {} else Below(n - 1) + {n - 1}
  }

  function Elements(s: seq<nat>): set<nat> {
    set x | x in s
  }

  lemma {:induction false} DistinctCount(s: seq<nat>)
    requires forall i, j :: 0 <= i < j < |s| ==> s[i] != s[j]
    ensures |Elements(s)| == |s|
  {
    if s != [] {
      DistinctCount(s[..|s| - 1]);
      assert Elements(s) == Elements(s[..|s| - 1]) + {s[|s| - 1]};
      assert s[|s| - 1] !in s[..|s| - 1];
    }
  }

  lemma {:induction false} InsertAt(s: seq<Point>, p: Point, q: nat)
    requires q <= |s|
    requires forall i :: 0 <= i < q ==> s[i].ts <= p.ts
    requires forall i :: q <= i < |s| ==> p.ts < s[i].ts
    ensures Insert(s, p) == s[..q] + [p] + s[q..]
  {
    if q < |s| {
      InsertAt(s[..|s| - 1], p, q);
    }
  }

  /** The unstable library sort on a key that ends in the index is the stable sort, whatever
      order the library produced it in: the result is determined. */
  lemma {:induction false} KeyOrderGathersStableSort(ps: seq<Point>, order: seq<nat>)
    requires IsKeyOrder(ps, order)
    ensures Gather(ps, order) == StableSort(ps)
  {
    if ps != [] {
      KeyOrderIsOnto(ps, order);
      var n: nat := |ps| - 1;
      assert n in order;
      var q: nat :| q < |order| && order[q] == n;
      var rest := order[..q] + order[q + 1..];
      KeyOrderDropsLast(ps, order, q);
      KeyOrderGathersStableSort(ps[..n], rest);
      GatherSplit(ps, order, q);
    }
  }

  lemma GatherSplit(ps: seq<Point>, order: seq<nat>, q: nat)
    requires IsKeyOrder(ps, order) && q < |order| && order[q] == |ps| - 1
    requires IsKeyOrder(ps[..|ps| - 1], order[..q] + order[q + 1..])
    ensures Gather(ps, order) ==
            Insert(Gather(ps[..|ps| - 1], order[..q] + order[q + 1..]), ps[|ps| - 1])
  {
    var rest := order[..q] + order[q + 1..];
    var s, p := Gather(ps[..|ps| - 1], rest), ps[|ps| - 1];
    GatherWithout(ps, order, q);
    forall i | 0 <= i < |s| ensures if i < q then s[i].ts <= p.ts else p.ts < s[i].ts {
      var j := if i < q then i else i + 1;
      assert rest[i] == order[j] && s[i] == ps[order[j]];
      var lo, hi := if j < q then j else q, if j < q then q else j;
      assert KeyBelow(ps[order[lo]].ts, order[lo], ps[order[hi]].ts, order[hi]);
    }
    InsertAt(s, p, q);
  }

  lemma GatherWithout<T>(s: seq<T>, order: seq<nat>, q: nat)
    requires q < |order| && s != [] && forall i :: 0 <= i < |order| ==> order[i] < |s|
    requires forall i :: 0 <= i < |order| && i != q ==> order[i] < |s| - 1
    ensures var rest := order[..q] + order[q + 1..];
            && (forall i :: 0 <= i < |rest| ==> rest[i] < |s| - 1)
            && var g := Gather(s[..|s| - 1], rest);
            Gather(s, order) == g[..q] + [s[order[q]]] + g[q..]
  {
    var rest := order[..q] + order[q + 1..];
    forall i | 0 <= i < |rest| ensures rest[i] < |s| - 1 {
      assert rest[i] == order[if i < q then i else i + 1];
    }
  }

  lemma KeyOrderDropsLast(ps: seq<Point>, order: seq<nat>, q: nat)
    requires IsKeyOrder(ps, order) && q < |order| && order[q] == |ps| - 1
    ensures IsKeyOrder(ps[..|ps| - 1], order[..q] + order[q + 1..])
  {
    var rest := order[..q] + order[q + 1..];
    forall i | 0 <= i < |rest| ensures rest[i] < |ps| - 1 {
      var j := if i < q then i else i + 1;
      assert rest[i] == order[j];
      assert order[j] != order[q];
    }
  }
}
