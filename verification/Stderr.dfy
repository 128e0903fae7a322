/** The bounded path of a plugin's stderr: line reader (core/ab-host/src/session.rs:1319-1355),
    byte ring (core/ab-host/src/health.rs:246-270) and line buffer with a byte budget
    (core/ab-engine/src/events.rs:281-338). */
module Stderr {
  import opened Common
  import opened ByteLines

  const MAX_STDERR_LINE: nat := 64 * 1024
  const CAPACITY: nat := 1_048_576

  /** "...[truncated]" */
  const MARKER: Bytes := [46, 46, 46, 91, 116, 114, 117, 110, 99, 97, 116, 101, 100, 93]

  // ---- Reading a line --------------------------------------------------------------------------

  /** The first 64 KiB of a line, marked when there was more. */
  function Clip(line: Bytes): (r: Bytes)
    ensures |r| <= MAX_STDERR_LINE + |MARKER|
  {
    if |line| <= MAX_STDERR_LINE then line else line[..MAX_STDERR_LINE] + MARKER
  }

  function Head(line: Bytes): Bytes {
    if |line| <= MAX_STDERR_LINE then line else line[..MAX_STDERR_LINE]
  }

  lemma HeadGrows(line: Bytes, part: Bytes)
    ensures Head(line + part) ==
            var room := MAX_STDERR_LINE - |Head(line)|;
            Head(line) + part[..if |part| < room then |part| else room]
    ensures |Head(line)| <= MAX_STDERR_LINE
  {
  }

  function Marked(kept: Bytes, truncated: bool): Bytes {
    if truncated then kept + MARKER else kept
  }

  lemma MarkedIsClip(line: Bytes, truncated: bool)
    requires truncated == (|line| > MAX_STDERR_LINE)
    ensures Marked(Head(line), truncated) == Clip(line) && (Clip(line) == [] <==> line == [])
  {
  }

  class LineReader {
    /** The unread part of the read buffer, and the blocks that will fill it in turn; none of
        them is empty before the end. */
    var block: Bytes
    var coming: seq<Bytes>

    ghost predicate Valid() reads this {
      forall b :: b in coming ==> b != []
    }

    function Stream(): Bytes reads this {
      block + Flatten(coming)
    }

    constructor (coming: seq<Bytes>)
      requires forall b :: b in coming ==> b != []
      ensures Valid() && Stream() == Flatten(coming)
    {
      this.block, this.coming := [], coming;
    }

    method FillBuf()
      requires Valid()
      modifies this
      ensures Valid() && Stream() == old(Stream())
      ensures block == [] ==> Stream() == []
      ensures |coming| < |old(coming)| || (coming == old(coming) && block == old(block))
    {
      if block == [] && coming != [] {
        var first, rest := coming[0], coming[1..];
        FlattenHead(block, coming);
        assert first in coming && forall b :: b in rest ==> b in coming;
        assert block + first == first;
        block, coming := first, rest;
      }
    }

    method Consume(n: nat)
      requires Valid() && n <= |block|
      modifies this`block
      ensures Valid() && block == old(block)[n..]
      ensures old(Stream()) == old(block)[..n] + Stream()
    {
      SumAssoc(block[..n], block[n..], Flatten(coming));
      assert block[..n] + block[n..] == block;
      block := block[n..];
    }

    /** Where the line feed is in the block, or how long the block is. */
    method Position() returns (nl: nat)
      ensures nl <= |block| && LF !in block[..nl] && (nl < |block| ==> block[nl] == LF)
    {
      nl := 0;
      while nl < |block| && block[nl] != LF
        invariant nl <= |block| && LF !in block[..nl]
      {
        nl := nl + 1;
      }
    }

    /** Adds what the block has of the line to `out`, as far as there is room, and moves on. */
    method TakePart(out: Bytes, ghost line: Bytes) returns (longer: Bytes, cut: bool, ended: bool, ghost part: Bytes)
      requires Valid() && block != [] && out == Head(line)
      modifies this`block
      ensures Valid() && |block| < |old(block)|
      ensures LF !in part && old(Stream()) == part + (if ended then [LF] + Stream() else Stream())
      ensures longer == Head(line + part) && cut == (|part| > MAX_STDERR_LINE - |out|)
    {
      var nl := Position();
      part := block[..nl];
      HeadGrows(line, part);
      var room := MAX_STDERR_LINE - |out|;
      var keep := if nl < room then nl else room;
      cut := keep < nl;
      longer := out + block[..keep];
      assert block[..keep] == part[..keep];
      ended := nl < |block|;
      if ended {
        assert block[..nl + 1] == part + [LF];
        SumAssoc(part, [LF], block[nl + 1..] + Flatten(coming));
      }
      Consume(if ended then nl + 1 else nl);
    }

    /** Delivers the first line, clipped; false only at the end of the stream. Whatever the
        blocks, no more than 64 KiB of the line are ever kept. */
    method ReadLine() returns (more: bool, out: Bytes)
      requires Valid()
      modifies this
      ensures Valid()
      ensures var ls := Lines(old(Stream()));
              if ls == [] then !more && out == []
              else more && out == Clip(ls[0].bytes) && Lines(Stream()) == ls[1..]
    {
      out := [];
      var truncated := false;
      ghost var line, all := [], Stream();
      while true
        invariant Valid() && all == line + Stream() && LF !in line
        invariant out == Head(line) && truncated == (|line| > MAX_STDERR_LINE)
        decreases |coming|, |block|
      {
        FillBuf();
        if block == [] {
          assert all == line;
          AtEnd(line);
          MarkedIsClip(line, truncated);
          out := Marked(out, truncated);
          return out != [], out;
        }
        var longer, cut, ended, part := TakePart(out, line);
        out, truncated := longer, truncated || cut;
        if ended {
          LineEnds(all, line, part, Stream());
          MarkedIsClip(line + part, truncated);
          return true, Marked(out, truncated);
        }
        SumAssoc(line, part, Stream());
        line := line + part;
      }
    }
  }

  lemma AtEnd(line: Bytes)
    requires LF !in line
    ensures Lines(line) == if line == [] then [] else [Line(line, false)]
  {
    FirstLfIs(line, |line|);
  }

  lemma LineEnds(all: Bytes, line: Bytes, part: Bytes, tail: Bytes)
    requires LF !in line && LF !in part && all == line + (part + ([LF] + tail))
    ensures Lines(all) == [Line(line + part, true)] + Lines(tail)
  {
    SumAssoc(line, part, [LF] + tail);
    WrittenLine(line + part, tail);
  }

  // ---- The byte ring -----------------------------------------------------------------------------

  /** The last `n` elements. */
  function Last<T>(s: seq<T>, n: nat): (r: seq<T>)
    ensures |r| <= n && |r| <= |s|
  {
    if |s| <= n then s else s[|s| - n..]
  }

  /** The end of a sum that is covered by its second part. */
  lemma LastOfSecond<T>(s: seq<T>, t: seq<T>, n: nat)
    requires |t| >= n
    ensures Last(s + t, n) == Last(t, n)
  {
    assert (s + t)[|s| + |t| - n..] == t[|t| - n..];
  }

  lemma LastOfSum<T>(s: seq<T>, t: seq<T>, n: nat)
    ensures Last(Last(s, n) + Last(t, n), n) == Last(s + t, n)
  {
    if |t| >= n {
      LastOfSecond(s, t, n);
      LastOfSecond(Last(s, n), Last(t, n), n);
    } else if |s| > n {
      var x, d := s[|s| - n..], s[..|s| - n];
      assert s + t == d + (x + t);
      LastOfSecond(d, x + t, n);
    }
  }

  lemma LastOfTail<T>(s: seq<T>, n: nat)
    requires |s| > n
    ensures Last(s[1..], n) == Last(s, n)
  {
  }

  class StderrSink {
    /** The lossy decoder for display. */
    const decode: Bytes -> string
    var buf: Bytes
    /** Everything appended so far, line feeds included. */
    ghost var history: Bytes

    ghost predicate Valid() reads this {
      buf == Last(history, CAPACITY)
    }

    constructor (decode: Bytes -> string)
      ensures Valid() && history == [] && this.decode == decode
    {
      this.decode, buf, history := decode, [], [];
    }

    method Append(line: Bytes)
      requires Valid()
      modifies this
      ensures Valid() && history == old(history) + (line + [LF])
    {
      var bytes := line + [LF];
      if |bytes| > CAPACITY {
        bytes := bytes[|bytes| - CAPACITY..];
      }
      LastOfSum(history, line + [LF], CAPACITY);
      history := history + (line + [LF]);
      assert bytes == Last(line + [LF], CAPACITY);
      buf := buf + bytes;
      while |buf| > CAPACITY
        invariant history == old(history) + (line + [LF]) && Last(buf, CAPACITY) == Last(history, CAPACITY)
      {
        LastOfTail(buf, CAPACITY);
        buf := buf[1..];
      }
    }

    method TailSummary(maxBytes: nat) returns (r: string)
      requires Valid()
      ensures r == decode(Last(history, if maxBytes <= CAPACITY then maxBytes else CAPACITY))
    {
      var skip := if |buf| > maxBytes then |buf| - maxBytes else 0;
      assert buf[skip..] == Last(history, if maxBytes <= CAPACITY then maxBytes else CAPACITY);
      r := decode(buf[skip..]);
    }
  }

  // ---- The line buffer -----------------------------------------------------------------------------

  datatype LogLine = LogLine(pluginId: string, line: string)

  function Weight(l: LogLine): nat {
    |l.line| + 64
  }

  function TotalWeight(ls: seq<LogLine>): nat {
    if ls == [] then 0 else Weight(ls[0]) + TotalWeight(ls[1..])
  }

  function Texts(ls: seq<LogLine>): seq<string> {
    if ls == [] then [] else [ls[0].line] + Texts(ls[1..])
  }

  /** Lines weigh their characters and 64 bytes each. */
  lemma {:induction false} LinesWeighTheirTexts(ls: seq<LogLine>)
    ensures TotalWeight(ls) == |Flatten(Texts(ls))| + 64 * |ls|
  {
    if ls != [] {
      LinesWeighTheirTexts(ls[1..]);
      assert ([ls[0].line] + Texts(ls[1..]))[1..] == Texts(ls[1..]);
    }
  }

  /** The longest suffix within the budget. */
  function Kept(ls: seq<LogLine>, budget: nat): (r: seq<LogLine>)
    ensures |r| <= |ls|
  {
    if TotalWeight(ls) <= budget then ls else Kept(ls[1..], budget)
  }

  lemma {:induction false} WeightSnoc(ls: seq<LogLine>, l: LogLine)
    ensures TotalWeight(ls + [l]) == TotalWeight(ls) + Weight(l)
  {
    if ls != [] {
      assert (ls + [l])[1..] == ls[1..] + [l];
      WeightSnoc(ls[1..], l);
    }
  }

  /** No longer suffix fits, so `Kept` is the longest one. */
  lemma {:induction false} KeptIsLongest(ls: seq<LogLine>, budget: nat, k: nat)
    requires k <= |ls|
    ensures Kept(ls, budget) == ls[|ls| - |Kept(ls, budget)|..] && TotalWeight(Kept(ls, budget)) <= budget
    ensures TotalWeight(ls[k..]) <= budget ==> |ls| - k <= |Kept(ls, budget)|
  {
    if TotalWeight(ls) > budget {
      if k > 0 {
        assert ls[1..][k - 1..] == ls[k..];
      }
      KeptIsLongest(ls[1..], budget, if k > 0 then k - 1 else 0);
      assert ls[|ls| - |Kept(ls, budget)|..] == ls[1..][|ls| - 1 - |Kept(ls, budget)|..];
    }
  }

  /** Evicting line by line gives the same as evicting from everything ever pushed. */
  lemma {:induction false} KeptSnoc(ls: seq<LogLine>, l: LogLine, budget: nat)
    ensures Kept(Kept(ls, budget) + [l], budget) == Kept(ls + [l], budget)
  {
    if TotalWeight(ls) > budget {
      WeightSnoc(ls, l);
      assert (ls + [l])[1..] == ls[1..] + [l];
      KeptSnoc(ls[1..], l, budget);
    }
  }

  class PluginLogBuffer {
    const budget: nat
    var inner: map<string, seq<LogLine>>
    /** All lines pushed so far, by plugin. */
    ghost var pushed: map<string, seq<LogLine>>

    ghost predicate Valid() reads this {
      forall p :: QueueOf(p) == Kept(PushedBy(p), budget)
    }

    function QueueOf(p: string): seq<LogLine> reads this {
      if p in inner then inner[p] else []
    }

    ghost function PushedBy(p: string): seq<LogLine> reads this {
      if p in pushed then pushed[p] else []
    }

    constructor (budget: nat)
      ensures Valid() && pushed == map[] && this.budget == budget
    {
      this.budget, inner, pushed := budget, map[], map[];
    }

    /** The queue of a plugin is always the longest suffix of its lines within the budget. */
    method Push(payload: LogLine)
      requires Valid()
      modifies this
      ensures Valid()
      ensures forall p :: PushedBy(p) ==
                          if p == payload.pluginId then old(PushedBy(p)) + [payload] else old(PushedBy(p))
    {
      var id := payload.pluginId;
      var queue := (if id in inner then inner[id] else []) + [payload];
      KeptSnoc(PushedBy(id), payload, budget);
      var total := TotalOf(queue);
      while total > budget
        invariant total == TotalWeight(queue)
        invariant inner == old(inner) && pushed == old(pushed)
        invariant Kept(queue, budget) == Kept(PushedBy(id) + [payload], budget)
      {
        total := total - Weight(queue[0]);
        queue := queue[1..];
      }
      inner := inner[id := queue];
      pushed := pushed[id := (if id in pushed then pushed[id] else []) + [payload]];
      forall p ensures QueueOf(p) == Kept(PushedBy(p), budget) {
        if p != id {
          assert QueueOf(p) == old(QueueOf(p)) && PushedBy(p) == old(PushedBy(p));
        } else {
          assert QueueOf(p) == queue;
        }
      }
    }

    method TotalOf(queue: seq<LogLine>) returns (total: nat)
      ensures total == TotalWeight(queue)
    {
      total := 0;
      for i := 0 to |queue|
        invariant total == TotalWeight(queue[..i])
      {
        TakeSnoc(queue, i);
        WeightSnoc(queue[..i], queue[i]);
        total := total + Weight(queue[i]);
      }
      TakeAll(queue);
    }

    /** The newest lines, never more than asked for or kept. */
    method Tail(p: string, limit: nat) returns (r: seq<LogLine>)
      requires Valid()
      ensures r == Last(Kept(PushedBy(p), budget), limit)
    {
      if p !in inner {
        assert QueueOf(p) == Kept(PushedBy(p), budget);
        return [];
      }
      assert inner[p] == QueueOf(p);
      r := Last(inner[p], limit);
    }
  }
}
