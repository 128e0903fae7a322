/** The frame reader of the host (core/ab-host/src/rpc.rs:52-125). */
module HostFrame {
  import opened Common
  import opened ByteLines

  const CHUNK: nat := 8192

  /** UTF-8 validity and JSON parsing, both foreign code. */
  datatype Codec<!V> = Codec(utf8: Bytes -> bool, json: Bytes -> Option<V>)

  datatype Outcome<V> =
    | Value(value: V)
    | MalformedLine
    | InvalidJson
    | LineTooLong
    | Eof

  function ParseLine<V>(codec: Codec<V>, line: Bytes): (r: Outcome<V>)
    ensures r != LineTooLong && r != Eof
  {
    if line == [] || CR in line || !codec.utf8(line) then MalformedLine
    else match codec.json(line)
         case None => InvalidJson
         case Some(v) => Value(v)
  }

  /** Reads are not empty and at most `CHUNK` bytes long. */
  predicate AreReads(inner: seq<Bytes>) {
    forall c :: c in inner ==> 0 < |c| <= CHUNK
  }

  datatype Progress<V> = Progress(outcome: Outcome<V>, unread: Bytes, inner: seq<Bytes>)

  /** One call of the reader: what it returns, what it keeps and which reads are left. */
  function Next<V>(codec: Codec<V>, unread: Bytes, inner: seq<Bytes>): (p: Progress<V>)
    ensures p.outcome.Value? || p.outcome.InvalidJson? ==>
              |p.unread| + |Flatten(p.inner)| < |unread| + |Flatten(inner)|
    decreases |inner|
  {
    var nl := FirstLf(unread);
    if nl < |unread| then Progress(ParseLine(codec, unread[..nl]), unread[nl + 1..], inner)
    else if |unread| > MAX_LINE_BYTES then Progress(LineTooLong, unread, inner)
    else if inner == [] then Progress(if unread == [] then Eof else MalformedLine, unread, inner)
    else Next(codec, unread + inner[0], inner[1..])
  }

  lemma ReadsAfter(inner: seq<Bytes>)
    requires AreReads(inner) && inner != []
    ensures AreReads(inner[1..])
  {
  }

  lemma SliceOfRest(s: Bytes, from: nat, n: nat)
    requires from + n < |s|
    ensures s[from..][..n] == s[from..from + n] && s[from..][n + 1..] == s[from + n + 1..]
  {
  }

  lemma RestOfSum(s: Bytes, from: nat, t: Bytes)
    requires from <= |s|
    ensures (s + t)[from..] == s[from..] + t
  {
  }

  class FrameReader<V> {
    const codec: Codec<V>
    var inner: seq<Bytes>
    var buf: Bytes
    var consumed: nat

    ghost predicate Valid() reads this { consumed <= |buf| && AreReads(inner) }

    function Unread(): Bytes reads this requires consumed <= |buf| { buf[consumed..] }

    constructor (codec: Codec<V>, inner: seq<Bytes>)
      requires AreReads(inner)
      ensures Valid() && Unread() == [] && this.inner == inner && this.codec == codec
    {
      this.codec, this.inner, this.buf, this.consumed := codec, inner, [], 0;
    }

    /** Moves on to `next` and drops a buffer that is used up. */
    method Consume(next: nat)
      requires consumed <= next <= |buf|
      modifies this`buf, this`consumed
      ensures consumed <= |buf| && Unread() == old(buf)[next..]
    {
      consumed := next;
      if consumed == |buf| {
        buf, consumed := [], 0;
      }
    }

    /** Takes the line in front of the line feed at `nl`. */
    method TakeLine(nl: nat) returns (r: Outcome<V>)
      requires Valid() && nl < |Unread()|
      modifies this`buf, this`consumed
      ensures Valid() && r == ParseLine(codec, old(Unread())[..nl]) && Unread() == old(Unread())[nl + 1..]
    {
      var end := consumed + nl;
      var line := buf[consumed..end];
      SliceOfRest(buf, consumed, nl);
      Consume(end + 1);
      return ParseLine(codec, line);
    }

    method Fill()
      requires Valid() && inner != []
      modifies this`buf, this`inner
      ensures Valid() && Unread() == old(Unread()) + old(inner)[0] && inner == old(inner)[1..]
    {
      var chunk, rest := inner[0], inner[1..];
      RestOfSum(buf, consumed, chunk);
      ReadsAfter(inner);
      buf, inner := buf + chunk, rest;
    }

    method NextFrame() returns (r: Outcome<V>)
      requires Valid()
      modifies this
      ensures Valid()
      ensures Next(codec, old(Unread()), old(inner)) == Progress(r, Unread(), inner)
    {
      while true
        invariant Valid()
        invariant Next(codec, Unread(), inner) == Next(codec, old(Unread()), old(inner))
        decreases |inner|
      {
        var nl := FirstLf(Unread());
        if nl < |buf| - consumed {
          r := TakeLine(nl);
          return;
        }
        if |buf| - consumed > MAX_LINE_BYTES {
          return LineTooLong;
        }
        if inner == [] {
          return if |buf| > consumed then MalformedLine else Eof;
        }
        Fill();
      }
    }
  }

  // ---- What depends on the reads, and what does not ------------------------------------------

  /** A terminated line just over the limit, by less than one read. */
  predicate Borderline(line: Line) {
    line.terminated && MAX_LINE_BYTES < |line.bytes| < MAX_LINE_BYTES + CHUNK
  }

  function VerdictOn<V>(codec: Codec<V>, line: Line): Outcome<V> {
    if |line.bytes| > MAX_LINE_BYTES then LineTooLong
    else if line.terminated then ParseLine(codec, line.bytes)
    else MalformedLine
  }

  /** However the stream is cut into reads: the end is found when nothing is left, and any other
      call answers for the first line. Its verdict is fixed unless the line is borderline. */
  lemma {:induction false} NextAnswersFirstLine<V>(codec: Codec<V>, unread: Bytes, inner: seq<Bytes>)
    requires AreReads(inner)
    requires |unread| <= MAX_LINE_BYTES + CHUNK
    ensures var ls, p := Lines(unread + Flatten(inner)), Next(codec, unread, inner);
            if ls == [] then p.outcome == Eof
            else
              && (p.outcome == VerdictOn(codec, ls[0])
                  || (Borderline(ls[0]) && p.outcome == ParseLine(codec, ls[0].bytes)))
              && (p.outcome.Value? || p.outcome.InvalidJson? ==>
                                       |ls[0].bytes| < MAX_LINE_BYTES + CHUNK
                                       && Lines(p.unread + Flatten(p.inner)) == ls[1..]
                                       && |p.unread| <= MAX_LINE_BYTES + CHUNK && AreReads(p.inner))
    decreases |inner|
  {
    var rest := Flatten(inner);
    if FirstLf(unread) < |unread| {
      FirstLineRead(unread, rest);
      HeadAndTail(Line(unread[..FirstLf(unread)], true), Lines(unread[FirstLf(unread) + 1..] + rest));
    } else if |unread| > MAX_LINE_BYTES {
      FirstLineIsLonger(unread, rest);
    } else if inner == [] {
      assert unread + rest == unread;
      if unread != [] {
        LinesOfUnterminated(unread);
      }
    } else {
      FlattenHead(unread, inner);
      NextAnswersFirstLine(codec, unread + inner[0], inner[1..]);
    }
  }

  lemma HeadAndTail(head: Line, tail: seq<Line>)
    ensures ([head] + tail)[0] == head && ([head] + tail)[1..] == tail
  {
  }

  /** A way to cut bytes into reads. */
  function Cut(s: Bytes): (inner: seq<Bytes>)
    ensures AreReads(inner) && Flatten(inner) == s
    decreases |s|
  {
    if s == [] then [] else
      var n := if |s| < CHUNK then |s| else CHUNK;
      assert s[..n] + s[n..] == s;
      [s[..n]] + Cut(s[n..])
  }

  /** Reads without a line feed are collected while they fit ... */
  lemma {:induction false} Collects<V>(codec: Codec<V>, unread: Bytes, plain: seq<Bytes>, inner: seq<Bytes>)
    requires LF !in unread + Flatten(plain) && |unread + Flatten(plain)| <= MAX_LINE_BYTES
    ensures Next(codec, unread, plain + inner) == Next(codec, unread + Flatten(plain), inner)
    decreases |plain|
  {
    if plain == [] {
      assert plain + inner == inner && unread + Flatten(plain) == unread;
    } else {
      FlattenHead(unread, plain);
      FirstLfIs(unread, |unread|);
      assert (plain + inner)[1..] == plain[1..] + inner;
      Collects(codec, unread + plain[0], plain[1..], inner);
    }
  }

  /** ... and end the session when they do not. */
  lemma {:induction false} Overflows<V>(codec: Codec<V>, unread: Bytes, plain: seq<Bytes>, inner: seq<Bytes>)
    requires LF !in unread + Flatten(plain) && |unread + Flatten(plain)| > MAX_LINE_BYTES
    ensures Next(codec, unread, plain + inner).outcome == LineTooLong
    decreases |plain|
  {
    FirstLfIs(unread, |unread|);
    if plain == [] {
      assert unread + Flatten(plain) == unread;
    } else if |unread| <= MAX_LINE_BYTES {
      FlattenHead(unread, plain);
      assert (plain + inner)[1..] == plain[1..] + inner;
      Overflows(codec, unread + plain[0], plain[1..], inner);
    }
  }

  /** Cut before its line feed, a borderline line is too long ... */
  lemma CutBeforeLf<V>(codec: Codec<V>, line: Bytes, tail: Bytes) returns (inner: seq<Bytes>)
    requires LF !in line && |line| > MAX_LINE_BYTES
    ensures AreReads(inner) && Flatten(inner) == line + tail && Next(codec, [], inner).outcome == LineTooLong
  {
    inner := Cut(line) + Cut(tail);
    FlattenAppend(Cut(line), Cut(tail));
    assert [] + line == line;
    Overflows(codec, [], Cut(line), Cut(tail));
  }

  /** ... but a read that brings its end together with the first byte too many hides its length. */
  lemma CutAtLimit<V>(codec: Codec<V>, line: Bytes, tail: Bytes) returns (inner: seq<Bytes>)
    requires LF !in line && MAX_LINE_BYTES < |line| < MAX_LINE_BYTES + CHUNK
    ensures AreReads(inner) && Flatten(inner) == line + [LF] + tail
    ensures Next(codec, [], inner).outcome == ParseLine(codec, line)
  {
    var fits, last := line[..MAX_LINE_BYTES], line[MAX_LINE_BYTES..] + [LF];
    inner := Cut(fits) + ([last] + Cut(tail));
    FlattenAround(Cut(fits), last, Cut(tail));
    assert fits + last == line + [LF];
    EndsLine(codec, line, fits, last, Cut(tail));
  }

  lemma EndsLine<V>(codec: Codec<V>, line: Bytes, fits: Bytes, last: Bytes, rest: seq<Bytes>)
    requires LF !in line && fits + last == line + [LF] && last != [] && |fits| <= MAX_LINE_BYTES
    ensures Next(codec, [], Cut(fits) + ([last] + rest)) == Progress(ParseLine(codec, line), [], rest)
  {
    assert fits == (line + [LF])[..|fits|] == line[..|fits|] && [] + fits == fits;
    Collects(codec, [], Cut(fits), [last] + rest);
    FirstLfIs(fits, |fits|);
    FirstLfIs(line + [LF], |line|);
    assert ([last] + rest)[1..] == rest && (line + [LF])[..|line|] == line;
  }

  ghost predicate SameForAllReads<V>(codec: Codec<V>, s: Bytes) {
    forall a, b :: AreReads(a) && AreReads(b) && Flatten(a) == s && Flatten(b) == s ==>
      Next(codec, [], a).outcome == Next(codec, [], b).outcome
  }

  lemma FixedVerdict<V>(codec: Codec<V>, s: Bytes, inner: seq<Bytes>)
    requires AreReads(inner) && Flatten(inner) == s
    requires Lines(s) != [] ==> !Borderline(Lines(s)[0])
    ensures Next(codec, [], inner).outcome == if Lines(s) == [] then Eof else VerdictOn(codec, Lines(s)[0])
  {
    assert [] + s == s;
    NextAnswersFirstLine(codec, [], inner);
  }

  lemma AroundIndex(s: Bytes, n: nat)
    requires n < |s|
    ensures s == s[..n] + ([s[n]] + s[n + 1..]) && s == s[..n] + [s[n]] + s[n + 1..]
  {
  }

  lemma SplitAtLf(s: Bytes) returns (line: Bytes, tail: Bytes)
    requires Lines(s) != [] && Lines(s)[0].terminated
    ensures line == Lines(s)[0].bytes && LF !in line
    ensures s == line + ([LF] + tail) && s == line + [LF] + tail
  {
    var n := FirstLf(s);
    line, tail := s[..n], s[n + 1..];
    AroundIndex(s, n);
  }

  lemma TwoVerdicts<V>(codec: Codec<V>, s: Bytes) returns (a: seq<Bytes>, b: seq<Bytes>)
    requires Lines(s) != [] && Borderline(Lines(s)[0])
    ensures AreReads(a) && AreReads(b) && Flatten(a) == s && Flatten(b) == s
    ensures Next(codec, [], a).outcome != Next(codec, [], b).outcome
  {
    var line, tail := SplitAtLf(s);
    a := CutBeforeLf(codec, line, [LF] + tail);
    b := CutAtLimit(codec, line, tail);
  }

  /** The first frame of a stream is independent of the reads exactly when its line is not
      borderline. */
  lemma IndependentIffNotBorderline<V>(codec: Codec<V>, s: Bytes)
    ensures SameForAllReads(codec, s) <==> !(Lines(s) != [] && Borderline(Lines(s)[0]))
  {
    if Lines(s) != [] && Borderline(Lines(s)[0]) {
      var a, b := TwoVerdicts(codec, s);
    } else {
      forall a, b | AreReads(a) && AreReads(b) && Flatten(a) == s && Flatten(b) == s
        ensures Next(codec, [], a).outcome == Next(codec, [], b).outcome
      {
        FixedVerdict(codec, s, a);
        FixedVerdict(codec, s, b);
      }
    }
  }

  /** There are such lines: one byte over the limit is enough. */
  lemma SomeLineDependsOnReads<V>(codec: Codec<V>) returns (s: Bytes)
    ensures !SameForAllReads(codec, s)
  {
    var line := seq(MAX_LINE_BYTES + 1, _ => 97 as byte);
    s := line + ([LF] + []);
    WrittenLine(line, []);
    IndependentIffNotBorderline(codec, s);
  }

  // ---- Whole streams ----------------------------------------------------------------------------

  /** The session reads on behind a value, and behind an invalid JSON line while `spare` such
      lines are tolerated. */
  predicate GoesOn<V>(o: Outcome<V>, spare: nat) {
    o.Value? || (o.InvalidJson? && spare > 0)
  }

  function SpareAfter<V>(o: Outcome<V>, spare: nat): nat
    requires GoesOn(o, spare)
  {
    if o.InvalidJson? then spare - 1 else spare
  }

  /** All results of a session with these reads. */
  function Session<V>(codec: Codec<V>, unread: Bytes, inner: seq<Bytes>, spare: nat): (r: seq<Outcome<V>>)
    ensures r != [] && r[0] == Next(codec, unread, inner).outcome
    decreases |unread| + |Flatten(inner)|
  {
    var p := Next(codec, unread, inner);
    if GoesOn(p.outcome, spare) then [p.outcome] + Session(codec, p.unread, p.inner, SpareAfter(p.outcome, spare))
    else [p.outcome]
  }

  /** The same for lines, each with its own verdict. */
  function Verdicts<V>(codec: Codec<V>, ls: seq<Line>, spare: nat): seq<Outcome<V>> {
    if ls == [] then [Eof] else
      var o := VerdictOn(codec, ls[0]);
      if GoesOn(o, spare) then [o] + Verdicts(codec, ls[1..], SpareAfter(o, spare)) else [o]
  }

  /** The line is text: it fits, ends in a line feed, is not empty, has no carriage return and is
      UTF-8. */
  predicate IsText<V>(codec: Codec<V>, line: Line) {
    |line.bytes| <= MAX_LINE_BYTES && line.terminated && line.bytes != [] && CR !in line.bytes && codec.utf8(line.bytes)
  }

  /** Texts among the lines that are not JSON. */
  function InvalidJsonIn<V>(codec: Codec<V>, ls: seq<Line>): nat {
    if ls == [] then 0 else (if codec.json(ls[0].bytes).None? then 1 else 0) + InvalidJsonIn(codec, ls[1..])
  }

  /** Text that is not JSON is read over as often as it is tolerated and then ends the session;
      every other text gives its value. */
  lemma {:induction false} ToleranceIsExact<V>(codec: Codec<V>, ls: seq<Line>, spare: nat)
    requires forall l :: l in ls ==> IsText(codec, l)
    ensures var v := Verdicts(codec, ls, spare);
            var n := |v| - 1;
            && 0 <= n <= |ls|
            && (forall i :: 0 <= i < n ==> v[i] == match codec.json(ls[i].bytes) case None => InvalidJson
                                                                                 case Some(x) => Outcome.Value(x))
            && (if InvalidJsonIn(codec, ls) <= spare then n == |ls| && v[n] == Eof
                else n < |ls| && v[n] == InvalidJson && InvalidJsonIn(codec, ls[..n]) == spare
                     && codec.json(ls[n].bytes).None?)
  {
    if ls != [] {
      assert IsText(codec, ls[0]);
      var o := VerdictOn(codec, ls[0]);
      if GoesOn(o, spare) {
        ToleranceIsExact(codec, ls[1..], SpareAfter(o, spare));
        var n := |Verdicts(codec, ls, spare)| - 1;
        assert n > 0 ==> ls[..n][0] == ls[0] && ls[..n][1..] == ls[1..][..n - 1];
      }
    }
  }

  /** A line that is no text ends the session at once and is told from one that is too long. */
  lemma NoTextEndsTheSession<V>(codec: Codec<V>, ls: seq<Line>, spare: nat)
    requires ls != [] && !IsText(codec, ls[0])
    ensures Verdicts(codec, ls, spare) == [if |ls[0].bytes| > MAX_LINE_BYTES then LineTooLong else MalformedLine]
  {
  }

  /** The line that ends the session is borderline. */
  predicate EndsBorderline<V>(codec: Codec<V>, ls: seq<Line>, spare: nat) {
    if ls == [] then false else
      var o := VerdictOn(codec, ls[0]);
      if GoesOn(o, spare) then EndsBorderline(codec, ls[1..], SpareAfter(o, spare)) else Borderline(ls[0])
  }

  lemma {:induction false} SessionGivesVerdicts<V>(codec: Codec<V>, unread: Bytes, inner: seq<Bytes>, spare: nat)
    requires AreReads(inner) && |unread| <= MAX_LINE_BYTES + CHUNK
    requires !EndsBorderline(codec, Lines(unread + Flatten(inner)), spare)
    ensures Session(codec, unread, inner, spare) == Verdicts(codec, Lines(unread + Flatten(inner)), spare)
    decreases |unread| + |Flatten(inner)|
  {
    NextAnswersFirstLine(codec, unread, inner);
    var p := Next(codec, unread, inner);
    if GoesOn(p.outcome, spare) {
      SessionGivesVerdicts(codec, p.unread, p.inner, SpareAfter(p.outcome, spare));
    }
  }

  /** A line cut off from the rest of the stream is read by itself. */
  lemma SessionBehindLine<V>(codec: Codec<V>, line: Bytes, tail: Bytes, rest: seq<Bytes>, spare: nat)
    returns (inner: seq<Bytes>)
    requires LF !in line && |line| <= MAX_LINE_BYTES && GoesOn(ParseLine(codec, line), spare)
    requires AreReads(rest) && Flatten(rest) == tail
    ensures AreReads(inner) && Flatten(inner) == line + [LF] + tail
    ensures var o := ParseLine(codec, line);
            Session(codec, [], inner, spare) == [o] + Session(codec, [], rest, SpareAfter(o, spare))
  {
    inner := Cut(line) + ([[LF]] + rest);
    FlattenAround(Cut(line), [LF], rest);
    EndsLine(codec, line, line, [LF], rest);
  }

  /** Two cuttings of a stream whose last line is borderline with different results. */
  lemma {:induction false} TwoSessions<V>(codec: Codec<V>, s: Bytes, spare: nat) returns (a: seq<Bytes>, b: seq<Bytes>)
    requires EndsBorderline(codec, Lines(s), spare)
    ensures AreReads(a) && AreReads(b) && Flatten(a) == s && Flatten(b) == s
    ensures Session(codec, [], a, spare) != Session(codec, [], b, spare)
    decreases |s|
  {
    var first := Lines(s)[0];
    var o := VerdictOn(codec, first);
    if GoesOn(o, spare) {
      var line, tail := SplitAtLf(s);
      WrittenLine(line, tail);
      assert Lines(s)[1..] == Lines(tail);
      a, b := TwoSessions(codec, tail, SpareAfter(o, spare));
      var inA, inB := Session(codec, [], a, SpareAfter(o, spare)), Session(codec, [], b, SpareAfter(o, spare));
      a := SessionBehindLine(codec, line, tail, a, spare);
      b := SessionBehindLine(codec, line, tail, b, spare);
      assert ([o] + inA)[1..] == inA && ([o] + inB)[1..] == inB;
    } else {
      a, b := TwoVerdicts(codec, s);
    }
  }

  ghost predicate SameSessions<V>(codec: Codec<V>, s: Bytes, spare: nat) {
    forall a, b :: AreReads(a) && AreReads(b) && Flatten(a) == s && Flatten(b) == s ==>
      Session(codec, [], a, spare) == Session(codec, [], b, spare)
  }

  /** All that a session reads from a stream is independent of the reads exactly when the line
      that ends it is not borderline. */
  lemma SessionsAgreeIff<V>(codec: Codec<V>, s: Bytes, spare: nat)
    ensures SameSessions(codec, s, spare) <==> !EndsBorderline(codec, Lines(s), spare)
  {
    if EndsBorderline(codec, Lines(s), spare) {
      var a, b := TwoSessions(codec, s, spare);
    } else {
      forall a, b | AreReads(a) && AreReads(b) && Flatten(a) == s && Flatten(b) == s
        ensures Session(codec, [], a, spare) == Session(codec, [], b, spare)
      {
        assert [] + s == s;
        SessionGivesVerdicts(codec, [], a, spare);
        SessionGivesVerdicts(codec, [], b, spare);
      }
    }
  }

  lemma SessionStep<V>(codec: Codec<V>, unread: Bytes, inner: seq<Bytes>, spare: nat, before: seq<Outcome<V>>)
    ensures var p := Next(codec, unread, inner);
            before + Session(codec, unread, inner, spare) ==
            if GoesOn(p.outcome, spare)
            then before + [p.outcome] + Session(codec, p.unread, p.inner, SpareAfter(p.outcome, spare))
            else before + [p.outcome]
  {
    var p := Next(codec, unread, inner);
    if GoesOn(p.outcome, spare) {
      SumAssoc(before, [p.outcome], Session(codec, p.unread, p.inner, SpareAfter(p.outcome, spare)));
    }
  }

  /** Reads until a result ends the session. */
  method ReadAll<V>(reader: FrameReader<V>, tolerated: nat) returns (results: seq<Outcome<V>>)
    requires reader.Valid()
    modifies reader
    ensures results == Session(reader.codec, old(reader.Unread()), old(reader.inner), tolerated)
  {
    results := [];
    var spare := tolerated;
    ghost var unread, inner := reader.Unread(), reader.inner;
    ghost var all := Session(reader.codec, unread, inner, spare);
    while true
      invariant reader.Valid() && unread == reader.Unread() && inner == reader.inner
      invariant results + Session(reader.codec, unread, inner, spare) == all
      decreases |unread| + |Flatten(inner)|
    {
      var o := reader.NextFrame();
      SessionStep(reader.codec, unread, inner, spare, results);
      unread, inner := reader.Unread(), reader.inner;
      results := results + [o];
      if !GoesOn(o, spare) {
        return;
      }
      spare := SpareAfter(o, spare);
    }
  }

  /** A printer the codec can read back: valid UTF-8 without control characters. */
  ghost predicate PrintsFor<V(!new)>(show: V -> Bytes, codec: Codec<V>) {
    forall v :: show(v) != [] && LF !in show(v) && CR !in show(v)
                && codec.utf8(show(v)) && codec.json(show(v)) == Some(v)
  }

  function Printed<V>(show: V -> Bytes, values: seq<V>): (frames: seq<Bytes>) {
    seq(|values|, i requires 0 <= i < |values| => show(values[i]))
  }

  function Values<V>(values: seq<V>): seq<Outcome<V>> {
    seq(|values|, i requires 0 <= i < |values| => Outcome.Value(values[i]))
  }

  /** What `write_frame` wrote comes back in order under every cutting, and then the end. */
  lemma RoundTrip<V(!new)>(show: V -> Bytes, codec: Codec<V>, values: seq<V>, inner: seq<Bytes>, spare: nat)
    requires PrintsFor(show, codec)
    requires forall i :: 0 <= i < |values| ==> |show(values[i])| <= MAX_LINE_BYTES
    requires AreReads(inner) && Flatten(inner) == Written(Printed(show, values))
    ensures Session(codec, [], inner, spare) == Values(values) + [Eof]
  {
    WrittenLines(Printed(show, values));
    ReadsPrinted(show, codec, values, spare);
    assert [] + Flatten(inner) == Flatten(inner);
    SessionGivesVerdicts(codec, [], inner, spare);
  }

  lemma {:induction false} ReadsPrinted<V(!new)>(show: V -> Bytes, codec: Codec<V>, values: seq<V>, spare: nat)
    requires PrintsFor(show, codec)
    requires forall i :: 0 <= i < |values| ==> |show(values[i])| <= MAX_LINE_BYTES
    ensures var ls := Terminated(Printed(show, values));
            Verdicts(codec, ls, spare) == Values(values) + [Eof] && !EndsBorderline(codec, ls, spare)
  {
    if values != [] {
      ReadsPrinted(show, codec, values[1..], spare);
      var ls := Terminated(Printed(show, values));
      assert ls[1..] == Terminated(Printed(show, values[1..]));
      assert VerdictOn(codec, ls[0]) == Outcome.Value(values[0]);
      assert Values(values) == [Outcome.Value(values[0])] + Values(values[1..]);
      SumAssoc([Outcome.Value(values[0])], Values(values[1..]), [Eof]);
    }
  }
}
