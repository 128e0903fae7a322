/** The frame reader of the plugin runtime (core/ab-plugin-rt/src/frame.rs). */
module PluginFrame {
  import opened Common
  import opened ByteLines

  const CHUNK: nat := 8192

  datatype Outcome =
    | Frame(text: Bytes)
    | End
    | TooLong
    | StrayCr
    | InvalidUtf8

  datatype Reading = Reading(frames: seq<Bytes>, end: Outcome)

  /** What becomes of one line. */
  function Finalize(utf8: Bytes -> bool, line: Bytes): Outcome {
    if line != [] && line[|line| - 1] == CR then StrayCr
    else if utf8(line) then Frame(line)
    else InvalidUtf8
  }

  function VerdictOn(utf8: Bytes -> bool, line: Bytes): Outcome {
    if |line| > MAX_LINE_BYTES then TooLong else Finalize(utf8, line)
  }

  /** The frames of some lines up to the first one that is rejected, and how reading ended. */
  function FramesOf(utf8: Bytes -> bool, ls: seq<Line>): Reading {
    if ls == [] then Reading([], End) else
      var verdict := VerdictOn(utf8, ls[0].bytes);
      if verdict.Frame? then Behind([verdict.text], FramesOf(utf8, ls[1..])) else Reading([], verdict)
  }

  function Behind(frames: seq<Bytes>, r: Reading): Reading {
    Reading(frames + r.frames, r.end)
  }

  lemma BehindMoves(frames: seq<Bytes>, text: Bytes, r: Reading)
    ensures Behind(frames, Behind([text], r)) == Behind(frames + [text], r)
  {
    assert frames + ([text] + r.frames) == frames + [text] + r.frames;
  }

  predicate EndsInCr(line: Bytes) {
    line != [] && line[|line| - 1] == CR
  }

  /** The frames are the first lines as they stand, and how reading ended says what is wrong with
      the line behind them. */
  lemma {:induction false} EndNamesItsCause(utf8: Bytes -> bool, ls: seq<Line>)
    ensures var r := FramesOf(utf8, ls);
            var k := |r.frames|;
            && k <= |ls| && (forall i :: 0 <= i < k ==> r.frames[i] == ls[i].bytes)
            && (r.end == End <==> k == |ls|)
            && (r.end == TooLong <==> k < |ls| && |ls[k].bytes| > MAX_LINE_BYTES)
            && (r.end == StrayCr <==> k < |ls| && |ls[k].bytes| <= MAX_LINE_BYTES && EndsInCr(ls[k].bytes))
            && (r.end == InvalidUtf8 <==>
                  k < |ls| && |ls[k].bytes| <= MAX_LINE_BYTES && !EndsInCr(ls[k].bytes) && !utf8(ls[k].bytes))
  {
    if ls != [] {
      EndNamesItsCause(utf8, ls[1..]);
    }
  }

  class FrameReader {
    const utf8: Bytes -> bool
    /** What the coming reads will deliver; no read is empty before the end. */
    var inner: seq<Bytes>
    var buf: Bytes

    ghost predicate Valid() reads this {
      && |buf| <= MAX_LINE_BYTES + CHUNK
      && forall c :: c in inner ==> 0 < |c| <= CHUNK
    }

    /** The bytes not yet delivered. */
    function Stream(): Bytes reads this {
      buf + Flatten(inner)
    }

    constructor (utf8: Bytes -> bool, inner: seq<Bytes>)
      requires forall c :: c in inner ==> 0 < |c| <= CHUNK
      ensures Valid() && Stream() == Flatten(inner) && this.utf8 == utf8
    {
      this.utf8, this.inner, this.buf := utf8, inner, [];
    }

    /** Takes the line in front of the first line feed. */
    method TakeLine(nl: nat) returns (r: Outcome)
      requires Valid() && nl == FirstLf(buf) < |buf| && nl <= MAX_LINE_BYTES
      modifies this`buf
      ensures Valid()
      ensures var ls := Lines(old(Stream()));
              ls != [] && r == VerdictOn(utf8, ls[0].bytes) && Lines(Stream()) == ls[1..]
    {
      FirstLineRead(buf, Flatten(inner));
      var line := buf[..nl];
      buf := buf[nl + 1..];
      assert ([Line(line, true)] + Lines(Stream()))[1..] == Lines(Stream());
      r := Finalize(utf8, line);
    }

    /** Takes an unterminated rest at the end of the stream as a line. */
    method TakeRest() returns (r: Outcome)
      requires Valid() && inner == [] && buf != [] && FirstLf(buf) == |buf| <= MAX_LINE_BYTES
      modifies this`buf
      ensures Valid()
      ensures var ls := Lines(old(Stream()));
              ls != [] && r == VerdictOn(utf8, ls[0].bytes) && Lines(Stream()) == ls[1..]
    {
      assert Stream() == buf;
      LinesOfUnterminated(buf);
      var line := buf;
      buf := [];
      assert Stream() == [] && [Line(line, false)][1..] == [];
      r := Finalize(utf8, line);
    }

    /** The next frame depends on the stream alone, not on how it was cut into reads. */
    method ReadFrame() returns (r: Outcome)
      requires Valid()
      modifies this
      ensures Valid()
      ensures var ls := Lines(old(Stream()));
              if ls == [] then r == End
              else r == VerdictOn(utf8, ls[0].bytes) && (r.Frame? ==> Lines(Stream()) == ls[1..])
    {
      while true
        invariant Valid() && Stream() == old(Stream())
        decreases |inner|
      {
        var nl := FirstLf(buf);
        if nl < |buf| {
          FirstLineRead(buf, Flatten(inner));
          if nl > MAX_LINE_BYTES {
            return TooLong;
          }
          r := TakeLine(nl);
          return;
        }
        if |buf| > MAX_LINE_BYTES {
          FirstLineIsLonger(buf, Flatten(inner));
          return TooLong;
        }
        if inner == [] {
          assert Stream() == buf;
          if buf == [] {
            return End;
          }
          r := TakeRest();
          return;
        }
        var chunk, rest := inner[0], inner[1..];
        FlattenHead(buf, inner);
        if FirstLf(chunk) == |chunk| && |buf| + |chunk| > MAX_LINE_BYTES {
          FirstLfIs(buf + chunk, |buf| + |chunk|);
          FirstLineIsLonger(buf + chunk, Flatten(rest));
          return TooLong;
        }
        inner := rest;
        buf := buf + chunk;
      }
    }

    method ReadAll() returns (frames: seq<Bytes>, end: Outcome)
      requires Valid()
      modifies this
      ensures Reading(frames, end) == FramesOf(utf8, Lines(old(Stream())))
    {
      frames := [];
      ghost var all := FramesOf(utf8, Lines(Stream()));
      while true
        invariant Valid() && Behind(frames, FramesOf(utf8, Lines(Stream()))) == all
        decreases |Lines(Stream())|
      {
        ghost var ls := Lines(Stream());
        end := ReadFrame();
        if !end.Frame? {
          return;
        }
        BehindMoves(frames, end.text, FramesOf(utf8, ls[1..]));
        frames := frames + [end.text];
      }
    }
  }

  predicate Acceptable(utf8: Bytes -> bool, line: Bytes) {
    |line| <= MAX_LINE_BYTES && (line == [] || line[|line| - 1] != CR) && utf8(line)
  }

  /** What is delivered are the lines up to the first one that is too long, ends in a carriage
      return or is not UTF-8; a rest without a line feed counts as a line. */
  lemma {:induction false} DeliversAcceptablePrefix(utf8: Bytes -> bool, ls: seq<Line>)
    ensures var r := FramesOf(utf8, ls);
            && |r.frames| <= |ls|
            && (forall i :: 0 <= i < |r.frames| ==> r.frames[i] == ls[i].bytes && Acceptable(utf8, ls[i].bytes))
            && (if |r.frames| == |ls| then r.end == End
                else r.end != End && !Acceptable(utf8, ls[|r.frames|].bytes))
  {
    if ls != [] {
      DeliversAcceptablePrefix(utf8, ls[1..]);
    }
  }

  /** Frames written to the plugin come back in order, and then the end. */
  lemma {:induction false} RoundTrip(utf8: Bytes -> bool, frames: seq<Bytes>)
    requires forall f :: f in frames ==> LF !in f && Acceptable(utf8, f)
    ensures FramesOf(utf8, Lines(Written(frames))) == Reading(frames, End)
  {
    WrittenLines(frames);
    DeliversAcceptablePrefix(utf8, Terminated(frames));
  }
}
