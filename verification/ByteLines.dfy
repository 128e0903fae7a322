/** Byte streams as newline-delimited lines, the common ground of the three frame readers. */
module ByteLines {
  import opened Common

  newtype byte = x: int | 0 <= x < 256

  const LF: byte := 0x0A
  const CR: byte := 0x0D

  /** Section 1.3 of the protocol: 8 MiB. */
  const MAX_LINE_BYTES: nat := 8 * 1024 * 1024

  type Bytes = seq<byte>

  /** Position of the first line feed, or the length when there is none. */
  function FirstLf(s: Bytes): (n: nat)
    ensures n <= |s|
    ensures n < |s| ==> s[n] == LF
    ensures forall i :: 0 <= i < n ==> s[i] != LF
  {
    if s == [] || s[0] == LF then 0 else FirstLf(s[1..]) + 1
  }

  datatype Line = Line(bytes: Bytes, terminated: bool)

  /** The lines of a stream; a non-empty rest without a line feed is a line, too. */
  function Lines(s: Bytes): seq<Line>
    decreases |s|
  {
    if s == [] then [] else
      var n := FirstLf(s);
      if n < |s| then [Line(s[..n], true)] + Lines(s[n + 1..]) else [Line(s, false)]
  }

  lemma FirstLfIs(s: Bytes, n: nat)
    requires n <= |s| && (forall i :: 0 <= i < n ==> s[i] != LF) && (n < |s| ==> s[n] == LF)
    ensures FirstLf(s) == n
  {
    var m := FirstLf(s);
  }

  /** A line feed in the part already read ends the first line of the whole stream. */
  lemma FirstLineRead(read: Bytes, rest: Bytes)
    requires FirstLf(read) < |read|
    ensures var n := FirstLf(read);
            && FirstLf(read + rest) == n
            && Lines(read + rest) == [Line(read[..n], true)] + Lines(read[n + 1..] + rest)
  {
    var n, s := FirstLf(read), read + rest;
    FirstLfIs(s, n);
    assert s[..n] == read[..n] && s[n + 1..] == read[n + 1..] + rest;
  }

  /** Without a line feed in the part already read, the first line is at least that long. */
  lemma FirstLineIsLonger(read: Bytes, rest: Bytes)
    requires FirstLf(read) == |read| && read != []
    ensures Lines(read + rest) != [] && |read| <= |Lines(read + rest)[0].bytes|
    ensures read <= Lines(read + rest)[0].bytes
  {
    assert forall i :: 0 <= i < |read| ==> (read + rest)[i] == read[i];
  }

  lemma LinesOfUnterminated(s: Bytes)
    requires FirstLf(s) == |s| && s != []
    ensures Lines(s) == [Line(s, false)]
  {
  }

  /** What a writer puts on the wire: every frame followed by one line feed. */
  function Written(frames: seq<Bytes>): Bytes {
    if frames == [] then [] else frames[0] + ([LF] + Written(frames[1..]))
  }

  function Terminated(frames: seq<Bytes>): seq<Line> {
    seq(|frames|, i requires 0 <= i < |frames| => Line(frames[i], true))
  }

  /** Frames without line feeds are told apart again. */
  lemma {:induction false} WrittenLines(frames: seq<Bytes>)
    requires forall i :: 0 <= i < |frames| ==> LF !in frames[i]
    ensures Lines(Written(frames)) == Terminated(frames)
  {
    if frames != [] {
      WrittenLines(frames[1..]);
      WrittenLine(frames[0], Written(frames[1..]));
    }
  }

  lemma WrittenLine(frame: Bytes, rest: Bytes)
    requires LF !in frame
    ensures Lines(frame + ([LF] + rest)) == [Line(frame, true)] + Lines(rest)
  {
    var read := frame + [LF];
    FirstLfIs(read, |frame|);
    FirstLineRead(read, rest);
    assert frame + ([LF] + rest) == read + rest;
    assert read[..|frame|] == frame && read[|frame| + 1..] + rest == rest;
  }
}
