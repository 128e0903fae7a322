/** The line reader of the .NET SDK (sdk/dotnet/NdjsonTransport.cs:51-153): a fixed read buffer
    and a list of segments of the line under construction. */
module NdjsonTransport {
  import opened Common
  import opened ByteLines

  const CHUNK: nat := 16 * 1024

  datatype Outcome = Text(text: string) | EndOfStream | Violation

  predicate Acceptable(line: Bytes) {
    CR !in line && |line| <= MAX_LINE_BYTES
  }

  /** `decode` is the UTF-8 decoder, which replaces what it cannot read. */
  function VerdictOn(decode: Bytes -> string, line: Line): Outcome {
    if line.terminated && Acceptable(line.bytes) then Text(decode(line.bytes)) else Violation
  }

  /** Part of a line that breaks a rule breaks it for the whole line. */
  lemma BadPartIsBadLine(decode: Bytes -> string, all: Bytes, line: Bytes, part: Bytes, behind: Bytes)
    requires all == line + (part + behind) && LF !in line && LF !in part && !Acceptable(line + part)
    ensures Lines(all) != [] && VerdictOn(decode, Lines(all)[0]) == Violation
  {
    var read := line + part;
    assert all == read + behind;
    FirstLfIs(read, |read|);
    FirstLineIsLonger(read, behind);
  }

  lemma LineFeedEndsLine(all: Bytes, line: Bytes, part: Bytes, tail: Bytes)
    requires all == line + (part + ([LF] + tail)) && LF !in line && LF !in part
    ensures Lines(all) == [Line(line + part, true)] + Lines(tail)
  {
    assert all == line + part + ([LF] + tail);
    WrittenLine(line + part, tail);
  }

  lemma SplitAt(s: Bytes, n: nat)
    requires n <= |s|
    ensures s == s[..n] + s[n..]
    ensures n < |s| ==> s[n..] == [s[n]] + s[n + 1..]
  {
  }

  lemma {:induction false} PartsFit(segments: seq<Bytes>, i: nat)
    requires i < |segments|
    ensures |Flatten(segments[..i + 1])| == |Flatten(segments[..i])| + |segments[i]| <= |Flatten(segments)|
    ensures Flatten(segments[..i + 1]) == Flatten(segments[..i]) + segments[i]
  {
    TakeSnoc(segments, i);
    FlattenSnoc(segments[..i], segments[i]);
    FlattenAppend(segments[..i + 1], segments[i + 1..]);
    assert segments[..i + 1] + segments[i + 1..] == segments;
  }

  /** Copies a segment into the buffer behind the first `offset` bytes. */
  method BlockCopy(segment: Bytes, buffer: array<byte>, offset: nat)
    requires offset + |segment| <= buffer.Length
    modifies buffer
    ensures buffer[..offset + |segment|] == old(buffer[..offset]) + segment
  {
    forall k | 0 <= k < |segment| { buffer[offset + k] := segment[k]; }
  }

  lemma CrInSum(a: Bytes, b: Bytes)
    ensures CR in a + b <==> CR in a || CR in b
  {
  }

  class Transport {
    const decode: Bytes -> string
    /** What the coming reads will deliver; no read is empty before the end. */
    var stdin: seq<Bytes>
    const chunk: array<byte>
    var chunkPos: nat
    var chunkLen: nat
    var segments: seq<Bytes>
    var lineBytes: nat

    ghost predicate Valid() reads this`stdin, this`chunkPos, this`chunkLen {
      && chunk.Length == CHUNK && chunkPos <= chunkLen <= CHUNK
      && forall c :: c in stdin ==> 0 < |c| <= CHUNK
    }

    /** The part of the read buffer not yet taken into a line. */
    function Unread(): Bytes reads this`chunkPos, this`chunkLen, chunk
      requires chunkPos <= chunkLen <= chunk.Length
    {
      chunk[chunkPos..chunkLen]
    }

    function Stream(): Bytes reads this`stdin, this`chunkPos, this`chunkLen, chunk
      requires chunkPos <= chunkLen <= chunk.Length
    {
      Unread() + Flatten(stdin)
    }

    ghost predicate Gathered(line: Bytes) reads this`segments, this`lineBytes {
      Flatten(segments) == line && lineBytes == |line|
    }

    constructor (decode: Bytes -> string, stdin: seq<Bytes>)
      requires forall c :: c in stdin ==> 0 < |c| <= CHUNK
      ensures Valid() && fresh(chunk) && Stream() == Flatten(stdin) && this.decode == decode
    {
      this.decode, this.stdin, chunk := decode, stdin, new byte[CHUNK](_ => 0);
      chunkPos, chunkLen, segments, lineBytes := 0, 0, [], 0;
      new;
      assert Stream() == Flatten(this.stdin);
    }

    /** Fills the read buffer; at the end of the stream it stays empty. */
    method Fill()
      requires Valid() && chunkPos == chunkLen
      modifies this`stdin, this`chunkPos, this`chunkLen, chunk
      ensures Valid() && Stream() == old(Stream())
      ensures chunkLen == 0 ==> Stream() == [] && stdin == []
      ensures chunkLen > 0 ==> |stdin| < |old(stdin)| && chunkPos < chunkLen
    {
      assert Stream() == Flatten(stdin);
      chunkPos, chunkLen := 0, 0;
      if stdin != [] {
        var read := stdin[0];
        FlattenHead([], stdin);
        forall k | 0 <= k < |read| { chunk[k] := read[k]; }
        chunkLen := |read|;
        stdin := stdin[1..];
        assert chunk[0..chunkLen] == read;
      }
    }

    /** Adds part of the read buffer to the line, unless that breaks a rule. */
    method TakeSegment(start: nat, count: nat, ghost part: Bytes, ghost line: Bytes) returns (ok: bool)
      requires start + count <= chunk.Length && chunk[start..start + count] == part
      requires Gathered(line) && Acceptable(line)
      modifies this`segments, this`lineBytes
      ensures ok <==> Acceptable(line + part)
      ensures ok ==> Gathered(line + part)
    {
      if count == 0 {
        assert line + part == line;
        return true;
      }
      var segment := chunk[start..start + count];
      CrInSum(line, segment);
      if CR in segment {
        return false;
      }
      if lineBytes + count > MAX_LINE_BYTES {
        return false;
      }
      lineBytes := lineBytes + count;
      FlattenSnoc(segments, segment);
      segments := segments + [segment];
      return true;
    }

    /** Joins the segments and decodes the line. */
    method DecodeLine(ghost line: Bytes) returns (text: string)
      requires Gathered(line)
      ensures text == decode(line)
    {
      var buffer := new byte[lineBytes](_ => 0);
      var offset := 0;
      for i := 0 to |segments|
        invariant offset == |Flatten(segments[..i])| <= buffer.Length
        invariant buffer[..offset] == Flatten(segments[..i])
      {
        PartsFit(segments, i);
        BlockCopy(segments[i], buffer, offset);
        offset := offset + |segments[i]|;
      }
      TakeAll(segments);
      assert buffer[..] == buffer[..offset];
      text := decode(buffer[..]);
    }

    /** Where the line feed is in the unread part of the buffer, or how long that part is. */
    method IndexOfLf(ghost unread: Bytes) returns (n: nat)
      requires Valid() && unread == Unread()
      ensures n <= |unread| && LF !in unread[..n] && (n < |unread| ==> unread[n] == LF)
      ensures chunk[chunkPos..chunkPos + n] == unread[..n]
    {
      n := 0;
      while n < chunkLen - chunkPos && chunk[chunkPos + n] != LF
        invariant n <= chunkLen - chunkPos
        invariant forall i :: 0 <= i < n ==> unread[i] != LF
      {
        n := n + 1;
      }
    }

    /** Takes what the read buffer has of the line, up to its line feed or to the end of the
        buffer, unless that breaks a rule. */
    method TakePart(ghost line: Bytes, ghost unread: Bytes)
      returns (ended: bool, ok: bool, ghost part: Bytes, ghost tail: Bytes)
      requires Valid() && chunkPos < chunkLen && unread == Unread() && Gathered(line) && Acceptable(line)
      modifies this`chunkPos, this`segments, this`lineBytes
      ensures Valid() && (ok ==> chunkPos > old(chunkPos))
      ensures LF !in part && unread == part + if ended then [LF] + tail else tail
      ensures ok <==> Acceptable(line + part)
      ensures ok ==> Gathered(line + part) && Unread() == tail
    {
      var n := IndexOfLf(unread);
      SplitAt(unread, n);
      part := unread[..n];
      ended := n < chunkLen - chunkPos;
      tail := if ended then unread[n + 1..] else [];
      ok := TakeSegment(chunkPos, n, part, line);
      if ok {
        Advance(if ended then n + 1 else n, unread);
      }
    }

    method Advance(count: nat, ghost unread: Bytes)
      requires Valid() && unread == Unread() && count <= |unread|
      modifies this`chunkPos
      ensures Valid() && chunkPos == old(chunkPos) + count
      ensures Unread() == unread[count..]
    {
      chunkPos := chunkPos + count;
    }

    /** The next line depends on the stream alone, not on how it was cut into reads. */
    method ReadLine() returns (r: Outcome)
      requires Valid()
      modifies this, chunk
      ensures Valid()
      ensures var ls := Lines(old(Stream()));
              if ls == [] then r == EndOfStream
              else r == VerdictOn(decode, ls[0]) && (r.Text? ==> Lines(Stream()) == ls[1..])
    {
      segments, lineBytes := [], 0;
      ghost var all, line := Stream(), [];
      while true
        invariant Valid() && all == line + Stream()
        invariant Gathered(line) && Acceptable(line) && LF !in line
        decreases |stdin|, chunkLen - chunkPos
      {
        if chunkPos >= chunkLen {
          Fill();
          if chunkLen == 0 {
            assert all == line;
            if lineBytes == 0 {
              return EndOfStream;
            }
            FirstLfIs(line, |line|);
            LinesOfUnterminated(line);
            return Violation;
          }
        }
        ghost var rest := Flatten(stdin);
        var ended, ok, part, tail := TakePart(line, Unread());
        ghost var more := if ended then [LF] + tail else tail;
        SumAssoc(part, more, rest);
        if !ok {
          BadPartIsBadLine(decode, all, line, part, more + rest);
          return Violation;
        }
        if ended {
          SumAssoc([LF], tail, rest);
          LineFeedEndsLine(all, line, part, tail + rest);
          var text := DecodeLine(line + part);
          return Text(text);
        }
        SumAssoc(line, part, tail + rest);
        line := line + part;
      }
    }
  }

  /** Lines without carriage returns and within the limit come back as they were written. */
  lemma {:induction false} RoundTrip(decode: Bytes -> string, frames: seq<Bytes>)
    requires forall f :: f in frames ==> LF !in f && Acceptable(f)
    ensures var ls := Lines(Written(frames));
            |ls| == |frames| && forall i :: 0 <= i < |ls| ==> VerdictOn(decode, ls[i]) == Text(decode(frames[i]))
  {
    WrittenLines(frames);
  }
}
