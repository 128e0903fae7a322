/** Batching in the Python SDK (sdk/python/analysisbuddy/context.py:91-123 and 190-205), as used
    by the one thread that runs the parse. */
module EmitContext {
  import opened Batches
  import opened Common
  import opened Protocol

  const MIN_BATCH_SIZE: int := 1000
  const MAX_BATCH_SIZE: int := 8000
  const EARLY_FLUSH_BYTES: nat := 900_000

  /** What validation makes of a record that the author emits: a record and its serialised
      size, nothing because its value is not finite, or an exception. */
  datatype Cleaned = Clean(record: Record, size: nat) | Dropped | Invalid

  /** The records and sizes that come out of some cleaned ones, up to an invalid one. */
  function CleanOf(cs: seq<Cleaned>): seq<(Record, nat)> {
    if cs == [] || cs[0].Invalid? then []
    else (if cs[0].Clean? then [(cs[0].record, cs[0].size)] else []) + CleanOf(cs[1..])
  }

  function RecordsOf(rs: seq<(Record, nat)>): seq<Record> {
    seq(|rs|, i requires 0 <= i < |rs| => rs[i].0)
  }

  function SizeOf(rs: seq<(Record, nat)>): nat {
    if rs == [] then 0 else SizeOf(rs[..|rs| - 1]) + rs[|rs| - 1].1
  }

  predicate Full(batchSize: nat, rs: seq<(Record, nat)>) {
    |rs| >= batchSize || SizeOf(rs) >= EARLY_FLUSH_BYTES
  }

  /** A batch is cut with the very record that fills it. */
  predicate CutInTime(batchSize: nat, rs: seq<(Record, nat)>) {
    rs != [] && Full(batchSize, rs) && !Full(batchSize, rs[..|rs| - 1])
  }

  /** Batch `i` holds part `i`, was cut in time and is not the last. */
  ghost predicate AreBatches(fileId: string, batchSize: nat, sent: seq<RecordBatch>, parts: seq<seq<(Record, nat)>>) {
    && |sent| == |parts|
    && forall i :: 0 <= i < |sent| ==>
         sent[i] == RecordBatch(fileId, i, RecordsOf(parts[i]), false) && CutInTime(batchSize, parts[i])
  }

  lemma AreBatchesSnoc(fileId: string, batchSize: nat, sent: seq<RecordBatch>, parts: seq<seq<(Record, nat)>>,
                       part: seq<(Record, nat)>)
    requires AreBatches(fileId, batchSize, sent, parts) && CutInTime(batchSize, part)
    ensures AreBatches(fileId, batchSize, sent + [RecordBatch(fileId, |sent|, RecordsOf(part), false)], parts + [part])
  {
  }

  class Context {
    const fileId: string
    const batchSize: nat
    var buffer: seq<(Record, nat)>
    var bufferBytes: nat
    var seqNo: nat
    var recordsSoFar: nat
    var sent: seq<RecordBatch>
    /** The sized records of the batches sent, and everything taken in so far. */
    ghost var parts: seq<seq<(Record, nat)>>
    ghost var taken: seq<(Record, nat)>

    ghost predicate Valid() reads this {
      && batchSize > 0
      && bufferBytes == SizeOf(buffer) && !Full(batchSize, buffer)
      && seqNo == |sent| && recordsSoFar == |taken|
      && Flatten(parts) + buffer == taken
      && AreBatches(fileId, batchSize, sent, parts)
    }

    /** Other batch sizes raise an exception instead. */
    static predicate AcceptsBatchSize(batchSize: int) {
      MIN_BATCH_SIZE <= batchSize <= MAX_BATCH_SIZE
    }

    static method Create(fileId: string, batchSize: int) returns (c: Option<Context>)
      ensures c.Some? <==> AcceptsBatchSize(batchSize)
      ensures c.Some? ==> fresh(c.value) && c.value.Valid() && c.value.sent == [] && c.value.taken == []
                          && c.value.fileId == fileId && c.value.batchSize == batchSize
    {
      if !(MIN_BATCH_SIZE <= batchSize <= MAX_BATCH_SIZE) {
        return None;
      }
      var context := new Context(fileId, batchSize);
      c := Some(context);
    }

    constructor (fileId: string, batchSize: nat)
      requires AcceptsBatchSize(batchSize)
      ensures Valid() && sent == [] && taken == [] && this.fileId == fileId && this.batchSize == batchSize
    {
      this.fileId, this.batchSize := fileId, batchSize;
      buffer, bufferBytes, seqNo, recordsSoFar, sent, parts, taken := [], 0, 0, 0, [], [], [];
    }

    /** Sends the buffer; without force only when it holds something. */
    method Flush(forceDone: bool)
      requires seqNo == |sent| == |parts|
      modifies this`buffer, this`bufferBytes, this`seqNo, this`sent, this`parts
      ensures !forceDone && old(buffer) == [] ==> unchanged(this)
      ensures forceDone || old(buffer) != [] ==>
                && buffer == [] && bufferBytes == 0 && seqNo == old(seqNo) + 1
                && sent == old(sent) + [RecordBatch(fileId, old(seqNo), RecordsOf(old(buffer)), forceDone)]
                && parts == old(parts) + [old(buffer)]
    {
      if !forceDone && buffer == [] {
        return;
      }
      sent := sent + [RecordBatch(fileId, seqNo, RecordsOf(buffer), forceDone)];
      parts := parts + [buffer];
      buffer, bufferBytes, seqNo := [], 0, seqNo + 1;
    }

    method Take(record: Record, size: nat)
      requires Valid()
      modifies this
      ensures Valid() && taken == old(taken) + [(record, size)]
    {
      var r := (record, size);
      InitOfSnoc(buffer, r);
      FlattenSnoc(parts, buffer + [r]);
      SumAssoc(Flatten(parts), buffer, [r]);
      taken := taken + [r];
      buffer, bufferBytes, recordsSoFar := buffer + [r], bufferBytes + size, recordsSoFar + 1;
      if |buffer| >= batchSize || bufferBytes >= EARLY_FLUSH_BYTES {
        AreBatchesSnoc(fileId, batchSize, sent, parts, buffer);
        Flush(false);
        assert Flatten(parts) + [] == Flatten(parts);
      }
    }

    /** Takes the valid records in order; an invalid one raises, and what came before it stays. */
    method EmitRecords(records: seq<Cleaned>) returns (ok: bool)
      requires Valid()
      modifies this
      ensures Valid() && taken == old(taken) + CleanOf(records)
      ensures ok <==> forall i :: 0 <= i < |records| ==> !records[i].Invalid?
    {
      for i := 0 to |records|
        invariant Valid() && taken + CleanOf(records[i..]) == old(taken) + CleanOf(records)
        invariant forall k :: 0 <= k < i ==> !records[k].Invalid?
      {
        assert records[i..][0] == records[i] && records[i..][1..] == records[i + 1..];
        match records[i]
        case Invalid =>
          return false;
        case Dropped =>
        case Clean(record, size) =>
          SumAssoc(taken, [(record, size)], CleanOf(records[i + 1..]));
          Take(record, size);
      }
      ok := true;
    }

    /** The last batch is sent even when it is empty. */
    method Finish()
      requires Valid()
      modifies this
      ensures IsFinished(fileId, batchSize, sent, parts) && Flatten(parts) == taken == old(taken)
    {
      FlattenSnoc(parts, buffer);
      Flush(true);
      InitOfSnoc(old(sent), sent[|sent| - 1]);
      InitOfSnoc(old(parts), old(buffer));
    }
  }

  /** A finished stream: every batch but the last was cut in time, the last one is what was
      left over and says so. */
  ghost predicate IsFinished(fileId: string, batchSize: nat, sent: seq<RecordBatch>, parts: seq<seq<(Record, nat)>>) {
    && sent != [] && |parts| == |sent|
    && var n := |sent| - 1;
    && AreBatches(fileId, batchSize, sent[..n], parts[..n])
    && sent[n] == RecordBatch(fileId, n, RecordsOf(parts[n]), true) && !Full(batchSize, parts[n])
  }

  lemma RecordsOfSum(a: seq<(Record, nat)>, b: seq<(Record, nat)>)
    ensures RecordsOf(a + b) == RecordsOf(a) + RecordsOf(b)
  {
  }

  lemma {:induction false} RecordsOfParts(sent: seq<RecordBatch>, parts: seq<seq<(Record, nat)>>)
    requires |sent| == |parts| && forall i :: 0 <= i < |sent| ==> sent[i].records == RecordsOf(parts[i])
    ensures RecordsIn(sent) == RecordsOf(Flatten(parts))
  {
    if sent != [] {
      var n := |sent| - 1;
      RecordsOfParts(sent[..n], parts[..n]);
      TakeSnoc(parts, n);
      TakeAll(parts);
      FlattenSnoc(parts[..n], parts[n]);
      RecordsOfSum(Flatten(parts[..n]), parts[n]);
    }
  }

  /** The store takes the whole stream and freezes on the number of records taken in. */
  lemma StoreTakesFinished(fileId: string, batchSize: nat, sent: seq<RecordBatch>, parts: seq<seq<(Record, nat)>>)
    requires IsFinished(fileId, batchSize, sent, parts)
    ensures RecordsIn(sent) == RecordsOf(Flatten(parts))
    ensures Appended(fileId, EMPTY_LOG, sent).Ok?
            && Appended(fileId, EMPTY_LOG, sent).value.received == RecordsOf(Flatten(parts))
    ensures forall i :: 0 <= i < |sent| ==> |sent[i].records| <= batchSize
  {
    var n := |sent| - 1;
    forall i | 0 <= i < |sent|
      ensures sent[i].records == RecordsOf(parts[i]) && sent[i].seqNo == i && sent[i].fileId == fileId
      ensures |sent[i].records| <= batchSize
    {
      assert i < n ==> sent[..n][i] == sent[i] && parts[..n][i] == parts[i] && |parts[i][..|parts[i]| - 1]| < batchSize;
    }
    RecordsOfParts(sent, parts);
    StoreTakesNumbered(fileId, sent);
  }
}
