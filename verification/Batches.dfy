/** Numbered record batches and what the store makes of them. */
module Batches {
  import opened Common
  import opened Protocol
  import Store

  function RecordsIn(batches: seq<RecordBatch>): seq<Record> {
    if batches == [] then [] else RecordsIn(batches[..|batches| - 1]) + batches[|batches| - 1].records
  }

  lemma RecordsInSnoc(batches: seq<RecordBatch>, b: RecordBatch)
    ensures RecordsIn(batches + [b]) == RecordsIn(batches) + b.records
  {
    InitOfSnoc(batches, b);
  }

  lemma {:induction false} RecordsOfPrefix(batches: seq<RecordBatch>, k: nat)
    requires k <= |batches|
    ensures RecordsIn(batches[..k]) <= RecordsIn(batches)
  {
    if k < |batches| {
      RecordsOfPrefix(batches[..|batches| - 1], k);
      assert batches[..|batches| - 1][..k] == batches[..k];
    } else {
      assert batches[..k] == batches;
    }
  }

  ghost predicate Numbered(batches: seq<RecordBatch>) {
    forall i :: 0 <= i < |batches| ==> batches[i].seqNo == i
  }

  ghost predicate AllFor(fileId: string, batches: seq<RecordBatch>) {
    forall i :: 0 <= i < |batches| ==> batches[i].fileId == fileId
  }

  /** The file's log after appending the batches in turn. */
  function Appended(fileId: string, log: Store.FileLog, batches: seq<RecordBatch>)
    : Result<Store.FileLog, Store.StoreError>
  {
    if batches == [] then Ok(log) else
      match Appended(fileId, log, batches[..|batches| - 1])
      case Err(e) => Err(e)
      case Ok(before) => Store.AppendLog(fileId, before, batches[|batches| - 1])
  }

  const EMPTY_LOG := Store.FileLog(Store.Registered, 0, [])

  /** A freshly registered file takes all batches of a numbered stream, and then freezes on
      exactly the number of records they hold. */
  lemma {:induction false} StoreTakesNumbered(fileId: string, batches: seq<RecordBatch>)
    requires AllFor(fileId, batches) && Numbered(batches)
    ensures var log := Appended(fileId, EMPTY_LOG, batches);
            && log == Ok(Store.FileLog(if batches == [] then Store.Registered else Store.Ingesting,
                                       |batches|, RecordsIn(batches)))
            && forall total :: Store.FreezeLog(fileId, log.value, total).Ok? <==> total == |RecordsIn(batches)|
  {
    if batches != [] {
      StoreTakesNumbered(fileId, batches[..|batches| - 1]);
    }
  }

  /** The batch of the given file that a notification carries, if any, as a list. */
  function BatchIn(fileId: string, note: Notification): seq<RecordBatch> {
    if note.Batch? && note.batch.fileId == fileId then [note.batch] else []
  }

  function BatchesOf(fileId: string, notes: seq<Notification>): seq<RecordBatch> {
    if notes == [] then [] else BatchIn(fileId, notes[0]) + BatchesOf(fileId, notes[1..])
  }

  lemma {:induction false} BatchesOfAppend(fileId: string, a: seq<Notification>, b: seq<Notification>)
    ensures BatchesOf(fileId, a + b) == BatchesOf(fileId, a) + BatchesOf(fileId, b)
  {
    if a == [] {
      assert a + b == b;
    } else {
      assert (a + b)[1..] == a[1..] + b;
      BatchesOfAppend(fileId, a[1..], b);
    }
  }

  lemma BatchesOfSnoc(fileId: string, notes: seq<Notification>, note: Notification)
    ensures BatchesOf(fileId, notes + [note]) == BatchesOf(fileId, notes) + BatchIn(fileId, note)
  {
    BatchesOfAppend(fileId, notes, [note]);
  }
}
