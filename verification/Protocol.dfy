/** Wire types shared by the host, the engine and the plugins (ab-protocol/src/types.rs).

    Strings stand for their UTF-8 byte sequences, so `|s|` is a byte length; a tag map is
    its entry list in key order; `f64` values are reals, because non-finite values are
    rejected on input. */
module Protocol {
  import opened Common

  type Tags = seq<(string, string)>

  datatype Record = Record(
    timestamp: int,
    metric: string,
    value: real,
    level: Option<string>,
    tags: Option<Tags>,
    rawLine: Option<string>)

  datatype RecordBatch = RecordBatch(fileId: string, seqNo: nat, records: seq<Record>, done: bool)

  datatype ProgressParams = ProgressParams(fileId: string, percent: Option<real>, recordsSoFar: nat)

  /** A notification of a plugin. */
  datatype Notification = Batch(batch: RecordBatch) | Progress(progress: ProgressParams)
}
