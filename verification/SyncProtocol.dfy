/**
  Rows of `sync_log` and the messages they become on the cluster topic.

  A payload is reduced to its `id` member and the record that makes up the rest, None when it is no
  row of its table; an absent, null or empty `id` is the empty string, since the program only asks
  whether it is truthy.
*/
module SyncProtocol {
  import opened Options
  import opened SyncSchema

  datatype Payload = Payload(id: string, record: Option<Record>)

  datatype Transaction = Transaction(entityType: string, operation: string, payload: Payload)

  datatype LogRow =
    | TransactionRow(tx: Transaction)
    | AckRow(source: string, sourceSeq: int)

  /** The rows of one emitter by `seq`; serial numbers may have gaps. */
  type Log = map<int, LogRow>

  datatype Message =
    | TransactionMessage(emitter: string, seqNo: int, tx: Transaction)
    | AckMessage(emitter: string, seqNo: int, source: string, sourceSeq: int)
    | HelloMessage(emitter: string)
    | UnknownMessage(emitter: string)
    | Unparsable

  function MessageOf(emitter: string, seqNo: int, row: LogRow): Message {
    match row
    case TransactionRow(tx) => TransactionMessage(emitter, seqNo, tx)
    case AckRow(source, sourceSeq) => AckMessage(emitter, seqNo, source, sourceSeq)
  }
}
