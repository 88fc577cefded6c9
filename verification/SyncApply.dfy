/** Applying one received transaction: the table write, the ack and the cursor in one commit. */
module SyncApply {
  import opened Options
  import opened SyncSchema
  import opened SyncProtocol

  const REPLICATED_ENTITIES: set<string> := {"secrets", "wallets", "users", "wallet_grants"}

  datatype PeerState = PeerState(lastApplied: int, lastReceived: int)

  datatype Ack = Ack(source: string, sourceSeq: int)

  /** A shelved payload comes back as JSON text, which the program decodes again. */
  datatype ShelfRow = Decodable(tx: Transaction) | Undecodable

  /** What a node stores for replication: the rows that survive a crash. */
  datatype Store = Store(
    states: map<string, PeerState>,
    shelf: map<(string, int), ShelfRow>,
    table: Rows,
    acks: seq<Ack>)

  /**
    How a call ended: normally, by an error the database raises for a constraint, or cut short
    because no commit was left, which stands for a crash or a lost connection.
  */
  datatype End = Finished | Refused | Cut

  /** The store and the number of further commits granted. */
  datatype Outcome = Outcome(store: Store, left: nat, end: End)

  predicate Supported(tx: Transaction) {
    tx.entityType in REPLICATED_ENTITIES && tx.operation in {"delete", "upsert"}
  }

  function LastApplied(store: Store, peer: string): int {
    if peer in store.states then store.states[peer].lastApplied else 0
  }

  function Max(a: int, b: int): int { if a < b then b else a }

  function KeyOf(tx: Transaction): Key {
    (tx.entityType, tx.payload.id)
  }

  function RowOfTx(tx: Transaction): Option<Row> {
    if tx.payload.record.None? then None else RowOf(tx.entityType, tx.payload.record.value)
  }

  /** The table write of a transaction; without an id nothing is written. */
  function Write(rows: Rows, tx: Transaction): Result {
    if tx.payload.id == "" then Done(rows)
    else if tx.operation == "delete" then DeleteRow(rows, KeyOf(tx))
    else UpsertRow(rows, KeyOf(tx), RowOfTx(tx))
  }

  function BumpApplied(states: map<string, PeerState>, peer: string, seqNo: int): map<string, PeerState> {
    if peer in states then
      states[peer := PeerState(Max(states[peer].lastApplied, seqNo), Max(states[peer].lastReceived, seqNo))]
    else
      states[peer := PeerState(seqNo, seqNo)]
  }

  function BumpReceived(states: map<string, PeerState>, peer: string, seqNo: int): map<string, PeerState> {
    if peer in states then
      states[peer := PeerState(states[peer].lastApplied, Max(states[peer].lastReceived, seqNo))]
    else
      states[peer := PeerState(0, seqNo)]
  }

  /** The committed effect of applying transaction `seqNo` of `peer`, which leaves the table `rows`. */
  function Committed(store: Store, peer: string, seqNo: int, rows: Rows): Store {
    store.(table := rows, acks := store.acks + [Ack(peer, seqNo)], states := BumpApplied(store.states, peer, seqNo))
  }

  /**
    One call of the apply routine. An entity outside the list opens no transaction; any other call
    is one transaction, which is rolled back when a constraint is violated or no commit is left. An
    unknown operation commits without an effect.
  */
  function Apply(store: Store, left: nat, peer: string, seqNo: int, tx: Transaction): Outcome {
    if tx.entityType !in REPLICATED_ENTITIES then Outcome(store, left, Finished)
    else if left == 0 then Outcome(store, 0, Cut)
    else if !Supported(tx) then Outcome(store, left - 1, Finished)
    else
      match Write(store.table, tx)
      case Raised => Outcome(store, left, Refused)
      case Done(rows) => Outcome(Committed(store, peer, seqNo, rows), left - 1, Finished)
  }

  /** The replication tables of one node, updated in place. */
  class Database {
    var states: map<string, PeerState>
    var shelf: map<(string, int), ShelfRow>
    var table: Rows
    var acks: seq<Ack>

    function Stored(): Store
      reads this
    {
      Store(states, shelf, table, acks)
    }

    constructor (table: Rows)
      ensures Stored() == Store(map[], map[], table, [])
    {
      this.states, this.shelf, this.table, this.acks := map[], map[], table, [];
    }

    /** ON CONFLICT DO NOTHING: a row already shelved under this number is kept. */
    method ShelveMessage(peer: string, seqNo: int, tx: Transaction)
      modifies this`shelf
      ensures (peer, seqNo) in old(shelf) ==> shelf == old(shelf)
      ensures (peer, seqNo) !in old(shelf) ==> shelf == old(shelf)[(peer, seqNo) := Decodable(tx)]
    {
      if (peer, seqNo) !in shelf {
        shelf := shelf[(peer, seqNo) := Decodable(tx)];
      }
    }

    method RemoveShelved(peer: string, seqNo: int)
      modifies this`shelf
      ensures shelf == old(shelf) - {(peer, seqNo)}
    {
      shelf := shelf - {(peer, seqNo)};
    }

    method UpsertReceived(peer: string, seqNo: int)
      modifies this`states
      ensures states == BumpReceived(old(states), peer, seqNo)
    {
      states := BumpReceived(states, peer, seqNo);
    }

    /** The DELETE statement: cascades, nulls references or raises as the schema says. */
    method Delete(key: Key) returns (ok: bool)
      modifies this`table
      ensures match DeleteRow(old(table), key)
        case Raised => !ok && table == old(table)
        case Done(rows) => ok && table == rows
    {
      if key !in table { return true; }
      if !Deletable(table, key) { return false; }
      table := Survivors(table, Gone(table, key));
      return true;
    }

    method ApplyDelete(tx: Transaction) returns (ok: bool)
      requires tx.operation == "delete"
      modifies this`table
      ensures match Write(old(table), tx)
        case Raised => !ok
        case Done(rows) => ok && table == rows
    {
      if tx.payload.id == "" { return true; }
      ok := Delete(KeyOf(tx));
    }

    method ApplyUpsert(tx: Transaction) returns (ok: bool)
      requires tx.operation == "upsert"
      modifies this`table
      ensures match Write(old(table), tx)
        case Raised => !ok
        case Done(rows) => ok && table == rows
    {
      if tx.payload.id == "" { return true; }
      ok := Delete(KeyOf(tx));
      if !ok { return; }
      var row := RowOfTx(tx);
      if row.None? || !Insertable(table, KeyOf(tx), row.value) { return false; }
      table := table[KeyOf(tx) := row.value];
    }

    /** `left` commits may still succeed; what a raising statement had written is rolled back. */
    method ApplyTransactionInTx(left: nat, peer: string, seqNo: int, tx: Transaction)
      returns (remaining: nat, end: End)
      modifies this
      ensures Outcome(Stored(), remaining, end) == Apply(old(Stored()), left, peer, seqNo, tx)
    {
      if tx.entityType !in REPLICATED_ENTITIES { return left, Finished; }
      if left == 0 { return 0, Cut; }
      var before, ok := table, true;
      if tx.operation == "delete" {
        ok := ApplyDelete(tx);
      } else if tx.operation == "upsert" {
        ok := ApplyUpsert(tx);
      } else {
        return left - 1, Finished;
      }
      if !ok {
        table := before;
        return left, Refused;
      }
      acks := acks + [Ack(peer, seqNo)];
      states := BumpApplied(states, peer, seqNo);
      return left - 1, Finished;
    }
  }

  // ─── What a transaction does to the replicated tables ─────────────────────

  lemma WriteKeepsIntegrity(rows: Rows, tx: Transaction)
    requires Integral(rows) && Write(rows, tx).Done?
    ensures Integral(Write(rows, tx).rows)
  {
    hide Integral, RowOf;
    if tx.payload.id != "" {
      if tx.operation == "delete" {
        DeleteKeepsIntegrity(rows, KeyOf(tx));
      } else {
        UpsertKeepsIntegrity(rows, KeyOf(tx), tx.payload.record.value);
      }
    }
  }

  /** A committed write leaves every other row as it was if and only if no row references the one written. */
  lemma WriteKeepsOthersIff(rows: Rows, tx: Transaction)
    requires Integral(rows) && Write(rows, tx).Done? && tx.payload.id != ""
    ensures KeepsOthers(rows, Write(rows, tx).rows, KeyOf(tx)) <==> !Referenced(rows, KeyOf(tx))
  {
    hide Integral, Referenced, KeepsOthers;
    if tx.operation == "delete" {
      DeleteKeepsOthersIff(rows, KeyOf(tx));
    } else {
      UpsertKeepsOthersIff(rows, KeyOf(tx), RowOfTx(tx));
    }
  }
}
