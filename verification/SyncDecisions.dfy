/**
  What one delivery does, on records and literals: when a transaction is applied, refused or put
  aside, and what is written beside its row.
*/
module SyncDecisions {
  import opened Options
  import opened SyncSchema
  import opened SyncTables
  import opened SyncProtocol
  import opened SyncApply
  import opened SyncConsumer

  /** The tables accept the write: there is no id to write, or the row can go and the record can come. */
  predicate Accepted(rows: Rows, recs: Records, tx: Transaction) {
    var key, id, record := (tx.entityType, tx.payload.id), tx.payload.id, tx.payload.record;
    || id == ""
    || (tx.operation == "delete" && (key in recs ==> CanGo(rows, recs, key)))
    || (tx.operation == "upsert" && record.Some? && TableOf(record.value) == tx.entityType
        && (key in recs ==> CanGo(rows, recs, key)) && CanCome(rows, recs, GoneFirst(rows, recs, key), id, record.value))
  }

  /** The records after an accepted write. */
  function Written(rows: Rows, recs: Records, tx: Transaction): Records {
    var key := (tx.entityType, tx.payload.id);
    var left := if key in recs then Remaining(recs, key, GoneFirst(rows, recs, key)) else recs;
    if tx.payload.id == "" then recs
    else if tx.operation == "delete" || tx.payload.record.None? then left
    else left[key := tx.payload.record.value]
  }

  lemma WriteIff(rows: Rows, recs: Records, tx: Transaction)
    requires Holds(rows, recs) && tx.operation in {"delete", "upsert"}
    requires tx.entityType in {"secrets", "wallets", "users", "wallet_grants"}
    ensures Write(rows, tx).Done? <==> Accepted(rows, recs, tx)
    ensures Write(rows, tx).Done? ==> Holds(Write(rows, tx).rows, Written(rows, recs, tx))
    ensures Write(rows, tx).Done? && tx.payload.id == "" ==> Write(rows, tx).rows == rows
  {
    hide Holds, RowOf, CanGo, CanCome, Remaining, RecordsGone, OthersGone, UpsertRow, DeleteRow;
    if tx.payload.id == "" {
    } else if tx.operation == "delete" {
      DeleteIff(rows, recs, (tx.entityType, tx.payload.id));
    } else {
      UpsertTxIff(rows, recs, tx);
    }
  }

  lemma DeleteIff(rows: Rows, recs: Records, key: Key)
    requires Holds(rows, recs) && key.0 in {"secrets", "wallets", "users", "wallet_grants"}
    ensures DeleteRow(rows, key).Done? <==> (key in recs ==> CanGo(rows, recs, key))
    ensures DeleteRow(rows, key).Done? ==>
      Holds(DeleteRow(rows, key).rows, if key in recs then Remaining(recs, key, GoneFirst(rows, recs, key)) else recs)
  {
    assert key in rows <==> key in recs;
    hide Holds, RowOf, CanGo, Remaining, RecordsGone, OthersGone, Deletable, Survivors;
    if key in recs {
      DeletionIff(rows, recs, key);
      if DeleteRow(rows, key).Done? { DeletionEffect(rows, recs, key); }
    }
  }

  lemma UpsertTxIff(rows: Rows, recs: Records, tx: Transaction)
    requires Holds(rows, recs) && tx.operation == "upsert" && tx.payload.id != ""
    requires tx.entityType in {"secrets", "wallets", "users", "wallet_grants"}
    ensures var upserted := UpsertRow(rows, KeyOf(tx), RowOfTx(tx));
      && (upserted.Done? <==> Accepted(rows, recs, tx))
      && (upserted.Done? ==> Holds(upserted.rows, Written(rows, recs, tx)))
  {
    var key, id, record := (tx.entityType, tx.payload.id), tx.payload.id, tx.payload.record;
    if record.Some? { OneTable(tx.entityType, record.value); }
    hide Holds, RowOf, CanGo, CanCome, Remaining, RecordsGone, OthersGone, UpsertRow;
    if record.Some? && RowOf(tx.entityType, record.value).Some? {
      UpsertIff(rows, recs, tx.entityType, id, record.value);
      if UpsertRow(rows, key, RowOf(tx.entityType, record.value)).Done? { UpsertEffect(rows, recs, tx.entityType, id, record.value); }
    } else {
      NoRowIsRefused(rows, key);
    }
  }

  lemma NoRowIsRefused(rows: Rows, key: Key)
    ensures UpsertRow(rows, key, None).Raised?
  {
  }

  predicate IsMax(x: int, a: int, b: int) {
    a <= x && b <= x && (x == a || x == b)
  }

  /** Only the state of one peer changes, and there both numbers only grow to the number applied. */
  predicate AppliedState(before: map<string, PeerState>, after: map<string, PeerState>, peer: string, seqNo: int) {
    && after.Keys == before.Keys + {peer} && after - {peer} == before - {peer}
    && (peer !in before ==> after[peer] == PeerState(seqNo, seqNo))
    && (peer in before ==> IsMax(after[peer].lastApplied, before[peer].lastApplied, seqNo))
    && (peer in before ==> IsMax(after[peer].lastReceived, before[peer].lastReceived, seqNo))
  }

  predicate ReceivedState(before: map<string, PeerState>, after: map<string, PeerState>, peer: string, seqNo: int) {
    && after.Keys == before.Keys + {peer} && after - {peer} == before - {peer}
    && (peer !in before ==> after[peer] == PeerState(0, seqNo))
    && (peer in before ==> after[peer].lastApplied == before[peer].lastApplied)
    && (peer in before ==> IsMax(after[peer].lastReceived, before[peer].lastReceived, seqNo))
  }

  lemma BumpsAre(states: map<string, PeerState>, peer: string, seqNo: int)
    ensures AppliedState(states, BumpApplied(states, peer, seqNo), peer, seqNo)
    ensures ReceivedState(states, BumpReceived(states, peer, seqNo), peer, seqNo)
  {
  }

  /**
    A transaction is applied if and only if it is of one of the four tables, deletes or upserts, a
    commit is left and the tables accept it; then the row, one ack and the cursor change together.
    Of another table it is ignored, of another operation committed without effect, and refused it
    leaves everything as it was.
  */
  lemma AppliedIff(store: Store, recs: Records, left: nat, peer: string, seqNo: int, tx: Transaction)
    requires Holds(store.table, recs)
    ensures var o := Apply(store, left, peer, seqNo, tx);
      var known := tx.entityType in {"secrets", "wallets", "users", "wallet_grants"};
      var writes := tx.operation == "delete" || tx.operation == "upsert";
      && (!known ==> o == Outcome(store, left, Finished))
      && (known && left == 0 ==> o == Outcome(store, 0, Cut))
      && (known && left > 0 && !writes ==> o == Outcome(store, left - 1, Finished))
      && (known && left > 0 && writes && !Accepted(store.table, recs, tx) ==> o == Outcome(store, left, Refused))
      && (known && left > 0 && writes && Accepted(store.table, recs, tx) ==>
        && o == Outcome(store.(table := o.store.table, acks := store.acks + [Ack(peer, seqNo)], states := o.store.states), left - 1, Finished)
        && AppliedState(store.states, o.store.states, peer, seqNo)
        && Holds(o.store.table, Written(store.table, recs, tx)))
  {
    BumpsAre(store.states, peer, seqNo);
    hide Holds, Accepted, Written, Write, BumpApplied, AppliedState;
    if tx.entityType in REPLICATED_ENTITIES && tx.operation in {"delete", "upsert"} {
      WriteIff(store.table, recs, tx);
    }
  }

  /** A message of the node itself, an ack, a hello and a number not beyond the cursor change nothing. */
  lemma Ignored(self: string, store: Store, left: nat, peer: string, seqNo: int, tx: Transaction)
    requires peer == self || (peer in store.states && seqNo <= store.states[peer].lastApplied) || (peer !in store.states && seqNo <= 0)
    ensures Handle(self, store, left, TransactionMessage(peer, seqNo, tx)) == Outcome(store, left, Finished)
  {
  }

  /** A number further ahead is put on the shelf, unless one is there, and noted as received: two commits. */
  lemma AheadIsShelved(self: string, store: Store, left: nat, peer: string, seqNo: int, tx: Transaction)
    requires peer != self && seqNo > 1 + (if peer in store.states then store.states[peer].lastApplied else 0)
    ensures var o := Handle(self, store, left, TransactionMessage(peer, seqNo, tx));
      var shelf := if (peer, seqNo) in store.shelf then store.shelf else store.shelf[(peer, seqNo) := Decodable(tx)];
      && (left == 0 ==> o == Outcome(store, 0, Cut))
      && (left == 1 ==> o == Outcome(store.(shelf := shelf), 0, Cut))
      && (left >= 2 ==>
        && o == Outcome(store.(shelf := shelf, states := o.store.states), left - 2, Finished)
        && ReceivedState(store.states, o.store.states, peer, seqNo))
  {
    BumpsAre(store.states, peer, seqNo);
    hide BumpReceived, ReceivedState;
  }

  /** The next number is applied, and if that succeeds the shelf is drained. */
  lemma NextIsApplied(self: string, store: Store, left: nat, peer: string, seqNo: int, tx: Transaction)
    requires peer != self && seqNo == 1 + (if peer in store.states then store.states[peer].lastApplied else 0)
    ensures var applied := Apply(store, left, peer, seqNo, tx); var o := Handle(self, store, left, TransactionMessage(peer, seqNo, tx));
      o == (if applied.end == Finished then Drain(applied.store, applied.left, peer) else applied)
  {
    hide Apply, Drain;
  }
}
