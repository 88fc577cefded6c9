/**
  The emitter's own table against its replica. Each row change of the emitter, cascaded ones
  included, is one row of its log: its table is the plain fold of the log, in which a write touches
  one row. The receiver deletes and inserts instead, with whatever that cascades to.
*/
module SyncMirror {
  import opened Options
  import opened SyncSchema
  import opened SyncProtocol
  import opened SyncApply
  import opened SyncRuns
  import opened SyncRegions

  /** The row change a log row records, at the emitter. */
  function Change(rows: Rows, tx: Transaction): Rows {
    if tx.payload.id == "" then rows
    else if tx.operation == "delete" then rows - {KeyOf(tx)}
    else if RowOfTx(tx).None? then rows
    else rows[KeyOf(tx) := RowOfTx(tx).value]
  }

  /** The emitter's table after the first n numbers of its log. */
  function Own(base: Rows, log: Log, n: nat): Rows {
    if n == 0 then base
    else if SupportedAt(log, n) then Change(Own(base, log, n - 1), log[n].tx)
    else Own(base, log, n - 1)
  }

  /** The row is the grant of the owner of a wallet that is there. */
  predicate IsOwnerGrant(rows: Rows, key: Key) {
    key in rows && Protected(rows, {key}, key)
  }

  /** A write that does the same on both sides. */
  ghost predicate Harmless(rows: Rows, tx: Transaction) {
    tx.payload.id != "" ==>
      && !Referenced(rows, KeyOf(tx)) && !IsOwnerGrant(rows, KeyOf(tx))
      && (tx.operation != "delete" ==>
        && RowOfTx(tx).Some?
        && ParentsBeside(rows, {KeyOf(tx)}, KeyOf(tx), RowOfTx(tx).value)
        && UniqueBeside(rows, {KeyOf(tx)}, RowOfTx(tx).value))
  }

  /** An unreferenced row can be deleted unless it is a protected grant. */
  lemma UnreferencedDeletable(rows: Rows, key: Key)
    requires Integral(rows) && !Referenced(rows, key) && key in rows
    ensures Deletable(rows, key) <==> !IsOwnerGrant(rows, key)
  {
    UnreferencedAlone(rows, key);
    forall j | j in rows && j != key ensures !Blocks(rows[j], {key}) {
      assert !Points(rows[j], key);
    }
    hide Gone, Protected, Blocks;
    assert Gone(rows, key) == {key};
  }

  lemma DeleteMirrorsIff(rows: Rows, key: Key)
    requires Integral(rows)
    ensures DeleteRow(rows, key) == Done(rows - {key}) <==> !Referenced(rows, key) && !IsOwnerGrant(rows, key)
  {
    hide Integral, IsOwnerGrant, Referenced, Survivors, Deletable;
    if Referenced(rows, key) {
      if DeleteRow(rows, key).Done? {
        DeleteKeepsOthersIff(rows, key);
        assert KeepsOthers(rows, rows - {key}, key);
      }
    } else {
      UnreferencedAlone(rows, key);
      if key in rows { UnreferencedDeletable(rows, key); } else { NotOwnerGrant(rows, key); }
    }
  }

  lemma NotOwnerGrant(rows: Rows, key: Key)
    requires key !in rows
    ensures !IsOwnerGrant(rows, key)
  {
  }

  lemma InsertableBeside(rows: Rows, key: Key, row: Row)
    ensures Insertable(rows - {key}, key, row) <==> ParentsBeside(rows, {key}, key, row) && UniqueBeside(rows, {key}, row)
  {
    var deleted := rows - {key};
    assert forall j :: j in deleted <==> j in rows && j != key;
    assert forall j :: j in deleted ==> deleted[j] == rows[j];
    if UniqueBeside(rows, {key}, row) {
      forall j | j in deleted ensures !Clashes(deleted[j], row) { assert j in rows.Keys; }
    }
    if forall j <- deleted.Keys :: !Clashes(deleted[j], row) {
      forall j | j in rows.Keys && j !in {key} ensures !Clashes(rows[j], row) { assert j in deleted.Keys; }
    }
  }

  lemma UpsertMirrorsIff(rows: Rows, key: Key, row: Row)
    requires Integral(rows)
    ensures UpsertRow(rows, key, Some(row)) == Done(rows[key := row]) <==>
      && !Referenced(rows, key) && !IsOwnerGrant(rows, key)
      && ParentsBeside(rows, {key}, key, row) && UniqueBeside(rows, {key}, row)
  {
    hide Integral, IsOwnerGrant, Referenced, Survivors, Deletable;
    DeleteMirrorsIff(rows, key);
    if Referenced(rows, key) {
      if UpsertRow(rows, key, Some(row)).Done? {
        UpsertKeepsOthersIff(rows, key, Some(row));
        assert KeepsOthers(rows, rows[key := row], key);
      }
    } else if IsOwnerGrant(rows, key) {
      OwnerGrantRefused(rows, key);
    } else {
      var deleted := rows - {key};
      InsertableBeside(rows, key, row);
      assert deleted[key := row] == rows[key := row];
    }
  }

  lemma OwnerGrantRefused(rows: Rows, key: Key)
    requires Integral(rows) && !Referenced(rows, key) && IsOwnerGrant(rows, key)
    ensures DeleteRow(rows, key).Raised?
  {
    UnreferencedDeletable(rows, key);
  }

  /** One write does to the replica exactly what it did to the emitter's table if and only if it is harmless. */
  lemma MirrorsIff(rows: Rows, tx: Transaction)
    requires Integral(rows) && Supported(tx)
    requires tx.operation == "upsert" && tx.payload.id != "" ==> RowOfTx(tx).Some?
    ensures Write(rows, tx) == Done(Change(rows, tx)) <==> Harmless(rows, tx)
  {
    hide Integral, IsOwnerGrant, Referenced, DeleteRow, UpsertRow, ParentsBeside, UniqueBeside;
    if tx.operation == "delete" {
      DeleteMirrorsIff(rows, KeyOf(tx));
    } else if tx.payload.id != "" {
      UpsertMirrorsIff(rows, KeyOf(tx), RowOfTx(tx).value);
    }
  }

  // ─── Whole logs ───────────────────────────────────────────────────────────

  /** The receiver applies number i with exactly the emitter's effect. */
  predicate MirroredAt(base: Rows, log: Log, i: nat)
    requires i > 0
  {
    CommitsAt(base, log, i) && Fold(base, log, i) == Own(base, log, i)
  }

  predicate MirroredUpTo(base: Rows, log: Log, n: nat) {
    forall i :: 1 <= i <= n ==> MirroredAt(base, log, i)
  }

  ghost predicate HarmlessAt(base: Rows, log: Log, i: nat)
    requires i > 0
  {
    SupportedAt(log, i) && Harmless(Own(base, log, i - 1), log[i].tx)
  }

  /** An upsert carries a row of its table. */
  ghost predicate WellFormed(log: Log) {
    forall i :: SupportedAt(log, i) && log[i].tx.operation == "upsert" && log[i].tx.payload.id != "" ==> RowOfTx(log[i].tx).Some?
  }

  lemma {:induction false} FoldKeepsIntegrity(base: Rows, log: Log, n: nat)
    requires Integral(base)
    ensures Integral(Fold(base, log, n))
  {
    hide Integral, Write;
    if n > 0 {
      FoldKeepsIntegrity(base, log, n - 1);
      if SupportedAt(log, n) && Write(Fold(base, log, n - 1), log[n].tx).Done? {
        WriteKeepsIntegrity(Fold(base, log, n - 1), log[n].tx);
      }
    }
  }

  lemma {:induction false} NextMirroredIff(base: Rows, log: Log, n: nat)
    requires Integral(base) && WellFormed(log) && n > 0 && Fold(base, log, n - 1) == Own(base, log, n - 1)
    ensures MirroredAt(base, log, n) <==> HarmlessAt(base, log, n)
  {
    hide Integral, Write, Change, Harmless;
    FoldKeepsIntegrity(base, log, n - 1);
    if SupportedAt(log, n) { MirrorsIff(Fold(base, log, n - 1), log[n].tx); }
  }

  /**
    For every log: the receiver follows the emitter through its first n changes, at each of them
    exactly, if and only if each write is harmless where the emitter made it.
  */
  lemma {:induction false} MirroredIffHarmless(base: Rows, log: Log, n: nat)
    requires Integral(base) && WellFormed(log)
    ensures MirroredUpTo(base, log, n) <==> forall i :: 1 <= i <= n ==> HarmlessAt(base, log, i)
  {
    hide Integral, WellFormed, Fold, Own, CommitsAt, Harmless;
    if n > 0 {
      MirroredIffHarmless(base, log, n - 1);
      if MirroredUpTo(base, log, n - 1) {
        MirroredTables(base, log, n - 1);
        NextMirroredIff(base, log, n);
      }
    }
  }

  lemma MirroredTables(base: Rows, log: Log, n: nat)
    requires MirroredUpTo(base, log, n)
    ensures Fold(base, log, n) == Own(base, log, n)
  {
    if n > 0 { assert MirroredAt(base, log, n); }
  }

  // ─── Logs of a database that keeps its own constraints ────────────────────

  /**
    The rows that the emitter has beside those it shares with the replica, in tables that
    replication does not send, such as API keys created since; they may change with every change.
  */
  type Local = nat -> Rows

  /** What an emitter that enforces the same schema logs: supported row changes, between integral tables. */
  ghost predicate KeepsItsSchema(base: Rows, local: Local, log: Log, n: nat) {
    && Integral(base) && WellFormed(log)
    && (forall i :: 1 <= i <= n ==> SupportedAt(log, i))
    && (forall i: nat, k :: i <= n && k in local(i) ==> k.0 !in REPLICATED_ENTITIES && k !in Own(base, log, i))
    && (forall i: nat :: i <= n ==> Integral(Own(base, log, i) + local(i)))
  }

  /** The emitter updates or deletes the owner's grant of a wallet it still has, or updates a row that others reference. */
  ghost predicate Breaks(rows: Rows, tx: Transaction) {
    tx.payload.id != "" &&
    (IsOwnerGrant(rows, KeyOf(tx)) || (tx.operation == "upsert" && Referenced(rows, KeyOf(tx))))
  }

  /** The record references a row that the replica does not have. */
  predicate Unknown(rows: Rows, tx: Transaction) {
    && tx.payload.id != "" && tx.operation == "upsert" && RowOfTx(tx).Some?
    && exists r <- RowOfTx(tx).value.refs :: r.parent !in rows && r.parent != KeyOf(tx)
  }

  ghost predicate BreaksAt(base: Rows, log: Log, i: nat)
    requires i > 0
  {
    SupportedAt(log, i) && (Breaks(Own(base, log, i - 1), log[i].tx) || Unknown(Own(base, log, i - 1), log[i].tx))
  }

  lemma HarmlessUnlessBreaking(base: Rows, local: Local, log: Log, n: nat, i: nat)
    requires KeepsItsSchema(base, local, log, n) && 1 <= i <= n
    ensures HarmlessAt(base, log, i) <==> !BreaksAt(base, log, i)
  {
    assert SupportedAt(log, i);
    var rows, tx := Own(base, log, i - 1), log[i].tx;
    assert Own(base, log, i) == Change(rows, tx) && Integral(Own(base, log, i) + local(i));
    assert KeyOf(tx) !in local(i);
    if tx.payload.id != "" {
      if tx.operation == "delete" {
        DeleteLeavesNoReferrer(rows, local(i), KeyOf(tx));
      } else {
        WriteFitsBeside(rows, local(i), KeyOf(tx), RowOfTx(tx).value);
        KnownIsBeside(rows, tx);
      }
    }
    hide Own, IsOwnerGrant, Integral, Referenced, ParentsBeside, UniqueBeside, Unknown;
  }

  lemma KnownIsBeside(rows: Rows, tx: Transaction)
    requires tx.payload.id != "" && tx.operation == "upsert" && RowOfTx(tx).Some?
    ensures ParentsBeside(rows, {KeyOf(tx)}, KeyOf(tx), RowOfTx(tx).value) <==> !Unknown(rows, tx)
  {
  }

  lemma DeleteLeavesNoReferrer(rows: Rows, local: Rows, key: Key)
    requires key !in local && (forall k :: k in local ==> k !in rows - {key}) && Integral((rows - {key}) + local)
    ensures !Referenced(rows, key)
  {
    var after := (rows - {key}) + local;
    forall j | j in rows && j != key ensures !Points(rows[j], key) {
      assert j in after && after[j] == rows[j];
      assert forall r :: r in after[j].refs ==> r.parent in after;
    }
  }

  lemma WriteFitsBeside(rows: Rows, local: Rows, key: Key, row: Row)
    requires key !in local && (forall k :: k in local ==> k !in rows[key := row]) && Integral(rows[key := row] + local)
    ensures UniqueBeside(rows, {key}, row)
  {
    var after := rows[key := row] + local;
    forall j | j in rows && j != key ensures !Clashes(rows[j], row) {
      assert after[j] == rows[j] && after[key] == row;
      assert !Clashes(after[j], after[key]);
    }
  }

  /**
    Of an emitter that keeps its own constraints: the replica follows it exactly, change by change,
    if and only if it never updates a row that other rows reference, never writes the grant of a
    wallet's owner while the wallet is there, and never writes a row that references one which the
    replica lacks, of a table that replication does not send.
  */
  lemma MirroredIffNothingBreaks(base: Rows, local: Local, log: Log, n: nat)
    requires KeepsItsSchema(base, local, log, n)
    ensures MirroredUpTo(base, log, n) <==>
      forall i :: 1 <= i <= n ==> !BreaksAt(base, log, i)
  {
    MirroredIffHarmless(base, log, n);
    forall i: nat | 1 <= i <= n ensures HarmlessAt(base, log, i) <==> !BreaksAt(base, log, i) {
      HarmlessUnlessBreaking(base, local, log, n, i);
    }
    hide HarmlessAt, BreaksAt, MirroredUpTo, Own, KeepsItsSchema;
  }
}
