/**
  Ownership closed under foreign keys: every row belongs to one peer, together with the rows it
  references and the unique values it holds, or to nobody and is never written. Each peer's region
  of the table then evolves by that peer's transactions alone.
*/
module SyncRegions {
  import opened Options
  import opened SyncSchema
  import opened SyncProtocol
  import opened SyncApply
  import opened SyncRuns

  /** The peer that owns a row or a unique value, or None for nobody. */
  datatype Ownership = Ownership(ofKey: Key -> Option<string>, ofValue: ((string, seq<string>)) -> Option<string>)

  predicate Mine(own: Ownership, p: Option<string>, key: Key) {
    own.ofKey(key) == p || own.ofKey(key) == None
  }

  /** What a row references and its unique values belong to its owner; references may be to nobody's rows. */
  predicate OwnsRow(own: Ownership, p: Option<string>, row: Row) {
    && (forall r <- row.refs :: Mine(own, p, r.parent))
    && (forall u <- row.uniques :: own.ofValue(u) == p)
  }

  predicate ClosedRows(own: Ownership, rows: Rows) {
    forall k <- rows.Keys :: OwnsRow(own, own.ofKey(k), rows[k])
  }

  predicate OwnsWrite(own: Ownership, p: string, tx: Transaction) {
    tx.payload.id != "" ==>
      && own.ofKey(KeyOf(tx)) == Some(p)
      && (RowOfTx(tx).Some? ==> OwnsRow(own, Some(p), RowOfTx(tx).value))
  }

  ghost predicate ClosedLogs(own: Ownership, logs: Logs) {
    forall peer, q :: IsTransaction(logs, peer, q) && Supported(logs[peer][q].tx) ==> OwnsWrite(own, peer, logs[peer][q].tx)
  }

  /** The rows of a peer and those of nobody. */
  function Region(own: Ownership, rows: Rows, p: string): Rows {
    map k | k in rows && Mine(own, Some(p), k) :: rows[k]
  }

  // ─── One statement stays within its region ────────────────────────────────

  lemma ReferrersStayInside(own: Ownership, rows: Rows, p: string, parents: set<Key>, onDelete: OnDelete, j: Key)
    requires ClosedRows(own, rows) && (forall k :: k in parents ==> own.ofKey(k) == Some(p))
    requires j in rows && PointsTo(rows[j], parents, onDelete)
    ensures own.ofKey(j) == Some(p)
  {
    var r :| r in rows[j].refs && r.parent in parents && r.onDelete == onDelete;
    assert OwnsRow(own, own.ofKey(j), rows[j]) && Mine(own, own.ofKey(j), r.parent);
  }

  lemma GoneIsLocal(own: Ownership, rows: Rows, p: string, key: Key)
    requires ClosedRows(own, rows) && own.ofKey(key) == Some(p) && key in rows
    ensures Gone(Region(own, rows, p), key) == Gone(rows, key)
    ensures forall k :: k in Gone(rows, key) ==> k in rows && own.ofKey(k) == Some(p)
  {
    var region := Region(own, rows, p);
    forall j | j in rows && PointsTo(rows[j], {key}, Cascade) ensures own.ofKey(j) == Some(p) && j in region {
      ReferrersStayInside(own, rows, p, {key}, Cascade, j);
    }
  }

  lemma ProtectionIsLocal(own: Ownership, rows: Rows, p: string, gone: set<Key>, g: Key)
    requires ClosedRows(own, rows) && g in rows && own.ofKey(g) == Some(p)
    ensures Protected(Region(own, rows, p), gone, g) <==> Protected(rows, gone, g)
  {
    var region := Region(own, rows, p);
    assert OwnsRow(own, Some(p), rows[g]);
    assert forall w :: w in rows[g].refs && w.parent in rows ==> w.parent in region && region[w.parent] == rows[w.parent];
  }

  lemma DeletableIsLocal(own: Ownership, rows: Rows, p: string, key: Key)
    requires ClosedRows(own, rows) && own.ofKey(key) == Some(p) && key in rows
    ensures Deletable(Region(own, rows, p), key) <==> Deletable(rows, key)
  {
    var region, gone := Region(own, rows, p), Gone(rows, key);
    GoneIsLocal(own, rows, p, key);
    forall j | j in rows && Blocks(rows[j], gone) ensures j in region {
      if PointsTo(rows[j], gone, Restrict) {
        ReferrersStayInside(own, rows, p, gone, Restrict, j);
      } else {
        ReferrersStayInside(own, rows, p, gone, SetNullRefused, j);
      }
    }
    forall j | j in gone ensures Protected(region, gone, j) <==> Protected(rows, gone, j) {
      ProtectionIsLocal(own, rows, p, gone, j);
    }
    hide Gone, Blocks, Protected;
    assert forall j :: j in region ==> j in rows && region[j] == rows[j];
  }

  lemma OthersAreNotNulled(own: Ownership, rows: Rows, p: string, gone: set<Key>, j: Key)
    requires ClosedRows(own, rows) && (forall k :: k in gone ==> own.ofKey(k) == Some(p))
    requires j in rows && own.ofKey(j) != Some(p)
    ensures Nulled(rows[j], gone) == rows[j]
  {
    forall r | r in rows[j].refs && r.onDelete == SetNull ensures r.parent !in gone {
      assert OwnsRow(own, own.ofKey(j), rows[j]) && Mine(own, own.ofKey(j), r.parent);
    }
    assert Nulled(rows[j], gone).refs == rows[j].refs;
  }

  lemma SurvivorsAreLocal(own: Ownership, rows: Rows, p: string, gone: set<Key>)
    requires ClosedRows(own, rows) && (forall k :: k in gone ==> own.ofKey(k) == Some(p))
    ensures var after := Survivors(rows, gone);
      && ClosedRows(own, after) && Region(own, after, p) == Survivors(Region(own, rows, p), gone)
      && forall k :: own.ofKey(k) != Some(p) ==> SameRow(rows, after, k)
  {
    var after := Survivors(rows, gone);
    forall j | j in rows && own.ofKey(j) != Some(p) ensures Nulled(rows[j], gone) == rows[j] {
      OthersAreNotNulled(own, rows, p, gone, j);
    }
    forall k | k in after ensures OwnsRow(own, own.ofKey(k), after[k]) {
      assert OwnsRow(own, own.ofKey(k), rows[k]);
    }
  }

  /** Deleting a peer's row: its region decides, its region changes, and no other row does. */
  lemma DeleteIsLocal(own: Ownership, rows: Rows, p: string, key: Key)
    requires ClosedRows(own, rows) && own.ofKey(key) == Some(p)
    ensures DeleteRow(Region(own, rows, p), key).Done? <==> DeleteRow(rows, key).Done?
    ensures DeleteRow(rows, key).Done? ==>
      var after := DeleteRow(rows, key).rows;
        && ClosedRows(own, after) && Region(own, after, p) == DeleteRow(Region(own, rows, p), key).rows
        && forall k :: own.ofKey(k) != Some(p) ==> SameRow(rows, after, k)
  {
    if key in rows {
      GoneIsLocal(own, rows, p, key);
      DeletableIsLocal(own, rows, p, key);
      SurvivorsAreLocal(own, rows, p, Gone(rows, key));
      hide Gone, Deletable, Survivors, OwnsRow, ClosedRows;
    }
  }

  lemma InsertIsLocal(own: Ownership, rows: Rows, p: string, key: Key, row: Row)
    requires ClosedRows(own, rows) && own.ofKey(key) == Some(p) && OwnsRow(own, Some(p), row)
    ensures InsertRow(Region(own, rows, p), key, row).Done? <==> InsertRow(rows, key, row).Done?
    ensures InsertRow(rows, key, row).Done? ==>
      var after := InsertRow(rows, key, row).rows;
        && ClosedRows(own, after) && Region(own, after, p) == InsertRow(Region(own, rows, p), key, row).rows
        && forall k :: own.ofKey(k) != Some(p) ==> SameRow(rows, after, k)
  {
    var region := Region(own, rows, p);
    forall j | j in rows && Clashes(rows[j], row) ensures j in region {
      var u :| u in rows[j].uniques * row.uniques;
      assert OwnsRow(own, own.ofKey(j), rows[j]) && own.ofValue(u) == own.ofKey(j);
    }
    assert forall r :: r in row.refs ==> (r.parent in rows <==> r.parent in region);
    hide Clashes;
    assert Insertable(region, key, row) <==> Insertable(rows, key, row);
    hide Insertable;
    if Insertable(rows, key, row) {
      var after := rows[key := row];
      forall k | k in after ensures OwnsRow(own, own.ofKey(k), after[k]) {
        if k != key { assert OwnsRow(own, own.ofKey(k), rows[k]); }
      }
      assert Region(own, after, p) == region[key := row];
    }
  }

  /** The region of a peer after one of its own transactions, and every other row, which stays. */
  lemma WriteIsLocal(own: Ownership, rows: Rows, p: string, tx: Transaction)
    requires ClosedRows(own, rows) && OwnsWrite(own, p, tx)
    ensures Write(Region(own, rows, p), tx).Done? <==> Write(rows, tx).Done?
    ensures Write(rows, tx).Done? ==>
      var after := Write(rows, tx).rows;
        && ClosedRows(own, after) && Region(own, after, p) == Write(Region(own, rows, p), tx).rows
        && forall k :: own.ofKey(k) != Some(p) ==> SameRow(rows, after, k)
  {
    if tx.payload.id != "" {
      var key, row := KeyOf(tx), RowOfTx(tx);
      DeleteIsLocal(own, rows, p, key);
      var deleted := DeleteRow(rows, key);
      if tx.operation != "delete" && deleted.Done? && row.Some? {
        InsertIsLocal(own, deleted.rows, p, key, row.value);
      }
      hide DeleteRow, InsertRow, OwnsRow, ClosedRows, Region;
    }
  }

  lemma OtherRegionsStay(own: Ownership, rows: Rows, after: Rows, p: string, q: string)
    requires p != q && forall k :: own.ofKey(k) != Some(p) ==> SameRow(rows, after, k)
    ensures Region(own, after, q) == Region(own, rows, q)
  {
    forall k | Mine(own, Some(q), k) ensures SameRow(rows, after, k) {}
  }

  // ─── The fold of one log ──────────────────────────────────────────────────

  /** The table after the transactions 1..n of a log, in order. */
  function Fold(base: Rows, log: Log, n: nat): Rows {
    if n == 0 then base
    else if SupportedAt(log, n) then After(Fold(base, log, n - 1), log[n].tx)
    else Fold(base, log, n - 1)
  }

  /** Number n is a supported transaction that commits after those before it. */
  predicate CommitsAt(base: Rows, log: Log, n: nat)
    requires n > 0
  {
    SupportedAt(log, n) && Write(Fold(base, log, n - 1), log[n].tx).Done?
  }

  predicate CommitsUpTo(base: Rows, log: Log, n: int) {
    forall i :: 1 <= i <= n ==> CommitsAt(base, log, i)
  }

  /**
    A peer's region is the fold of what was acknowledged of its log, however the peers interleaved,
    and each of these transactions commits there.
  */
  lemma {:induction false} RegionOfReplay(own: Ownership, logs: Logs, base: Rows, acks: seq<Ack>, p: string, n: nat)
    requires ClosedRows(own, base) && ClosedLogs(own, logs) && ReplayCommits(base, logs, acks)
    requires AckedFor(acks, p) == UpTo(n)
    ensures ClosedRows(own, Replay(base, logs, acks))
    ensures Region(own, Replay(base, logs, acks), p) == Fold(Region(own, base, p), LogOf(logs, p), n)
    ensures CommitsUpTo(Region(own, base, p), LogOf(logs, p), n)
  {
    hide Write, ClosedRows, Region, OwnsWrite;
    if acks == [] {
      assert n == 0;
    } else {
      var front, last := acks[..|acks| - 1], acks[|acks| - 1];
      var rows := Replay(base, logs, front);
      var tx := logs[last.source][last.sourceSeq].tx;
      assert OwnsWrite(own, last.source, tx);
      var m := if last.source == p then n - 1 else n;
      LastAcked(acks, p, n);
      RegionOfReplay(own, logs, base, front, p, m);
      WriteIsLocal(own, rows, last.source, tx);
      if last.source == p {
        assert CommitsAt(Region(own, base, p), LogOf(logs, p), n);
      } else {
        OtherRegionsStay(own, rows, Write(rows, tx).rows, last.source, p);
      }
    }
  }

  lemma LastAcked(acks: seq<Ack>, p: string, n: nat)
    requires acks != [] && AckedFor(acks, p) == UpTo(n)
    ensures acks[|acks| - 1].source == p ==>
      n > 0 && acks[|acks| - 1].sourceSeq == n && AckedFor(acks[..|acks| - 1], p) == UpTo(n - 1)
    ensures acks[|acks| - 1].source != p ==> AckedFor(acks[..|acks| - 1], p) == UpTo(n)
  {
    var own, last := AckedFor(acks[..|acks| - 1], p), acks[|acks| - 1];
    if last.source == p {
      assert AckedFor(acks, p) == own + [last.sourceSeq];
      assert (own + [last.sourceSeq])[|own|] == last.sourceSeq;
      assert n > 0 ==> UpTo(n) == UpTo(n - 1) + [n] && UpTo(n)[..|UpTo(n)| - 1] == UpTo(n - 1) && UpTo(n)[|UpTo(n)| - 1] == n;
      assert (own + [last.sourceSeq])[..|own|] == own;
    } else {
      assert AckedFor(acks, p) == own + [];
    }
  }

  /** In every consistent store each peer's region is the fold of its log up to the cursor. */
  lemma RegionFollowsCursor(own: Ownership, logs: Logs, base: Rows, store: Store, p: string)
    requires ClosedRows(own, base) && ClosedLogs(own, logs) && Consistent(logs, base, store)
    ensures 0 <= LastApplied(store, p) && ClosedRows(own, store.table)
    ensures Region(own, store.table, p) == Fold(Region(own, base, p), LogOf(logs, p), LastApplied(store, p))
    ensures CommitsUpTo(Region(own, base, p), LogOf(logs, p), LastApplied(store, p))
  {
    assert AppliedInOrder(logs, store, p);
    hide ClosedRows, Region, CommitsUpTo;
    RegionOfReplay(own, logs, base, store.acks, p, LastApplied(store, p));
  }
}
