/** Logs on which replication loses rows, stops for good, or depends on the interleaving. */
module SyncFailures {
  import opened Options
  import opened SyncSchema
  import opened SyncProtocol
  import opened SyncApply
  import opened SyncConsumer
  import opened SyncRuns
  import opened SyncRegions
  import opened SyncConvergence
  import opened SyncMirror

  const USER: Key := ("users", "u")
  const WALLET: Key := ("wallets", "w")
  const GRANT: Key := ("wallet_grants", "g")
  const SECRET: Key := ("secrets", "s")

  function Upsert(table: string, id: string, record: Record): LogRow {
    TransactionRow(Transaction(table, "upsert", Payload(id, Some(record))))
  }

  function Deletion(table: string, id: string): LogRow {
    TransactionRow(Transaction(table, "delete", Payload(id, None)))
  }

  const THE_USER := UserRecord(None, "u@example.org", "")
  const THE_GRANT := GrantRecord("w", "u", "u", "")
  const THE_SECRET := SecretRecord("w", "db-password", None, ByUser("u"), None, None, None, "")

  function TheWallet(name: string): Record {
    WalletRecord("u", None, name)
  }

  const USER_ROW := RowOf("users", THE_USER).value
  const GRANT_ROW := RowOf("wallet_grants", THE_GRANT).value
  const SECRET_ROW := RowOf("secrets", THE_SECRET).value

  function WalletRow(name: string): Row {
    RowOf("wallets", TheWallet(name)).value
  }

  /** A row that is not there yet is inserted. */
  lemma FreshRow(rows: Rows, key: Key, row: Row)
    requires Insertable(rows, key, row)
    ensures UpsertRow(rows, key, Some(row)) == Done(rows[key := row])
  {
  }

  const BASE: Rows := map[USER := USER_ROW]

  // ─── A renamed wallet loses its secrets ───────────────────────────────────

  function Renaming(): Log {
    map[1 := Upsert("wallets", "w", TheWallet("old")), 2 := Upsert("secrets", "s", THE_SECRET), 3 := Upsert("wallets", "w", TheWallet("new"))]
  }

  function WithSecret(): Rows {
    BASE[WALLET := WalletRow("old")][SECRET := SECRET_ROW]
  }

  lemma WalletFits()
    ensures Insertable(BASE, WALLET, WalletRow("old")) && Insertable(BASE, WALLET, WalletRow("new"))
  {
  }

  lemma SecretFits(name: string)
    ensures Insertable(BASE[WALLET := WalletRow(name)], SECRET, SECRET_ROW)
  {
  }

  lemma SecretCascades()
    ensures Gone(WithSecret(), WALLET) == {WALLET, SECRET}
  {
    assert Ref("wallet_id", WALLET, Cascade) in SECRET_ROW.refs && PointsTo(SECRET_ROW, {WALLET}, Cascade);
    assert forall r :: r in USER_ROW.refs + WalletRow("old").refs ==> r.onDelete != Cascade;
  }

  lemma RenamingDropsSecret()
    ensures UpsertRow(WithSecret(), WALLET, Some(WalletRow("new"))) == Done(BASE[WALLET := WalletRow("new")])
  {
    var rows, gone := WithSecret(), {WALLET, SECRET};
    SecretCascades();
    WalletFits();
    hide Gone, Insertable;
    assert !Blocks(USER_ROW, gone) && Deletable(rows, WALLET);
    assert Nulled(USER_ROW, gone) == USER_ROW;
    hide Deletable, Blocks, Nulled;
    assert Survivors(rows, gone) == BASE;
  }

  /** One more number of a log whose transaction commits. */
  lemma NextFold(base: Rows, log: Log, n: nat, rows: Rows, after: Rows)
    requires n > 0 && SupportedAt(log, n) && Fold(base, log, n - 1) == rows && Write(rows, log[n].tx) == Done(after)
    ensures CommitsAt(base, log, n) && Fold(base, log, n) == after
  {
  }

  /** The emitter only renamed its wallet; the replica, which applied all three transactions, has no secret. */
  lemma RenamingLosesTheSecret()
    ensures CommitsUpTo(BASE, Renaming(), 3) && GoodPrefix(BASE, Renaming()) == 3
    ensures SECRET !in Fold(BASE, Renaming(), 3) && SECRET in Own(BASE, Renaming(), 3)
  {
    var log := Renaming();
    RenamingFolds();
    hide Fold, CommitsAt, Own;
    assert CommitsUpTo(BASE, log, 3);
    AtMostGoodPrefix(BASE, log, 3);
    GoodWithinLog(BASE, log, 3);
    RenamingKeepsOwnSecret();
  }

  lemma RenamingFolds()
    ensures CommitsAt(BASE, Renaming(), 1) && CommitsAt(BASE, Renaming(), 2) && CommitsAt(BASE, Renaming(), 3)
    ensures Fold(BASE, Renaming(), 3) == BASE[WALLET := WalletRow("new")]
  {
    RenamingFirstTwo();
    RenamingDropsSecret();
    hide UpsertRow, Fold;
    NextFold(BASE, Renaming(), 3, WithSecret(), BASE[WALLET := WalletRow("new")]);
  }

  lemma RenamingFirstTwo()
    ensures CommitsAt(BASE, Renaming(), 1) && CommitsAt(BASE, Renaming(), 2) && Fold(BASE, Renaming(), 2) == WithSecret()
  {
    var one := BASE[WALLET := WalletRow("old")];
    WalletFits();
    SecretFits("old");
    FreshRow(BASE, WALLET, WalletRow("old"));
    FreshRow(one, SECRET, SECRET_ROW);
    FoldStart(Renaming());
    hide UpsertRow, Insertable, Fold;
    NextFold(BASE, Renaming(), 1, BASE, one);
    NextFold(BASE, Renaming(), 2, one, WithSecret());
  }

  lemma RenamingKeepsOwnSecret()
    ensures SECRET in Own(BASE, Renaming(), 3)
  {
    assert Own(BASE, Renaming(), 1) == BASE[WALLET := WalletRow("old")];
    assert SECRET in Own(BASE, Renaming(), 2);
  }

  lemma FoldStart(log: Log)
    ensures Fold(BASE, log, 0) == BASE
  {
  }

  lemma GoodCommits(base: Rows, log: Log)
    ensures forall i: nat :: 1 <= i <= GoodPrefix(base, log) ==> CommitsAt(base, log, i)
  {
    assert CommitsUpTo(base, log, GoodPrefix(base, log));
  }

  /** The good prefix ends within the log. */
  lemma GoodWithinLog(base: Rows, log: Log, n: nat)
    requires n + 1 !in log
    ensures GoodPrefix(base, log) <= n
  {
    var good := GoodPrefix(base, log);
    hide GoodPrefix, Fold, Write;
    assert !CommitsAt(base, log, n + 1);
    hide CommitsAt;
    GoodCommits(base, log);
  }

  /** So it is after every complete run, whatever happened before. */
  lemma EveryReplicaLosesTheSecret(self: string, past: seq<Delivery>, clean: seq<Delivery>)
    requires self != "A" && AllGenuine(map["A" := Renaming()], past) && AllGenuine(map["A" := Renaming()], clean)
    requires Uncut(self, Run(self, Empty(BASE), past), clean) && DeliversAll(clean, map["A" := Renaming()], "A")
    ensures LastApplied(Run(self, Empty(BASE), past + clean), "A") == 3
    ensures SECRET !in Run(self, Empty(BASE), past + clean).table
  {
    hide Fold, GoodPrefix, Own, CommitsUpTo, Uncut, Run, DeliversAll;
    RenamingLosesTheSecret();
    SingleWriterTable(self, Renaming(), BASE, "A", past, clean);
  }

  // ─── An owner's update stops its peer ─────────────────────────────────────

  function OwnerUpdate(later: Record): Log {
    map[1 := Upsert("users", "u", THE_USER), 2 := Upsert("wallets", "w", TheWallet("w")), 3 := Upsert("users", "u", later)]
  }

  lemma OwnerUpdateCommitsTwo(later: Record)
    ensures Fold(map[], OwnerUpdate(later), 2) == BASE[WALLET := WalletRow("w")]
  {
    var log := OwnerUpdate(later);
    FreshRow(map[], USER, USER_ROW);
    assert map[][USER := USER_ROW] == BASE;
    assert Insertable(BASE, WALLET, WalletRow("w"));
    FreshRow(BASE, WALLET, WalletRow("w"));
    hide UpsertRow, Insertable;
    NextFold(map[], log, 1, map[], BASE);
    NextFold(map[], log, 2, BASE, BASE[WALLET := WalletRow("w")]);
  }

  lemma OwnerUpdateRefused(row: Option<Row>)
    ensures UpsertRow(BASE[WALLET := WalletRow("w")], USER, row).Raised?
  {
    var rows := BASE[WALLET := WalletRow("w")];
    var gone := Gone(rows, USER);
    assert WALLET !in gone by { assert forall r :: r in WalletRow("w").refs ==> r.onDelete != Cascade; }
    assert Ref("owner_user_id", USER, Restrict) in rows[WALLET].refs && USER in gone;
    assert PointsTo(rows[WALLET], gone, Restrict);
    assert Blocks(rows[WALLET], gone);
  }

  lemma OwnerUpdateDense(later: Record)
    ensures DenselyNumbered(OwnerUpdate(later))
  {
  }

  lemma OwnerUpdateInapplicable(later: Record)
    ensures !CommitsAt(map[], OwnerUpdate(later), 3) && !EachApplicable(map[], OwnerUpdate(later))
  {
    var log := OwnerUpdate(later);
    OwnerUpdateCommitsTwo(later);
    OwnerUpdateRefused(RowOfTx(log[3].tx));
    hide Fold, UpsertRow, RowOf;
    assert !ApplicableAt(map[], log, 3);
  }

  /** A dense, supported log whose third transaction no run ever applies. */
  lemma OwnerUpdateStallsItsPeer(self: string, later: Record, run: seq<Delivery>)
    requires AllGenuine(map["A" := OwnerUpdate(later)], run)
    ensures DenselyNumbered(OwnerUpdate(later)) && !EachApplicable(map[], OwnerUpdate(later))
    ensures LastApplied(Run(self, Empty(map[]), run), "A") <= 2
  {
    OwnerUpdateDense(later);
    OwnerUpdateInapplicable(later);
    hide OwnerUpdate;
    SoleOwnership("A", OwnerUpdate(later), map[]);
    hide CommitsAt, EachApplicable, DenselyNumbered, Run, ClosedRows, ClosedLogs, Region;
    RefusedForever(self, Sole("A"), map["A" := OwnerUpdate(later)], map[], run, "A", 3);
  }

  // ─── A parent that is not replicated stops its peer ───────────────────────

  /** An upsert of the log whose record references a row of a table that replication does not send. */
  predicate NeedsAt(log: Log, q: int, parent: Key) {
    && SupportedAt(log, q) && log[q].tx.operation == "upsert" && log[q].tx.payload.id != ""
    && RowOfTx(log[q].tx).Some? && parent.0 !in REPLICATED_ENTITIES
    && exists r <- RowOfTx(log[q].tx).value.refs :: r.parent == parent
  }

  lemma WriteAddsNoOther(rows: Rows, tx: Transaction, parent: Key)
    requires Supported(tx) && Write(rows, tx).Done? && parent.0 !in REPLICATED_ENTITIES
    ensures parent in Write(rows, tx).rows ==> parent in rows
  {
  }

  lemma WriteNeedsParent(rows: Rows, log: Log, q: int, parent: Key)
    requires NeedsAt(log, q, parent) && Write(rows, log[q].tx).Done?
    ensures parent in rows
  {
  }

  /** Replication adds no row to other tables, so whatever was acknowledged found its parents in the base table. */
  lemma {:induction false} ReplayNeedsParent(base: Rows, logs: Logs, acks: seq<Ack>, peer: string, q: int, parent: Key)
    requires ReplayCommits(base, logs, acks) && parent.0 !in REPLICATED_ENTITIES
    ensures parent in Replay(base, logs, acks) ==> parent in base
    ensures NeedsAt(LogOf(logs, peer), q, parent) && q in AckedFor(acks, peer) ==> parent in base
  {
    hide Write, NeedsAt;
    if acks != [] {
      var front, last := acks[..|acks| - 1], acks[|acks| - 1];
      var rows := Replay(base, logs, front);
      var tx := logs[last.source][last.sourceSeq].tx;
      ReplayNeedsParent(base, logs, front, peer, q, parent);
      WriteAddsNoOther(rows, tx, parent);
      if NeedsAt(LogOf(logs, peer), q, parent) && last == Ack(peer, q) {
        WriteNeedsParent(rows, LogOf(logs, peer), q, parent);
      }
    }
  }

  /**
    Whatever the peers and the runs: a row that references an API key, a type or an environment
    which the receiver does not have is refused at every delivery and stops its peer for good.
  */
  lemma MissingParentStallsItsPeer(self: string, logs: Logs, base: Rows, run: seq<Delivery>, peer: string, q: nat, parent: Key)
    requires AllGenuine(logs, run) && 1 <= q && NeedsAt(LogOf(logs, peer), q, parent) && parent !in base
    ensures LastApplied(Run(self, Empty(base), run), peer) < q
  {
    var end := Run(self, Empty(base), run);
    EmptyIsConsistent(logs, base);
    RunStaysConsistent(self, logs, base, Empty(base), run);
    assert AppliedInOrder(logs, end, peer);
    hide Run, NeedsAt;
    ReplayNeedsParent(base, logs, end.acks, peer, q, parent);
    if q <= LastApplied(end, peer) { InUpTo(LastApplied(end, peer), q); }
  }

  lemma {:induction false} InUpTo(n: nat, q: int)
    requires 1 <= q <= n
    ensures q in UpTo(n)
  {
    if q < n {
      InUpTo(n - 1, q);
    } else {
      assert UpTo(n)[n - 1] == n by { UpToSize(n); }
    }
  }

  lemma {:induction false} UpToSize(n: nat)
    ensures |UpTo(n)| == n
  {
    if n > 0 { UpToSize(n - 1); }
  }

  /** A wallet and a secret in it that an API key created. */
  function ByKey(key: string): Log {
    map[1 := Upsert("wallets", "w", TheWallet("w")), 2 := Upsert("secrets", "s", THE_SECRET.(creator := ByApiKey(key)))]
  }

  /** API keys are not replicated: a secret created with one stops its wallet's peer. */
  lemma ApiKeySecretStallsItsPeer(self: string, key: string, run: seq<Delivery>)
    requires AllGenuine(map["A" := ByKey(key)], run)
    ensures DenselyNumbered(ByKey(key)) && LastApplied(Run(self, Empty(BASE), run), "A") <= 1
  {
    var log := ByKey(key);
    var ref := Ref("created_by_api_key_id", ("api_keys", key), SetNullRefused);
    assert ref in RowOfTx(log[2].tx).value.refs;
    assert NeedsAt(log, 2, ("api_keys", key));
    hide NeedsAt, Run;
    MissingParentStallsItsPeer(self, map["A" := log], BASE, run, "A", 2, ("api_keys", key));
  }

  // ─── A wallet's deletion stops its peer ───────────────────────────────────

  /** The cascaded deletion of the owner's grant is logged before that of its wallet. */
  function WalletDeletion(): Log {
    map[1 := Upsert("wallets", "w", TheWallet("w")), 2 := Upsert("wallet_grants", "g", THE_GRANT),
        3 := Deletion("wallet_grants", "g"), 4 := Deletion("wallets", "w")]
  }

  lemma WalletDeletionCommitsTwo()
    ensures Fold(BASE, WalletDeletion(), 2) == BASE[WALLET := WalletRow("w")][GRANT := GRANT_ROW]
  {
    var log, rows := WalletDeletion(), BASE[WALLET := WalletRow("w")];
    assert Insertable(BASE, WALLET, WalletRow("w"));
    FreshRow(BASE, WALLET, WalletRow("w"));
    assert Insertable(rows, GRANT, GRANT_ROW);
    FreshRow(rows, GRANT, GRANT_ROW);
    hide UpsertRow, Insertable;
    FoldStart(log);
    NextFold(BASE, log, 1, BASE, rows);
    NextFold(BASE, log, 2, rows, rows[GRANT := GRANT_ROW]);
  }

  lemma GrantDeletionRefused()
    ensures DeleteRow(BASE[WALLET := WalletRow("w")][GRANT := GRANT_ROW], GRANT).Raised?
  {
    var rows := BASE[WALLET := WalletRow("w")][GRANT := GRANT_ROW];
    assert forall r :: r in WalletRow("w").refs ==> r.onDelete != Cascade;
    OwnerGrantCannotBeWritten(rows, "g", WALLET, USER, None);
  }

  lemma WalletDeletionStallsItsPeer(self: string, run: seq<Delivery>)
    requires AllGenuine(map["A" := WalletDeletion()], run)
    ensures LastApplied(Run(self, Empty(BASE), run), "A") <= 2
  {
    var log := WalletDeletion();
    WalletDeletionCommitsTwo();
    GrantDeletionRefused();
    SoleOwnership("A", log, BASE);
    hide Fold, DeleteRow, Run, ClosedRows, ClosedLogs, Region;
    assert !CommitsAt(BASE, log, 3);
    RefusedForever(self, Sole("A"), map["A" := log], BASE, run, "A", 3);
  }

  // ─── Disjoint rows are not enough ─────────────────────────────────────────

  /** A owns the wallet, B a secret in it: no row is written by both. */
  function TwoOwners(): Logs {
    map["A" := map[1 := Upsert("wallets", "w", TheWallet("old")), 2 := Upsert("wallets", "w", TheWallet("new"))],
        "B" := map[1 := Upsert("secrets", "s", THE_SECRET)]]
  }

  predicate WritesOf(logs: Logs, peer: string, key: Key) {
    peer in logs && exists q <- logs[peer].Keys :: IsTransaction(logs, peer, q) && KeyOf(logs[peer][q].tx) == key
  }

  function DeliveryOf(peer: string, q: int): Delivery
    requires peer in TwoOwners() && q in TwoOwners()[peer]
  {
    Delivery(MessageOf(peer, q, TwoOwners()[peer][q]), 9)
  }

  /** The secret between the two wallet writes, and after them. */
  function SecretBetween(): seq<Delivery> {
    [DeliveryOf("A", 1), DeliveryOf("B", 1), DeliveryOf("A", 2)]
  }

  function SecretLast(): seq<Delivery> {
    [DeliveryOf("A", 1), DeliveryOf("A", 2), DeliveryOf("B", 1)]
  }

  /** The expected transaction of a peer, nothing being shelved. */
  lemma HandleExpected(store: Store, peer: string, q: int, tx: Transaction, rows: Rows)
    requires store.shelf == map[] && q == LastApplied(store, peer) + 1 && peer != "C"
    requires Supported(tx) && Write(store.table, tx) == Done(rows)
    ensures Handle("C", store, 9, TransactionMessage(peer, q, tx)) == Outcome(Committed(store, peer, q, rows), 8, Finished)
  {
    hide Write;
  }

  lemma RunStep(store: Store, run: seq<Delivery>, after: Store)
    requires run != [] && Handle("C", store, run[0].commits, run[0].message) == Outcome(after, 8, Finished)
    ensures Run("C", store, run) == Run("C", after, run[1..])
    ensures Uncut("C", store, run) <==> Uncut("C", after, run[1..])
  {
    hide Handle;
  }

  lemma WalletWrites()
    ensures Write(BASE, TwoOwners()["A"][1].tx) == Done(BASE[WALLET := WalletRow("old")])
    ensures Write(WithSecret(), TwoOwners()["A"][2].tx) == Done(BASE[WALLET := WalletRow("new")])
    ensures Write(BASE[WALLET := WalletRow("old")], TwoOwners()["A"][2].tx) == Done(BASE[WALLET := WalletRow("new")])
  {
    WalletFits();
    FreshRow(BASE, WALLET, WalletRow("old"));
    RenamingDropsSecret();
    BareRenaming();
    hide UpsertRow, Insertable;
  }

  lemma SecretWrites(name: string)
    ensures Write(BASE[WALLET := WalletRow(name)], TwoOwners()["B"][1].tx) == Done(BASE[WALLET := WalletRow(name)][SECRET := SECRET_ROW])
  {
    SecretFits(name);
    FreshRow(BASE[WALLET := WalletRow(name)], SECRET, SECRET_ROW);
    hide UpsertRow, Insertable;
  }

  lemma BareRenaming()
    ensures UpsertRow(BASE[WALLET := WalletRow("old")], WALLET, Some(WalletRow("new"))) == Done(BASE[WALLET := WalletRow("new")])
  {
    var rows := BASE[WALLET := WalletRow("old")];
    assert Gone(rows, WALLET) == {WALLET};
    assert !Blocks(USER_ROW, {WALLET}) && Deletable(rows, WALLET);
    assert Nulled(USER_ROW, {WALLET}) == USER_ROW;
    WalletFits();
    hide Gone, Deletable, Blocks, Nulled, Insertable;
    assert Survivors(rows, {WALLET}) == BASE;
  }

  lemma BetweenEnds()
    ensures Uncut("C", Empty(BASE), SecretBetween())
    ensures Run("C", Empty(BASE), SecretBetween()).table == BASE[WALLET := WalletRow("new")]
  {
    var run: seq<Delivery>, logs: Logs := SecretBetween(), TwoOwners();
    var one := Committed(Empty(BASE), "A", 1, BASE[WALLET := WalletRow("old")]);
    var two := Committed(one, "B", 1, WithSecret());
    var three := Committed(two, "A", 2, BASE[WALLET := WalletRow("new")]);
    WalletWrites();
    SecretWrites("old");
    assert WithSecret() == BASE[WALLET := WalletRow("old")][SECRET := SECRET_ROW];
    hide Write, Run, Uncut, Handle, WithSecret, WalletRow, TheWallet;
    HandleExpected(Empty(BASE), "A", 1, logs["A"][1].tx, one.table);
    HandleExpected(one, "B", 1, logs["B"][1].tx, two.table);
    HandleExpected(two, "A", 2, logs["A"][2].tx, three.table);
    RunStep(Empty(BASE), run, one);
    RunStep(one, run[1..], two);
    RunStep(two, run[1..][1..], three);
    NothingMore(three, run[1..][1..][1..]);
  }

  lemma LastEnds()
    ensures Uncut("C", Empty(BASE), SecretLast())
    ensures Run("C", Empty(BASE), SecretLast()).table == BASE[WALLET := WalletRow("new")][SECRET := SECRET_ROW]
  {
    var run: seq<Delivery>, logs: Logs := SecretLast(), TwoOwners();
    var one := Committed(Empty(BASE), "A", 1, BASE[WALLET := WalletRow("old")]);
    var two := Committed(one, "A", 2, BASE[WALLET := WalletRow("new")]);
    var three := Committed(two, "B", 1, BASE[WALLET := WalletRow("new")][SECRET := SECRET_ROW]);
    WalletWrites();
    SecretWrites("new");
    hide Write, Run, Uncut, Handle, WithSecret, WalletRow, TheWallet;
    HandleExpected(Empty(BASE), "A", 1, logs["A"][1].tx, one.table);
    HandleExpected(one, "A", 2, logs["A"][2].tx, two.table);
    HandleExpected(two, "B", 1, logs["B"][1].tx, three.table);
    RunStep(Empty(BASE), run, one);
    RunStep(one, run[1..], two);
    RunStep(two, run[1..][1..], three);
    NothingMore(three, run[1..][1..][1..]);
  }

  lemma NothingMore(store: Store, run: seq<Delivery>)
    requires run == []
    ensures Run("C", store, run) == store && Uncut("C", store, run)
  {
  }

  lemma BothDeliverAll()
    ensures AllGenuine(TwoOwners(), SecretBetween()) && AllGenuine(TwoOwners(), SecretLast())
    ensures DeliversAll(SecretBetween(), TwoOwners(), "A") && DeliversAll(SecretBetween(), TwoOwners(), "B")
    ensures DeliversAll(SecretLast(), TwoOwners(), "A") && DeliversAll(SecretLast(), TwoOwners(), "B")
  {
    var between, last := SecretBetween(), SecretLast();
    assert between[0] == DeliveryOf("A", 1) && between[1] == DeliveryOf("B", 1) && between[2] == DeliveryOf("A", 2);
    assert last[0] == DeliveryOf("A", 1) && last[1] == DeliveryOf("A", 2) && last[2] == DeliveryOf("B", 1);
  }

  /**
    Two complete runs, neither cut short, of emitters that write no row in common end with different
    tables: the wallet's second write takes the other emitter's secret with it, or comes before it.
  */
  lemma DisjointRowsDiverge()
    ensures forall key: Key :: !(WritesOf(TwoOwners(), "A", key) && WritesOf(TwoOwners(), "B", key))
    ensures forall peer :: peer in TwoOwners() ==>
      DeliversAll(SecretBetween(), TwoOwners(), peer) && DeliversAll(SecretLast(), TwoOwners(), peer)
    ensures AllGenuine(TwoOwners(), SecretBetween()) && AllGenuine(TwoOwners(), SecretLast())
    ensures Uncut("C", Empty(BASE), SecretBetween()) && Uncut("C", Empty(BASE), SecretLast())
    ensures SECRET !in Run("C", Empty(BASE), SecretBetween()).table && SECRET in Run("C", Empty(BASE), SecretLast()).table
  {
    BetweenEnds();
    LastEnds();
    BothDeliverAll();
    hide Run, Uncut, DeliversAll, AllGenuine, SecretBetween, SecretLast;
  }
}
