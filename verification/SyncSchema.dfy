/**
  The replicated tables with the constraints their migrations declare: foreign keys and what each
  does on deletion, unique columns, and the trigger that protects the grant of a wallet's owner.

  Rows of tables that are not replicated but take part in these constraints (API keys, wallet
  environments, secret types and schemas) are in the same map; replication never writes them.
*/
module SyncSchema {
  import opened Options

  /** Primary key of a row: the table it is in and its id. */
  type Key = (string, string)

  /**
    What deleting the parent does. Nulling the creator of a secret leaves it without a source,
    which `secrets_created_by_one_source` refuses.
  */
  datatype OnDelete = Cascade | Restrict | SetNull | SetNullRefused

  datatype Ref = Ref(column: string, parent: Key, onDelete: OnDelete)

  /** A row: its foreign keys that are not null, its values in unique columns, and the rest. */
  datatype Row = Row(refs: set<Ref>, uniques: set<(string, seq<string>)>, body: string)

  type Rows = map<Key, Row>

  datatype Creator = ByUser(user: string) | ByApiKey(key: string)

  /** What `jsonb_populate_record` yields for each table, when it yields a row that passes the checks. */
  datatype Record =
    | UserRecord(sub: Option<string>, email: string, body: string)
    | WalletRecord(owner: string, environment: Option<string>, body: string)
    | GrantRecord(wallet: string, grantee: string, grantedBy: string, body: string)
    | SecretRecord(wallet: string, name: string, link: Option<string>, creator: Creator,
        updatedBy: Option<string>, updatedByKey: Option<string>, schema: Option<(string, string)>, body: string)

  function Optional(column: string, table: string, id: Option<string>, onDelete: OnDelete): set<Ref> {
    if id.None? then {} else {Ref(column, (table, id.value), onDelete)}
  }

  /** The row a record becomes in the table it was sent for; None when it is not of that table. */
  function RowOf(table: string, record: Record): Option<Row> {
    match record
    case UserRecord(sub, email, body) =>
      if table != "users" then None
      else Some(Row({}, {("users.email", [email])} + (if sub.None? then {} else {("users.keycloak_sub", [sub.value])}), body))
    case WalletRecord(owner, environment, body) =>
      if table != "wallets" then None
      else Some(Row({Ref("owner_user_id", ("users", owner), Restrict)}
        + Optional("environment_id", "wallet_environments", environment, Restrict), {}, body))
    case GrantRecord(wallet, grantee, grantedBy, body) =>
      if table != "wallet_grants" then None
      else Some(Row(
        {Ref("wallet_id", ("wallets", wallet), Cascade), Ref("grantee_user_id", ("users", grantee), Cascade),
         Ref("granted_by_user_id", ("users", grantedBy), Restrict)},
        {("wallet_grants.wallet_grantee", [wallet, grantee])}, body))
    case SecretRecord(wallet, name, link, creator, updatedBy, updatedByKey, schema, body) =>
      if table != "secrets" then None
      else Some(Row(
        {Ref("wallet_id", ("wallets", wallet), Cascade)}
        + Optional("linked_secret_id", "secrets", link, SetNull)
        + {if creator.ByUser? then Ref("created_by_user_id", ("users", creator.user), SetNullRefused)
           else Ref("created_by_api_key_id", ("api_keys", creator.key), SetNullRefused)}
        + Optional("updated_by_user_id", "users", updatedBy, SetNull)
        + Optional("updated_by_api_key_id", "api_keys", updatedByKey, SetNull)
        + (if schema.None? then {} else
            {Ref("type_uuid", ("secret_types", schema.value.0), Restrict),
             Ref("schema_version_uuid", ("secret_schemas", schema.value.1), Restrict)}),
        {("secrets.wallet_name", [wallet, name])}, body))
  }

  // ─── The statements ───────────────────────────────────────────────────────

  datatype Result = Done(rows: Rows) | Raised

  predicate PointsTo(row: Row, parents: set<Key>, onDelete: OnDelete) {
    exists r <- row.refs :: r.parent in parents && r.onDelete == onDelete
  }

  predicate Points(row: Row, key: Key) {
    exists r <- row.refs :: r.parent == key
  }

  /** A row and the rows that cascade from it; nothing in the schema cascades further. */
  function Gone(rows: Rows, key: Key): set<Key> {
    {key} + set j | j in rows && PointsTo(rows[j], {key}, Cascade)
  }

  predicate Blocks(row: Row, gone: set<Key>) {
    PointsTo(row, gone, Restrict) || PointsTo(row, gone, SetNullRefused)
  }

  /** `protect_owner_grant_delete`: the grant's wallet is still there and its owner is the grantee. */
  predicate Protected(rows: Rows, gone: set<Key>, key: Key)
    requires key in rows
  {
    key.0 == "wallet_grants" &&
    exists w <- rows[key].refs, u <- rows[key].refs ::
      w.column == "wallet_id" && u.column == "grantee_user_id" && w.parent in rows && w.parent !in gone
      && Ref("owner_user_id", u.parent, Restrict) in rows[w.parent].refs
  }

  function Nulled(row: Row, gone: set<Key>): Row {
    row.(refs := set r | r in row.refs && !(r.parent in gone && r.onDelete == SetNull))
  }

  predicate Deletable(rows: Rows, key: Key)
    requires key in rows
  {
    && (forall j <- rows.Keys :: j !in Gone(rows, key) ==> !Blocks(rows[j], Gone(rows, key)))
    && (forall j <- rows.Keys :: j in Gone(rows, key) ==> !Protected(rows, Gone(rows, key), j))
  }

  function Survivors(rows: Rows, gone: set<Key>): Rows {
    map j | j in rows && j !in gone :: Nulled(rows[j], gone)
  }

  /** `DELETE FROM table WHERE id = $1`. */
  function DeleteRow(rows: Rows, key: Key): Result {
    if key !in rows then Done(rows)
    else if !Deletable(rows, key) then Raised
    else Done(Survivors(rows, Gone(rows, key)))
  }

  predicate Clashes(a: Row, b: Row) {
    a.uniques * b.uniques != {}
  }

  predicate Insertable(rows: Rows, key: Key, row: Row) {
    && key !in rows
    && (forall r <- row.refs :: r.parent in rows || r.parent == key)
    && (forall j <- rows.Keys :: !Clashes(rows[j], row))
  }

  function InsertRow(rows: Rows, key: Key, row: Row): Result {
    if Insertable(rows, key, row) then Done(rows[key := row]) else Raised
  }

  /** DELETE then INSERT, as every upsert is applied. */
  function UpsertRow(rows: Rows, key: Key, row: Option<Row>): Result {
    var deleted := DeleteRow(rows, key);
    if deleted.Raised? || row.None? then Raised else InsertRow(deleted.rows, key, row.value)
  }

  // ─── What every statement keeps ───────────────────────────────────────────

  /** Referential integrity, unique columns, and refs that belong to the schema. */
  ghost predicate Integral(rows: Rows) {
    && (forall j, r :: j in rows && r in rows[j].refs ==> r.parent in rows)
    && (forall i, j :: i in rows && j in rows && i != j ==> !Clashes(rows[i], rows[j]))
    && (forall j :: j in rows ==> FitsSchema(j, rows[j]))
  }

  const CASCADE_PARENTS: set<string> := {"users", "wallets"}

  /** Only rows of other tables cascade, and only from users and wallets. */
  predicate FitsSchema(key: Key, row: Row) {
    forall r <- row.refs :: r.onDelete == Cascade ==> r.parent.0 in CASCADE_PARENTS && key.0 !in CASCADE_PARENTS
  }

  lemma RecordsFitSchema(key: Key, record: Record)
    requires RowOf(key.0, record).Some?
    ensures FitsSchema(key, RowOf(key.0, record).value)
  {
  }

  /** One level of cascade is all of it: no surviving row cascades from a removed one. */
  lemma CascadesStopThere(rows: Rows, key: Key, j: Key)
    requires Integral(rows) && key in rows && j in rows && j !in Gone(rows, key)
    ensures !PointsTo(rows[j], Gone(rows, key), Cascade)
  {
    forall i | i in Gone(rows, key) && i != key ensures i.0 !in CASCADE_PARENTS {
      assert FitsSchema(i, rows[i]) && PointsTo(rows[i], {key}, Cascade);
    }
    assert FitsSchema(j, rows[j]) && !PointsTo(rows[j], {key}, Cascade);
  }

  lemma DeleteKeepsIntegrity(rows: Rows, key: Key)
    requires Integral(rows) && DeleteRow(rows, key).Done?
    ensures Integral(DeleteRow(rows, key).rows) && key !in DeleteRow(rows, key).rows
  {
    if key in rows {
      var gone := Gone(rows, key);
      var after := Survivors(rows, gone);
      forall j, r | j in after && r in after[j].refs ensures r.parent in after {
        CascadesStopThere(rows, key, j);
        assert !Blocks(rows[j], gone);
        assert r in rows[j].refs && r.parent in rows;
        assert r.parent in gone ==> r.onDelete in {Cascade, Restrict, SetNull, SetNullRefused};
      }
      forall j | j in after ensures FitsSchema(j, after[j]) { assert FitsSchema(j, rows[j]); }
      forall i, j | i in after && j in after && i != j ensures !Clashes(after[i], after[j]) {
        assert !Clashes(rows[i], rows[j]);
      }
    }
  }

  lemma InsertKeepsIntegrity(rows: Rows, key: Key, row: Row)
    requires Integral(rows) && FitsSchema(key, row) && InsertRow(rows, key, row).Done?
    ensures Integral(InsertRow(rows, key, row).rows)
  {
    var after := rows[key := row];
    forall i, j | i in after && j in after && i != j ensures !Clashes(after[i], after[j]) {
      if i != key && j != key { assert !Clashes(rows[i], rows[j]); }
    }
    forall j | j in after ensures FitsSchema(j, after[j]) {
      if j != key { assert FitsSchema(j, rows[j]); }
    }
  }

  lemma UpsertKeepsIntegrity(rows: Rows, key: Key, record: Record)
    requires Integral(rows) && UpsertRow(rows, key, RowOf(key.0, record)).Done?
    ensures Integral(UpsertRow(rows, key, RowOf(key.0, record)).rows)
  {
    hide Integral, Deletable, Insertable, Survivors, FitsSchema;
    RecordsFitSchema(key, record);
    DeleteKeepsIntegrity(rows, key);
    InsertKeepsIntegrity(DeleteRow(rows, key).rows, key, RowOf(key.0, record).value);
  }

  // ─── What a write does to the other rows ──────────────────────────────────

  predicate SameRow(a: Rows, b: Rows, j: Key) {
    (j in a <==> j in b) && (j in a ==> a[j] == b[j])
  }

  /** Another row has a foreign key to this one. */
  ghost predicate Referenced(rows: Rows, key: Key) {
    exists j :: j in rows && j != key && Points(rows[j], key)
  }

  ghost predicate KeepsOthers(rows: Rows, after: Rows, key: Key) {
    forall j :: j != key ==> SameRow(rows, after, j)
  }

  /** Deleting a row leaves every other row as it was if and only if none references it. */
  lemma DeleteKeepsOthersIff(rows: Rows, key: Key)
    requires Integral(rows) && DeleteRow(rows, key).Done?
    ensures KeepsOthers(rows, DeleteRow(rows, key).rows, key) <==> !Referenced(rows, key)
  {
    var after := DeleteRow(rows, key).rows;
    if Referenced(rows, key) {
      var j :| j in rows && j != key && Points(rows[j], key);
      ReferrerChanges(rows, key, j);
    } else {
      UnreferencedAlone(rows, key);
    }
  }

  lemma ReferrerChanges(rows: Rows, key: Key, j: Key)
    requires Integral(rows) && DeleteRow(rows, key).Done?
    requires j in rows && j != key && Points(rows[j], key)
    ensures !SameRow(rows, DeleteRow(rows, key).rows, j)
  {
    var r :| r in rows[j].refs && r.parent == key;
    var gone := Gone(rows, key);
    if j !in gone {
      assert !Blocks(rows[j], gone) && !PointsTo(rows[j], {key}, Cascade);
      assert r.onDelete == SetNull;
      assert r !in Nulled(rows[j], gone).refs;
    }
  }

  /** Without referrers only the row itself goes. */
  lemma UnreferencedAlone(rows: Rows, key: Key)
    requires Integral(rows) && !Referenced(rows, key)
    ensures key in rows ==> Gone(rows, key) == {key}
    ensures DeleteRow(rows, key).Done? ==> DeleteRow(rows, key).rows == rows - {key}
  {
    if key in rows {
      forall j | j in rows && j != key ensures !Points(rows[j], key) {}
      assert forall j :: j in rows && PointsTo(rows[j], {key}, Cascade) ==> Points(rows[j], key);
      forall j | j in rows && j != key ensures Nulled(rows[j], {key}) == rows[j] {
        assert forall r :: r in rows[j].refs ==> r.parent != key;
      }
      if DeleteRow(rows, key).Done? {
        assert Gone(rows, key) == {key};
        var after := Survivors(rows, {key});
        assert after.Keys == rows.Keys - {key} && forall j :: j in after ==> after[j] == rows[j];
      }
    } else {
      assert rows - {key} == rows;
    }
  }

  /** The same of an upsert that commits, which deletes before it inserts. */
  lemma UpsertKeepsOthersIff(rows: Rows, key: Key, row: Option<Row>)
    requires Integral(rows) && UpsertRow(rows, key, row).Done?
    ensures KeepsOthers(rows, UpsertRow(rows, key, row).rows, key) <==> !Referenced(rows, key)
  {
    hide Integral, Referenced, Insertable;
    DeleteKeepsOthersIff(rows, key);
    var deleted, after := DeleteRow(rows, key).rows, UpsertRow(rows, key, row).rows;
    hide DeleteRow;
    assert after == deleted[key := row.value];
    assert forall j :: j != key ==> (SameRow(rows, after, j) <==> SameRow(rows, deleted, j));
  }

  // ─── When a write commits ─────────────────────────────────────────────────

  /** The values of a row in unique columns are free once the given rows are gone. */
  predicate UniqueBeside(rows: Rows, gone: set<Key>, row: Row) {
    forall j <- rows.Keys :: j !in gone ==> !Clashes(rows[j], row)
  }

  predicate ParentsBeside(rows: Rows, gone: set<Key>, key: Key, row: Row) {
    forall r <- row.refs :: r.parent == key || (r.parent in rows && r.parent !in gone)
  }

  /**
    On the table before it, an upsert commits if and only if its record is well formed, no row that
    stays blocks the deletion, no protected grant goes, and the record's parents are present and its
    unique values free among the rows that stay.
  */
  lemma UpsertCommitsIff(rows: Rows, key: Key, row: Option<Row>)
    ensures var gone := if key in rows then Gone(rows, key) else {};
      UpsertRow(rows, key, row).Done? <==>
        && row.Some?
        && (key in rows ==> Deletable(rows, key))
        && ParentsBeside(rows, gone, key, row.value) && UniqueBeside(rows, gone, row.value)
  {
    hide Deletable;
    var deleted := DeleteRow(rows, key);
    var gone := if key in rows then Gone(rows, key) else {};
    if deleted.Done? && row.Some? {
      assert key !in deleted.rows;
      assert forall j :: j in deleted.rows <==> j in rows && j !in gone;
      assert forall j :: j in deleted.rows ==> deleted.rows[j].uniques == rows[j].uniques;
      assert Insertable(deleted.rows, key, row.value) <==>
        ParentsBeside(rows, gone, key, row.value) && UniqueBeside(rows, gone, row.value);
    }
  }

  /** A user who owns a wallet cannot be written again: neither updated nor deleted. */
  lemma OwnerCannotBeWritten(rows: Rows, user: string, wallet: string, row: Option<Row>)
    requires ("users", user) in rows && ("wallets", wallet) in rows
    requires Integral(rows) && Ref("owner_user_id", ("users", user), Restrict) in rows[("wallets", wallet)].refs
    ensures DeleteRow(rows, ("users", user)).Raised? && UpsertRow(rows, ("users", user), row).Raised?
  {
    var key, child := ("users", user), ("wallets", wallet);
    assert FitsSchema(child, rows[child]);
    assert child !in Gone(rows, key) by {
      assert forall r :: r in rows[child].refs ==> r.onDelete != Cascade;
    }
    assert key in Gone(rows, key);
    assert PointsTo(rows[child], Gone(rows, key), Restrict);
    assert Blocks(rows[child], Gone(rows, key));
  }

  /** A wallet that is written again loses everything that cascades from it. */
  lemma WalletUpdateDropsItsRows(rows: Rows, wallet: string, row: Option<Row>, child: Key)
    requires ("wallets", wallet) in rows && child in rows && child != ("wallets", wallet)
    requires PointsTo(rows[child], {("wallets", wallet)}, Cascade)
    requires UpsertRow(rows, ("wallets", wallet), row).Done?
    ensures child !in UpsertRow(rows, ("wallets", wallet), row).rows
  {
    assert child in Gone(rows, ("wallets", wallet));
  }

  /** While its wallet is there, the owner's grant can be neither deleted nor updated. */
  lemma OwnerGrantCannotBeWritten(rows: Rows, grant: string, wallet: Key, user: Key, row: Option<Row>)
    requires var key := ("wallet_grants", grant);
      && key in rows && wallet in rows && wallet != key
      && Ref("wallet_id", wallet, Cascade) in rows[key].refs && Ref("grantee_user_id", user, Cascade) in rows[key].refs
      && Ref("owner_user_id", user, Restrict) in rows[wallet].refs && !PointsTo(rows[wallet], {key}, Cascade)
    ensures DeleteRow(rows, ("wallet_grants", grant)).Raised? && UpsertRow(rows, ("wallet_grants", grant), row).Raised?
  {
    var key := ("wallet_grants", grant);
    var gone := Gone(rows, key);
    assert key in gone && wallet !in gone;
    assert Protected(rows, gone, key) by {
      var w, u := Ref("wallet_id", wallet, Cascade), Ref("grantee_user_id", user, Cascade);
      assert w in rows[key].refs && u in rows[key].refs;
    }
  }
}
