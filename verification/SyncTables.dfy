/**
  What the declared constraints do, stated on records: which rows a deletion takes with it, what it
  leaves of the others, which rows refuse it, and which parents and values an insertion needs.
*/
module SyncTables {
  import opened Options
  import opened SyncSchema

  type Records = map<Key, Record>

  const TABLES: set<string> := {"users", "wallets", "wallet_grants", "secrets"}

  /**
    A row of another table: it may go with its user or wallet or lose the reference, refers to no
    grant and no secret, and is held back by types and schemas alone, which go with nothing.
  */
  predicate OtherFits(key: Key, row: Row) {
    && (forall r <- row.refs ::
      && r.parent.0 !in {"wallet_grants", "secrets"}
      && match r.onDelete
         case Cascade => r.parent.0 == "users" || (r.parent.0 == "wallets" && key.0 != "wallet_environments")
         case SetNull => true
         case Restrict => r.parent.0 in {"secret_types", "secret_schemas"}
         case SetNullRefused => false)
    && (key.0 in {"secret_types", "secret_schemas"} ==> forall r <- row.refs :: r.onDelete != Cascade)
    && (forall u <- row.uniques :: u.0 !in {"users.email", "users.keycloak_sub", "wallet_grants.wallet_grantee", "secrets.wallet_name"})
  }

  /** The rows of the replicated tables are those of the records; the others are as their migrations declare them. */
  ghost predicate Holds(rows: Rows, recs: Records) {
    && (forall k :: k in recs <==> k in rows && k.0 in TABLES)
    && (forall k :: k in recs ==> RowOf(k.0, recs[k]) == Some(rows[k]))
    && (forall k :: k in rows && k.0 !in TABLES ==> OtherFits(k, rows[k]))
  }

  function TableOf(record: Record): string {
    match record
    case UserRecord(_, _, _) => "users"
    case WalletRecord(_, _, _) => "wallets"
    case GrantRecord(_, _, _, _) => "wallet_grants"
    case SecretRecord(_, _, _, _, _, _, _, _) => "secrets"
  }

  /** A record is a row of exactly one table. */
  lemma OneTable(table: string, record: Record)
    ensures RowOf(table, record).Some? <==> table == TableOf(record)
  {
  }

  // ─── One row and the rows that go ─────────────────────────────────────────

  /** A grant goes with its wallet or its grantee, a secret with its wallet. */
  predicate GoesWith(record: Record, key: Key) {
    match record
    case GrantRecord(wallet, grantee, _, _) => key == ("wallets", wallet) || key == ("users", grantee)
    case SecretRecord(wallet, _, _, _, _, _, _, _) => key == ("wallets", wallet)
    case _ => false
  }

  /** The record needs one of the rows that would go. */
  predicate Needs(record: Record, gone: set<Key>) {
    match record
    case UserRecord(_, _, _) => false
    case WalletRecord(owner, environment, _) =>
      ("users", owner) in gone || (environment.Some? && ("wallet_environments", environment.value) in gone)
    case GrantRecord(_, _, grantedBy, _) => ("users", grantedBy) in gone
    case SecretRecord(_, _, _, creator, _, _, schema, _) =>
      || (match creator case ByUser(u) => ("users", u) in gone case ByApiKey(k) => ("api_keys", k) in gone)
      || (schema.Some? && (("secret_types", schema.value.0) in gone || ("secret_schemas", schema.value.1) in gone))
  }

  function Kept(table: string, id: Option<string>, gone: set<Key>): Option<string> {
    if id.Some? && (table, id.value) in gone then None else id
  }

  /** A secret forgets a linked secret and a last updater that went; other records name none that can go without them. */
  function Forget(record: Record, gone: set<Key>): Record {
    match record
    case SecretRecord(wallet, name, link, creator, updatedBy, updatedByKey, schema, body) =>
      SecretRecord(wallet, name, Kept("secrets", link, gone), creator,
        Kept("users", updatedBy, gone), Kept("api_keys", updatedByKey, gone), schema, body)
    case _ => record
  }

  predicate IsSecretRef(record: Record, r: Ref)
    requires record.SecretRecord?
  {
    || r == Ref("wallet_id", ("wallets", record.wallet), Cascade)
    || (record.link.Some? && r == Ref("linked_secret_id", ("secrets", record.link.value), SetNull))
    || (record.creator.ByUser? && r == Ref("created_by_user_id", ("users", record.creator.user), SetNullRefused))
    || (record.creator.ByApiKey? && r == Ref("created_by_api_key_id", ("api_keys", record.creator.key), SetNullRefused))
    || (record.updatedBy.Some? && r == Ref("updated_by_user_id", ("users", record.updatedBy.value), SetNull))
    || (record.updatedByKey.Some? && r == Ref("updated_by_api_key_id", ("api_keys", record.updatedByKey.value), SetNull))
    || (record.schema.Some? && r == Ref("type_uuid", ("secret_types", record.schema.value.0), Restrict))
    || (record.schema.Some? && r == Ref("schema_version_uuid", ("secret_schemas", record.schema.value.1), Restrict))
  }

  /** The foreign keys of a secret and what each does on deletion. */
  lemma SecretRefs(table: string, record: Record)
    requires RowOf(table, record).Some? && record.SecretRecord?
    ensures forall r :: r in RowOf(table, record).value.refs <==> IsSecretRef(record, r)
  {
  }

  lemma CascadesIff(table: string, record: Record, key: Key)
    requires RowOf(table, record).Some?
    ensures PointsTo(RowOf(table, record).value, {key}, Cascade) <==> GoesWith(record, key)
  {
    var row := RowOf(table, record).value;
    match record
    case GrantRecord(wallet, grantee, _, _) =>
      assert Ref("wallet_id", ("wallets", wallet), Cascade) in row.refs && Ref("grantee_user_id", ("users", grantee), Cascade) in row.refs;
    case SecretRecord(wallet, _, _, _, _, _, _, _) =>
      SecretRefs(table, record);
      hide RowOf;
      assert Ref("wallet_id", ("wallets", wallet), Cascade) in row.refs;
    case _ =>
  }

  lemma NeedsIff(table: string, record: Record, gone: set<Key>)
    requires RowOf(table, record).Some?
    ensures Blocks(RowOf(table, record).value, gone) <==> Needs(record, gone)
  {
    var row := RowOf(table, record).value;
    match record
    case UserRecord(_, _, _) =>
    case WalletRecord(owner, environment, _) =>
      assert Ref("owner_user_id", ("users", owner), Restrict) in row.refs;
      if environment.Some? { assert Ref("environment_id", ("wallet_environments", environment.value), Restrict) in row.refs; }
    case GrantRecord(_, _, grantedBy, _) =>
      assert Ref("granted_by_user_id", ("users", grantedBy), Restrict) in row.refs;
    case SecretRecord(_, _, _, creator, _, _, schema, _) => SecretNeedsIff(table, record, gone);
  }

  lemma SecretNeedsIff(table: string, record: Record, gone: set<Key>)
    requires RowOf(table, record).Some? && record.SecretRecord?
    ensures Blocks(RowOf(table, record).value, gone) <==> Needs(record, gone)
  {
    var row, creator, schema := RowOf(table, record).value, record.creator, record.schema;
    SecretRefs(table, record);
    hide RowOf;
    var ref := if creator.ByUser? then Ref("created_by_user_id", ("users", creator.user), SetNullRefused)
      else Ref("created_by_api_key_id", ("api_keys", creator.key), SetNullRefused);
    assert ref in row.refs;
    if schema.Some? {
      assert Ref("type_uuid", ("secret_types", schema.value.0), Restrict) in row.refs;
      assert Ref("schema_version_uuid", ("secret_schemas", schema.value.1), Restrict) in row.refs;
    }
  }

  lemma NulledIsForgotten(table: string, record: Record, gone: set<Key>)
    requires RowOf(table, record).Some?
    ensures RowOf(table, Forget(record, gone)) == Some(Nulled(RowOf(table, record).value, gone))
  {
    var row := RowOf(table, record).value;
    if record.SecretRecord? {
      SecretNulled(table, record, gone);
    } else {
      assert forall r :: r in row.refs ==> r.onDelete != SetNull;
      assert Nulled(row, gone).refs == row.refs;
    }
  }

  lemma SecretNulled(table: string, record: Record, gone: set<Key>)
    requires RowOf(table, record).Some? && record.SecretRecord?
    ensures RowOf(table, Forget(record, gone)) == Some(Nulled(RowOf(table, record).value, gone))
  {
    var forgot := Forget(record, gone);
    var row, after := RowOf(table, record).value, RowOf(table, forgot).value;
    assert after.uniques == row.uniques && after.body == row.body;
    SecretRefs(table, record);
    SecretRefs(table, forgot);
    hide RowOf;
    forall r ensures r in after.refs <==> r in row.refs && !(r.parent in gone && r.onDelete == SetNull) {
    }
    assert after.refs == Nulled(row, gone).refs;
  }

  // ─── Deletion ─────────────────────────────────────────────────────────────

  /** The rows of other tables that go with a row. */
  function OthersGone(rows: Rows, key: Key): set<Key> {
    set j | j in rows && j.0 !in TABLES && exists r <- rows[j].refs :: r.parent == key && r.onDelete == Cascade
  }

  function RecordsGone(recs: Records, key: Key): set<Key> {
    {key} + set k | k in recs && GoesWith(recs[k], key)
  }

  lemma GoneIs(rows: Rows, recs: Records, key: Key)
    requires Holds(rows, recs) && key in recs
    ensures Gone(rows, key) == RecordsGone(recs, key) + OthersGone(rows, key)
  {
    hide RowOf, GoesWith, OtherFits;
    forall k | k in recs ensures PointsTo(rows[k], {key}, Cascade) <==> GoesWith(recs[k], key) {
      CascadesIff(k.0, recs[k], key);
    }
    forall k | k in rows && k.0 !in TABLES ensures PointsTo(rows[k], {key}, Cascade) <==> k in OthersGone(rows, key) {
    }
  }

  /** The records a deletion leaves. */
  function Remaining(recs: Records, key: Key, gone: set<Key>): Records {
    map k | k in recs && k != key && !GoesWith(recs[k], key) :: Forget(recs[k], gone)
  }

  /** Of the replicated tables, what goes with a row is grants and secrets. */
  lemma GoneTables(rows: Rows, recs: Records, key: Key)
    requires Holds(rows, recs) && key in recs
    ensures forall k: Key :: k in RecordsGone(recs, key) ==> k == key || k.0 in {"wallet_grants", "secrets"}
    ensures forall k: Key :: k in OthersGone(rows, key) ==> k.0 !in TABLES + {"secret_types", "secret_schemas"}
  {
    forall k | k in recs && GoesWith(recs[k], key) ensures k.0 in {"wallet_grants", "secrets"} { OneTable(k.0, recs[k]); }
    forall k | k in OthersGone(rows, key) ensures k.0 !in {"secret_types", "secret_schemas"} { assert OtherFits(k, rows[k]); }
  }

  /** A row of another table after a deletion: gone, or without its references to what went. */
  predicate OtherLeft(rows: Rows, after: Rows, key: Key, gone: set<Key>, k: Key) {
    && (k in after <==> k in rows && k !in OthersGone(rows, key))
    && (k in after ==> k in rows && after[k] == rows[k].(refs := set r | r in rows[k].refs && (r.parent in gone ==> r.onDelete != SetNull)))
  }

  /** What a deletion that succeeds leaves, in the replicated tables and in the others. */
  lemma DeletionEffect(rows: Rows, recs: Records, key: Key)
    requires Holds(rows, recs) && key in recs && DeleteRow(rows, key).Done?
    ensures var after, gone := DeleteRow(rows, key).rows, RecordsGone(recs, key) + OthersGone(rows, key);
      && Holds(after, Remaining(recs, key, gone))
      && forall k: Key :: k.0 !in TABLES ==> OtherLeft(rows, after, key, gone, k)
  {
    var after, gone := DeleteRow(rows, key).rows, RecordsGone(recs, key) + OthersGone(rows, key);
    GoneIs(rows, recs, key);
    SurvivorsHold(rows, recs, key, gone);
    GoneTables(rows, recs, key);
    assert key in rows && key.0 in TABLES;
    hide RowOf, OtherFits, GoesWith, Holds, Deletable, RecordsGone, OthersGone, Gone, Survivors;
    assert after == Survivors(rows, gone);
    hide DeleteRow;
    forall k: Key | k.0 !in TABLES ensures OtherLeft(rows, after, key, gone, k) {
      OtherSurvives(rows, key, gone, k);
    }
  }

  lemma OtherSurvives(rows: Rows, key: Key, gone: set<Key>, k: Key)
    requires k in gone <==> k in OthersGone(rows, key)
    ensures OtherLeft(rows, Survivors(rows, gone), key, gone, k)
  {
    hide OthersGone;
    if k in rows {
      assert Nulled(rows[k], gone).refs == set r | r in rows[k].refs && (r.parent in gone ==> r.onDelete != SetNull);
    }
  }

  lemma SurvivorsHold(rows: Rows, recs: Records, key: Key, gone: set<Key>)
    requires Holds(rows, recs) && key in recs && gone == RecordsGone(recs, key) + OthersGone(rows, key)
    ensures Holds(Survivors(rows, gone), Remaining(recs, key, gone))
  {
    var after, left := Survivors(rows, gone), Remaining(recs, key, gone);
    hide RowOf, GoesWith, Forget, Nulled, OthersGone;
    forall k | k in left ensures k in after && RowOf(k.0, left[k]) == Some(after[k]) {
      assert k !in OthersGone(rows, key) by { OthersAreOthers(rows, key, k); }
      NulledIsForgotten(k.0, recs[k], gone);
    }
    forall k | k in after && k.0 !in TABLES ensures OtherFits(k, after[k]) {
      assert OtherFits(k, rows[k]);
      NulledFits(k, rows[k], gone);
    }
  }

  lemma OthersAreOthers(rows: Rows, key: Key, k: Key)
    ensures k in OthersGone(rows, key) ==> k in rows && k.0 !in TABLES
  {
  }

  lemma NulledFits(key: Key, row: Row, gone: set<Key>)
    requires OtherFits(key, row)
    ensures OtherFits(key, Nulled(row, gone))
  {
  }

  lemma OtherNeverBlocks(rows: Rows, recs: Records, key: Key, j: Key)
    requires Holds(rows, recs) && key in recs && j in rows && j.0 !in TABLES
    ensures !Blocks(rows[j], RecordsGone(recs, key) + OthersGone(rows, key))
  {
    assert OtherFits(j, rows[j]);
    assert key.0 in TABLES;
    GoneTables(rows, recs, key);
    hide RowOf, OtherFits, Holds, RecordsGone, OthersGone;
    UnblockedByOthers(j, rows[j], RecordsGone(recs, key) + OthersGone(rows, key));
  }

  lemma UnblockedByOthers(key: Key, row: Row, gone: set<Key>)
    requires OtherFits(key, row) && forall g: Key :: g in gone ==> g.0 !in {"secret_types", "secret_schemas"}
    ensures !Blocks(row, gone)
  {
  }

  /** A grant of the owner of a wallet that stays. */
  predicate OwnersGrant(recs: Records, gone: set<Key>, k: Key)
    requires k in recs
  {
    match recs[k]
    case GrantRecord(wallet, grantee, _, _) =>
      ("wallets", wallet) in recs && ("wallets", wallet) !in gone
      && recs[("wallets", wallet)].WalletRecord? && recs[("wallets", wallet)].owner == grantee
    case _ => false
  }

  lemma GrantRefs(table: string, record: Record)
    requires RowOf(table, record).Some? && record.GrantRecord?
    ensures table == "wallet_grants"
    ensures forall r <- RowOf(table, record).value.refs ::
      && (r.column == "wallet_id" <==> r == Ref("wallet_id", ("wallets", record.wallet), Cascade))
      && (r.column == "grantee_user_id" <==> r == Ref("grantee_user_id", ("users", record.grantee), Cascade))
    ensures Ref("wallet_id", ("wallets", record.wallet), Cascade) in RowOf(table, record).value.refs
    ensures Ref("grantee_user_id", ("users", record.grantee), Cascade) in RowOf(table, record).value.refs
  {
  }

  lemma OwnerRef(table: string, record: Record, user: string)
    requires RowOf(table, record).Some? && record.WalletRecord?
    ensures Ref("owner_user_id", ("users", user), Restrict) in RowOf(table, record).value.refs <==> record.owner == user
  {
  }

  lemma ProtectedIff(rows: Rows, recs: Records, gone: set<Key>, k: Key)
    requires Holds(rows, recs) && k in rows
    ensures Protected(rows, gone, k) <==> k in recs && OwnersGrant(recs, gone, k)
  {
    if k in recs { OneTable(k.0, recs[k]); }
    if k.0 == "wallet_grants" {
      GrantRefs(k.0, recs[k]);
      var wallet := ("wallets", recs[k].wallet);
      if wallet in recs {
        OneTable("wallets", recs[wallet]);
        OwnerRef("wallets", recs[wallet], recs[k].grantee);
      }
      hide RowOf, OtherFits;
    }
  }

  /** No record that stays needs a row that goes, and no grant of an owner goes without the wallet. */
  predicate CanGo(rows: Rows, recs: Records, key: Key) {
    var gone := RecordsGone(recs, key) + OthersGone(rows, key);
    && (forall k <- recs.Keys :: k !in gone ==> !Needs(recs[k], gone))
    && (forall k <- recs.Keys :: k in gone ==> !OwnersGrant(recs, gone, k))
  }

  /** A deletion succeeds if and only if nothing holds the row. */
  lemma DeletionIff(rows: Rows, recs: Records, key: Key)
    requires Holds(rows, recs) && key in recs
    ensures DeleteRow(rows, key).Done? <==> CanGo(rows, recs, key)
  {
    var gone := RecordsGone(recs, key) + OthersGone(rows, key);
    GoneIs(rows, recs, key);
    forall k | k in recs ensures Blocks(rows[k], gone) <==> Needs(recs[k], gone) { NeedsIff(k.0, recs[k], gone); }
    forall k | k in rows && k !in recs ensures !Blocks(rows[k], gone) { OtherNeverBlocks(rows, recs, key, k); }
    forall k | k in rows ensures Protected(rows, gone, k) <==> k in recs && OwnersGrant(recs, gone, k) {
      ProtectedIff(rows, recs, gone, k);
    }
    hide RowOf, Blocks, Protected, Needs, OwnersGrant, Gone, RecordsGone, OthersGone, OtherFits;
    assert forall k :: k in recs ==> k in rows;
  }

  // ─── Table by table ───────────────────────────────────────────────────────

  /** A record for whose sake its user cannot go. */
  predicate HoldsUser(record: Record, user: string, others: set<Key>) {
    match record
    case UserRecord(_, _, _) => false
    case WalletRecord(owner, environment, _) =>
      owner == user || (environment.Some? && ("wallet_environments", environment.value) in others)
    case GrantRecord(_, grantee, grantedBy, _) => grantee != user && grantedBy == user
    case SecretRecord(_, _, _, creator, _, _, _, _) =>
      creator == ByUser(user) || (creator.ByApiKey? && ("api_keys", creator.key) in others)
  }

  lemma HoldsUserIff(recs: Records, k: Key, user: string, gone: set<Key>, others: set<Key>)
    requires k in recs && gone == RecordsGone(recs, ("users", user)) + others && ("users", user) in recs
    requires recs[("users", user)].UserRecord?
    requires forall g: Key :: g in RecordsGone(recs, ("users", user)) ==> g == ("users", user) || g.0 in {"wallet_grants", "secrets"}
    requires forall g: Key :: g in others ==> g.0 !in TABLES + {"secret_types", "secret_schemas"}
    ensures k !in gone ==> (Needs(recs[k], gone) <==> HoldsUser(recs[k], user, others))
    ensures k in gone && k !in others ==> !HoldsUser(recs[k], user, others)
  {
    match recs[k]
    case SecretRecord(_, _, _, creator, _, _, schema, _) =>
    case _ =>
  }

  /**
    A user can be deleted if and only if it owns no wallet, granted nothing to others and created no
    secret, and no wallet or secret depends on an environment or an API key that goes with it.
  */
  lemma UserDeletionIff(rows: Rows, recs: Records, user: string)
    requires Holds(rows, recs) && ("users", user) in recs
    ensures DeleteRow(rows, ("users", user)).Done? <==>
      forall k <- recs.Keys :: !HoldsUser(recs[k], user, OthersGone(rows, ("users", user)))
  {
    var key := ("users", user);
    var others := OthersGone(rows, key);
    var gone := RecordsGone(recs, key) + others;
    DeletionIff(rows, recs, key);
    GoneTables(rows, recs, key);
    OneTable(key.0, recs[key]);
    assert forall k :: k in recs ==> k.0 in TABLES;
    hide DeleteRow, OtherFits, RowOf, OthersGone, Holds, RecordsGone, Needs, HoldsUser, OwnersGrant;
    forall k | k in recs
      ensures k !in gone ==> (Needs(recs[k], gone) <==> HoldsUser(recs[k], user, others))
      ensures k in gone ==> !HoldsUser(recs[k], user, others)
    {
      HoldsUserIff(recs, k, user, gone, others);
    }
    forall k | k in recs && k in gone && OwnersGrant(recs, gone, k)
      ensures !forall j <- recs.Keys :: !HoldsUser(recs[j], user, others)
    {
      OwnerHolds(recs, k, user, gone, others);
    }
  }

  lemma OwnerHolds(recs: Records, k: Key, user: string, gone: set<Key>, others: set<Key>)
    requires k in recs && ("users", user) in recs && recs[("users", user)].UserRecord?
    requires k in RecordsGone(recs, ("users", user)) && OwnersGrant(recs, gone, k)
    ensures ("wallets", recs[k].wallet) in recs && HoldsUser(recs[("wallets", recs[k].wallet)], user, others)
  {
    assert recs[k].GrantRecord?;
  }

  /** Without its user a secret has no last updater, if that was the user or a key that went too; nothing else changes. */
  function WithoutUser(record: Record, user: string, others: set<Key>): Record {
    match record
    case SecretRecord(_, _, _, _, updatedBy, updatedByKey, _, _) =>
      record.(updatedBy := if updatedBy == Some(user) then None else updatedBy,
        updatedByKey := if updatedByKey.Some? && ("api_keys", updatedByKey.value) in others then None else updatedByKey)
    case _ => record
  }

  /** One record after a deletion. */
  lemma RecordAfter(rows: Rows, recs: Records, key: Key, k: Key)
    requires Holds(rows, recs) && key in recs && k in recs && DeleteRow(rows, key).Done?
    ensures var after := DeleteRow(rows, key).rows;
      && (k in after <==> k != key && !GoesWith(recs[k], key))
      && (k in after ==> Some(after[k]) == RowOf(k.0, Forget(recs[k], RecordsGone(recs, key) + OthersGone(rows, key))))
  {
    var gone := RecordsGone(recs, key) + OthersGone(rows, key);
    DeletionEffect(rows, recs, key);
    hide DeleteRow, RowOf, OtherFits, GoesWith, Forget, RecordsGone, OthersGone;
    assert k in DeleteRow(rows, key).rows <==> k in Remaining(recs, key, gone);
  }

  /** What goes with a user is the grants it received; every other record stays. */
  lemma UserDeletionEffect(rows: Rows, recs: Records, user: string, k: Key)
    requires Holds(rows, recs) && ("users", user) in recs && k in recs && DeleteRow(rows, ("users", user)).Done?
    ensures var after := DeleteRow(rows, ("users", user)).rows;
      && (k in after <==> k != ("users", user) && !(recs[k].GrantRecord? && recs[k].grantee == user))
      && (k in after ==> Some(after[k]) == RowOf(k.0, WithoutUser(recs[k], user, OthersGone(rows, ("users", user)))))
  {
    var key := ("users", user);
    RecordAfter(rows, recs, key, k);
    GoneTables(rows, recs, key);
    NoSecretGoes(rows, recs, user);
    hide DeleteRow, OthersGone, OtherFits, RowOf, Holds, RecordsGone, Forget, WithoutUser;
    ForgetUser(recs[k], user, RecordsGone(recs, key) + OthersGone(rows, key), OthersGone(rows, key));
  }

  lemma ForgetUser(record: Record, user: string, gone: set<Key>, others: set<Key>)
    requires ("users", user) in gone && others <= gone
    requires forall g: Key :: g in gone && g != ("users", user) && g !in others ==> g.0 == "wallet_grants"
    requires forall g: Key :: g in others ==> g.0 !in TABLES
    ensures Forget(record, gone) == WithoutUser(record, user, others)
  {
  }

  lemma NoSecretGoes(rows: Rows, recs: Records, user: string)
    requires Holds(rows, recs) && ("users", user) in recs
    ensures ("users", user) in RecordsGone(recs, ("users", user))
    ensures forall k: Key :: k in RecordsGone(recs, ("users", user)) ==> k == ("users", user) || k.0 == "wallet_grants"
  {
    forall k | k in recs && GoesWith(recs[k], ("users", user)) ensures k.0 == "wallet_grants" { OneTable(k.0, recs[k]); }
  }

  /** A secret of another wallet that an API key created which goes with this wallet. */
  predicate HoldsWallet(record: Record, wallet: string, others: set<Key>) {
    record.SecretRecord? && record.wallet != wallet && record.creator.ByApiKey? && ("api_keys", record.creator.key) in others
  }

  lemma HoldsWalletIff(recs: Records, k: Key, wallet: string, gone: set<Key>, others: set<Key>)
    requires k in recs && gone == RecordsGone(recs, ("wallets", wallet)) + others
    requires k == ("wallets", wallet) ==> recs[k].WalletRecord?
    requires forall g: Key :: g in RecordsGone(recs, ("wallets", wallet)) ==> g == ("wallets", wallet) || g.0 in {"wallet_grants", "secrets"}
    requires forall g: Key :: g in others ==> g.0 !in TABLES + {"secret_types", "secret_schemas", "wallet_environments"}
    ensures k !in gone ==> (Needs(recs[k], gone) <==> HoldsWallet(recs[k], wallet, others))
    ensures k in gone && k !in others ==> !HoldsWallet(recs[k], wallet, others) && !OwnersGrant(recs, gone, k)
  {
    match recs[k]
    case SecretRecord(_, _, _, creator, _, _, schema, _) =>
    case _ =>
  }

  lemma EnvironmentsStay(rows: Rows, recs: Records, wallet: string)
    requires Holds(rows, recs)
    ensures forall g: Key :: g in OthersGone(rows, ("wallets", wallet)) ==> g.0 != "wallet_environments"
  {
    forall g | g in OthersGone(rows, ("wallets", wallet)) ensures g.0 != "wallet_environments" { assert OtherFits(g, rows[g]); }
  }

  /** A wallet can be deleted if and only if no secret of another wallet was created by an API key that goes with it. */
  lemma WalletDeletionIff(rows: Rows, recs: Records, wallet: string)
    requires Holds(rows, recs) && ("wallets", wallet) in recs
    ensures DeleteRow(rows, ("wallets", wallet)).Done? <==>
      forall k <- recs.Keys :: !HoldsWallet(recs[k], wallet, OthersGone(rows, ("wallets", wallet)))
  {
    var key := ("wallets", wallet);
    var others := OthersGone(rows, key);
    var gone := RecordsGone(recs, key) + others;
    DeletionIff(rows, recs, key);
    GoneTables(rows, recs, key);
    EnvironmentsStay(rows, recs, wallet);
    OneTable(key.0, recs[key]);
    assert forall k :: k in recs ==> k.0 in TABLES;
    hide DeleteRow, OtherFits, RowOf, OthersGone, Holds, RecordsGone, Needs, HoldsWallet, OwnersGrant;
    forall k | k in recs
      ensures k !in gone ==> (Needs(recs[k], gone) <==> HoldsWallet(recs[k], wallet, others))
      ensures k in gone ==> !HoldsWallet(recs[k], wallet, others) && !OwnersGrant(recs, gone, k)
    {
      HoldsWalletIff(recs, k, wallet, gone, others);
    }
  }

  /** Without a wallet a secret has no link to one of its secrets and no last updater among its API keys. */
  function WithoutWallet(recs: Records, record: Record, wallet: string, others: set<Key>): Record {
    match record
    case SecretRecord(_, _, link, _, _, updatedByKey, _, _) =>
      var linkGoes := link.Some? && ("secrets", link.value) in recs
        && recs[("secrets", link.value)].SecretRecord? && recs[("secrets", link.value)].wallet == wallet;
      record.(link := if linkGoes then None else link,
        updatedByKey := if updatedByKey.Some? && ("api_keys", updatedByKey.value) in others then None else updatedByKey)
    case _ => record
  }

  /** What goes with a wallet is its grants and its secrets; every other record stays. */
  lemma WalletDeletionEffect(rows: Rows, recs: Records, wallet: string, k: Key)
    requires Holds(rows, recs) && ("wallets", wallet) in recs && k in recs && DeleteRow(rows, ("wallets", wallet)).Done?
    ensures var after := DeleteRow(rows, ("wallets", wallet)).rows;
      && (k in after <==> k != ("wallets", wallet) && !((recs[k].GrantRecord? || recs[k].SecretRecord?) && recs[k].wallet == wallet))
      && (k in after ==> Some(after[k]) == RowOf(k.0, WithoutWallet(recs, recs[k], wallet, OthersGone(rows, ("wallets", wallet)))))
  {
    var key := ("wallets", wallet);
    RecordAfter(rows, recs, key, k);
    GoneTables(rows, recs, key);
    SecretsOfWalletGo(rows, recs, wallet);
    hide DeleteRow, OthersGone, OtherFits, RowOf, Holds, RecordsGone, Forget, WithoutWallet;
    ForgetWallet(recs, recs[k], wallet, RecordsGone(recs, key), OthersGone(rows, key));
  }

  lemma ForgetWallet(recs: Records, record: Record, wallet: string, went: set<Key>, others: set<Key>)
    requires forall g: Key :: g in went ==> g == ("wallets", wallet) || g.0 in {"wallet_grants", "secrets"}
    requires forall g: Key :: g in others ==> g.0 !in TABLES
    requires forall x :: ("secrets", x) in went <==>
      ("secrets", x) in recs && recs[("secrets", x)].SecretRecord? && recs[("secrets", x)].wallet == wallet
    ensures Forget(record, went + others) == WithoutWallet(recs, record, wallet, others)
  {
  }

  lemma SecretsOfWalletGo(rows: Rows, recs: Records, wallet: string)
    requires Holds(rows, recs)
    ensures forall x :: ("secrets", x) in RecordsGone(recs, ("wallets", wallet)) <==>
      ("secrets", x) in recs && recs[("secrets", x)].SecretRecord? && recs[("secrets", x)].wallet == wallet
  {
    forall k | k in recs && k.0 == "secrets" ensures recs[k].SecretRecord? { OneTable(k.0, recs[k]); }
    hide RowOf, OtherFits;
  }

  /** Only a wallet or a user takes other rows with it. */
  lemma NothingGoesWith(rows: Rows, recs: Records, key: Key)
    requires Holds(rows, recs) && key in recs && key.0 in {"wallet_grants", "secrets"}
    ensures RecordsGone(recs, key) == {key} && OthersGone(rows, key) == {}
  {
    forall j | j in rows && j.0 !in TABLES ensures !exists r <- rows[j].refs :: r.parent == key && r.onDelete == Cascade {
      assert OtherFits(j, rows[j]);
    }
    hide RowOf;
  }

  /** A grant can be deleted unless its grantee owns the wallet, which is there; nothing goes with it. */
  lemma GrantDeletionIff(rows: Rows, recs: Records, grant: string)
    requires Holds(rows, recs) && ("wallet_grants", grant) in recs
    ensures recs[("wallet_grants", grant)].GrantRecord?
    ensures var key := ("wallet_grants", grant); var wallet := ("wallets", recs[key].wallet);
      && (DeleteRow(rows, key).Raised? <==> wallet in recs && recs[wallet].WalletRecord? && recs[wallet].owner == recs[key].grantee)
      && (DeleteRow(rows, key).Done? ==> forall k :: k in recs ==>
        (k in DeleteRow(rows, key).rows <==> k != key) && (k != key ==> DeleteRow(rows, key).rows[k] == rows[k]))
  {
    var key := ("wallet_grants", grant);
    GrantAlone(rows, recs, grant);
    if DeleteRow(rows, key).Done? {
      forall k | k in recs ensures (k in DeleteRow(rows, key).rows <==> k != key) && (k != key ==> DeleteRow(rows, key).rows[k] == rows[k]) {
        RecordAfter(rows, recs, key, k);
        NothingGoesWith(rows, recs, key);
        OneTable(key.0, recs[key]);
        hide DeleteRow, RowOf, OtherFits;
        assert {key} + {} == {key};
        assert Forget(recs[k], {key}) == recs[k];
      }
    }
  }

  lemma GrantAlone(rows: Rows, recs: Records, grant: string)
    requires Holds(rows, recs) && ("wallet_grants", grant) in recs
    ensures recs[("wallet_grants", grant)].GrantRecord?
    ensures var key := ("wallet_grants", grant); var wallet := ("wallets", recs[key].wallet);
      DeleteRow(rows, key).Raised? <==> wallet in recs && recs[wallet].WalletRecord? && recs[wallet].owner == recs[key].grantee
  {
    var key := ("wallet_grants", grant);
    NothingGoesWith(rows, recs, key);
    DeletionIff(rows, recs, key);
    OneTable(key.0, recs[key]);
    assert {key} + {} == {key};
    assert forall k :: k in recs && k in {key} ==> k == key;
    hide RecordsGone, OthersGone, OtherFits, RowOf, DeleteRow, Holds, Needs;
    forall k | k in recs ensures !Needs(recs[k], {key}) { NoneNeedsGrant(recs[k], grant); }
  }

  lemma NoneNeedsGrant(record: Record, grant: string)
    ensures !Needs(record, {("wallet_grants", grant)})
  {
  }

  /** A secret can always be deleted; what goes is the secret and the links to it. */
  lemma SecretDeletionEffect(rows: Rows, recs: Records, secret: string, k: Key)
    requires Holds(rows, recs) && ("secrets", secret) in recs && k in recs
    ensures var deleted := DeleteRow(rows, ("secrets", secret));
      && deleted.Done? && (k in deleted.rows <==> k != ("secrets", secret))
      && (k in deleted.rows ==> Some(deleted.rows[k]) == RowOf(k.0,
        if recs[k].SecretRecord? && recs[k].link == Some(secret) then recs[k].(link := None) else recs[k]))
  {
    var key := ("secrets", secret);
    SecretDeletable(rows, recs, secret);
    RecordAfter(rows, recs, key, k);
    NothingGoesWith(rows, recs, key);
    OneTable(key.0, recs[key]);
    hide RecordsGone, OthersGone, OtherFits, RowOf, DeleteRow, Holds, Forget;
    assert {key} + {} == {key};
    ForgetLink(recs[k], secret);
  }

  lemma ForgetLink(record: Record, secret: string)
    ensures Forget(record, {("secrets", secret)})
      == (if record.SecretRecord? && record.link == Some(secret) then record.(link := None) else record)
  {
  }

  lemma SecretDeletable(rows: Rows, recs: Records, secret: string)
    requires Holds(rows, recs) && ("secrets", secret) in recs
    ensures DeleteRow(rows, ("secrets", secret)).Done?
  {
    var key := ("secrets", secret);
    NothingGoesWith(rows, recs, key);
    DeletionIff(rows, recs, key);
    OneTable(key.0, recs[key]);
    assert {key} + {} == {key};
    assert !OwnersGrant(recs, {key}, key);
    hide RecordsGone, OthersGone, OtherFits, RowOf, DeleteRow, Holds, Needs, OwnersGrant;
    forall j | j in recs ensures !Needs(recs[j], {key}) { NoneNeedsSecret(recs[j], secret); }
  }

  lemma NoneNeedsSecret(record: Record, secret: string)
    ensures !Needs(record, {("secrets", secret)})
  {
  }

  // ─── Insertion ────────────────────────────────────────────────────────────

  /** Two records that cannot both be stored. */
  predicate Collide(a: Record, b: Record) {
    match (a, b)
    case (UserRecord(sub, email, _), UserRecord(sub', email', _)) => email == email' || (sub.Some? && sub == sub')
    case (GrantRecord(wallet, grantee, _, _), GrantRecord(wallet', grantee', _, _)) => wallet == wallet' && grantee == grantee'
    case (SecretRecord(wallet, name, _, _, _, _, _, _), SecretRecord(wallet', name', _, _, _, _, _, _)) => wallet == wallet' && name == name'
    case _ => false
  }

  lemma ClashIff(t: string, a: Record, u: string, b: Record)
    requires RowOf(t, a).Some? && RowOf(u, b).Some?
    ensures Clashes(RowOf(t, a).value, RowOf(u, b).value) <==> Collide(a, b)
  {
    var x, y := RowOf(t, a).value.uniques, RowOf(u, b).value.uniques;
    match (a, b)
    case (UserRecord(sub, email, _), UserRecord(sub', email', _)) =>
      assert email == email' ==> ("users.email", [email]) in x * y;
      assert sub.Some? && sub == sub' ==> ("users.keycloak_sub", [sub.value]) in x * y;
      assert forall v :: v in x * y ==> v == ("users.email", [email]) || (sub.Some? && v == ("users.keycloak_sub", [sub.value]));
      assert [email] == [email'] ==> [email][0] == [email'][0];
      if sub.Some? && sub'.Some? { assert [sub.value] == [sub'.value] ==> [sub.value][0] == [sub'.value][0]; }
    case (GrantRecord(wallet, grantee, _, _), GrantRecord(wallet', grantee', _, _)) =>
      assert [wallet, grantee] == [wallet', grantee'] ==> [wallet, grantee][0] == wallet' && [wallet, grantee][1] == grantee';
      assert x == {("wallet_grants.wallet_grantee", [wallet, grantee])};
      assert wallet == wallet' && grantee == grantee' ==> ("wallet_grants.wallet_grantee", [wallet, grantee]) in x * y;
    case (SecretRecord(wallet, name, _, _, _, _, _, _), SecretRecord(wallet', name', _, _, _, _, _, _)) =>
      assert [wallet, name] == [wallet', name'] ==> [wallet, name][0] == wallet' && [wallet, name][1] == name';
      assert x == {("secrets.wallet_name", [wallet, name])};
      assert wallet == wallet' && name == name' ==> ("secrets.wallet_name", [wallet, name]) in x * y;
    case _ =>
      assert x * y == {};
  }

  /** The rows a record names are there; a secret may link to itself. */
  predicate ParentsPresent(rows: Rows, id: string, record: Record) {
    match record
    case UserRecord(_, _, _) => true
    case WalletRecord(owner, environment, _) =>
      ("users", owner) in rows && (environment.Some? ==> ("wallet_environments", environment.value) in rows)
    case GrantRecord(wallet, grantee, grantedBy, _) =>
      ("wallets", wallet) in rows && ("users", grantee) in rows && ("users", grantedBy) in rows
    case SecretRecord(wallet, _, link, creator, updatedBy, updatedByKey, schema, _) =>
      && ("wallets", wallet) in rows && (link.Some? ==> link.value == id || ("secrets", link.value) in rows)
      && (match creator case ByUser(u) => ("users", u) in rows case ByApiKey(k) => ("api_keys", k) in rows)
      && (updatedBy.Some? ==> ("users", updatedBy.value) in rows) && (updatedByKey.Some? ==> ("api_keys", updatedByKey.value) in rows)
      && (schema.Some? ==> ("secret_types", schema.value.0) in rows && ("secret_schemas", schema.value.1) in rows)
  }

  lemma ParentsIff(rows: Rows, table: string, id: string, record: Record)
    requires RowOf(table, record).Some?
    ensures (forall r <- RowOf(table, record).value.refs :: r.parent in rows || r.parent == (table, id)) <==> ParentsPresent(rows, id, record)
  {
    if record.SecretRecord? { SecretParentsIff(rows, table, id, record); }
  }

  lemma SecretParentsIff(rows: Rows, table: string, id: string, record: Record)
    requires RowOf(table, record).Some? && record.SecretRecord?
    ensures (forall r <- RowOf(table, record).value.refs :: r.parent in rows || r.parent == (table, id)) <==> ParentsPresent(rows, id, record)
  {
    OneTable(table, record);
    SecretRefs(table, record);
    hide RowOf;
    forall r | IsSecretRef(record, r) ensures ParentsPresent(rows, id, record) ==> r.parent in rows || r.parent == (table, id) {}
  }

  lemma NoClashWithOthers(table: string, record: Record, key: Key, row: Row)
    requires RowOf(table, record).Some? && OtherFits(key, row)
    ensures !Clashes(row, RowOf(table, record).value)
  {
    forall v | v in RowOf(table, record).value.uniques
      ensures v.0 in {"users.email", "users.keycloak_sub", "wallet_grants.wallet_grantee", "secrets.wallet_name"} {}
    hide RowOf;
  }

  /** A record is inserted if and only if its id is new, what it names is there and no other record holds its unique values. */
  lemma InsertionIff(rows: Rows, recs: Records, table: string, id: string, record: Record)
    requires Holds(rows, recs) && RowOf(table, record).Some?
    ensures InsertRow(rows, (table, id), RowOf(table, record).value).Done? <==>
      (table, id) !in recs && ParentsPresent(rows, id, record) && forall k <- recs.Keys :: !Collide(recs[k], record)
  {
    OneTable(table, record);
    ParentsIff(rows, table, id, record);
    assert (table, id) in rows <==> (table, id) in recs;
    var row := RowOf(table, record).value;
    forall k | k in rows ensures Clashes(rows[k], row) <==> k in recs && Collide(recs[k], record) {
      if k in recs { ClashIff(k.0, recs[k], table, record); } else { NoClashWithOthers(table, record, k, rows[k]); }
    }
    hide RowOf, OtherFits, Clashes, Collide, ParentsPresent;
    assert forall k :: k in recs ==> k in rows;
  }

  /** The row is added and nothing else changes. */
  lemma InsertionEffect(rows: Rows, recs: Records, table: string, id: string, record: Record)
    requires Holds(rows, recs) && RowOf(table, record).Some? && InsertRow(rows, (table, id), RowOf(table, record).value).Done?
    ensures var after := InsertRow(rows, (table, id), RowOf(table, record).value).rows;
      && Holds(after, recs[(table, id) := record]) && after.Keys == rows.Keys + {(table, id)}
      && forall k :: k in rows ==> after[k] == rows[k]
  {
    OneTable(table, record);
    hide RowOf, OtherFits;
  }

  /** An upsert that commits leaves what the deletion of the row would, and the record itself. */
  lemma UpsertEffect(rows: Rows, recs: Records, table: string, id: string, record: Record)
    requires Holds(rows, recs) && UpsertRow(rows, (table, id), RowOf(table, record)).Done?
    ensures var key, after := (table, id), UpsertRow(rows, (table, id), RowOf(table, record)).rows;
      var left := if key in recs then Remaining(recs, key, RecordsGone(recs, key) + OthersGone(rows, key)) else recs;
      Holds(after, left[key := record])
  {
    var key := (table, id);
    OneTable(table, record);
    assert key in rows <==> key in recs;
    hide Holds, RowOf, Remaining, RecordsGone, OthersGone, InsertRow;
    if key in recs {
      DeletionEffect(rows, recs, key);
      hide DeleteRow;
      InsertionEffect(DeleteRow(rows, key).rows, Remaining(recs, key, RecordsGone(recs, key) + OthersGone(rows, key)), table, id, record);
    } else {
      InsertionEffect(rows, recs, table, id, record);
    }
  }

  /** What goes when a row is written again. */
  function GoneFirst(rows: Rows, recs: Records, key: Key): set<Key> {
    if key in recs then RecordsGone(recs, key) + OthersGone(rows, key) else {}
  }

  predicate CanCome(rows: Rows, recs: Records, gone: set<Key>, id: string, record: Record) {
    ParentsPresent(rows - gone, id, record) && forall k <- recs.Keys :: k !in gone ==> !Collide(recs[k], record)
  }

  lemma UpsertIsBoth(rows: Rows, key: Key, row: Row)
    ensures UpsertRow(rows, key, Some(row)).Done? <==>
      DeleteRow(rows, key).Done? && InsertRow(DeleteRow(rows, key).rows, key, row).Done?
  {
    hide DeleteRow, InsertRow;
  }

  /**
    A record is upserted if and only if the row it replaces can go and, beside what goes with that,
    the rows it names are there and no other record holds its unique values.
  */
  lemma UpsertIff(rows: Rows, recs: Records, table: string, id: string, record: Record)
    requires Holds(rows, recs) && RowOf(table, record).Some?
    ensures var key := (table, id);
      UpsertRow(rows, key, RowOf(table, record)).Done? <==>
        (key in recs ==> CanGo(rows, recs, key)) && CanCome(rows, recs, GoneFirst(rows, recs, key), id, record)
  {
    var key := (table, id);
    OneTable(table, record);
    assert key in rows <==> key in recs;
    assert key !in rows ==> DeleteRow(rows, key) == Done(rows);
    hide Holds, RowOf, RecordsGone, OthersGone, InsertRow, CanGo, DeleteRow, UpsertRow;
    UpsertIsBoth(rows, key, RowOf(table, record).value);
    if key in recs {
      DeletionIff(rows, recs, key);
      if DeleteRow(rows, key).Done? { InsertAfterDeletion(rows, recs, table, id, record); }
      hide CanCome;
    } else {
      InsertionIff(rows, recs, table, id, record);
      assert rows - {} == rows;
      hide ParentsPresent, Collide;
    }
  }

  lemma InsertAfterDeletion(rows: Rows, recs: Records, table: string, id: string, record: Record)
    requires Holds(rows, recs) && RowOf(table, record).Some? && (table, id) in recs && DeleteRow(rows, (table, id)).Done?
    ensures var key := (table, id); var gone := RecordsGone(recs, key) + OthersGone(rows, key);
      InsertRow(DeleteRow(rows, key).rows, key, RowOf(table, record).value).Done? <==> CanCome(rows, recs, gone, id, record)
  {
    var key := (table, id);
    var after := DeleteRow(rows, key).rows;
    var gone := RecordsGone(recs, key) + OthersGone(rows, key);
    var left := Remaining(recs, key, gone);
    GoneIs(rows, recs, key);
    assert after.Keys == (rows - gone).Keys by { hide Deletable, RecordsGone, OthersGone, Holds, Gone; }
    DeletionEffect(rows, recs, key);
    InsertionIff(after, left, table, id, record);
    SameParents(after, rows - gone, id, record);
    GoneTables(rows, recs, key);
    assert forall k :: k in recs ==> k.0 in TABLES;
    hide Holds, RowOf, OthersGone, InsertRow, DeleteRow, ParentsPresent, Collide, Forget, GoesWith;
    forall k | k in left ensures Collide(left[k], record) <==> Collide(recs[k], record) { ForgetCollides(recs[k], gone, record); }
    forall k | k in recs ensures k in left <==> k !in gone {}
  }

  lemma SameParents(a: Rows, b: Rows, id: string, record: Record)
    requires a.Keys == b.Keys
    ensures ParentsPresent(a, id, record) <==> ParentsPresent(b, id, record)
  {
    assert forall k :: k in a <==> k in b by { assert forall k :: k in a <==> k in a.Keys; }
  }

  lemma ForgetCollides(a: Record, gone: set<Key>, b: Record)
    ensures Collide(Forget(a, gone), b) <==> Collide(a, b)
  {
  }
}
