/** Every run of the connect flow: what is handed out, to whom, how often, and what a purge conserves. */
module ConnectRuns {
  import opened Options
  import opened Permissions
  import opened Sets
  import opened ConnectFlow

  datatype Event =
    | Create(uri: string, deposit: Deposit, now: int)
    | Open(caller: Caller)
    | Deny(caller: Caller)
    | NewKey(caller: Caller, body: KeyBody, rights: Option<bv8>)
    | Seal(caller: Caller, jwe: string, code: string)
    | Redeem(token: TokenBody, now: int)
    | PurgeAt(now: int, selected: nat)
    | RevokeByOwner(key: int)
    | SetClient(clientId: string, client: Client)

  /**
    One committed transaction. Clocks are arbitrary: no property below needs them to advance. A purge
    selects its keys without locking their requests, and other transactions may commit before it
    does: `selected` counts the events that its selection has seen. Here it selects at once.
  */
  function Step(h: Hashing, db: Db, e: Event): Reply {
    match e
    case Create(uri, deposit, now) => CreateRequest(h, db, uri, deposit, now)
    case Open(caller) => OpenRequest(h, db, caller)
    case Deny(caller) => DenyRequest(h, db, caller)
    case NewKey(caller, body, rights) => CreateKey(h, db, caller, body, rights)
    case Seal(caller, jwe, code) => SealRequest(h, db, caller, jwe, code)
    case Redeem(token, now) => ExchangeCode(h, db, token, now)
    case PurgeAt(now, _) => Purge(db, now)
    case RevokeByOwner(k) =>
      Reply(if k in db.keys then db.(keys := db.keys[k := db.keys[k].(revoked := true)]) else db, Changed)
    case SetClient(clientId, client) => Reply(db.(clients := db.clients[clientId := client]), Changed)
  }

  /** Of the keys selected in `selected`, those not revoked when the purge gets to them. */
  function RevokedLate(selected: Db, db: Db, now: int): set<int> {
    set k | k in PurgedKeys(selected, now) && k in db.keys && !db.keys[k].revoked
  }

  /** A purge that selected its keys from the tables `selected` and commits on the tables `db`. */
  function LatePurge(selected: Db, db: Db, now: int): Reply {
    var live := map r | r in db.requests && now < db.requests[r].expiresAt :: db.requests[r];
    Reply(db.(keys := RevokeAll(db.keys, RevokedLate(selected, db, now)), requests := live), Purged(RevokedLate(selected, db, now)))
  }

  /** Without anything in between it is the purge. */
  lemma LatePurgeOfSame(db: Db, now: int)
    ensures LatePurge(db, db, now) == Purge(db, now)
  {
    assert RevokedLate(db, db, now) == PurgedKeys(db, now);
  }

  function StepFrom(h: Hashing, selected: Db, db: Db, e: Event): Reply {
    if e.PurgeAt? then LatePurge(selected, db, e.now) else Step(h, db, e)
  }

  datatype History = History(db: Db, trace: seq<Output>)

  const EMPTY := Db(map[], map[], map[], 0, 0)

  function Run(h: Hashing, events: seq<Event>): (past: History)
    ensures |past.trace| == |events|
    decreases |events|, 1
  {
    if events == [] then History(EMPTY, [])
    else
      var n := |events| - 1;
      var before := Run(h, events[..n]);
      var reply := StepFrom(h, SelectedFrom(h, events), before.db, events[n]);
      History(reply.db, before.trace + [reply.output])
  }

  /** The tables in which the last event selects, if it is a purge. */
  function SelectedFrom(h: Hashing, events: seq<Event>): Db
    requires events != []
    decreases |events|, 0
  {
    var n := |events| - 1;
    if events[n].PurgeAt? && events[n].selected < n then Run(h, events[..events[n].selected]).db else Run(h, events[..n]).db
  }

  // ─── The invariant ────────────────────────────────────────────────────────

  predicate Answered(row: Request) {
    row.status.Sealed? || row.status.Delivered?
  }

  /** The key attached to a row is its claimer's own, within what was asked, and was recorded. */
  predicate KeyOk(row: Request, r: int, keys: map<int, ApiKey>, trace: seq<Output>)
    requires row.key.Some?
  {
    && row.key.value in keys && row.user.Some? && row.wallet == Some(keys[row.key.value].wallet)
    && keys[row.key.value].owner == row.user.value
    && KeyCreated(r, row.key.value, row.user.value, keys[row.key.value].permissions) in trace
    && IsSubset(keys[row.key.value].permissions, row.permissions)
  }

  predicate RowOk(row: Request, r: int, keys: map<int, ApiKey>, trace: seq<Output>) {
    && Deposited(r, row.clientId, row.redirectUri, row.challenge, row.permissions) in trace
    && !row.status.Expired?
    && (row.user.None? ==> row.status.Pending?)
    && (row.key.Some? ==> KeyOk(row, r, keys, trace))
    && (Answered(row) ==> row.key.Some?)
    && (row.codeHash.Some? <==> Answered(row)) && (row.codeExpiresAt.Some? <==> Answered(row))
    && (row.jwe.Some? <==> row.status.Sealed?)
    && (row.status.Sealed? ==>
      WasSealed(r, row.codeHash.value, row.jwe.value, row.codeExpiresAt.value - CODE_TTL_SECONDS) in trace)
  }

  predicate HasKey(db: Db, r: int, k: int) {
    r in db.requests && db.requests[r].key == Some(k)
  }

  /** What a past output still says about the tables, for as long as its request exists. */
  ghost predicate StillTrue(o: Output, db: Db) {
    match o
    case Deposited(r, _, _, _, _) => r < db.nextRequest
    case KeyCreated(r, k, _, _) =>
      && r < db.nextRequest && k in db.keys
      && (r in db.requests ==> HasKey(db, r, k))
      && forall q :: HasKey(db, q, k) ==> q == r
    case WasSealed(r, code, _, _) =>
      r < db.nextRequest && (r in db.requests ==> Answered(db.requests[r]) && db.requests[r].codeHash == Some(code))
    case WasDenied(r) => r < db.nextRequest && (r in db.requests ==> db.requests[r].status.Denied?)
    case Handed(r, k, _, _, _, _, _, _) =>
      && r < db.nextRequest && k in db.keys
      && (r in db.requests ==> db.requests[r].status.Delivered? && HasKey(db, r, k))
      && forall q :: HasKey(db, q, k) ==> q == r
    case Purged(revoked) =>
      forall k :: k in revoked ==> k in db.keys && db.keys[k].revoked && forall q :: !HasKey(db, q, k)
    case _ => true
  }

  /** Two outputs of one run, in either order. */
  predicate Compatible(a: Output, b: Output) {
    && (a.Deposited? && b.Deposited? ==> a.request != b.request)
    && (a.KeyCreated? && b.KeyCreated? ==> a.request != b.request && a.key != b.key)
    && (a.WasSealed? && b.WasSealed? ==> a.request != b.request)
    && (a.Handed? && b.Handed? ==> a.request != b.request && a.key != b.key)
    && (a.WasDenied? && (b.WasDenied? || b.WasSealed? || b.Handed?) ==> a.request != b.request)
    && ((a.WasSealed? || a.Handed?) && b.WasDenied? ==> a.request != b.request)
    && (a.Purged? && b.Handed? ==> b.key !in a.revoked)
    && (a.Purged? && b.Purged? ==> a.revoked !! b.revoked)
  }

  predicate Fresh(o: Output, trace: seq<Output>) {
    forall past :: past in trace ==> Compatible(past, o)
  }

  predicate AllCompatible(trace: seq<Output>) {
    forall i, j :: 0 <= i < j < |trace| ==> Compatible(trace[i], trace[j])
  }

  predicate IdsBelow(db: Db) {
    (forall r :: r in db.requests ==> r < db.nextRequest) && forall k :: k in db.keys ==> k < db.nextKey
  }

  predicate RowsOk(db: Db, trace: seq<Output>) {
    forall r :: r in db.requests ==> RowOk(db.requests[r], r, db.keys, trace)
  }

  ghost predicate TraceTrue(db: Db, trace: seq<Output>) {
    forall o :: o in trace ==> StillTrue(o, db)
  }

  ghost predicate Inv(db: Db, trace: seq<Output>) {
    IdsBelow(db) && RowsOk(db, trace) && TraceTrue(db, trace) && AllCompatible(trace)
  }

  // ─── How one request evolves ──────────────────────────────────────────────

  /** pending to denied, or pending to sealed to delivered; what is set once stays. */
  predicate Advances(a: Request, b: Request) {
    && b.refHash == a.refHash && b.clientId == a.clientId && b.redirectUri == a.redirectUri
    && b.challenge == a.challenge && b.permissions == a.permissions && b.ttlDays == a.ttlDays
    && b.expiresAt == a.expiresAt
    && (a.user.Some? ==> b.user == a.user)
    && (a.key.Some? ==> b.key == a.key && b.wallet == a.wallet)
    && (a.codeHash.Some? ==> b.codeHash == a.codeHash && b.codeExpiresAt == a.codeExpiresAt)
    && (b.status == a.status || (a.status.Pending? && !b.status.Expired?) || (a.status.Sealed? && b.status.Delivered?))
  }

  /** The one write every answer makes: a row moves forward, perhaps with a key of a new number. */
  ghost predicate AdvancesRow(db: Db, r: int, row: Request, next: Db) {
    && r in db.requests && Advances(db.requests[r], row)
    && next == Update(db, r, row).(keys := next.keys, nextKey := next.nextKey)
    && (row.key == db.requests[r].key || row.key == Some(db.nextKey))
    && (forall k :: k in db.keys ==> k in next.keys && next.keys[k] == db.keys[k])
    && forall k :: k in next.keys ==> k < next.nextKey
  }

  lemma OutputStaysTrue(db: Db, r: int, row: Request, next: Db, past: Output)
    requires IdsBelow(db) && AdvancesRow(db, r, row, next) && StillTrue(past, db)
    ensures StillTrue(past, next)
  {
    assert forall q, k :: HasKey(next, q, k) && k in db.keys ==> HasKey(db, q, k);
    assert forall q, k :: HasKey(db, q, k) ==> HasKey(next, q, k);
  }

  lemma RowStaysOk(row: Request, r: int, keys: map<int, ApiKey>, later: map<int, ApiKey>, trace: seq<Output>, o: Output)
    requires RowOk(row, r, keys, trace)
    requires forall k :: k in keys ==> k in later && later[k].(revoked := false) == keys[k].(revoked := false)
    ensures RowOk(row, r, later, trace + [o])
  {
  }

  lemma AdvanceKeepsInvariant(db: Db, trace: seq<Output>, r: int, row: Request, next: Db, o: Output)
    requires Inv(db, trace) && AdvancesRow(db, r, row, next)
    requires RowOk(row, r, next.keys, trace + [o])
    requires StillTrue(o, next) && Fresh(o, trace)
    ensures Inv(next, trace + [o])
  {
    hide RowOk, Compatible, StillTrue, Advances;
    forall q | q in next.requests && q != r ensures RowOk(next.requests[q], q, next.keys, trace + [o]) {
      RowStaysOk(db.requests[q], q, db.keys, next.keys, trace, o);
    }
    forall past | past in trace ensures StillTrue(past, next) {
      OutputStaysTrue(db, r, row, next, past);
    }
  }

  lemma UnchangedKeepsInvariant(db: Db, trace: seq<Output>, o: Output)
    requires Inv(db, trace) && (o.Refused? || o.Changed?)
    ensures Inv(db, trace + [o])
  {
    assert StillTrue(o, db);
    forall q | q in db.requests ensures RowOk(db.requests[q], q, db.keys, trace + [o]) {
      assert RowOk(db.requests[q], q, db.keys, trace);
    }
  }

  // ─── Each operation keeps the invariant ───────────────────────────────────

  /** A lock claims a pending request for the caller and changes nothing else. */
  lemma LockClaims(h: Hashing, db: Db, c: Caller)
    requires LockForUser(h, db, c).Locked?
    ensures var lock := LockForUser(h, db, c);
      && lock.request in db.requests && db.requests[lock.request].status.Pending?
      && db.requests[lock.request].user in {None, Some(c.user)}
      && db.requests[lock.request].clientId == c.clientId && c.now < db.requests[lock.request].expiresAt
      && lock.db == Update(db, lock.request, db.requests[lock.request].(user := Some(c.user)))
  {
    var lock := LockForUser(h, db, c);
    assert db.requests == db.requests[lock.request := db.requests[lock.request]];
  }

  lemma CreateKeepsInvariant(h: Hashing, db: Db, trace: seq<Output>, uri: string, body: Deposit, now: int)
    requires Inv(db, trace)
    ensures Inv(CreateRequest(h, db, uri, body, now).db, trace + [CreateRequest(h, db, uri, body, now).output])
  {
    var reply := CreateRequest(h, db, uri, body, now);
    if reply.output.Refused? {
      UnchangedKeepsInvariant(db, trace, reply.output);
    } else {
      CreateKeepsRows(h, db, trace, uri, body, now);
      hide RowOk, RowsOk;
      forall past | past in trace ensures StillTrue(past, reply.db) && Compatible(past, reply.output) {
        assert StillTrue(past, db);
        assert forall q, k :: HasKey(reply.db, q, k) ==> HasKey(db, q, k);
      }
    }
  }

  lemma CreateKeepsRows(h: Hashing, db: Db, trace: seq<Output>, uri: string, body: Deposit, now: int)
    requires RowsOk(db, trace) && IdsBelow(db)
    requires CreateRequest(h, db, uri, body, now).output.Deposited?
    ensures RowsOk(CreateRequest(h, db, uri, body, now).db, trace + [CreateRequest(h, db, uri, body, now).output])
  {
    var reply := CreateRequest(h, db, uri, body, now);
    forall q | q in reply.db.requests ensures RowOk(reply.db.requests[q], q, reply.db.keys, trace + [reply.output]) {
      if q in db.requests { RowStaysOk(db.requests[q], q, db.keys, reply.db.keys, trace, reply.output); }
    }
  }

  lemma OpenKeepsInvariant(h: Hashing, db: Db, trace: seq<Output>, c: Caller)
    requires Inv(db, trace)
    ensures Inv(OpenRequest(h, db, c).db, trace + [OpenRequest(h, db, c).output])
  {
    var lock := LockForUser(h, db, c);
    if lock.NotLocked? {
      UnchangedKeepsInvariant(db, trace, Refused(lock.status, lock.error));
    } else {
      LockClaims(h, db, c);
      hide LockForUser;
      AdvanceKeepsInvariant(db, trace, lock.request, lock.db.requests[lock.request], lock.db, Opened(lock.request, c.user));
    }
  }

  lemma DenyKeepsInvariant(h: Hashing, db: Db, trace: seq<Output>, c: Caller)
    requires Inv(db, trace)
    ensures Inv(DenyRequest(h, db, c).db, trace + [DenyRequest(h, db, c).output])
  {
    var lock := LockForUser(h, db, c);
    if lock.NotLocked? {
      UnchangedKeepsInvariant(db, trace, Refused(lock.status, lock.error));
    } else {
      LockClaims(h, db, c);
      hide LockForUser;
      var reply := DenyRequest(h, db, c);
      assert RowOk(db.requests[lock.request], lock.request, db.keys, trace);
      NothingAnsweredYet(db, trace, lock.request, reply.output);
      AdvanceKeepsInvariant(db, trace, lock.request, reply.db.requests[lock.request], reply.db, reply.output);
    }
  }

  /** While a request is pending the run has not answered it, so answering it repeats nothing. */
  lemma NothingAnsweredYet(db: Db, trace: seq<Output>, r: int, o: Output)
    requires Inv(db, trace) && r in db.requests && db.requests[r].status.Pending?
    requires (o.WasDenied? || o.WasSealed?) && o.request == r
    ensures Fresh(o, trace)
  {
    forall past | past in trace ensures Compatible(past, o) {
      assert StillTrue(past, db);
    }
  }

  lemma NewKeyIsFresh(db: Db, trace: seq<Output>, r: int, o: Output)
    requires Inv(db, trace) && r in db.requests && db.requests[r].key.None?
    requires o.KeyCreated? && o.request == r && o.key == db.nextKey
    ensures Fresh(o, trace)
  {
    forall past | past in trace ensures Compatible(past, o) {
      assert StillTrue(past, db);
    }
  }

  lemma NoRowHasNextKey(db: Db, trace: seq<Output>)
    requires Inv(db, trace)
    ensures forall q :: !HasKey(db, q, db.nextKey)
  {
    forall q ensures !HasKey(db, q, db.nextKey) {
      assert q in db.requests ==> RowOk(db.requests[q], q, db.keys, trace);
    }
  }

  lemma NewKeyRowOk(h: Hashing, db: Db, trace: seq<Output>, c: Caller, body: KeyBody, rights: Option<bv8>)
    requires RowsOk(db, trace)
    requires CreateKey(h, db, c, body, rights).output.KeyCreated?
    ensures var reply := CreateKey(h, db, c, body, rights);
      && reply.output.request in reply.db.requests
      && RowOk(reply.db.requests[reply.output.request], reply.output.request, reply.db.keys, trace + [reply.output])
  {
    LockClaims(h, db, c);
    hide LockForUser;
    var row := db.requests[LockForUser(h, db, c).request];
    SubsetOfMeet(body.permissions, row.permissions, rights.value);
  }

  lemma NewKeyKeepsInvariant(h: Hashing, db: Db, trace: seq<Output>, c: Caller, body: KeyBody, rights: Option<bv8>)
    requires Inv(db, trace)
    ensures Inv(CreateKey(h, db, c, body, rights).db, trace + [CreateKey(h, db, c, body, rights).output])
  {
    var lock := LockForUser(h, db, c);
    var reply := CreateKey(h, db, c, body, rights);
    if reply.output.Refused? {
      UnchangedKeepsInvariant(db, trace, reply.output);
    } else {
      LockClaims(h, db, c);
      hide LockForUser;
      var row := db.requests[lock.request];
      NewKeyRowOk(h, db, trace, c, body, rights);
      NewKeyIsFresh(db, trace, lock.request, reply.output);
      NoRowHasNextKey(db, trace);
      hide Compatible, RowsOk, TraceTrue, AllCompatible, KeyRefusal, RowOk;
      assert StillTrue(reply.output, reply.db) by {
        assert forall q, k :: HasKey(reply.db, q, k) && q != lock.request ==> HasKey(db, q, k);
      }
      AdvanceKeepsInvariant(db, trace, lock.request, reply.db.requests[lock.request], reply.db, reply.output);
    }
  }

  lemma SealKeepsInvariant(h: Hashing, db: Db, trace: seq<Output>, c: Caller, jwe: string, code: string)
    requires Inv(db, trace)
    ensures Inv(SealRequest(h, db, c, jwe, code).db, trace + [SealRequest(h, db, c, jwe, code).output])
  {
    var lock := LockForUser(h, db, c);
    var reply := SealRequest(h, db, c, jwe, code);
    if reply.output.Refused? {
      UnchangedKeepsInvariant(db, trace, reply.output);
    } else {
      LockClaims(h, db, c);
      hide LockForUser;
      assert RowOk(db.requests[lock.request], lock.request, db.keys, trace);
      NothingAnsweredYet(db, trace, lock.request, reply.output);
      AdvanceKeepsInvariant(db, trace, lock.request, reply.db.requests[lock.request], reply.db, reply.output);
    }
  }

  lemma RedeemKeepsInvariant(h: Hashing, db: Db, trace: seq<Output>, body: TokenBody, now: int)
    requires Inv(db, trace)
    ensures Inv(ExchangeCode(h, db, body, now).db, trace + [ExchangeCode(h, db, body, now).output])
  {
    var reply := ExchangeCode(h, db, body, now);
    var found := RequestsByCode(db, h.sha256(body.code));
    if found != {} { assert RowOk(db.requests[Least(found)], Least(found), db.keys, trace); }
    if reply.output.Refused? {
      UnchangedKeepsInvariant(db, trace, reply.output);
    } else {
      var r := Least(found);
      forall past | past in trace ensures Compatible(past, reply.output) {
        assert StillTrue(past, db);
      }
      OwnKeyOnly(db, trace, r);
      AdvanceKeepsInvariant(db, trace, r, reply.db.requests[r], reply.db, reply.output);
    }
  }

  /** A key belongs to one request only. */
  lemma OwnKeyOnly(db: Db, trace: seq<Output>, r: int)
    requires Inv(db, trace) && r in db.requests && db.requests[r].key.Some?
    ensures forall q :: HasKey(db, q, db.requests[r].key.value) ==> q == r
  {
    var k := db.requests[r].key.value;
    assert RowOk(db.requests[r], r, db.keys, trace);
    assert StillTrue(KeyCreated(r, k, db.requests[r].user.value, db.keys[k].permissions), db);
  }

  // ─── A late purge ─────────────────────────────────────────────────────────

  /** Between two states of a run requests only move forward or go, keys stay, and what is revoked stays revoked. */
  predicate Later(db: Db, next: Db) {
    Moves(db, next, true) && KeysStay(db, next)
  }

  lemma AdvancesTransitive(a: Request, b: Request, c: Request)
    requires Advances(a, b) && Advances(b, c)
    ensures Advances(a, c)
  {
  }

  lemma LaterTransitive(a: Db, b: Db, c: Db)
    requires Later(a, b) && Later(b, c)
    ensures Later(a, c)
  {
    hide Advances;
    forall r | r in c.requests && r < a.nextRequest ensures r in a.requests && Advances(a.requests[r], c.requests[r]) {
      AdvancesTransitive(a.requests[r], b.requests[r], c.requests[r]);
    }
  }

  lemma LaterSame(db: Db)
    requires IdsBelow(db)
    ensures Later(db, db)
  {
  }

  lemma LatePurgeMoves(selected: Db, db: Db, now: int)
    ensures Later(db, LatePurge(selected, db, now).db)
  {
  }

  lemma LatePurgeOnlyDrops(selected: Db, db: Db, now: int)
    ensures var after := LatePurge(selected, db, now).db;
      && (forall q, k :: HasKey(after, q, k) ==> HasKey(db, q, k) && now < db.requests[q].expiresAt)
      && (forall q :: q in after.requests ==> q in db.requests && after.requests[q] == db.requests[q])
      && (forall k :: k in after.keys && !after.keys[k].revoked ==> k in db.keys && !db.keys[k].revoked)
  {
  }

  lemma RecordedKey(db: Db, trace: seq<Output>, r: int) returns (o: Output)
    requires Inv(db, trace) && r in db.requests && db.requests[r].key.Some?
    ensures o in trace && o.KeyCreated? && o.request == r && o.key == db.requests[r].key.value && r < db.nextRequest
  {
    assert RowOk(db.requests[r], r, db.keys, trace);
    var k := db.requests[r].key.value;
    o := KeyCreated(r, k, db.requests[r].user.value, db.keys[k].permissions);
  }

  /** The request of a selected key is the only one that may still hold it, and it has expired. */
  lemma SelectedExpires(selected: Db, was: seq<Output>, db: Db, trace: seq<Output>, now: int, k: int)
    requires Inv(selected, was) && Inv(db, trace) && Later(selected, db) && was <= trace && k in PurgedKeys(selected, now)
    ensures forall q :: HasKey(db, q, k) ==> db.requests[q].expiresAt <= now
  {
    var r :| r in selected.requests && Undelivered(selected.requests[r], now) && selected.requests[r].key.value == k;
    var o := RecordedKey(selected, was, r);
    hide RowOk, Compatible, PurgedKeys;
    assert o in trace && StillTrue(o, db);
  }

  lemma PurgedBefore(past: Output, selected: Db, db: Db, now: int)
    requires past.Purged? && StillTrue(past, db)
    ensures past.revoked !! RevokedLate(selected, db, now)
  {
    hide PurgedKeys;
    forall k | k in past.revoked ensures k !in RevokedLate(selected, db, now) {
      assert k in db.keys && db.keys[k].revoked;
    }
  }

  lemma LatePurgeIsFresh(selected: Db, db: Db, trace: seq<Output>, now: int)
    requires Inv(db, trace)
    ensures Fresh(LatePurge(selected, db, now).output, trace)
  {
    hide RowOk, PurgedKeys, RevokedLate;
    forall past | past in trace ensures Compatible(past, LatePurge(selected, db, now).output) {
      assert StillTrue(past, db);
      if past.Purged? { PurgedBefore(past, selected, db, now); }
    }
  }

  lemma LatePurgeStaysTrue(selected: Db, was: seq<Output>, db: Db, trace: seq<Output>, now: int)
    requires Inv(selected, was) && Inv(db, trace) && Later(selected, db) && was <= trace
    ensures StillTrue(LatePurge(selected, db, now).output, LatePurge(selected, db, now).db)
  {
    var next := LatePurge(selected, db, now).db;
    LatePurgeOnlyDrops(selected, db, now);
    forall k | k in RevokedLate(selected, db, now) ensures k in next.keys && next.keys[k].revoked && forall q :: !HasKey(next, q, k) {
      SelectedExpires(selected, was, db, trace, now, k);
      hide Inv, Later;
    }
    hide Inv, Later;
  }

  /** Whatever has committed since its selection, a purge keeps the invariant. */
  lemma LatePurgeKeepsInvariant(selected: Db, was: seq<Output>, db: Db, trace: seq<Output>, now: int)
    requires Inv(selected, was) && Inv(db, trace) && Later(selected, db) && was <= trace
    ensures Inv(LatePurge(selected, db, now).db, trace + [LatePurge(selected, db, now).output])
  {
    var reply := LatePurge(selected, db, now);
    LatePurgeIsFresh(selected, db, trace, now);
    LatePurgeStaysTrue(selected, was, db, trace, now);
    LatePurgeOnlyDrops(selected, db, now);
    hide Compatible, RevokedLate, PurgedKeys, Later;
    assert RowsOk(reply.db, trace + [reply.output]) by {
      forall q | q in reply.db.requests ensures RowOk(reply.db.requests[q], q, reply.db.keys, trace + [reply.output]) {
        RowStaysOk(db.requests[q], q, db.keys, reply.db.keys, trace, reply.output);
      }
    }
    hide RowOk;
    forall past | past in trace ensures StillTrue(past, reply.db) {
      assert StillTrue(past, db);
    }
  }

  lemma PurgeKeepsInvariant(db: Db, trace: seq<Output>, now: int)
    requires Inv(db, trace)
    ensures Inv(Purge(db, now).db, trace + [Purge(db, now).output])
  {
    hide Inv, Later;
    LatePurgeOfSame(db, now);
    assert Later(db, db) by { InvIds(db, trace); LaterSame(db); }
    LatePurgeKeepsInvariant(db, trace, db, trace, now);
  }

  lemma InvIds(db: Db, trace: seq<Output>)
    requires Inv(db, trace)
    ensures IdsBelow(db)
  {
  }

  lemma RevokeKeepsInvariant(h: Hashing, db: Db, trace: seq<Output>, k: int)
    requires Inv(db, trace)
    ensures Inv(Step(h, db, RevokeByOwner(k)).db, trace + [Changed])
  {
    var next := Step(h, db, RevokeByOwner(k)).db;
    assert forall q, key :: HasKey(next, q, key) <==> HasKey(db, q, key);
    forall q | q in next.requests ensures RowOk(next.requests[q], q, next.keys, trace + [Changed]) {
      RowStaysOk(db.requests[q], q, db.keys, next.keys, trace, Changed);
    }
    hide RowOk;
    forall past | past in trace ensures StillTrue(past, next) { assert StillTrue(past, db); }
  }

  lemma StepKeepsInvariant(h: Hashing, db: Db, trace: seq<Output>, e: Event)
    requires Inv(db, trace)
    ensures Inv(Step(h, db, e).db, trace + [Step(h, db, e).output])
  {
    match e
    case Create(uri, deposit, now) => CreateKeepsInvariant(h, db, trace, uri, deposit, now);
    case Open(caller) => OpenKeepsInvariant(h, db, trace, caller);
    case Deny(caller) => DenyKeepsInvariant(h, db, trace, caller);
    case NewKey(caller, body, rights) => NewKeyKeepsInvariant(h, db, trace, caller, body, rights);
    case Seal(caller, jwe, code) => SealKeepsInvariant(h, db, trace, caller, jwe, code);
    case Redeem(token, now) => RedeemKeepsInvariant(h, db, trace, token, now);
    case PurgeAt(now, _) => PurgeKeepsInvariant(db, trace, now);
    case RevokeByOwner(k) => RevokeKeepsInvariant(h, db, trace, k);
    case SetClient(clientId, client) =>
      hide RowOk, StillTrue, Compatible;
      UnchangedKeepsInvariant(db, trace, Changed);
      ClientsDoNotMatter(db, trace + [Changed], db.clients[clientId := client]);
  }

  lemma ClientsDoNotMatter(db: Db, trace: seq<Output>, clients: map<string, Client>)
    requires Inv(db, trace)
    ensures Inv(db.(clients := clients), trace)
  {
    hide RowOk, Compatible;
    var next := db.(clients := clients);
    assert forall q, k :: HasKey(next, q, k) <==> HasKey(db, q, k);
    forall past | past in trace ensures StillTrue(past, next) { assert StillTrue(past, db); }
  }

  // ─── How the tables evolve ────────────────────────────────────────────────

  /** From one set of tables to the next, a request is left alone, moved forward, or purged. */
  predicate Moves(db: Db, next: Db, purge: bool) {
    && db.nextRequest <= next.nextRequest
    && (forall r :: r in next.requests && r < db.nextRequest ==> r in db.requests && Advances(db.requests[r], next.requests[r]))
    && (!purge ==> forall r :: r in db.requests ==> r in next.requests)
  }

  lemma RowMoves(db: Db, r: int, next: Db)
    requires r in db.requests && r in next.requests && Advances(db.requests[r], next.requests[r])
    requires next == Update(db, r, next.requests[r]).(keys := next.keys, nextKey := next.nextKey)
    ensures Moves(db, next, false)
  {
  }

  lemma SealMoves(h: Hashing, db: Db, trace: seq<Output>, c: Caller, jwe: string, code: string)
    requires RowsOk(db, trace)
    ensures Moves(db, SealRequest(h, db, c, jwe, code).db, false)
  {
    if LockForUser(h, db, c).Locked? {
      LockClaims(h, db, c);
      hide LockForUser;
      var r := LockForUser(h, db, c).request;
      assert RowOk(db.requests[r], r, db.keys, trace);
      if SealRequest(h, db, c, jwe, code).output.WasSealed? { RowMoves(db, r, SealRequest(h, db, c, jwe, code).db); }
    }
  }

  lemma NewKeyMoves(h: Hashing, db: Db, c: Caller, body: KeyBody, rights: Option<bv8>)
    ensures Moves(db, CreateKey(h, db, c, body, rights).db, false)
  {
    if LockForUser(h, db, c).Locked? {
      LockClaims(h, db, c);
      hide LockForUser;
      var r := LockForUser(h, db, c).request;
      if CreateKey(h, db, c, body, rights).output.KeyCreated? { RowMoves(db, r, CreateKey(h, db, c, body, rights).db); }
    }
  }

  lemma OpenOrDenyMoves(h: Hashing, db: Db, c: Caller)
    ensures Moves(db, OpenRequest(h, db, c).db, false) && Moves(db, DenyRequest(h, db, c).db, false)
  {
    if LockForUser(h, db, c).Locked? {
      LockClaims(h, db, c);
      hide LockForUser;
      RowMoves(db, LockForUser(h, db, c).request, OpenRequest(h, db, c).db);
      RowMoves(db, LockForUser(h, db, c).request, DenyRequest(h, db, c).db);
    }
  }

  lemma RedeemMoves(h: Hashing, db: Db, token: TokenBody, now: int)
    ensures Moves(db, ExchangeCode(h, db, token, now).db, false)
  {
  }

  lemma StepMoves(h: Hashing, db: Db, trace: seq<Output>, e: Event)
    requires Inv(db, trace)
    ensures Moves(db, Step(h, db, e).db, e.PurgeAt?)
  {
    hide RowOk, StillTrue, Compatible, AllCompatible, TraceTrue;
    match e
    case Open(c) => OpenOrDenyMoves(h, db, c);
    case Deny(c) => OpenOrDenyMoves(h, db, c);
    case NewKey(c, body, rights) => NewKeyMoves(h, db, c, body, rights);
    case Seal(c, jwe, code) => SealMoves(h, db, trace, c, jwe, code);
    case Redeem(token, now) => RedeemMoves(h, db, token, now);
    case _ =>
  }

  /** A revoked key stays revoked, and no key is lost. */
  predicate KeysStay(db: Db, next: Db) {
    forall k :: k in db.keys ==> k in next.keys && next.keys[k].wallet == db.keys[k].wallet && (db.keys[k].revoked ==> next.keys[k].revoked)
  }

  lemma StepKeysStay(h: Hashing, db: Db, e: Event)
    requires IdsBelow(db)
    ensures KeysStay(db, Step(h, db, e).db)
  {
    match e
    case Open(c) => if LockForUser(h, db, c).Locked? { LockClaims(h, db, c); }
    case Deny(c) => if LockForUser(h, db, c).Locked? { LockClaims(h, db, c); }
    case NewKey(c, _, _) => if LockForUser(h, db, c).Locked? { LockClaims(h, db, c); }
    case Seal(c, _, _) => if LockForUser(h, db, c).Locked? { LockClaims(h, db, c); }
    case _ =>
  }

  lemma StepLater(h: Hashing, db: Db, trace: seq<Output>, e: Event)
    requires Inv(db, trace)
    ensures Later(db, Step(h, db, e).db)
  {
    StepMoves(h, db, trace, e);
    InvIds(db, trace);
    StepKeysStay(h, db, e);
    hide Step, Inv, Advances;
  }

  /** What an earlier state of a run has to do with a later one. */
  ghost predicate Earlier(h: Hashing, events: seq<Event>, i: nat)
    requires i <= |events|
  {
    Later(Run(h, events[..i]).db, Run(h, events).db) && Run(h, events[..i]).trace == Run(h, events).trace[..i]
  }

  lemma StepFromKeeps(h: Hashing, selected: Db, was: seq<Output>, db: Db, trace: seq<Output>, e: Event)
    requires Inv(selected, was) && Inv(db, trace) && Later(selected, db) && was <= trace
    ensures var reply := StepFrom(h, selected, db, e); Inv(reply.db, trace + [reply.output]) && Later(db, reply.db)
  {
    hide Inv, Later, Step, LatePurge;
    if e.PurgeAt? {
      LatePurgeKeepsInvariant(selected, was, db, trace, e.now);
      LatePurgeMoves(selected, db, e.now);
    } else {
      StepKeepsInvariant(h, db, trace, e);
      StepLater(h, db, trace, e);
    }
  }

  lemma {:induction false} RunFacts(h: Hashing, events: seq<Event>)
    ensures Inv(Run(h, events).db, Run(h, events).trace)
    ensures forall i: nat :: i <= |events| ==> Earlier(h, events, i)
    decreases |events|
  {
    hide Inv, StepFrom, Later;
    if events == [] {
      EmptyInvariant();
      LaterSame(EMPTY);
      assert events[..0] == events;
    } else {
      var n := |events| - 1;
      var front, e := events[..n], events[n];
      RunFacts(h, front);
      var from := if e.PurgeAt? && e.selected < n then e.selected else n;
      assert front[..from] == events[..from] && Earlier(h, front, from);
      RunFacts(h, events[..from]);
      assert SelectedFrom(h, events) == Run(h, events[..from]).db;
      StepFromKeeps(h, Run(h, events[..from]).db, Run(h, events[..from]).trace, Run(h, front).db, Run(h, front).trace, e);
      var next := Run(h, events);
      assert Inv(next.db, next.trace) && Later(Run(h, front).db, next.db) && next.trace[..n] == Run(h, front).trace;
      hide Run, SelectedFrom;
      forall i: nat | i <= |events| ensures Earlier(h, events, i) {
        if i <= n {
          assert front[..i] == events[..i] && Earlier(h, front, i);
          LaterTransitive(Run(h, events[..i]).db, Run(h, front).db, Run(h, events).db);
        } else {
          assert events[..i] == events;
          InvIds(Run(h, events).db, Run(h, events).trace);
          LaterSame(Run(h, events).db);
        }
      }
    }
  }

  /** After every run, however late its purges commit, rows, keys and answers agree. */
  lemma RunKeepsInvariant(h: Hashing, events: seq<Event>)
    ensures Inv(Run(h, events).db, Run(h, events).trace)
  {
    hide Inv;
    RunFacts(h, events);
  }

  lemma EmptyInvariant()
    ensures Inv(EMPTY, [])
  {
  }
}
