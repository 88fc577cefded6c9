/**
  "Connect with Harpocrate": a request is deposited, claimed by a user, answered with a key and a
  sealed envelope or denied, and redeemed once with a code. Each operation is one transaction.

  Hash functions are parameters. The unique indexes on the reference and on the code reject an
  insertion that would collide.
*/
module ConnectFlow {
  import opened Options
  import opened Permissions
  import opened Sets

  const PENDING_TTL_SECONDS := 15 * 60
  const CODE_TTL_SECONDS := 60
  const SECONDS_PER_DAY := 86_400

  datatype Hashing = Hashing(sha256: string -> string, s256: string -> string)

  datatype Status = Pending | Denied | Sealed | Delivered | Expired

  datatype Client = Client(redirectUris: set<string>, active: bool)

  datatype Request = Request(
    refHash: string, clientId: string, redirectUri: string, challenge: string,
    permissions: bv8, ttlDays: Option<int>, expiresAt: int,
    status: Status, user: Option<int>, wallet: Option<int>, key: Option<int>,
    jwe: Option<string>, codeHash: Option<string>, codeExpiresAt: Option<int>)

  datatype ApiKey = ApiKey(wallet: int, owner: int, permissions: bv8, expiresAt: Option<int>, revoked: bool)

  /** Rows by primary key; ids are never handed out twice. */
  datatype Db = Db(
    clients: map<string, Client>, requests: map<int, Request>, keys: map<int, ApiKey>,
    nextRequest: int, nextKey: int)

  datatype Deposit = Deposit(clientId: string, redirectUri: string, challenge: string, permissions: bv8, ttlDays: Option<int>)

  datatype KeyBody = KeyBody(wallet: int, permissions: bv8, ttlDays: Option<int>)

  datatype TokenBody = TokenBody(code: string, clientId: string, redirectUri: string, verifier: string)

  /** Who is asking, for which request, and when. */
  datatype Caller = Caller(requestUri: string, clientId: string, user: int, now: int)

  /** What one operation did, as the outside sees it. */
  datatype Output =
    | Deposited(request: int, clientId: string, redirectUri: string, challenge: string, permissions: bv8)
    | Opened(request: int, user: int)
    | WasDenied(request: int)
    | KeyCreated(request: int, key: int, owner: int, permissions: bv8)
    | WasSealed(request: int, codeHash: string, envelope: string, at: int)
    | Handed(request: int, key: int, envelope: string, codeHash: string, clientId: string, redirectUri: string, proof: string, at: int)
    | Purged(revoked: set<int>)
    | Refused(status: int, error: string)
    | Changed

  datatype Reply = Reply(db: Db, output: Output)

  function Refuse(db: Db, status: int, error: string): Reply {
    Reply(db, Refused(status, error))
  }

  function RequestsByRef(db: Db, refHash: string): set<int> {
    set r | r in db.requests && db.requests[r].refHash == refHash
  }

  function RequestsByCode(db: Db, codeHash: string): set<int> {
    set r | r in db.requests && db.requests[r].codeHash == Some(codeHash)
  }

  function ActiveClient(db: Db, clientId: string): bool {
    clientId in db.clients && db.clients[clientId].active
  }

  function Update(db: Db, r: int, row: Request): Db {
    db.(requests := db.requests[r := row])
  }

  function CreateRequest(h: Hashing, db: Db, uri: string, body: Deposit, now: int): Reply {
    if !ActiveClient(db, body.clientId) then Refuse(db, 400, "invalid_client")
    else if body.redirectUri !in db.clients[body.clientId].redirectUris then Refuse(db, 400, "invalid_redirect_uri")
    else if RequestsByRef(db, h.sha256(uri)) != {} then Refuse(db, 500, "unique_violation")
    else
      var row := Request(h.sha256(uri), body.clientId, body.redirectUri, body.challenge, body.permissions,
        body.ttlDays, now + PENDING_TTL_SECONDS, Pending, None, None, None, None, None, None);
      Reply(Update(db, db.nextRequest, row).(nextRequest := db.nextRequest + 1),
        Deposited(db.nextRequest, body.clientId, body.redirectUri, body.challenge, body.permissions))
  }

  /** `_check_usable` on the row found by reference, or the refusal it raises. */
  datatype Lock = Locked(db: Db, request: int) | NotLocked(status: int, error: string)

  function CheckUsable(h: Hashing, db: Db, c: Caller): Lock {
    var found := RequestsByRef(db, h.sha256(c.requestUri));
    if found == {} || !ActiveClient(db, db.requests[Least(found)].clientId)
      || db.requests[Least(found)].clientId != c.clientId then NotLocked(404, "request_not_found")
    else
      var row := db.requests[Least(found)];
      if row.status.Expired? || row.expiresAt <= c.now then NotLocked(410, "request_expired")
      else if !row.status.Pending? then NotLocked(409, "request_not_pending")
      else Locked(db, Least(found))
  }

  /** The first user to open a request claims it; nobody else sees it from then on. */
  function LockForUser(h: Hashing, db: Db, c: Caller): Lock {
    var usable := CheckUsable(h, db, c);
    if usable.NotLocked? then usable
    else
      var row := db.requests[usable.request];
      if row.user.None? then Locked(Update(db, usable.request, row.(user := Some(c.user))), usable.request)
      else if row.user != Some(c.user) then NotLocked(404, "request_not_found")
      else usable
  }

  function OpenRequest(h: Hashing, db: Db, c: Caller): Reply {
    match LockForUser(h, db, c)
    case NotLocked(status, error) => Refuse(db, status, error)
    case Locked(db1, r) => Reply(db1, Opened(r, c.user))
  }

  function DenyRequest(h: Hashing, db: Db, c: Caller): Reply {
    match LockForUser(h, db, c)
    case NotLocked(status, error) => Refuse(db, status, error)
    case Locked(db1, r) => Reply(Update(db1, r, db1.requests[r].(status := Denied)), WasDenied(r))
  }

  /** The user may only shorten the lifetime that was asked for. */
  predicate TtlAllowed(requested: Option<int>, ttlDays: Option<int>) {
    requested.None? || (ttlDays.Some? && ttlDays.value <= requested.value)
  }

  datatype Refusal = Refusal(status: int, error: string)

  /** Why a key is not created for a locked request; `rights` is None when the wallet is not visible. */
  function KeyRefusal(row: Request, body: KeyBody, rights: Option<bv8>): Option<Refusal> {
    if row.key.Some? then Some(Refusal(409, "api_key_already_created"))
    else if rights.None? then Some(Refusal(404, "wallet_not_found"))
    else if !Has(rights.value, SHARE) then Some(Refusal(403, "missing_share_permission"))
    else if !IsSubset(body.permissions, row.permissions & rights.value) then Some(Refusal(400, "permissions_exceed_request"))
    else if !TtlAllowed(row.ttlDays, body.ttlDays) then Some(Refusal(400, "ttl_exceeds_request"))
    else None
  }

  function KeyExpiry(body: KeyBody, now: int): Option<int> {
    if body.ttlDays.None? then None else Some(now + body.ttlDays.value * SECONDS_PER_DAY)
  }

  function CreateKey(h: Hashing, db: Db, c: Caller, body: KeyBody, rights: Option<bv8>): Reply {
    match LockForUser(h, db, c)
    case NotLocked(status, error) => Refuse(db, status, error)
    case Locked(db1, r) =>
      var row := db1.requests[r];
      var refusal := KeyRefusal(row, body, rights);
      if refusal.Some? then Refuse(db, refusal.value.status, refusal.value.error)
      else
        var k := db1.nextKey;
        var key := ApiKey(body.wallet, c.user, body.permissions, KeyExpiry(body, c.now), false);
        Reply(Update(db1, r, row.(wallet := Some(body.wallet), key := Some(k))).(keys := db1.keys[k := key], nextKey := k + 1),
          KeyCreated(r, k, c.user, body.permissions))
  }

  function SealRequest(h: Hashing, db: Db, c: Caller, jwe: string, code: string): Reply {
    match LockForUser(h, db, c)
    case NotLocked(status, error) => Refuse(db, status, error)
    case Locked(db1, r) =>
      var row := db1.requests[r];
      if row.key.None? then Refuse(db, 409, "api_key_missing")
      else if RequestsByCode(db1, h.sha256(code)) != {} then Refuse(db, 500, "unique_violation")
      else
        Reply(Update(db1, r, row.(status := Sealed, jwe := Some(jwe), codeHash := Some(h.sha256(code)),
            codeExpiresAt := Some(c.now + CODE_TTL_SECONDS))),
          WasSealed(r, h.sha256(code), jwe, c.now))
  }

  /** The audit reason of a refused exchange, or None. */
  function Rejection(h: Hashing, row: Request, body: TokenBody, now: int): Option<string> {
    if row.status.Delivered? then Some("connect_code.replayed")
    else if !row.status.Sealed? || row.codeExpiresAt.None? || row.codeExpiresAt.value <= now then Some("connect_code.expired")
    else if row.clientId != body.clientId || row.redirectUri != body.redirectUri then Some("connect_code.client_mismatch")
    else if h.s256(body.verifier) != row.challenge then Some("connect_code.pkce_failed")
    else None
  }

  /** Every refusal is the same answer; a delivered envelope is erased in the same write. */
  function ExchangeCode(h: Hashing, db: Db, body: TokenBody, now: int): Reply {
    var found := RequestsByCode(db, h.sha256(body.code));
    if found == {} || db.requests[Least(found)].clientId !in db.clients then Refuse(db, 400, "invalid_grant")
    else
      var row := db.requests[Least(found)];
      if Rejection(h, row, body, now).Some? then Refuse(db, 400, "invalid_grant")
      else
        var db1 := Update(db, Least(found), row.(status := Delivered, jwe := None));
        if row.jwe.None? || row.key.None? || row.wallet.None? then Refuse(db1, 400, "invalid_grant")
        else Reply(db1, Handed(Least(found), row.key.value, row.jwe.value, h.sha256(body.code),
          body.clientId, body.redirectUri, h.s256(body.verifier), now))
  }

  predicate Undelivered(row: Request, now: int) {
    && row.expiresAt <= now && (row.status.Pending? || row.status.Sealed?)
    && row.key.Some? && row.wallet.Some?
  }

  /** The keys a purge revokes: attached to an expired request nobody answered or redeemed. */
  function PurgedKeys(db: Db, now: int): set<int> {
    set r | r in db.requests && Undelivered(db.requests[r], now)
      && db.requests[r].key.value in db.keys
      && db.keys[db.requests[r].key.value].wallet == db.requests[r].wallet.value
      && !db.keys[db.requests[r].key.value].revoked
      :: db.requests[r].key.value
  }

  function RevokeAll(keys: map<int, ApiKey>, revoked: set<int>): map<int, ApiKey> {
    map k | k in keys :: if k in revoked then keys[k].(revoked := true) else keys[k]
  }

  function Purge(db: Db, now: int): Reply {
    var live := map r | r in db.requests && now < db.requests[r].expiresAt :: db.requests[r];
    Reply(db.(keys := RevokeAll(db.keys, PurgedKeys(db, now)), requests := live), Purged(PurgedKeys(db, now)))
  }

  // ─── The service, updating its tables in place ────────────────────────────

  class Service {
    const h: Hashing
    var clients: map<string, Client>
    var requests: map<int, Request>
    var keys: map<int, ApiKey>
    var nextRequest: int
    var nextKey: int

    function Rows(): Db
      reads this
    {
      Db(clients, requests, keys, nextRequest, nextKey)
    }

    constructor (h: Hashing, clients: map<string, Client>)
      ensures this.h == h && Rows() == Db(clients, map[], map[], 0, 0)
    {
      this.h, this.clients := h, clients;
      requests, keys, nextRequest, nextKey := map[], map[], 0, 0;
    }

    method CreateOne(uri: string, body: Deposit, now: int) returns (output: Output)
      modifies this`requests, this`nextRequest
      ensures Reply(Rows(), output) == CreateRequest(h, old(Rows()), uri, body, now)
    {
      if body.clientId !in clients || !clients[body.clientId].active { return Refused(400, "invalid_client"); }
      if body.redirectUri !in clients[body.clientId].redirectUris { return Refused(400, "invalid_redirect_uri"); }
      if RequestsByRef(Rows(), h.sha256(uri)) != {} { return Refused(500, "unique_violation"); }
      var id := nextRequest;
      requests := requests[id := Request(h.sha256(uri), body.clientId, body.redirectUri, body.challenge,
        body.permissions, body.ttlDays, now + PENDING_TTL_SECONDS, Pending, None, None, None, None, None, None)];
      nextRequest := id + 1;
      return Deposited(id, body.clientId, body.redirectUri, body.challenge, body.permissions);
    }

    /** On success the request is claimed for the caller; otherwise nothing has changed. */
    method LockRequest(c: Caller) returns (lock: Lock)
      modifies this`requests
      ensures lock == LockForUser(h, old(Rows()), c)
      ensures Rows() == if lock.Locked? then lock.db else old(Rows())
      ensures lock.Locked? ==> lock.request in requests
    {
      var usable := CheckUsable(h, Rows(), c);
      if usable.NotLocked? { return usable; }
      var r := usable.request;
      if requests[r].user.None? {
        requests := requests[r := requests[r].(user := Some(c.user))];
        return Locked(Rows(), r);
      }
      if requests[r].user != Some(c.user) { return NotLocked(404, "request_not_found"); }
      return usable;
    }

    method DenyOne(c: Caller) returns (output: Output)
      modifies this`requests
      ensures Reply(Rows(), output) == DenyRequest(h, old(Rows()), c)
    {
      var lock := LockRequest(c);
      if lock.NotLocked? { return Refused(lock.status, lock.error); }
      requests := requests[lock.request := requests[lock.request].(status := Denied)];
      return WasDenied(lock.request);
    }

    /** A refusal after the lock rolls the claim back with the rest of the transaction. */
    method CreateApiKey(c: Caller, body: KeyBody, rights: Option<bv8>) returns (output: Output)
      modifies this`requests, this`keys, this`nextKey
      ensures Reply(Rows(), output) == CreateKey(h, old(Rows()), c, body, rights)
    {
      hide LockForUser, KeyRefusal;
      var before := requests;
      var lock := LockRequest(c);
      if lock.NotLocked? { return Refused(lock.status, lock.error); }
      var row := requests[lock.request];
      var refusal := KeyRefusal(row, body, rights);
      if refusal.Some? {
        requests := before;
        return Refused(refusal.value.status, refusal.value.error);
      }
      var k := nextKey;
      keys := keys[k := ApiKey(body.wallet, c.user, body.permissions, KeyExpiry(body, c.now), false)];
      nextKey := k + 1;
      requests := requests[lock.request := row.(wallet := Some(body.wallet), key := Some(k))];
      return KeyCreated(lock.request, k, c.user, body.permissions);
    }

    method SealOne(c: Caller, jwe: string, code: string) returns (output: Output)
      modifies this`requests
      ensures Reply(Rows(), output) == SealRequest(h, old(Rows()), c, jwe, code)
    {
      var before := requests;
      var lock := LockRequest(c);
      if lock.NotLocked? { return Refused(lock.status, lock.error); }
      var row := requests[lock.request];
      if row.key.None? { requests := before; return Refused(409, "api_key_missing"); }
      if RequestsByCode(Rows(), h.sha256(code)) != {} { requests := before; return Refused(500, "unique_violation"); }
      requests := requests[lock.request := row.(status := Sealed, jwe := Some(jwe),
        codeHash := Some(h.sha256(code)), codeExpiresAt := Some(c.now + CODE_TTL_SECONDS))];
      return WasSealed(lock.request, h.sha256(code), jwe, c.now);
    }

    method Exchange(body: TokenBody, now: int) returns (output: Output)
      modifies this`requests
      ensures Reply(Rows(), output) == ExchangeCode(h, old(Rows()), body, now)
    {
      var found := RequestsByCode(Rows(), h.sha256(body.code));
      if found == {} || requests[Least(found)].clientId !in clients { return Refused(400, "invalid_grant"); }
      var r := Least(found);
      var row := requests[r];
      var reason := Rejection(h, row, body, now);
      if reason.Some? { return Refused(400, "invalid_grant"); }
      requests := requests[r := row.(status := Delivered, jwe := None)];
      if row.jwe.None? || row.key.None? || row.wallet.None? { return Refused(400, "invalid_grant"); }
      return Handed(r, row.key.value, row.jwe.value, h.sha256(body.code), body.clientId, body.redirectUri, h.s256(body.verifier), now);
    }

    /** `UPDATE api_keys SET revoked_at WHERE id AND wallet_id AND revoked_at IS NULL`. */
    method RevokeKey(k: int, wallet: int) returns (found: bool)
      modifies this`keys
      ensures found <==> k in old(keys) && old(keys)[k].wallet == wallet && !old(keys)[k].revoked
      ensures keys == if found then old(keys)[k := old(keys)[k].(revoked := true)] else old(keys)
    {
      found := k in keys && keys[k].wallet == wallet && !keys[k].revoked;
      if found {
        keys := keys[k := keys[k].(revoked := true)];
      }
    }

    method PurgeExpired(now: int) returns (output: Output)
      modifies this`keys, this`requests
      ensures Reply(Rows(), output) == Purge(old(Rows()), now)
    {
      var expired := set r | r in requests && Undelivered(requests[r], now);
      var todo := expired;
      var revoked := {};
      while todo != {}
        invariant todo <= expired
        invariant requests == old(requests) && revoked <= keys.Keys
        invariant keys == RevokeAll(old(keys), revoked)
        invariant revoked == set r | r in expired - todo && requests[r].key.value in old(keys)
          && old(keys)[requests[r].key.value].wallet == requests[r].wallet.value
          && !old(keys)[requests[r].key.value].revoked :: requests[r].key.value
        decreases todo
      {
        var r := Least(todo);
        todo := todo - {r};
        var k := requests[r].key.value;
        var found := RevokeKey(k, requests[r].wallet.value);
        if found { revoked := revoked + {k}; }
      }
      assert revoked == PurgedKeys(old(Rows()), now);
      requests := map r | r in requests && now < requests[r].expiresAt :: requests[r];
      return Purged(revoked);
    }
  }
}
