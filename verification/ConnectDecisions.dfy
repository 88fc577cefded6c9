/**
  When each answer of the connect flow is given and what it writes, read off the stored rows: who may
  answer a request, when a key is created, sealed and redeemed, and what a purge revokes.
*/
module ConnectDecisions {
  import opened Options
  import opened Permissions
  import opened Sets
  import opened ConnectFlow
  import opened ConnectRuns
  import opened ConnectTheorems

  // ─── One request per reference ────────────────────────────────────────────

  predicate RefsUnique(db: Db) {
    forall a, b :: a in db.requests && b in db.requests && db.requests[a].refHash == db.requests[b].refHash ==> a == b
  }

  /** Other operations write rows in place, with the reference they had, or remove them. */
  predicate RefsKept(db: Db, next: Db) {
    forall r :: r in next.requests ==> r in db.requests && next.requests[r].refHash == db.requests[r].refHash
  }

  lemma CreateKeepsRefsUnique(h: Hashing, db: Db, uri: string, body: Deposit, now: int)
    requires RefsUnique(db)
    ensures RefsUnique(CreateRequest(h, db, uri, body, now).db)
  {
    assert forall r :: r in db.requests && db.requests[r].refHash == h.sha256(uri) ==> r in RequestsByRef(db, h.sha256(uri));
  }

  lemma AnswerKeepsRefs(h: Hashing, db: Db, c: Caller, body: KeyBody, rights: Option<bv8>, jwe: string, code: string)
    ensures RefsKept(db, OpenRequest(h, db, c).db) && RefsKept(db, DenyRequest(h, db, c).db)
    ensures RefsKept(db, CreateKey(h, db, c, body, rights).db) && RefsKept(db, SealRequest(h, db, c, jwe, code).db)
  {
    if LockForUser(h, db, c).Locked? { LockClaims(h, db, c); }
    hide LockForUser, KeyRefusal, RequestsByCode;
  }

  lemma StepKeepsRefs(h: Hashing, selected: Db, db: Db, e: Event)
    requires !e.Create?
    ensures RefsKept(db, StepFrom(h, selected, db, e).db)
  {
    hide OpenRequest, DenyRequest, CreateKey, SealRequest, RefsKept;
    match e
    case Open(c) => AnswerKeepsRefs(h, db, c, KeyBody(0, 0, None), None, "", "");
    case Deny(c) => AnswerKeepsRefs(h, db, c, KeyBody(0, 0, None), None, "", "");
    case NewKey(c, body, rights) => AnswerKeepsRefs(h, db, c, body, rights, "", "");
    case Seal(c, jwe, code) => AnswerKeepsRefs(h, db, c, KeyBody(0, 0, None), None, jwe, code);
    case _ => OthersKeepRefs(h, selected, db, e);
  }

  lemma OthersKeepRefs(h: Hashing, selected: Db, db: Db, e: Event)
    requires e.Redeem? || e.PurgeAt? || e.RevokeByOwner? || e.SetClient?
    ensures RefsKept(db, StepFrom(h, selected, db, e).db)
  {
  }

  /** After every run a reference names at most one request. */
  lemma {:induction false} RunKeepsRefsUnique(h: Hashing, events: seq<Event>)
    ensures RefsUnique(Run(h, events).db)
  {
    if events != [] {
      var db, e := Run(h, events[..|events| - 1]).db, events[|events| - 1];
      RunKeepsRefsUnique(h, events[..|events| - 1]);
      hide Step, LatePurge, SelectedFrom;
      match e
      case Create(uri, body, now) =>
        CreateKeepsRefsUnique(h, db, uri, body, now);
        assert Step(h, db, e) == CreateRequest(h, db, uri, body, now) by { CreateStep(h, db, e); }
      case _ => StepKeepsRefs(h, SelectedFrom(h, events), db, e);
    }
  }

  lemma CreateStep(h: Hashing, db: Db, e: Event)
    requires e.Create?
    ensures Step(h, db, e) == CreateRequest(h, db, e.uri, e.deposit, e.now)
  {
  }

  // ─── Who may answer ───────────────────────────────────────────────────────

  predicate IsActive(db: Db, clientId: string) {
    clientId in db.clients && db.clients[clientId].active
  }

  /** The request with this reference and this active application, pending, unexpired, claimed by nobody else. */
  predicate Answerable(h: Hashing, db: Db, r: int, c: Caller) {
    && r in db.requests && db.requests[r].refHash == h.sha256(c.requestUri)
    && db.requests[r].clientId == c.clientId && IsActive(db, c.clientId)
    && db.requests[r].status == Pending && c.now < db.requests[r].expiresAt
    && (db.requests[r].user.None? || db.requests[r].user == Some(c.user))
  }

  /** A request is locked if and only if it is answerable; locking claims it. */
  lemma LockIff(h: Hashing, db: Db, c: Caller, r: int)
    requires RefsUnique(db)
    ensures Answerable(h, db, r, c) <==> (LockForUser(h, db, c).Locked? && LockForUser(h, db, c).request == r)
    ensures Answerable(h, db, r, c) ==>
      LockForUser(h, db, c).db == db.(requests := db.requests[r := db.requests[r].(user := Some(c.user))])
  {
    if r in db.requests && db.requests[r].refHash == h.sha256(c.requestUri) {
      FoundByRef(db, h.sha256(c.requestUri), r);
      hide RequestsByRef, RefsUnique;
      assert db.requests[r].user == Some(c.user) ==> db.requests[r].(user := Some(c.user)) == db.requests[r];
      assert db.requests[r := db.requests[r]] == db.requests;
    }
  }

  lemma FoundByRef(db: Db, refHash: string, r: int)
    requires RefsUnique(db) && r in db.requests && db.requests[r].refHash == refHash
    ensures RequestsByRef(db, refHash) == {r} && Least(RequestsByRef(db, refHash)) == r
  {
    assert r in RequestsByRef(db, refHash);
    assert forall q :: q in RequestsByRef(db, refHash) ==> q == r;
  }

  /** Which refusal a caller gets for a reference, in the order of the checks. */
  lemma LockRefusals(h: Hashing, db: Db, c: Caller, r: int)
    requires RefsUnique(db) && r in db.requests && db.requests[r].refHash == h.sha256(c.requestUri)
    ensures var row, lock := db.requests[r], LockForUser(h, db, c);
      var mine := row.clientId == c.clientId && IsActive(db, c.clientId);
      var late := row.status == Expired || row.expiresAt <= c.now;
      var others := row.user.Some? && row.user.value != c.user;
      && (!mine ==> lock == NotLocked(404, "request_not_found"))
      && (mine && late ==> lock == NotLocked(410, "request_expired"))
      && (mine && !late && row.status != Pending ==> lock == NotLocked(409, "request_not_pending"))
      && (mine && !late && row.status == Pending && others ==> lock == NotLocked(404, "request_not_found"))
      && (lock.Locked? <==> mine && !late && row.status == Pending && !others)
  {
    FoundByRef(db, h.sha256(c.requestUri), r);
    hide RequestsByRef, RefsUnique;
  }

  lemma UnknownReference(h: Hashing, db: Db, c: Caller)
    requires forall r :: r in db.requests ==> db.requests[r].refHash != h.sha256(c.requestUri)
    ensures LockForUser(h, db, c) == NotLocked(404, "request_not_found")
  {
  }

  // ─── The answers ──────────────────────────────────────────────────────────

  /** A deposit is accepted if and only if the application is active, the redirect is one it declared and the reference is new. */
  lemma DepositIff(h: Hashing, db: Db, uri: string, body: Deposit, now: int)
    ensures var reply := CreateRequest(h, db, uri, body, now);
      var known, declared := IsActive(db, body.clientId),
        body.clientId in db.clients && body.redirectUri in db.clients[body.clientId].redirectUris;
      var taken := exists r :: r in db.requests && db.requests[r].refHash == h.sha256(uri);
      && (reply.output.Deposited? <==> known && declared && !taken)
      && (!known ==> reply == Reply(db, Refused(400, "invalid_client")))
      && (known && !declared ==> reply == Reply(db, Refused(400, "invalid_redirect_uri")))
      && (known && declared && taken ==> reply == Reply(db, Refused(500, "unique_violation")))
      && (reply.output.Deposited? ==>
        && reply.output == Deposited(db.nextRequest, body.clientId, body.redirectUri, body.challenge, body.permissions)
        && reply.db == db.(nextRequest := db.nextRequest + 1, requests := db.requests[db.nextRequest :=
             Request(h.sha256(uri), body.clientId, body.redirectUri, body.challenge, body.permissions, body.ttlDays,
               now + 900, Pending, None, None, None, None, None, None)]))
  {
    assert (exists r :: r in db.requests && db.requests[r].refHash == h.sha256(uri)) <==> RequestsByRef(db, h.sha256(uri)) != {} by {
      if r :| r in db.requests && db.requests[r].refHash == h.sha256(uri) { assert r in RequestsByRef(db, h.sha256(uri)); }
      if RequestsByRef(db, h.sha256(uri)) != {} { var r := Member(RequestsByRef(db, h.sha256(uri))); }
    }
  }

  /** Opening claims, denying claims and denies; either succeeds if and only if the request is answerable. */
  lemma OpenOrDenyIff(h: Hashing, db: Db, c: Caller)
    requires RefsUnique(db)
    ensures var opening, denial := OpenRequest(h, db, c), DenyRequest(h, db, c);
      && (opening.output.Opened? <==> exists r :: Answerable(h, db, r, c))
      && (denial.output.WasDenied? <==> exists r :: Answerable(h, db, r, c))
      && (!opening.output.Opened? ==> opening.output.Refused? && opening.db == db)
      && (!denial.output.WasDenied? ==> denial.output.Refused? && denial.db == db)
      && forall r :: Answerable(h, db, r, c) ==>
        && opening == Reply(db.(requests := db.requests[r := db.requests[r].(user := Some(c.user))]), Opened(r, c.user))
        && denial == Reply(db.(requests := db.requests[r := db.requests[r].(user := Some(c.user), status := Denied)]), WasDenied(r))
  {
    var lock := LockForUser(h, db, c);
    if lock.Locked? { LockIff(h, db, c, lock.request); }
    forall r | Answerable(h, db, r, c)
      ensures lock.Locked? && lock.request == r && lock.db == db.(requests := db.requests[r := db.requests[r].(user := Some(c.user))])
    {
      LockIff(h, db, c, r);
    }
    hide LockForUser, Answerable, RefsUnique;
  }

  /** What the request, the wallet and the asked lifetime allow: nothing but the rows and the body. */
  predicate MayCreate(row: Request, body: KeyBody, rights: Option<bv8>) {
    && row.key.None? && rights.Some? && Bit(rights.value, 5)
    && AllBits(body.permissions, row.permissions) && AllBits(body.permissions, rights.value)
    && (row.ttlDays.None? || (body.ttlDays.Some? && body.ttlDays.value <= row.ttlDays.value))
  }

  lemma MayCreateIff(row: Request, body: KeyBody, rights: Option<bv8>)
    ensures KeyRefusal(row, body, rights).None? <==> MayCreate(row, body, rights)
  {
    KeyRefusals(row, body, rights);
    hide Bit, AllBits, KeyRefusal;
  }

  /** Which refusal a locked request gets, in the order of the checks. */
  lemma KeyRefusals(row: Request, body: KeyBody, rights: Option<bv8>)
    ensures var refusal := KeyRefusal(row, body, rights);
      var short := row.ttlDays.None? || (body.ttlDays.Some? && body.ttlDays.value <= row.ttlDays.value);
      && (row.key.Some? ==> refusal == Some(Refusal(409, "api_key_already_created")))
      && (row.key.None? && rights.None? ==> refusal == Some(Refusal(404, "wallet_not_found")))
      && (row.key.None? && rights.Some? ==>
        var within := AllBits(body.permissions, row.permissions) && AllBits(body.permissions, rights.value);
        && (!Bit(rights.value, 5) ==> refusal == Some(Refusal(403, "missing_share_permission")))
        && (Bit(rights.value, 5) && !within ==> refusal == Some(Refusal(400, "permissions_exceed_request")))
        && (Bit(rights.value, 5) && within && !short ==> refusal == Some(Refusal(400, "ttl_exceeds_request")))
        && (Bit(rights.value, 5) && within && short ==> refusal == None))
  {
    hide Bit, IsSubset, Has, AllBits;
    if rights.Some? {
      RightsAreBits(rights.value);
      BitsOfMeet(body.permissions, row.permissions, rights.value);
    }
  }

  function NewKey(c: Caller, body: KeyBody): ApiKey {
    ApiKey(body.wallet, c.user, body.permissions, if body.ttlDays.None? then None else Some(c.now + 86_400 * body.ttlDays.value), false)
  }

  lemma KeyOfLocked(h: Hashing, db: Db, c: Caller, body: KeyBody, rights: Option<bv8>, r: int)
    requires r in db.requests
    requires LockForUser(h, db, c) == Locked(db.(requests := db.requests[r := db.requests[r].(user := Some(c.user))]), r)
    ensures var reply := CreateKey(h, db, c, body, rights);
      if MayCreate(db.requests[r], body, rights) then
        && reply.output == KeyCreated(r, db.nextKey, c.user, body.permissions)
        && reply.db == db.(keys := db.keys[db.nextKey := NewKey(c, body)], nextKey := db.nextKey + 1, requests := db.requests[r :=
             db.requests[r].(user := Some(c.user), wallet := Some(body.wallet), key := Some(db.nextKey))])
      else reply.output.Refused? && reply.db == db
  {
    MayCreateIff(db.requests[r].(user := Some(c.user)), body, rights);
    assert MayCreate(db.requests[r], body, rights) <==> MayCreate(db.requests[r].(user := Some(c.user)), body, rights);
    hide LockForUser, KeyRefusal, MayCreate;
  }

  /**
    After every run a key is created if and only if the request is answerable, has no key, and the
    user shares the wallet, asks for no right beyond the request and its own, and for no longer than
    was asked. The key lasts the given number of days.
  */
  lemma CreateKeyIff(h: Hashing, events: seq<Event>, c: Caller, body: KeyBody, rights: Option<bv8>)
    ensures var db := Run(h, events).db; var reply := CreateKey(h, db, c, body, rights);
      && (reply.output.KeyCreated? <==> exists r :: Answerable(h, db, r, c) && MayCreate(db.requests[r], body, rights))
      && (!reply.output.KeyCreated? ==> reply.output.Refused? && reply.db == db)
      && forall r :: Answerable(h, db, r, c) && MayCreate(db.requests[r], body, rights) ==>
        && reply.output == KeyCreated(r, db.nextKey, c.user, body.permissions)
        && reply.db == db.(keys := db.keys[db.nextKey := NewKey(c, body)], nextKey := db.nextKey + 1, requests := db.requests[r :=
             db.requests[r].(user := Some(c.user), wallet := Some(body.wallet), key := Some(db.nextKey))])
  {
    var db := Run(h, events).db;
    RunKeepsRefsUnique(h, events);
    var lock := LockForUser(h, db, c);
    forall r | Answerable(h, db, r, c) ensures lock.Locked? && lock.request == r { LockIff(h, db, c, r); }
    if lock.Locked? {
      LockIff(h, db, c, lock.request);
      assert lock.request in db.requests;
      KeyOfLocked(h, db, c, body, rights, lock.request);
    }
    hide Run, LockForUser, Answerable, RefsUnique, KeyRefusal, MayCreate;
    if lock.NotLocked? { assert CreateKey(h, db, c, body, rights) == Refuse(db, lock.status, lock.error); }
  }

  /**
    After every run an envelope is sealed if and only if the request is answerable and has a key and
    no request holds the code; the code lasts a minute.
  */
  lemma SealIff(h: Hashing, events: seq<Event>, c: Caller, jwe: string, code: string)
    ensures var db := Run(h, events).db; var reply := SealRequest(h, db, c, jwe, code);
      var taken := exists q :: q in db.requests && db.requests[q].codeHash == Some(h.sha256(code));
      && (reply.output.WasSealed? <==> !taken && exists r :: Answerable(h, db, r, c) && db.requests[r].key.Some?)
      && (!reply.output.WasSealed? ==> reply.output.Refused? && reply.db == db)
      && forall r :: Answerable(h, db, r, c) ==>
        && (db.requests[r].key.None? ==> reply.output == Refused(409, "api_key_missing"))
        && (db.requests[r].key.Some? && taken ==> reply.output == Refused(500, "unique_violation"))
        && (db.requests[r].key.Some? && !taken ==>
          && reply.output == WasSealed(r, h.sha256(code), jwe, c.now)
          && reply.db == db.(requests := db.requests[r := db.requests[r].(user := Some(c.user), status := Sealed,
               jwe := Some(jwe), codeHash := Some(h.sha256(code)), codeExpiresAt := Some(c.now + 60))]))
  {
    var db := Run(h, events).db;
    RunKeepsRefsUnique(h, events);
    hide Run;
    var lock := LockForUser(h, db, c);
    if lock.Locked? {
      LockIff(h, db, c, lock.request);
      CodesAfterLock(h, db, lock.db, lock.request, c, h.sha256(code));
    }
    forall r | Answerable(h, db, r, c)
      ensures lock.Locked? && lock.request == r && lock.db == db.(requests := db.requests[r := db.requests[r].(user := Some(c.user))])
    {
      LockIff(h, db, c, r);
    }
    hide LockForUser, Answerable, RefsUnique, RequestsByCode;
  }

  lemma CodesAfterLock(h: Hashing, db: Db, locked: Db, r: int, c: Caller, codeHash: string)
    requires r in db.requests && locked == db.(requests := db.requests[r := db.requests[r].(user := Some(c.user))])
    ensures RequestsByCode(locked, codeHash) != {} <==> exists q :: q in db.requests && db.requests[q].codeHash == Some(codeHash)
  {
    if q :| q in db.requests && db.requests[q].codeHash == Some(codeHash) { assert q in RequestsByCode(locked, codeHash); }
    if RequestsByCode(locked, codeHash) != {} {
      var q := Member(RequestsByCode(locked, codeHash));
      assert q in db.requests && db.requests[q].codeHash == Some(codeHash);
    }
  }

  /** After every run, redeeming hands out the key and the envelope of the request and erases the envelope. */
  lemma RedeemEffect(h: Hashing, events: seq<Event>, token: TokenBody, now: int, r: int)
    requires Redeemable(h, Run(h, events).db, r, token, now)
    ensures var db := Run(h, events).db; var row := db.requests[r];
      && row.key.Some? && row.jwe.Some?
      && ExchangeCode(h, db, token, now) == Reply(
        db.(requests := db.requests[r := row.(status := Delivered, jwe := None)]),
        Handed(r, row.key.value, row.jwe.value, h.sha256(token.code), token.clientId, token.redirectUri, row.challenge, now))
  {
    var past := Run(h, events);
    ExchangeIff(h, events, token, now);
    RunKeepsInvariant(h, events);
    RunKeepsCodesUnique(h, events);
    hide Run;
    var q := Least(RequestsByCode(past.db, h.sha256(token.code)));
    assert past.db.requests[q].codeHash == past.db.requests[r].codeHash;
    assert RowOk(past.db.requests[r], r, past.db.keys, past.trace);
  }

  /**
    A purge revokes exactly the unrevoked keys of requests that expired pending or sealed, and keeps
    exactly the requests that have not expired.
  */
  lemma PurgeEffect(db: Db, now: int)
    ensures var reply := Purge(db, now);
      && reply.output.Purged?
      && (forall k :: k in reply.output.revoked <==> k in db.keys && !db.keys[k].revoked && exists r ::
          && r in db.requests && db.requests[r].expiresAt <= now && (db.requests[r].status == Pending || db.requests[r].status == Sealed)
          && db.requests[r].key == Some(k) && db.requests[r].wallet == Some(db.keys[k].wallet))
      && reply.db.keys.Keys == db.keys.Keys
      && (forall k :: k in db.keys ==>
          reply.db.keys[k] == (if k in reply.output.revoked then db.keys[k].(revoked := true) else db.keys[k]))
      && (forall r :: r in reply.db.requests <==> r in db.requests && now < db.requests[r].expiresAt)
      && (forall r :: r in reply.db.requests ==> reply.db.requests[r] == db.requests[r])
      && reply.db == db.(keys := reply.db.keys, requests := reply.db.requests)
  {
  }
}
