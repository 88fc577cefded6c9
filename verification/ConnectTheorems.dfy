/** What every run of the connect flow guarantees: once, forward only, and faithful to the deposit. */
module ConnectTheorems {
  import opened Options
  import opened Permissions
  import opened Sets
  import opened ConnectFlow
  import opened ConnectRuns

  // ─── At most once, and never back ─────────────────────────────────────────

  /** Over all runs a request yields at most one key, one code and one hand-out, and never both a denial and a code. */
  lemma AtMostOncePerRequest(h: Hashing, events: seq<Event>, i: nat, j: nat)
    requires i < j < |events|
    ensures var trace := Run(h, events).trace;
      && (trace[i].KeyCreated? && trace[j].KeyCreated? ==> trace[i].request != trace[j].request)
      && (trace[i].WasSealed? && trace[j].WasSealed? ==> trace[i].request != trace[j].request)
      && (trace[i].Handed? && trace[j].Handed? ==> trace[i].request != trace[j].request && trace[i].key != trace[j].key)
      && (trace[i].WasDenied? && (trace[j].WasSealed? || trace[j].Handed?) ==> trace[i].request != trace[j].request)
      && ((trace[i].WasSealed? || trace[i].Handed?) && trace[j].WasDenied? ==> trace[i].request != trace[j].request)
  {
    hide RowsOk, TraceTrue;
    RunKeepsInvariant(h, events);
    assert Compatible(Run(h, events).trace[i], Run(h, events).trace[j]);
  }

  /** What a purge selects has not been handed out before. */
  lemma SelectedIsNotHanded(h: Hashing, past: seq<Event>, now: int, k: int, j: nat)
    requires k in PurgedKeys(Run(h, past).db, now) && j < |past| && Run(h, past).trace[j].Handed?
    ensures Run(h, past).trace[j].key != k
  {
    var was := Run(h, past);
    RunKeepsInvariant(h, past);
    hide Run, RowsOk, AllCompatible;
    assert StillTrue(was.trace[j], was.db);
    var r :| r in was.db.requests && Undelivered(was.db.requests[r], now) && was.db.requests[r].key.value == k;
    assert HasKey(was.db, r, k);
  }

  /** How many events a purge at position `i` has seen when it selects. */
  function SeenBy(events: seq<Event>, i: nat): nat
    requires i < |events| && events[i].PurgeAt?
  {
    if events[i].selected < i then events[i].selected else i
  }

  /** The output at position `i` of a run is that of its first events. */
  lemma OutputAt(h: Hashing, events: seq<Event>, i: nat)
    requires i < |events|
    ensures Run(h, events).trace[i] == Run(h, events[..i + 1]).trace[i]
    ensures Run(h, events[..i + 1]).trace[i] == StepFrom(h, SelectedFrom(h, events[..i + 1]), Run(h, events[..i]).db, events[i]).output
    ensures Run(h, events[..i]).trace == Run(h, events).trace[..i]
  {
    RunFacts(h, events);
    assert Earlier(h, events, i) && Earlier(h, events, i + 1);
    assert events[..i + 1][..i] == events[..i];
    hide StepFrom, Inv;
  }

  lemma PurgeAtPosition(h: Hashing, events: seq<Event>, i: nat)
    requires i < |events| && events[i].PurgeAt?
    ensures Run(h, events).trace[i]
      == Purged(RevokedLate(Run(h, events[..SeenBy(events, i)]).db, Run(h, events[..i]).db, events[i].now))
  {
    OutputAt(h, events, i);
    var first := events[..i + 1];
    assert first[..i] == events[..i] && first[..SeenBy(events, i)] == events[..SeenBy(events, i)];
    hide Run;
  }

  /**
    Over all runs, however late purges commit: a key that a purge revokes is handed out in the run if
    and only if it is handed out after the purge has selected it and before the purge commits, and
    no key is purged twice.
  */
  lemma PurgedIsHandedOnlyBetween(h: Hashing, events: seq<Event>, i: nat, j: nat)
    requires i < |events| && j < |events| && events[i].PurgeAt?
    ensures var trace := Run(h, events).trace;
      && trace[i].Purged?
      && (trace[j].Handed? && trace[j].key in trace[i].revoked ==> SeenBy(events, i) <= j < i)
      && (trace[j].Purged? && i != j ==> trace[i].revoked !! trace[j].revoked)
  {
    var trace := Run(h, events).trace;
    RunKeepsInvariant(h, events);
    PurgeAtPosition(h, events, i);
    hide RowsOk, TraceTrue;
    if i < j { assert Compatible(trace[i], trace[j]); }
    if j < i { assert Compatible(trace[j], trace[i]); }
    hide Run;
    if trace[j].Handed? && trace[j].key in trace[i].revoked && j < SeenBy(events, i) {
      HandedBeforeSelection(h, events, i, j);
    }
  }

  lemma HandedBeforeSelection(h: Hashing, events: seq<Event>, i: nat, j: nat)
    requires i < |events| && events[i].PurgeAt? && j < SeenBy(events, i) && Run(h, events).trace[j].Handed?
    ensures Run(h, events).trace[j].key !in PurgedKeys(Run(h, events[..SeenBy(events, i)]).db, events[i].now)
  {
    var past := events[..SeenBy(events, i)];
    RunFacts(h, events);
    assert Earlier(h, events, SeenBy(events, i));
    hide Run, PurgedKeys, Inv;
    assert Run(h, past).trace[j] == Run(h, events).trace[j];
    if Run(h, events).trace[j].key in PurgedKeys(Run(h, past).db, events[i].now) {
      SelectedIsNotHanded(h, past, events[i].now, Run(h, events).trace[j].key, j);
    }
  }

  /** A purge that commits as soon as it has selected revokes no key that is handed out in the run. */
  lemma PromptPurgeIsNeverHanded(h: Hashing, events: seq<Event>, i: nat, j: nat)
    requires i < |events| && j < |events| && events[i].PurgeAt? && i <= events[i].selected
    ensures var trace := Run(h, events).trace; trace[i].Purged? && (trace[j].Handed? ==> trace[j].key !in trace[i].revoked)
  {
    PurgedIsHandedOnlyBetween(h, events, i, j);
  }

  /**
    Whatever else happens, a request that still exists has only moved pending to denied, or pending
    to sealed to delivered; its claimer, key, wallet and code are those it first had, and what was
    deposited is unchanged. A purged request never comes back.
  */
  lemma RequestNeverTurnsBack(h: Hashing, past: seq<Event>, more: seq<Event>, r: int)
    requires r < Run(h, past).db.nextRequest
    ensures r < Run(h, past + more).db.nextRequest
    ensures r in Run(h, past + more).db.requests ==>
      r in Run(h, past).db.requests && Advances(Run(h, past).db.requests[r], Run(h, past + more).db.requests[r])
  {
    RunFacts(h, past + more);
    assert Earlier(h, past + more, |past|) && (past + more)[..|past|] == past;
    hide Run, Inv, Advances;
  }

  /** A request's key is owned by the user who claimed it and grants no more than was asked. */
  lemma KeyBelongsToClaimer(h: Hashing, events: seq<Event>, r: int)
    requires r in Run(h, events).db.requests && Run(h, events).db.requests[r].key.Some?
    ensures var db := Run(h, events).db; var row := db.requests[r];
      && row.key.value in db.keys && row.user == Some(db.keys[row.key.value].owner)
      && row.wallet == Some(db.keys[row.key.value].wallet)
      && IsSubset(db.keys[row.key.value].permissions, row.permissions)
  {
    hide TraceTrue, AllCompatible, Step;
    RunKeepsInvariant(h, events);
    var past := Run(h, events);
    hide Run;
    assert RowOk(past.db.requests[r], r, past.db.keys, past.trace);
  }

  /** A new key never exceeds the request, the user's own rights, or the lifetime asked for. */
  lemma NewKeyIsBounded(h: Hashing, db: Db, c: Caller, body: KeyBody, rights: Option<bv8>)
    requires CreateKey(h, db, c, body, rights).output.KeyCreated?
    ensures var reply := CreateKey(h, db, c, body, rights); var k := reply.output.key; var r := reply.output.request;
      && r in db.requests && db.requests[r].clientId == c.clientId && k in reply.db.keys && rights.Some?
      && IsSubset(reply.db.keys[k].permissions, db.requests[r].permissions)
      && IsSubset(reply.db.keys[k].permissions, rights.value) && Has(rights.value, SHARE)
      && (db.requests[r].ttlDays.Some? ==>
        reply.db.keys[k].expiresAt.Some? && reply.db.keys[k].expiresAt.value <= c.now + db.requests[r].ttlDays.value * SECONDS_PER_DAY)
  {
    LockClaims(h, db, c);
    hide LockForUser;
    var row := db.requests[LockForUser(h, db, c).request];
    SubsetOfMeet(body.permissions, row.permissions, rights.value);
  }

  // ─── What a hand-out proves ───────────────────────────────────────────────

  /** The hand-out answers a code issued under a minute before, to the depositing application, whose PKCE proof matches. */
  ghost predicate Faithful(o: Output, before: seq<Output>)
    requires o.Handed?
  {
    && (exists t :: WasSealed(o.request, o.codeHash, o.envelope, t) in before && o.at < t + CODE_TTL_SECONDS)
    && (exists asked, owner, granted ::
      Deposited(o.request, o.clientId, o.redirectUri, o.proof, asked) in before
      && KeyCreated(o.request, o.key, owner, granted) in before && IsSubset(granted, asked))
  }

  lemma RedeemIsFaithful(h: Hashing, db: Db, trace: seq<Output>, token: TokenBody, now: int)
    requires RowsOk(db, trace) && ExchangeCode(h, db, token, now).output.Handed?
    ensures Faithful(ExchangeCode(h, db, token, now).output, trace)
  {
    var r := Least(RequestsByCode(db, h.sha256(token.code)));
    var row := db.requests[r];
    assert RowOk(row, r, db.keys, trace);
    var key := db.keys[row.key.value];
    assert Deposited(r, row.clientId, row.redirectUri, row.challenge, row.permissions) in trace
      && KeyCreated(r, row.key.value, key.owner, key.permissions) in trace && IsSubset(key.permissions, row.permissions);
  }

  lemma OnlyRedeemHands(h: Hashing, selected: Db, db: Db, e: Event)
    ensures StepFrom(h, selected, db, e).output.Handed? ==>
      e.Redeem? && StepFrom(h, selected, db, e) == ExchangeCode(h, db, e.token, e.now)
  {
  }

  lemma {:induction false} EveryHandOutIsFaithful(h: Hashing, events: seq<Event>, j: nat)
    requires j < |events| && Run(h, events).trace[j].Handed?
    ensures Faithful(Run(h, events).trace[j], Run(h, events).trace[..j])
    decreases |events|
  {
    hide StepFrom, StillTrue, AllCompatible, TraceTrue, RowOk, Faithful, SelectedFrom;
    var n := |events| - 1;
    var before := Run(h, events[..n]);
    assert Run(h, events).trace == before.trace + [StepFrom(h, SelectedFrom(h, events), before.db, events[n]).output];
    if j < n {
      EveryHandOutIsFaithful(h, events[..n], j);
      assert Run(h, events).trace[..j] == before.trace[..j];
    } else {
      assert Run(h, events).trace[..j] == before.trace;
      RunKeepsInvariant(h, events[..n]);
      OnlyRedeemHands(h, SelectedFrom(h, events), before.db, events[n]);
      RedeemIsFaithful(h, before.db, before.trace, events[n].token, events[n].now);
    }
  }

  // ─── A spent code stays spent ─────────────────────────────────────────────

  predicate CodesUnique(db: Db) {
    forall a, b :: a in db.requests && b in db.requests && db.requests[a].codeHash.Some? ==>
      db.requests[a].codeHash == db.requests[b].codeHash ==> a == b
  }

  lemma SealKeepsCodesUnique(h: Hashing, db: Db, c: Caller, jwe: string, code: string)
    requires CodesUnique(db)
    ensures CodesUnique(SealRequest(h, db, c, jwe, code).db)
  {
    if LockForUser(h, db, c).Locked? {
      LockClaims(h, db, c);
      var lock := LockForUser(h, db, c);
      hide LockForUser;
      assert forall q :: q in lock.db.requests && lock.db.requests[q].codeHash == Some(h.sha256(code)) ==>
        q in RequestsByCode(lock.db, h.sha256(code));
    }
  }

  lemma LockedKeepsCodesUnique(h: Hashing, db: Db, c: Caller, body: KeyBody, rights: Option<bv8>)
    requires CodesUnique(db)
    ensures CodesUnique(OpenRequest(h, db, c).db) && CodesUnique(DenyRequest(h, db, c).db)
    ensures CodesUnique(CreateKey(h, db, c, body, rights).db)
  {
    if LockForUser(h, db, c).Locked? { LockClaims(h, db, c); }
    hide LockForUser;
  }

  lemma StepKeepsCodesUnique(h: Hashing, db: Db, e: Event)
    requires CodesUnique(db)
    ensures CodesUnique(Step(h, db, e).db)
  {
    hide LockForUser;
    match e
    case Open(c) => LockedKeepsCodesUnique(h, db, c, KeyBody(0, 0, None), None);
    case Deny(c) => LockedKeepsCodesUnique(h, db, c, KeyBody(0, 0, None), None);
    case NewKey(c, body, rights) => LockedKeepsCodesUnique(h, db, c, body, rights);
    case Seal(c, jwe, code) => SealKeepsCodesUnique(h, db, c, jwe, code);
    case _ =>
  }

  lemma {:induction false} RunKeepsCodesUnique(h: Hashing, events: seq<Event>)
    ensures CodesUnique(Run(h, events).db)
  {
    hide CodesUnique, Step, LatePurge;
    if events == [] {
      assert CodesUnique(EMPTY) by { EmptyCodesUnique(); }
    } else {
      var db, e := Run(h, events[..|events| - 1]).db, events[|events| - 1];
      RunKeepsCodesUnique(h, events[..|events| - 1]);
      StepKeepsCodesUnique(h, db, e);
      if e.PurgeAt? { PurgeKeepsCodesUnique(SelectedFrom(h, events), db, e.now); }
    }
  }

  lemma PurgeKeepsCodesUnique(selected: Db, db: Db, now: int)
    requires CodesUnique(db)
    ensures CodesUnique(LatePurge(selected, db, now).db)
  {
  }

  lemma EmptyCodesUnique()
    ensures CodesUnique(EMPTY)
  {
  }

  /** The request a token call redeems: sealed under this code, unexpired, of this application and redirect, proven. */
  predicate Redeemable(h: Hashing, db: Db, r: int, token: TokenBody, now: int) {
    && r in db.requests && db.requests[r].codeHash == Some(h.sha256(token.code)) && db.requests[r].status.Sealed?
    && db.requests[r].codeExpiresAt.Some? && now < db.requests[r].codeExpiresAt.value
    && db.requests[r].clientId == token.clientId && token.clientId in db.clients
    && db.requests[r].redirectUri == token.redirectUri && db.requests[r].challenge == h.s256(token.verifier)
  }

  /** After every run a code is exchanged if and only if some request is redeemable with it; otherwise nothing changes. */
  lemma ExchangeIff(h: Hashing, events: seq<Event>, token: TokenBody, now: int)
    ensures var db := Run(h, events).db; var reply := ExchangeCode(h, db, token, now);
      && (reply.output.Handed? <==> exists r :: Redeemable(h, db, r, token, now))
      && (reply.output.Handed? ==> Redeemable(h, db, reply.output.request, token, now))
      && (!reply.output.Handed? ==> reply == Refuse(db, 400, "invalid_grant"))
  {
    var past := Run(h, events);
    var found := RequestsByCode(past.db, h.sha256(token.code));
    RunKeepsInvariant(h, events);
    RunKeepsCodesUnique(h, events);
    hide Run, AllCompatible, TraceTrue, IdsBelow;
    if found != {} {
      var r := Least(found);
      assert RowOk(past.db.requests[r], r, past.db.keys, past.trace);
      forall q | q in found ensures q == r { assert past.db.requests[q].codeHash == past.db.requests[r].codeHash; }
    }
    assert forall q :: Redeemable(h, past.db, q, token, now) ==> q in found;
    var reply := ExchangeCode(h, past.db, token, now);
    if exists q :: Redeemable(h, past.db, q, token, now) {
      assert Redeemable(h, past.db, Least(found), token, now);
      assert reply.output.Handed?;
    }
    assert reply.output.Handed? ==> Redeemable(h, past.db, reply.output.request, token, now);
    assert !reply.output.Handed? ==> reply == Refuse(past.db, 400, "invalid_grant");
  }

  /**
    After a hand-out, presenting its code again is refused and changes nothing, whatever else is
    presented: always while its request exists, and after the purge unless some other request
    carries the hash of that code and is redeemable with what is presented.
  */
  lemma ReplayIsRefused(h: Hashing, events: seq<Event>, i: nat, token: TokenBody, now: int)
    requires i < |events| && Run(h, events).trace[i].Handed?
    requires h.sha256(token.code) == Run(h, events).trace[i].codeHash
    ensures var db := Run(h, events).db; var r := Run(h, events).trace[i].request;
      ExchangeCode(h, db, token, now) == Refuse(db, 400, "invalid_grant")
      <==> r in db.requests || !exists q :: q != r && Redeemable(h, db, q, token, now)
  {
    var past := Run(h, events);
    var o := past.trace[i];
    ExchangeIff(h, events, token, now);
    HandedIsSpent(h, events, i);
    RunKeepsCodesUnique(h, events);
    hide Run, ExchangeCode;
    if o.request in past.db.requests {
      forall q ensures !Redeemable(h, past.db, q, token, now) {
        if q in past.db.requests && past.db.requests[q].codeHash == Some(o.codeHash) { assert q == o.request; }
      }
    }
  }

  /** The row of a hand-out keeps its code's hash and is no longer sealed. */
  lemma HandedIsSpent(h: Hashing, events: seq<Event>, i: nat)
    requires i < |events| && Run(h, events).trace[i].Handed?
    ensures var db := Run(h, events).db; var o := Run(h, events).trace[i];
      o.request in db.requests ==>
        db.requests[o.request].codeHash == Some(o.codeHash) && !db.requests[o.request].status.Sealed?
  {
    var past := Run(h, events);
    RunKeepsInvariant(h, events);
    EveryHandOutIsFaithful(h, events, i);
    hide Run, RowsOk, AllCompatible, IdsBelow;
    var o := past.trace[i];
    var t :| WasSealed(o.request, o.codeHash, o.envelope, t) in past.trace[..i];
    assert StillTrue(WasSealed(o.request, o.codeHash, o.envelope, t), past.db) && StillTrue(o, past.db);
  }
}
