/** Which keys a purge conserves, and exactly which it loses sight of. */
module ConnectPurge {
  import opened Options
  import opened Permissions
  import opened Sets
  import opened ConnectFlow
  import opened ConnectRuns
  import opened ConnectTheorems

  predicate HandedOut(trace: seq<Output>, r: int, k: int) {
    exists i :: 0 <= i < |trace| && trace[i].Handed? && trace[i].request == r && trace[i].key == k
  }

  /** The request was denied after its key had been created, and has been purged since. */
  ghost predicate LostToDenial(db: Db, trace: seq<Output>, k: int) {
    exists r, owner, granted ::
      KeyCreated(r, k, owner, granted) in trace && WasDenied(r) in trace && r !in db.requests
  }

  /** Someone holds the key, or can still be given it: it was handed out, or its request exists. */
  ghost predicate Settled(db: Db, trace: seq<Output>, k: int) {
    (exists r :: HandedOut(trace, r, k)) || exists r :: HasKey(db, r, k)
  }

  predicate Active(db: Db, k: int) {
    k in db.keys && !db.keys[k].revoked
  }

  /** The key was created after the purge at `i` had selected, for a request that this purge dropped undelivered. */
  predicate DropsAt(h: Hashing, events: seq<Event>, i: int, j: int, k: int) {
    && 0 <= j < i < |events| && events[i].PurgeAt? && SeenBy(events, i) <= j
    && Run(h, events).trace[j].KeyCreated? && Run(h, events).trace[j].key == k
    && var db := Run(h, events[..i]).db; var r := Run(h, events).trace[j].request;
      r in db.requests && Undelivered(db.requests[r], events[i].now)
  }

  ghost predicate LostToPurge(h: Hashing, events: seq<Event>, k: int) {
    exists i, j :: DropsAt(h, events, i, j, k)
  }

  ghost predicate Accounted(db: Db, trace: seq<Output>, dropped: iset<int>) {
    forall k :: Active(db, k) ==> Settled(db, trace, k) || LostToDenial(db, trace, k) || k in dropped
  }

  /** A delivered or denied row was recorded as such. */
  predicate Recorded(db: Db, trace: seq<Output>) {
    forall r :: r in db.requests ==>
      && (db.requests[r].status.Delivered? ==> db.requests[r].key.Some? && HandedOut(trace, r, db.requests[r].key.value))
      && (db.requests[r].status.Denied? ==> WasDenied(r) in trace)
  }

  lemma HandedOutExtends(trace: seq<Output>, o: Output, r: int, k: int)
    requires HandedOut(trace, r, k) || (o.Handed? && o.request == r && o.key == k)
    ensures HandedOut(trace + [o], r, k)
  {
    if HandedOut(trace, r, k) {
      var i :| 0 <= i < |trace| && trace[i].Handed? && trace[i].request == r && trace[i].key == k;
      assert (trace + [o])[i] == trace[i];
    } else {
      assert (trace + [o])[|trace|] == o;
    }
  }

  /** A row's status never changes silently. */
  predicate StatusRecorded(db: Db, reply: Reply, r: int)
    requires r in reply.db.requests
  {
    var row := reply.db.requests[r];
    || (r in db.requests && db.requests[r].status == row.status)
    || (!row.status.Delivered? && !row.status.Denied?)
    || (row.status.Denied? && reply.output == WasDenied(r))
    || (row.status.Delivered? && row.key.Some? && reply.output.Handed? && reply.output.request == r && reply.output.key == row.key.value)
  }

  lemma LockedRecords(h: Hashing, db: Db, c: Caller, body: KeyBody, rights: Option<bv8>, jwe: string, code: string)
    ensures forall r :: r in OpenRequest(h, db, c).db.requests ==> StatusRecorded(db, OpenRequest(h, db, c), r)
    ensures forall r :: r in DenyRequest(h, db, c).db.requests ==> StatusRecorded(db, DenyRequest(h, db, c), r)
    ensures forall r :: r in CreateKey(h, db, c, body, rights).db.requests ==> StatusRecorded(db, CreateKey(h, db, c, body, rights), r)
    ensures forall r :: r in SealRequest(h, db, c, jwe, code).db.requests ==> StatusRecorded(db, SealRequest(h, db, c, jwe, code), r)
  {
    if LockForUser(h, db, c).Locked? { LockClaims(h, db, c); }
    hide LockForUser;
  }

  lemma RedeemRecords(h: Hashing, db: Db, trace: seq<Output>, token: TokenBody, now: int)
    requires RowsOk(db, trace)
    ensures forall r :: r in ExchangeCode(h, db, token, now).db.requests ==> StatusRecorded(db, ExchangeCode(h, db, token, now), r)
  {
    var found := RequestsByCode(db, h.sha256(token.code));
    if found != {} { assert RowOk(db.requests[Least(found)], Least(found), db.keys, trace); }
  }

  lemma StepRecordsStatus(h: Hashing, db: Db, trace: seq<Output>, e: Event)
    requires Inv(db, trace)
    ensures forall r :: r in Step(h, db, e).db.requests ==> StatusRecorded(db, Step(h, db, e), r)
  {
    hide RowOk, TraceTrue, AllCompatible;
    match e
    case Open(c) => LockedRecords(h, db, c, KeyBody(0, 0, None), None, "", "");
    case Deny(c) => LockedRecords(h, db, c, KeyBody(0, 0, None), None, "", "");
    case NewKey(c, body, rights) => LockedRecords(h, db, c, body, rights, "", "");
    case Seal(c, jwe, code) => LockedRecords(h, db, c, KeyBody(0, 0, None), None, jwe, code);
    case Redeem(token, now) => RedeemRecords(h, db, trace, token, now);
    case _ =>
  }

  lemma KeepsRecorded(db: Db, trace: seq<Output>, reply: Reply)
    requires Recorded(db, trace) && forall r :: r in reply.db.requests ==> StatusRecorded(db, reply, r)
    requires forall r :: r in reply.db.requests && r in db.requests && db.requests[r].status.Delivered? ==>
      reply.db.requests[r].key == db.requests[r].key
    ensures Recorded(reply.db, trace + [reply.output])
  {
    hide HandedOut;
    forall r | r in reply.db.requests
      ensures reply.db.requests[r].status.Delivered? ==>
        reply.db.requests[r].key.Some? && HandedOut(trace + [reply.output], r, reply.db.requests[r].key.value)
      ensures reply.db.requests[r].status.Denied? ==> WasDenied(r) in trace + [reply.output]
    {
      assert StatusRecorded(db, reply, r);
      if reply.db.requests[r].status.Delivered? {
        HandedNow(trace, reply.output, r, reply.db.requests[r].key.value);
      }
    }
  }

  lemma HandedNow(trace: seq<Output>, o: Output, r: int, k: int)
    ensures HandedOut(trace, r, k) || (o.Handed? && o.request == r && o.key == k) ==> HandedOut(trace + [o], r, k)
  {
    if HandedOut(trace, r, k) || (o.Handed? && o.request == r && o.key == k) { HandedOutExtends(trace, o, r, k); }
  }

  lemma StepKeepsRecorded(h: Hashing, selected: Db, db: Db, trace: seq<Output>, e: Event)
    requires Inv(db, trace) && Recorded(db, trace)
    ensures var reply := StepFrom(h, selected, db, e); Recorded(reply.db, trace + [reply.output])
  {
    var reply := StepFrom(h, selected, db, e);
    if e.PurgeAt? {
      LatePurgeOnlyDrops(selected, db, e.now);
    } else {
      StepMoves(h, db, trace, e);
      StepRecordsStatus(h, db, trace, e);
      InvIds(db, trace);
    }
    hide StepFrom, Step, LatePurge, Inv, Recorded;
    KeepsRecorded(db, trace, reply);
  }

  // ─── Every active key is accounted for ────────────────────────────────────

  /** Keys are only ever added, with their request. */
  ghost predicate KeysGrow(db: Db, reply: Reply) {
    forall k :: Active(reply.db, k) ==>
      Active(db, k) || (reply.output.KeyCreated? && reply.output.key == k && HasKey(reply.db, reply.output.request, k))
  }

  lemma StepKeysGrow(h: Hashing, db: Db, e: Event)
    ensures KeysGrow(db, Step(h, db, e))
  {
    match e
    case Open(c) => if LockForUser(h, db, c).Locked? { LockClaims(h, db, c); }
    case Deny(c) => if LockForUser(h, db, c).Locked? { LockClaims(h, db, c); }
    case NewKey(c, _, _) => if LockForUser(h, db, c).Locked? { LockClaims(h, db, c); }
    case Seal(c, _, _) => if LockForUser(h, db, c).Locked? { LockClaims(h, db, c); }
    case _ =>
  }

  lemma LostStaysLost(db: Db, trace: seq<Output>, next: Db, o: Output, k: int)
    requires Inv(db, trace) && Later(db, next) && LostToDenial(db, trace, k)
    ensures LostToDenial(next, trace + [o], k)
  {
    hide RowOk, AllCompatible, Advances;
    var r, owner, granted :| KeyCreated(r, k, owner, granted) in trace && WasDenied(r) in trace && r !in db.requests;
    assert StillTrue(WasDenied(r), db);
    assert KeyCreated(r, k, owner, granted) in trace + [o] && WasDenied(r) in trace + [o];
  }

  lemma HeldStaysHeld(h: Hashing, db: Db, trace: seq<Output>, e: Event, r: int, k: int)
    requires Inv(db, trace) && HasKey(db, r, k) && !e.PurgeAt?
    ensures HasKey(Step(h, db, e).db, r, k)
  {
    StepMoves(h, db, trace, e);
    InvIds(db, trace);
    hide Step, Inv;
  }

  lemma StepKeepsAccounted(h: Hashing, db: Db, trace: seq<Output>, e: Event, dropped: iset<int>)
    requires Inv(db, trace) && Accounted(db, trace, dropped) && !e.PurgeAt?
    ensures Accounted(Step(h, db, e).db, trace + [Step(h, db, e).output], dropped)
  {
    StepKeysGrow(h, db, e);
    StepLater(h, db, trace, e);
    var reply := Step(h, db, e);
    var longer := trace + [reply.output];
    hide Step, Inv, Later;
    forall k | Active(reply.db, k) ensures Settled(reply.db, longer, k) || LostToDenial(reply.db, longer, k) || k in dropped {
      if Active(db, k) && k !in dropped {
        if LostToDenial(db, trace, k) {
          LostStaysLost(db, trace, reply.db, reply.output, k);
        } else if r :| HandedOut(trace, r, k) {
          HandedOutExtends(trace, reply.output, r, k);
        } else {
          var r :| HasKey(db, r, k);
          HeldStaysHeld(h, db, trace, e, r, k);
        }
      }
    }
  }

  // ─── What a purge drops ───────────────────────────────────────────────────

  /** A key created before the selection, whose request is undelivered when the purge commits, was selected. */
  lemma CreatedBeforeIsSelected(selected: Db, was: seq<Output>, db: Db, trace: seq<Output>, now: int, r: int, k: int, o: Output)
    requires Inv(selected, was) && Inv(db, trace) && Later(selected, db)
    requires r in db.requests && Undelivered(db.requests[r], now) && db.requests[r].key == Some(k) && Active(db, k)
    requires o in was && o.KeyCreated? && o.request == r && o.key == k
    ensures k in PurgedKeys(selected, now)
  {
    assert StillTrue(o, selected);
    assert RowOk(selected.requests[r], r, selected.keys, was);
    hide TraceTrue, AllCompatible, RowsOk;
  }

  /** What became of a key whose request the purge finds: held, handed out, lost to a denial, or undelivered. */
  lemma PurgeAccounts(selected: Db, db: Db, trace: seq<Output>, now: int, r: int, k: int)
    requires Inv(db, trace) && Recorded(db, trace) && HasKey(db, r, k)
    ensures var reply := LatePurge(selected, db, now); var longer := trace + [reply.output];
      || HasKey(reply.db, r, k) || HandedOut(longer, r, k) || LostToDenial(reply.db, longer, k) || Undelivered(db.requests[r], now)
  {
    var row, reply := db.requests[r], LatePurge(selected, db, now);
    assert RowOk(row, r, db.keys, trace);
    var o := RecordedKey(db, trace, r);
    HandedNow(trace, reply.output, r, k);
    hide HandedOut, TraceTrue, AllCompatible, RevokedLate;
    assert now < row.expiresAt ==> HasKey(reply.db, r, k);
    if row.expiresAt <= now && row.status.Denied? {
      assert o == KeyCreated(r, k, o.owner, o.permissions);
      assert KeyCreated(r, k, o.owner, o.permissions) in trace + [reply.output] && WasDenied(r) in trace + [reply.output];
    }
  }

  /** What was lost before the last event is lost after it. */
  lemma LostToPurgeExtends(h: Hashing, events: seq<Event>, k: int)
    requires events != [] && LostToPurge(h, events[..|events| - 1], k)
    ensures LostToPurge(h, events, k)
  {
    var n := |events| - 1;
    var front := events[..n];
    var i, j :| DropsAt(h, front, i, j, k);
    assert front[..i] == events[..i] && Run(h, events).trace[j] == Run(h, front).trace[j];
    hide Run;
    assert DropsAt(h, events, i, j, k);
  }

  /** A key whose request a purge drops undelivered, and which it does not revoke, was created too late for it. */
  lemma UndeliveredIsDropped(h: Hashing, events: seq<Event>, r: int, k: int)
    requires events != [] && events[|events| - 1].PurgeAt?
    requires var n := |events| - 1; var db := Run(h, events[..n]).db;
      && HasKey(db, r, k) && Undelivered(db.requests[r], events[n].now)
      && Active(LatePurge(SelectedFrom(h, events), db, events[n].now).db, k)
    ensures LostToPurge(h, events, k)
  {
    var n := |events| - 1;
    var front, from, now := events[..n], SeenBy(events, n), events[n].now;
    var before := Run(h, front);
    RunFacts(h, front);
    RunFacts(h, events[..from]);
    assert front[..from] == events[..from] && Earlier(h, front, from);
    var o := RecordedKey(before.db, before.trace, r);
    var j :| 0 <= j < |before.trace| && before.trace[j] == o;
    var was := Run(h, events[..from]);
    LatePurgeOnlyDrops(was.db, before.db, now);
    assert SelectedFrom(h, events) == was.db && Run(h, events).trace[j] == o;
    assert k !in RevokedLate(was.db, before.db, now) && Active(before.db, k);
    hide Run, SelectedFrom, Inv, Later, RevokedLate, LatePurge;
    if j < from {
      assert was.trace[j] == o && o in was.trace;
      CreatedBeforeIsSelected(was.db, was.trace, before.db, before.trace, now, r, k, o);
      NotSelected(was.db, before.db, now, k);
    }
    assert DropsAt(h, events, n, j, k);
  }

  lemma NotSelected(selected: Db, db: Db, now: int, k: int)
    requires k !in RevokedLate(selected, db, now) && Active(db, k)
    ensures k !in PurgedKeys(selected, now)
  {
  }

  lemma PurgeKeepsAccounted(h: Hashing, events: seq<Event>, dropped: iset<int>)
    requires events != [] && events[|events| - 1].PurgeAt?
    requires var before := Run(h, events[..|events| - 1]);
      Recorded(before.db, before.trace) && Accounted(before.db, before.trace, dropped)
    requires forall k :: k in dropped ==> LostToPurge(h, events, k)
    ensures Accounted(Run(h, events).db, Run(h, events).trace, iset k | LostToPurge(h, events, k))
  {
    var n := |events| - 1;
    var before, selected, now := Run(h, events[..n]), SelectedFrom(h, events), events[n].now;
    var reply := LatePurge(selected, before.db, now);
    RunKeepsInvariant(h, events[..n]);
    LatePurgeOnlyDrops(selected, before.db, now);
    LatePurgeMoves(selected, before.db, now);
    var longer := before.trace + [reply.output];
    assert Run(h, events) == History(reply.db, longer);
    hide Run, SelectedFrom, Inv, Later, LatePurge, Recorded;
    forall k | Active(reply.db, k) ensures Settled(reply.db, longer, k) || LostToDenial(reply.db, longer, k) || LostToPurge(h, events, k) {
      assert Active(before.db, k);
      if LostToDenial(before.db, before.trace, k) {
        LostStaysLost(before.db, before.trace, reply.db, reply.output, k);
      } else if r :| HandedOut(before.trace, r, k) {
        HandedOutExtends(before.trace, reply.output, r, k);
      } else if k !in dropped {
        var r :| HasKey(before.db, r, k);
        PurgeAccounts(selected, before.db, before.trace, now, r, k);
        if Undelivered(before.db.requests[r], now) { UndeliveredIsDropped(h, events, r, k); }
      }
    }
  }

  lemma {:induction false} RunAccounts(h: Hashing, events: seq<Event>)
    ensures var past := Run(h, events);
      Inv(past.db, past.trace) && Recorded(past.db, past.trace) && Accounted(past.db, past.trace, iset k | LostToPurge(h, events, k))
  {
    RunKeepsInvariant(h, events);
    hide Inv, Step, LatePurge, SelectedFrom;
    if events != [] {
      var n := |events| - 1;
      var before, e := Run(h, events[..n]), events[n];
      RunAccounts(h, events[..n]);
      var dropped := iset k | LostToPurge(h, events[..n], k);
      forall k | k in dropped ensures LostToPurge(h, events, k) { LostToPurgeExtends(h, events, k); }
      hide Recorded, Accounted, LostToPurge;
      StepKeepsRecorded(h, SelectedFrom(h, events), before.db, before.trace, e);
      if e.PurgeAt? {
        PurgeKeepsAccounted(h, events, dropped);
      } else {
        StepKeepsAccounted(h, before.db, before.trace, e, dropped);
        MoreDropped(Run(h, events).db, Run(h, events).trace, dropped, iset k | LostToPurge(h, events, k));
      }
    }
  }

  lemma MoreDropped(db: Db, trace: seq<Output>, dropped: iset<int>, more: iset<int>)
    requires Accounted(db, trace, dropped) && forall k :: k in dropped ==> k in more
    ensures Accounted(db, trace, more)
  {
    hide Settled, LostToDenial, Active;
  }

  /** A hand-out and a denial never concern the same key. */
  lemma DeniedIsNotHanded(h: Hashing, events: seq<Event>, r: int, owner: int, granted: bv8, k: int, q: int)
    requires KeyCreated(r, k, owner, granted) in Run(h, events).trace && WasDenied(r) in Run(h, events).trace
    ensures !HandedOut(Run(h, events).trace, q, k)
  {
    var trace := Run(h, events).trace;
    RunKeepsInvariant(h, events);
    hide Inv, Step;
    if HandedOut(trace, q, k) {
      var j :| 0 <= j < |trace| && trace[j].Handed? && trace[j].request == q && trace[j].key == k;
      EveryHandOutIsFaithful(h, events, j);
      var asked, other, given :| Deposited(q, trace[j].clientId, trace[j].redirectUri, trace[j].proof, asked) in trace[..j]
        && KeyCreated(q, k, other, given) in trace[..j] && IsSubset(given, asked);
      var a :| 0 <= a < |trace| && trace[a] == KeyCreated(r, k, owner, granted);
      var b :| 0 <= b < |trace[..j]| && trace[..j][b] == KeyCreated(q, k, other, given);
      var d :| 0 <= d < |trace| && trace[d] == WasDenied(r);
      SameKeySameRequest(h, events, a, b);
      NotBothDeniedAndHanded(h, events, d, j);
    }
  }

  lemma SameKeySameRequest(h: Hashing, events: seq<Event>, a: nat, b: nat)
    requires a < |events| && b < |events|
    requires Run(h, events).trace[a].KeyCreated? && Run(h, events).trace[b].KeyCreated?
    ensures Run(h, events).trace[a].key == Run(h, events).trace[b].key ==>
      Run(h, events).trace[a].request == Run(h, events).trace[b].request
  {
    hide RowsOk, TraceTrue, Step;
    RunKeepsInvariant(h, events);
    if a < b { assert Compatible(Run(h, events).trace[a], Run(h, events).trace[b]); }
    if b < a { assert Compatible(Run(h, events).trace[b], Run(h, events).trace[a]); }
  }

  lemma NotBothDeniedAndHanded(h: Hashing, events: seq<Event>, d: nat, j: nat)
    requires d < |events| && j < |events|
    requires Run(h, events).trace[d].WasDenied? && Run(h, events).trace[j].Handed?
    ensures Run(h, events).trace[d].request != Run(h, events).trace[j].request
  {
    if d < j { AtMostOncePerRequest(h, events, d, j); }
    if j < d { AtMostOncePerRequest(h, events, j, d); }
  }

  /** A request whose code is exchanged is stored. */
  lemma HandedIsStored(h: Hashing, events: seq<Event>, m: nat)
    requires m < |events| && Run(h, events).trace[m].Handed?
    ensures Run(h, events).trace[m].request in Run(h, events[..m]).db.requests
  {
    OutputAt(h, events, m);
    OnlyRedeemHands(h, SelectedFrom(h, events[..m + 1]), Run(h, events[..m]).db, events[m]);
    hide Run, SelectedFrom, StepFrom;
  }

  /** A dropped request does not come back. */
  lemma DroppedIsGone(h: Hashing, events: seq<Event>, i: nat, m: nat, r: int)
    requires i < m <= |events| && events[i].PurgeAt?
    requires r in Run(h, events[..i]).db.requests && Run(h, events[..i]).db.requests[r].expiresAt <= events[i].now
    ensures r !in Run(h, events[..m]).db.requests
  {
    var at := events[..i + 1];
    RunKeepsInvariant(h, events[..i]);
    assert at[..i] == events[..i] && r < Run(h, events[..i]).db.nextRequest;
    assert Run(h, at).db == LatePurge(SelectedFrom(h, at), Run(h, events[..i]).db, events[i].now).db;
    GoneAfterPurge(SelectedFrom(h, at), Run(h, events[..i]).db, events[i].now, r);
    RunFacts(h, events[..m]);
    assert events[..m][..i + 1] == at && Earlier(h, events[..m], i + 1);
    hide Run, SelectedFrom, LatePurge, Inv, Advances;
  }

  lemma GoneAfterPurge(selected: Db, db: Db, now: int, r: int)
    requires r in db.requests && db.requests[r].expiresAt <= now && r < db.nextRequest
    ensures r !in LatePurge(selected, db, now).db.requests && r < LatePurge(selected, db, now).db.nextRequest
  {
  }

  /** A key has no other holder than the request it was created for. */
  lemma OnlyHolder(h: Hashing, events: seq<Event>, j: nat)
    requires j < |events| && Run(h, events).trace[j].KeyCreated?
    ensures forall q :: HasKey(Run(h, events).db, q, Run(h, events).trace[j].key) ==> q == Run(h, events).trace[j].request
  {
    RunKeepsInvariant(h, events);
    hide Run, RowsOk, AllCompatible, IdsBelow;
    assert StillTrue(Run(h, events).trace[j], Run(h, events).db);
  }

  lemma HandedForItsRequest(h: Hashing, events: seq<Event>, j: nat, m: nat)
    requires j < |events| && m < |events| && Run(h, events).trace[j].KeyCreated? && Run(h, events).trace[m].Handed?
    requires Run(h, events).trace[m].key == Run(h, events).trace[j].key
    ensures Run(h, events).trace[m].request == Run(h, events).trace[j].request
  {
    var trace := Run(h, events).trace;
    EveryHandOutIsFaithful(h, events, m);
    hide Run;
    var q, k := trace[m].request, trace[m].key;
    var asked, other, given :| Deposited(q, trace[m].clientId, trace[m].redirectUri, trace[m].proof, asked) in trace[..m]
      && KeyCreated(q, k, other, given) in trace[..m] && IsSubset(given, asked);
    var b :| 0 <= b < |trace[..m]| && trace[..m][b] == KeyCreated(q, k, other, given);
    SameKeySameRequest(h, events, j, b);
  }

  /** A key that a late purge drops is never handed out, before or after. */
  lemma DroppedIsNotHanded(h: Hashing, events: seq<Event>, i: int, j: int, k: int, m: nat)
    requires DropsAt(h, events, i, j, k) && m < |events| && Run(h, events).trace[m].Handed?
    ensures Run(h, events).trace[m].key != k
  {
    var trace := Run(h, events).trace;
    var r := trace[j].request;
    if trace[m].key == k {
      HandedForItsRequest(h, events, j, m);
      if m < i {
        HandedIsDelivered(h, events, i, m);
      } else {
        PurgeAtPosition(h, events, i);
        HandedIsStored(h, events, m);
        DroppedIsGone(h, events, i, m, r);
      }
    }
  }

  lemma HandedIsDelivered(h: Hashing, events: seq<Event>, i: nat, m: nat)
    requires m < i <= |events| && Run(h, events).trace[m].Handed?
    ensures var db := Run(h, events[..i]).db; var r := Run(h, events).trace[m].request;
      r in db.requests ==> db.requests[r].status.Delivered?
  {
    RunFacts(h, events);
    RunKeepsInvariant(h, events[..i]);
    assert Earlier(h, events, i);
    hide Run, RowsOk, AllCompatible, IdsBelow, Later;
    assert Run(h, events[..i]).trace[m] == Run(h, events).trace[m];
    assert StillTrue(Run(h, events).trace[m], Run(h, events[..i]).db);
  }

  lemma DroppedIsNotSettled(h: Hashing, events: seq<Event>, k: int)
    requires LostToPurge(h, events, k)
    ensures !Settled(Run(h, events).db, Run(h, events).trace, k)
  {
    var past := Run(h, events);
    var i, j :| DropsAt(h, events, i, j, k);
    var r := past.trace[j].request;
    OnlyHolder(h, events, j);
    assert events[..|events|] == events;
    DroppedIsGone(h, events, i, |events|, r);
    hide Run;
    forall q ensures !HandedOut(past.trace, q, k) {
      if HandedOut(past.trace, q, k) {
        var m :| 0 <= m < |past.trace| && past.trace[m].Handed? && past.trace[m].request == q && past.trace[m].key == k;
        DroppedIsNotHanded(h, events, i, j, k, m);
      }
    }
  }

  lemma DeniedIsNotSettled(h: Hashing, events: seq<Event>, k: int)
    requires LostToDenial(Run(h, events).db, Run(h, events).trace, k)
    ensures !Settled(Run(h, events).db, Run(h, events).trace, k)
  {
    var past := Run(h, events);
    var r, owner, granted :| KeyCreated(r, k, owner, granted) in past.trace && WasDenied(r) in past.trace && r !in past.db.requests;
    var j :| 0 <= j < |past.trace| && past.trace[j] == KeyCreated(r, k, owner, granted);
    OnlyHolder(h, events, j);
    hide Run;
    forall q ensures !HandedOut(past.trace, q, k) { DeniedIsNotHanded(h, events, r, owner, granted, k, q); }
  }

  /**
    Exactly which keys are lost, over all runs and however late purges commit: an active key was
    handed out or still has its request, unless its request was denied after the key's creation and
    then purged, or the key was created after a purge had selected and for a request it dropped.
  */
  lemma SettledIff(h: Hashing, events: seq<Event>, k: int)
    requires Active(Run(h, events).db, k)
    ensures var past := Run(h, events);
      Settled(past.db, past.trace, k) <==> !LostToDenial(past.db, past.trace, k) && !LostToPurge(h, events, k)
  {
    var past := Run(h, events);
    RunAccounts(h, events);
    if LostToDenial(past.db, past.trace, k) { DeniedIsNotSettled(h, events, k); }
    if LostToPurge(h, events, k) { DroppedIsNotSettled(h, events, k); }
    hide Run, Inv, Recorded, LostToDenial, LostToPurge, Settled;
  }

  /** No key is created between the selection and the commit of any purge. */
  predicate NoKeyBetween(h: Hashing, events: seq<Event>) {
    forall i, j :: 0 <= j < i < |events| && events[i].PurgeAt? && SeenBy(events, i) <= j ==> !Run(h, events).trace[j].KeyCreated?
  }

  /** In particular when every purge commits as soon as it has selected. */
  lemma LostExactlyWhenDenied(h: Hashing, events: seq<Event>, k: int)
    requires Active(Run(h, events).db, k) && NoKeyBetween(h, events)
    ensures var past := Run(h, events); Settled(past.db, past.trace, k) <==> !LostToDenial(past.db, past.trace, k)
  {
    SettledIff(h, events, k);
    hide Run;
    assert !LostToPurge(h, events, k) by { forall i, j ensures !DropsAt(h, events, i, j, k) {} }
  }

  /** Every active key was handed out or belongs to a request that has not expired at `now`. */
  ghost predicate Conserved(db: Db, trace: seq<Output>, now: int) {
    forall k :: Active(db, k) ==>
      (exists r :: HandedOut(trace, r, k)) || exists r :: HasKey(db, r, k) && now < db.requests[r].expiresAt
  }

  /** The request is denied and expired, and its key is active. */
  predicate KeyedDenial(db: Db, r: int, now: int, k: int) {
    && r in db.requests && db.requests[r].status.Denied? && db.requests[r].expiresAt <= now
    && db.requests[r].key == Some(k)
  }

  /**
    When a purge keeps its promise, after any run and however late it commits: of the keys active
    after it, none belongs to a denied request that it drops, none was lost to such a denial before,
    and none was created too late for this purge or an earlier one; and conversely.
  */
  lemma PurgeConservesIff(h: Hashing, events: seq<Event>, now: int, selected: nat)
    ensures var before := Run(h, events); var all := events + [PurgeAt(now, selected)]; var after := Run(h, all);
      Conserved(after.db, after.trace, now) <==>
        forall k :: Active(after.db, k) ==>
          && (forall r :: !KeyedDenial(before.db, r, now, k))
          && !LostToDenial(before.db, before.trace, k) && !LostToPurge(h, all, k)
  {
    var before, all := Run(h, events), events + [PurgeAt(now, selected)];
    var after := Run(h, all);
    assert all[..|events|] == events;
    var from := SelectedFrom(h, all);
    assert after.db == LatePurge(from, before.db, now).db && after.trace == before.trace + [LatePurge(from, before.db, now).output];
    LatePurgeOnlyDrops(from, before.db, now);
    RunAccounts(h, events);
    LatePurgeMoves(from, before.db, now);
    hide Run, SelectedFrom, LatePurge, Inv, Recorded, Later;
    ConservedIsSettled(after.db, after.trace, now);
    forall k | Active(after.db, k)
      ensures LostToDenial(after.db, after.trace, k) <==> LostToDenial(before.db, before.trace, k) || exists r :: KeyedDenial(before.db, r, now, k)
    {
      DenialsOfPurge(before.db, before.trace, from, now, k);
    }
    forall k | Active(after.db, k)
      ensures Settled(after.db, after.trace, k) <==> !LostToDenial(after.db, after.trace, k) && !LostToPurge(h, all, k)
    {
      SettledIff(h, all, k);
    }
  }

  /** After a purge every stored request is unexpired. */
  lemma ConservedIsSettled(db: Db, trace: seq<Output>, now: int)
    requires forall r :: r in db.requests ==> now < db.requests[r].expiresAt
    ensures Conserved(db, trace, now) <==> forall k :: Active(db, k) ==> Settled(db, trace, k)
  {
    hide HandedOut;
  }

  lemma DenialsOfPurge(db: Db, trace: seq<Output>, selected: Db, now: int, k: int)
    requires Inv(db, trace) && Recorded(db, trace)
    ensures var reply := LatePurge(selected, db, now);
      LostToDenial(reply.db, trace + [reply.output], k)
      <==> LostToDenial(db, trace, k) || exists r :: KeyedDenial(db, r, now, k)
  {
    var reply := LatePurge(selected, db, now);
    var longer := trace + [reply.output];
    LatePurgeMoves(selected, db, now);
    if LostToDenial(db, trace, k) { LostStaysLost(db, trace, reply.db, reply.output, k); }
    if r :| KeyedDenial(db, r, now, k) {
      var o := RecordedKey(db, trace, r);
      assert o == KeyCreated(r, k, o.owner, o.permissions);
      assert KeyCreated(r, k, o.owner, o.permissions) in longer && WasDenied(r) in longer && r !in reply.db.requests;
    }
    if LostToDenial(reply.db, longer, k) { DenialBefore(db, trace, selected, now, k); }
  }

  lemma DenialBefore(db: Db, trace: seq<Output>, selected: Db, now: int, k: int)
    requires Inv(db, trace)
    requires var reply := LatePurge(selected, db, now); LostToDenial(reply.db, trace + [reply.output], k)
    ensures LostToDenial(db, trace, k) || exists r :: KeyedDenial(db, r, now, k)
  {
    var reply := LatePurge(selected, db, now);
    var r, owner, granted :| KeyCreated(r, k, owner, granted) in trace + [reply.output] && WasDenied(r) in trace + [reply.output] && r !in reply.db.requests;
    assert KeyCreated(r, k, owner, granted) in trace && WasDenied(r) in trace;
    assert StillTrue(KeyCreated(r, k, owner, granted), db) && StillTrue(WasDenied(r), db);
    if r in db.requests { assert KeyedDenial(db, r, now, k); }
  }

  /** No run in which a request never has both a key and a denial, and no key is created during a purge, loses a key. */
  lemma WithoutKeyedDenialsNothingIsLost(h: Hashing, events: seq<Event>)
    requires NoKeyBetween(h, events)
    requires forall r, k, owner, granted :: KeyCreated(r, k, owner, granted) in Run(h, events).trace ==>
      WasDenied(r) !in Run(h, events).trace
    ensures forall k :: Active(Run(h, events).db, k) ==> Settled(Run(h, events).db, Run(h, events).trace, k)
  {
    forall k | Active(Run(h, events).db, k) ensures Settled(Run(h, events).db, Run(h, events).trace, k) {
      LostExactlyWhenDenied(h, events, k);
    }
  }

  // ─── The run that loses a key ─────────────────────────────────────────────

  const CLIENT := Client({"https://app.example/back"}, true)
  const DEPOSIT := Deposit("app", "https://app.example/back", "challenge", 0x01, None)
  const CALLER := Caller("uri", "app", 7, 10)

  /** A user creates the key, changes their mind and denies; fifteen minutes later the request is purged. */
  const KEY_THEN_DENIAL := [
    SetClient("app", CLIENT), Create("uri", DEPOSIT, 0), NewKey(CALLER, KeyBody(3, 0x01, None), Some(0x21)), Deny(CALLER)]

  lemma LeastOfOne(s: set<int>, x: int)
    requires s == {x}
    ensures Least(s) == x
  {
  }

  lemma LockOnlyRequest(h: Hashing, db: Db, c: Caller)
    requires c.requestUri == "uri" && c.clientId == "app" && c.user == 7 && c.now < 900
    requires db.requests.Keys == {0} && db.requests[0].refHash == h.sha256("uri")
    requires db.requests[0].clientId == "app" && ActiveClient(db, "app")
    requires db.requests[0].status.Pending? && db.requests[0].expiresAt == 900 && db.requests[0].user in {None, Some(7)}
    ensures LockForUser(h, db, c) == Locked(Update(db, 0, db.requests[0].(user := Some(7))), 0)
  {
    assert RequestsByRef(db, h.sha256("uri")) == {0};
    LeastOfOne(RequestsByRef(db, h.sha256("uri")), 0);
    assert db.requests == db.requests[0 := db.requests[0]];
  }

  function DepositRow(h: Hashing): Request {
    Request(h.sha256("uri"), "app", "https://app.example/back", "challenge", 0x01, None, 900,
      Pending, None, None, None, None, None, None)
  }

  lemma RunSnoc(h: Hashing, past: seq<Event>, e: Event)
    requires !e.PurgeAt?
    ensures var reply := Step(h, Run(h, past).db, e);
      Run(h, past + [e]) == History(reply.db, Run(h, past).trace + [reply.output])
  {
    assert (past + [e])[..|past|] == past;
  }

  lemma AfterDeposit(h: Hashing)
    ensures Run(h, KEY_THEN_DENIAL[..2]).db == Db(map["app" := CLIENT], map[0 := DepositRow(h)], map[], 1, 0)
  {
    var es := KEY_THEN_DENIAL;
    RunSnoc(h, [], es[0]);
    RunSnoc(h, es[..1], es[1]);
    assert [] + [es[0]] == es[..1] && es[..1] + [es[1]] == es[..2];
  }

  lemma AfterKey(h: Hashing)
    ensures Run(h, KEY_THEN_DENIAL[..3]).db == Db(map["app" := CLIENT],
      map[0 := DepositRow(h).(user := Some(7), wallet := Some(3), key := Some(0))],
      map[0 := ApiKey(3, 7, 0x01, None, false)], 1, 1)
  {
    var es := KEY_THEN_DENIAL;
    AfterDeposit(h);
    RunSnoc(h, es[..2], es[2]);
    assert es[..2] + [es[2]] == es[..3];
    LockOnlyRequest(h, Run(h, es[..2]).db, CALLER);
    hide LockForUser, Run;
  }

  lemma AfterDenial(h: Hashing)
    ensures var db := Run(h, KEY_THEN_DENIAL).db;
      KeyedDenial(db, 0, 900, 0) && db.keys == map[0 := ApiKey(3, 7, 0x01, None, false)] && db.requests.Keys == {0}
  {
    var es := KEY_THEN_DENIAL;
    AfterKey(h);
    RunSnoc(h, es[..3], es[3]);
    assert es[..3] + [es[3]] == es;
    LockOnlyRequest(h, Run(h, es[..3]).db, CALLER);
    hide LockForUser, Run;
  }

  /** The purge of minute fifteen leaves the key active, with no one to hold it. */
  lemma KeyThenDenialLosesTheKey(h: Hashing)
    ensures var after := Run(h, KEY_THEN_DENIAL + [PurgeAt(900, 4)]);
      Active(after.db, 0) && !Conserved(after.db, after.trace, 900)
  {
    var es := KEY_THEN_DENIAL;
    var all := es + [PurgeAt(900, 4)];
    AfterDenial(h);
    assert all[..4] == es && SelectedFrom(h, all) == Run(h, es).db;
    var db := Run(h, es).db;
    assert Run(h, all).db == LatePurge(db, db, 900).db;
    hide Run, SelectedFrom;
    assert PurgedKeys(db, 900) == {};
    assert Active(LatePurge(db, db, 900).db, 0);
    hide Conserved, LatePurge, Active;
    PurgeConservesIff(h, es, 900, 4);
  }
}
