/** Runs in which another transaction commits between a purge's selection and its own commit. */
module ConnectPurgeRace {
  import opened Options
  import opened ConnectFlow
  import opened ConnectRuns
  import opened ConnectTheorems
  import opened ConnectPurge

  /**
    Of the keys a purge revokes, those that were handed out are exactly those handed out between its
    selection and its commit.
  */
  lemma RevokesHandedIff(h: Hashing, events: seq<Event>, i: nat, k: int)
    requires i < |events| && events[i].PurgeAt?
    requires Run(h, events).trace[i].Purged? && k in Run(h, events).trace[i].revoked
    ensures (exists r :: HandedOut(Run(h, events).trace, r, k))
      <==> exists j :: SeenBy(events, i) <= j < i && HandsOut(Run(h, events).trace[j], k)
  {
    var trace := Run(h, events).trace;
    hide Run;
    if r :| HandedOut(trace, r, k) {
      var j :| 0 <= j < |trace| && trace[j].Handed? && trace[j].request == r && trace[j].key == k;
      PurgedIsHandedOnlyBetween(h, events, i, j);
      assert HandsOut(trace[j], k);
    }
    if j :| SeenBy(events, i) <= j < i && HandsOut(trace[j], k) {
      assert HandedOut(trace, trace[j].request, k);
    }
  }

  predicate HandsOut(o: Output, k: int) {
    o.Handed? && o.key == k
  }

  // ─── The two runs ─────────────────────────────────────────────────────────

  const LATE := Caller("uri", "app", 7, 895)

  /** Deposited at 0; the key is created and the envelope sealed five seconds before the request expires. */
  function SealedLate(h: Hashing): seq<Event> {
    [SetClient("app", CLIENT), Create("uri", Proven(h), 0), NewKey(LATE, KeyBody(3, 0x01, None), Some(0x21)), Seal(LATE, "jwe", "code")]
  }

  /** A deposit whose challenge is that of the verifier "v". */
  function Proven(h: Hashing): Deposit {
    DEPOSIT.(challenge := h.s256("v"))
  }

  /** The application redeems its code a second after the request has expired, the code having 54 seconds left. */
  const REDEEMED := [Redeem(TokenBody("code", "app", "https://app.example/back", "v"), 901)]

  function ProvenRow(h: Hashing): Request {
    DepositRow(h).(challenge := h.s256("v"))
  }

  function KeyedRow(h: Hashing): Request {
    ProvenRow(h).(user := Some(7), wallet := Some(3), key := Some(0))
  }

  function SealedRow(h: Hashing): Request {
    KeyedRow(h).(status := Sealed, jwe := Some("jwe"), codeHash := Some(h.sha256("code")), codeExpiresAt := Some(955))
  }

  const THE_KEY := ApiKey(3, 7, 0x01, None, false)

  lemma ProvenDeposited(h: Hashing)
    ensures Run(h, SealedLate(h)[..2]).db == Db(map["app" := CLIENT], map[0 := ProvenRow(h)], map[], 1, 0)
    ensures forall o :: o in Run(h, SealedLate(h)[..2]).trace ==> !o.WasDenied?
  {
    var es := SealedLate(h);
    RunSnoc(h, [], es[0]);
    RunSnoc(h, es[..1], es[1]);
    assert [] + [es[0]] == es[..1] && es[..1] + [es[1]] == es[..2];
  }

  lemma LateKey(h: Hashing)
    ensures Run(h, SealedLate(h)[..3]).db == Db(map["app" := CLIENT], map[0 := KeyedRow(h)], map[0 := THE_KEY], 1, 1)
    ensures Run(h, SealedLate(h)[..3]).trace[2] == KeyCreated(0, 0, 7, 0x01)
    ensures forall o :: o in Run(h, SealedLate(h)[..3]).trace ==> !o.WasDenied?
  {
    var es := SealedLate(h);
    ProvenDeposited(h);
    RunSnoc(h, es[..2], es[2]);
    assert es[..2] + [es[2]] == es[..3];
    LockOnlyRequest(h, Run(h, es[..2]).db, LATE);
    hide LockForUser, Run;
  }

  lemma LateSeal(h: Hashing)
    ensures Run(h, SealedLate(h)).db == Db(map["app" := CLIENT], map[0 := SealedRow(h)], map[0 := THE_KEY], 1, 1)
  {
    var es := SealedLate(h);
    LateKey(h);
    RunSnoc(h, es[..3], es[3]);
    assert es[..3] + [es[3]] == es;
    LockOnlyRequest(h, Run(h, es[..3]).db, LATE);
    hide LockForUser, Run;
    assert RequestsByCode(Run(h, es[..3]).db, h.sha256("code")) == {};
  }

  lemma LateHandOut(h: Hashing)
    ensures var all := Run(h, SealedLate(h) + REDEEMED);
      && all.db.keys == map[0 := THE_KEY] && |all.trace| == 5 && HandsOut(all.trace[4], 0) && all.trace[4].request == 0
  {
    hide Run, SealedLate, ExchangeCode, SealedRow;
    LateSeal(h);
    RunSnoc(h, SealedLate(h), REDEEMED[0]);
    assert |SealedLate(h)| == 4 by { FourEvents(h); }
    LateExchange(h, Run(h, SealedLate(h)).db);
  }

  lemma FourEvents(h: Hashing)
    ensures |SealedLate(h)| == 4
  {
  }

  lemma LateExchange(h: Hashing, db: Db)
    requires db == Db(map["app" := CLIENT], map[0 := SealedRow(h)], map[0 := THE_KEY], 1, 1)
    ensures var reply := ExchangeCode(h, db, REDEEMED[0].token, 901);
      reply.db.keys == db.keys && HandsOut(reply.output, 0) && reply.output.request == 0
  {
    assert RequestsByCode(db, h.sha256("code")) == {0};
    LeastOfOne(RequestsByCode(db, h.sha256("code")), 0);
  }

  /** Redeemed, and then purged at 900 by a purge that selected before the redemption. */
  function Redeemed(h: Hashing): seq<Event> {
    SealedLate(h) + REDEEMED + [PurgeAt(900, 4)]
  }

  /** The application is handed a key that is revoked at once. */
  lemma RedeemedKeyIsRevoked(h: Hashing)
    ensures var after := Run(h, Redeemed(h));
      HandedOut(after.trace, 0, 0) && 0 in after.db.keys && after.db.keys[0].revoked
  {
    var all, before := Redeemed(h), SealedLate(h) + REDEEMED;
    LateSeal(h);
    LateHandOut(h);
    FourEvents(h);
    assert all[..5] == before && all[..4] == SealedLate(h);
    assert SelectedFrom(h, all) == Run(h, SealedLate(h)).db;
    var was, db := Run(h, SealedLate(h)).db, Run(h, before).db;
    assert Run(h, all).db == LatePurge(was, db, 900).db && Run(h, all).trace[4] == Run(h, before).trace[4];
    hide Run, SealedLate, SelectedFrom, Redeemed;
    assert Undelivered(was.requests[0], 900) && 0 in PurgedKeys(was, 900);
    assert Run(h, all).trace[4].Handed? && Run(h, all).trace[4].request == 0 && Run(h, all).trace[4].key == 0;
  }

  /** The key is created after the purge has selected, and before the purge deletes its request. */
  function CreatedLate(h: Hashing): seq<Event> {
    SealedLate(h)[..3] + [PurgeAt(900, 2)]
  }

  /** It is lost without a denial: active, handed to nobody, and of no stored request. */
  lemma KeyOfDeletedRequestIsLost(h: Hashing)
    ensures var after := Run(h, CreatedLate(h));
      Active(after.db, 0) && !Settled(after.db, after.trace, 0) && !LostToDenial(after.db, after.trace, 0)
  {
    var all, before := CreatedLate(h), SealedLate(h)[..3];
    ProvenDeposited(h);
    LateKey(h);
    FourEvents(h);
    assert all[..3] == before && all[..2] == SealedLate(h)[..2] && |all| == 4;
    var was, past := Run(h, all[..2]).db, Run(h, before);
    assert SelectedFrom(h, all) == was;
    var reply := LatePurge(was, past.db, 900);
    assert Run(h, all) == History(reply.db, past.trace + [reply.output]);
    assert all[3] == PurgeAt(900, 2);
    hide Run, SealedLate, SelectedFrom, CreatedLate;
    assert PurgedKeys(was, 900) == {};
    assert Active(reply.db, 0);
    assert forall r :: WasDenied(r) !in past.trace + [reply.output];
    assert Undelivered(past.db.requests[0], 900) && Run(h, all).trace[2] == past.trace[2];
    hide LatePurge, Active, Undelivered;
    assert DropsAt(h, all, 3, 2, 0);
    hide DropsAt;
    DroppedIsNotSettled(h, all, 0);
  }
}
