/** Exactly when one validation accepts, and exactly what one revocation does, with nothing in between. */
module ApiKeyDecisions {
  import opened Options
  import opened Permissions
  import opened ApiKeyCache
  import opened ApiKeyAuth
  import opened ApiKeyRevocation

  /** A verdict is served for its time to live and no longer; the first read after that removes it. */
  lemma VerdictLasts(cache: Cache, key: string, valid: bool, at: int, ttl: nat, now: int)
    ensures var after := cache[key := Entry(valid, at + ttl)];
      && Verdict(after, key, now) == (if now <= at + ttl then Some(valid) else None)
      && AfterGet(after, key, now) == (if now <= at + ttl then after else after - {key})
      && forall other :: other != key ==> Verdict(after, other, now) == Verdict(cache, other, now)
  {
  }

  /** A call whose owner is known is accepted if and only if the owner has a grant on the wallet that contains every bit of the call. */
  lemma OwnedAcceptedIff(w: World, s: State, pid: int)
    requires pid in s.calls && s.calls[pid].phase.Owned?
    ensures var c := s.calls[pid]; var pair := (c.phase.wallet, c.phase.owner); var reply := Step(w, s, CheckGrant(pid));
      && (reply.output.Accepted? <==> pair in s.grants && AllBits(c.perms, s.grants[pair]))
      && (reply.output.Accepted? ==> reply.output == Accepted(pid, c.id, c.secret, pair.0, pair.1, c.perms, s.grants[pair]))
      && reply.state == s.(calls := s.calls[pid := c.(phase := Finished)])
  {
    var c := s.calls[pid];
    var pair := (c.phase.wallet, c.phase.owner);
    if pair in s.grants { SubsetIff(c.perms, s.grants[pair]); }
    hide IsSubset, Bit;
  }

  // ─── One validation from its first step to its last ───────────────────────

  /** The steps of one call; those of the branch it does not take change nothing. */
  function Alone(pid: int, id: KeyId, secret: string, perms: bv8): seq<Event> {
    [Begin(pid, id, secret, perms), ReadKey(pid), Settle(pid), ReadOwner(pid), CheckGrant(pid)]
  }

  function After(w: World, s: State, events: seq<Event>): State
    decreases |events|
  {
    if events == [] then s else After(w, Step(w, s, events[0]).state, events[1..])
  }

  /** The row is there, unrevoked, and the secret verifies against it. */
  predicate Verifies(w: World, s: State, id: KeyId, secret: string) {
    id in s.keys && !s.keys[id].revoked && w.argon2(s.keys[id].authHash, secret)
  }

  /** The entry of a secret, unless it has expired. */
  function Remembered(w: World, s: State, id: KeyId, secret: string): Option<bool> {
    var key := id + ":" + w.sha256(secret);
    if key in s.cache && s.now <= s.cache[key].expiresAt then Some(s.cache[key].valid) else None
  }

  predicate Granted(s: State, id: KeyId, perms: bv8) {
    && id in s.keys && (s.keys[id].wallet, s.keys[id].owner) in s.grants
    && AllBits(perms, s.grants[(s.keys[id].wallet, s.keys[id].owner)])
  }

  /** Where the first step leaves the call, and the cache, whatever the verdict. */
  lemma AfterBegin(w: World, s: State, pid: int, id: KeyId, secret: string, perms: bv8)
    requires pid !in s.calls
    ensures var key := id + ":" + w.sha256(secret); var known := Remembered(w, s, id, secret);
      var phase := if known.None? then Missed else if known.value then Hit else Finished;
      Step(w, s, Begin(pid, id, secret, perms)).state
        == s.(cache := if known.None? then s.cache - {key} else s.cache, calls := s.calls[pid := Call(id, secret, perms, phase)])
  {
    var key := id + ":" + w.sha256(secret);
    assert key !in s.cache ==> s.cache - {key} == s.cache;
  }

  /** Lookup, settlement and reading of the owner, from where the first step left the call. */
  lemma AfterMiss(w: World, s: State, pid: int, id: KeyId, secret: string, perms: bv8)
    requires pid in s.calls && s.calls[pid] == Call(id, secret, perms, Missed)
    ensures var key := id + ":" + w.sha256(secret); var good := Verifies(w, s, id, secret);
      Step(w, Step(w, Step(w, s, ReadKey(pid)).state, Settle(pid)).state, ReadOwner(pid)).state
        == s.(cache := s.cache[key := Entry(good, s.now + w.ttl)],
            calls := s.calls[pid := Call(id, secret, perms, if good then Owned(s.keys[id].wallet, s.keys[id].owner) else Finished)])
  {
    var row := if id in s.keys && !s.keys[id].revoked then Some(s.keys[id]) else None;
    var s2 := s.(calls := s.calls[pid := Call(id, secret, perms, Looked(row, s.now))]);
    assert Step(w, s, ReadKey(pid)).state == s2;
    LookedSettles(w, s2, pid, row);
  }

  lemma LookedSettles(w: World, s: State, pid: int, row: Option<KeyRow>)
    requires pid in s.calls && s.calls[pid].phase == Looked(row, s.now)
    ensures var c := s.calls[pid]; var key := c.id + ":" + w.sha256(c.secret);
      var good := row.Some? && w.argon2(row.value.authHash, c.secret);
      Step(w, Step(w, s, Settle(pid)).state, ReadOwner(pid)).state
        == s.(cache := s.cache[key := Entry(good, s.now + w.ttl)],
            calls := s.calls[pid := c.(phase := if good then Owned(row.value.wallet, row.value.owner) else Finished)])
  {
  }

  lemma AfterHit(w: World, s: State, pid: int, id: KeyId)
    requires pid in s.calls && s.calls[pid].id == id && (s.calls[pid].phase.Hit? || s.calls[pid].phase.Finished?)
    ensures Step(w, Step(w, Step(w, s, ReadKey(pid)).state, Settle(pid)).state, ReadOwner(pid)).state
      == s.(calls := s.calls[pid := s.calls[pid].(phase :=
          if s.calls[pid].phase.Hit? && id in s.keys then Owned(s.keys[id].wallet, s.keys[id].owner) else Finished)])
  {
    assert Step(w, s, ReadKey(pid)).state == s && Step(w, s, Settle(pid)).state == s;
    assert s.calls[pid := s.calls[pid]] == s.calls;
  }

  /** The state before the last step of a call alone. */
  lemma BeforeCheck(w: World, s: State, pid: int, id: KeyId, secret: string, perms: bv8) returns (t: State)
    requires pid !in s.calls
    ensures var s1 := Step(w, s, Begin(pid, id, secret, perms)).state; var s2 := Step(w, s1, ReadKey(pid)).state;
      var s3 := Step(w, s2, Settle(pid)).state;
      t == Step(w, s3, ReadOwner(pid)).state
    ensures t.keys == s.keys && t.grants == s.grants && t.now == s.now && pid in t.calls
    ensures t.calls[pid].id == id && t.calls[pid].secret == secret && t.calls[pid].perms == perms
    ensures var key := id + ":" + w.sha256(secret); var known := Remembered(w, s, id, secret);
      && (t.calls[pid].phase.Owned? <==> (if known.Some? then known.value && id in s.keys else Verifies(w, s, id, secret)))
      && (t.calls[pid].phase.Owned? ==> t.calls[pid].phase == Owned(s.keys[id].wallet, s.keys[id].owner))
      && t.cache == (if known.Some? then s.cache else s.cache[key := Entry(Verifies(w, s, id, secret), s.now + w.ttl)])
  {
    hide Step, Remembered;
    var key := id + ":" + w.sha256(secret);
    var s1 := Step(w, s, Begin(pid, id, secret, perms)).state;
    AfterBegin(w, s, pid, id, secret, perms);
    if Remembered(w, s, id, secret).None? {
      AfterMiss(w, s1, pid, id, secret, perms);
      var entry := Entry(Verifies(w, s, id, secret), s.now + w.ttl);
      assert (s.cache - {key})[key := entry] == s.cache[key := entry];
    } else {
      AfterHit(w, s1, pid, id);
    }
    t := Step(w, Step(w, Step(w, s1, ReadKey(pid)).state, Settle(pid)).state, ReadOwner(pid)).state;
  }

  /**
    A validation that nothing interrupts accepts if and only if the owner of the key has a grant
    with every bit of the token, and the secret has an unexpired positive verdict or, having none,
    verifies against the unrevoked row. The verdict is then remembered for the time to live.
  */
  lemma AloneAcceptedIff(w: World, s: State, pid: int, id: KeyId, secret: string, perms: bv8)
    requires pid !in s.calls
    ensures var known := Remembered(w, s, id, secret);
      Accepts(Outputs(w, s, Alone(pid, id, secret, perms)), id)
      <==> Granted(s, id, perms) && (if known.Some? then known.value else Verifies(w, s, id, secret))
    ensures After(w, s, Alone(pid, id, secret, perms)).cache
      == (if Remembered(w, s, id, secret).Some? then s.cache
          else s.cache[id + ":" + w.sha256(secret) := Entry(Verifies(w, s, id, secret), s.now + w.ttl)])
  {
    var t := BeforeCheck(w, s, pid, id, secret, perms);
    var s1 := Step(w, s, Begin(pid, id, secret, perms)).state;
    var s2 := Step(w, s1, ReadKey(pid)).state;
    var s3 := Step(w, s2, Settle(pid)).state;
    if t.calls[pid].phase.Owned? { OwnedAcceptedIff(w, t, pid); }
    OnlyLastAccepts(w, s, s1, s2, s3, pid, id, secret, perms);
    assert Step(w, t, CheckGrant(pid)).state.cache == t.cache;
    AloneUnfolds(w, s, s1, s2, s3, t, pid, id, secret, perms);
    hide Step, Outputs, After, Granted, Verifies, Remembered, AllBits;
    assert Step(w, t, CheckGrant(pid)).output.Accepted? ==> t.calls[pid].phase.Owned? by { NotOwnedNotAccepted(w, t, pid); }
    GrantedIff(s, id, perms);
  }

  lemma GrantedIff(s: State, id: KeyId, perms: bv8)
    ensures Granted(s, id, perms) <==> (
      && id in s.keys && (s.keys[id].wallet, s.keys[id].owner) in s.grants
      && AllBits(perms, s.grants[(s.keys[id].wallet, s.keys[id].owner)]))
  {
  }

  lemma NotOwnedNotAccepted(w: World, s: State, pid: int)
    requires pid in s.calls
    ensures Step(w, s, CheckGrant(pid)).output.Accepted? ==> s.calls[pid].phase.Owned?
  {
  }

  lemma OnlyLastAccepts(w: World, s: State, s1: State, s2: State, s3: State, pid: int, id: KeyId, secret: string, perms: bv8)
    ensures !Step(w, s, Begin(pid, id, secret, perms)).output.Accepted? && !Step(w, s1, ReadKey(pid)).output.Accepted?
    ensures !Step(w, s2, Settle(pid)).output.Accepted? && !Step(w, s3, ReadOwner(pid)).output.Accepted?
  {
  }

  lemma AloneUnfolds(w: World, s: State, s1: State, s2: State, s3: State, t: State, pid: int, id: KeyId, secret: string, perms: bv8)
    requires s1 == Step(w, s, Begin(pid, id, secret, perms)).state && s2 == Step(w, s1, ReadKey(pid)).state
    requires s3 == Step(w, s2, Settle(pid)).state && t == Step(w, s3, ReadOwner(pid)).state
    requires !Step(w, s, Begin(pid, id, secret, perms)).output.Accepted? && !Step(w, s1, ReadKey(pid)).output.Accepted?
    requires !Step(w, s2, Settle(pid)).output.Accepted? && !Step(w, s3, ReadOwner(pid)).output.Accepted?
    ensures var o := Step(w, t, CheckGrant(pid)).output;
      Accepts(Outputs(w, s, Alone(pid, id, secret, perms)), id) <==> o.Accepted? && o.id == id
    ensures After(w, s, Alone(pid, id, secret, perms)) == Step(w, t, CheckGrant(pid)).state
  {
    hide Step;
    var e1, e2, e3, e4, e5 := Begin(pid, id, secret, perms), ReadKey(pid), Settle(pid), ReadOwner(pid), CheckGrant(pid);
    assert [e1, e2, e3, e4, e5][1..] == [e2, e3, e4, e5] && [e2, e3, e4, e5][1..] == [e3, e4, e5];
    assert [e3, e4, e5][1..] == [e4, e5] && [e4, e5][1..] == [e5] && [e5][1..] == [];
    var o5 := Step(w, t, e5).output;
    var outputs := [Step(w, s, e1).output, Step(w, s1, e2).output, Step(w, s2, e3).output, Step(w, s3, e4).output, o5];
    assert Outputs(w, t, [e5]) == [o5];
    assert Outputs(w, s3, [e4, e5]) == outputs[3..];
    assert Outputs(w, s2, [e3, e4, e5]) == outputs[2..];
    assert Outputs(w, s1, [e2, e3, e4, e5]) == outputs[1..];
    assert Outputs(w, s, Alone(pid, id, secret, perms)) == outputs;
    assert outputs[4] == o5;
    assert After(w, t, [e5]) == Step(w, t, e5).state;
    assert After(w, s3, [e4, e5]) == Step(w, t, e5).state;
    assert After(w, s2, [e3, e4, e5]) == Step(w, t, e5).state;
  }

  // ─── One revocation ───────────────────────────────────────────────────────

  predicate SameEntry(a: Cache, b: Cache, key: string) {
    (key in a <==> key in b) && (key in a ==> a[key] == b[key])
  }

  /**
    Revoking an active key revokes it, removes every verdict on it and touches nothing else; revoking
    any other key does nothing.
  */
  lemma RevocationEffect(w: World, s: State, id: KeyId)
    requires id !in s.revoking
    ensures var after := Step(w, Step(w, s, RevokeBegin(id)).state, RevokeCommit(id)).state;
      if id !in s.keys || s.keys[id].revoked then after == s
      else
        && after.keys == s.keys[id := s.keys[id].(revoked := true)] && after == s.(keys := after.keys, cache := after.cache)
        && forall other: KeyId, digest ::
          if other == id then other + ":" + digest !in after.cache
          else SameEntry(s.cache, after.cache, other + ":" + digest)
  {
    var begun := Step(w, s, RevokeBegin(id)).state;
    var after := Step(w, begun, RevokeCommit(id)).state;
    if id in s.keys && !s.keys[id].revoked {
      assert begun.revoking - {id} == s.revoking;
      assert after.keys == s.keys[id := s.keys[id].(revoked := true)];
      forall other: KeyId, digest
        ensures if other == id then other + ":" + digest !in after.cache else SameEntry(s.cache, after.cache, other + ":" + digest)
      {
        InvalidationIsExact(s.cache, id, other, digest);
        assert CacheKey(other, digest) == other + ":" + digest;
      }
    }
  }

  /** A revocation or a grant deletion that is rolled back costs cached verdicts and nothing else. */
  lemma AbortEffect(w: World, s: State, id: KeyId, tid: int, wallet: int, owner: int)
    requires id !in s.revoking && tid !in s.cascades
    ensures var after := Step(w, Step(w, s, RevokeBegin(id)).state, RevokeAbort(id)).state;
      after == s.(cache := after.cache) && forall k :: k in after.cache ==> k in s.cache && after.cache[k] == s.cache[k]
    ensures var after := Step(w, Step(w, s, CascadeBegin(tid, wallet, owner)).state, CascadeAbort(tid)).state;
      after == s.(cache := after.cache) && forall k :: k in after.cache ==> k in s.cache && after.cache[k] == s.cache[k]
  {
    var begun := Step(w, s, RevokeBegin(id)).state;
    assert begun.revoking - {id} == s.revoking;
    assert Step(w, s, CascadeBegin(tid, wallet, owner)).state.cascades - {tid} == s.cascades;
  }

  /** A key of a new id is there as issued, an id that is taken stays as it is; time only passes. */
  lemma IssueEffect(w: World, s: State, id: KeyId, row: KeyRow, elapsed: nat)
    ensures Step(w, s, IssueKey(id, row)).state == s.(keys := if id in s.keys then s.keys else s.keys[id := row])
    ensures Step(w, s, Tick(elapsed)).state == s.(now := s.now + elapsed)
  {
  }

  /** A grant deletion revokes exactly the owner's active keys of the wallet, drops the grant, and empties the cache if there is such a key. */
  lemma CascadeEffect(w: World, s: State, tid: int, wallet: int, owner: int)
    requires tid !in s.cascades
    ensures var after := Step(w, Step(w, s, CascadeBegin(tid, wallet, owner)).state, CascadeCommit(tid)).state;
      && after.grants == s.grants - {(wallet, owner)} && after.keys.Keys == s.keys.Keys
      && (forall id :: id in s.keys ==>
        after.keys[id] == (if s.keys[id].wallet == wallet && s.keys[id].owner == owner then s.keys[id].(revoked := true) else s.keys[id]))
      && after == s.(keys := after.keys, grants := after.grants, cache := after.cache)
      && after.cache == (if exists id :: id in s.keys && !s.keys[id].revoked && s.keys[id].wallet == wallet && s.keys[id].owner == owner
        then map[] else s.cache)
  {
    var begun := Step(w, s, CascadeBegin(tid, wallet, owner)).state;
    assert begun.cascades - {tid} == s.cascades;
    var ids := OwnedActive(s, wallet, owner);
    if id :| id in s.keys && !s.keys[id].revoked && s.keys[id].wallet == wallet && s.keys[id].owner == owner {
      assert id in ids;
    } else {
      assert ids == {};
    }
  }
}
