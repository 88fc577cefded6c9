/**
  Concurrent validation, revocation and grant deletion over one validation cache. Each event is
  what runs between two await points; a database write is seen by others when it commits.
*/
module ApiKeyAuth {
  import opened Options
  import opened Permissions
  import opened ApiKeyCache

  datatype KeyRow = KeyRow(wallet: int, owner: int, authHash: string, revoked: bool)

  datatype World = World(sha256: string -> string, argon2: (string, string) -> bool, ttl: nat)

  /** Where a validation waits. */
  datatype Phase =
    | Missed
    | Looked(row: Option<KeyRow>, seenAt: int)
    | Hit
    | Owned(wallet: int, owner: int)
    | Finished

  datatype Call = Call(id: KeyId, secret: string, perms: bv8, phase: Phase)

  /** A grant deletion under way: the keys its update revoked, unseen until it commits. */
  datatype Cascade = Cascade(wallet: int, owner: int, ids: set<KeyId>)

  datatype State = State(
    now: int, keys: map<KeyId, KeyRow>, grants: map<(int, int), bv8>, cache: Cache, calls: map<int, Call>,
    revoking: set<KeyId>, cascades: map<int, Cascade>)

  datatype Event =
    | Tick(elapsed: nat)
    | IssueKey(id: KeyId, row: KeyRow)
    | SetGrant(wallet: int, user: int, perms: bv8)
    | Begin(pid: int, id: KeyId, secret: string, perms: bv8)
    | ReadKey(pid: int)
    | Settle(pid: int)
    | ReadOwner(pid: int)
    | CheckGrant(pid: int)
    | RevokeBegin(id: KeyId)
    | RevokeCommit(id: KeyId)
    | RevokeAbort(id: KeyId)
    | CascadeBegin(tid: int, wallet: int, owner: int)
    | CascadeCommit(tid: int)
    | CascadeAbort(tid: int)

  datatype Output =
    | SawActive(pid: int, id: KeyId, authHash: string, at: int)
    | Cached(pid: int, id: KeyId, authHash: string, secret: string, at: int, seenAt: int)
    | HitTrue(pid: int, id: KeyId, key: string, at: int)
    | Accepted(pid: int, id: KeyId, secret: string, wallet: int, owner: int, perms: bv8, granted: bv8)
    | Revoked(ids: set<KeyId>)
    | Quiet

  datatype Reply = Reply(state: State, output: Output)

  function Key(w: World, id: KeyId, secret: string): string {
    CacheKey(id, w.sha256(secret))
  }

  function Advance(s: State, pid: int, phase: Phase): State
    requires pid in s.calls
  {
    s.(calls := s.calls[pid := s.calls[pid].(phase := phase)])
  }

  function InPhase(s: State, pid: int): Option<Phase> {
    if pid in s.calls then Some(s.calls[pid].phase) else None
  }

  /** Step 5 up to its first await: a cached refusal ends the call, a cached acceptance skips the lookup. */
  function BeginCall(w: World, s: State, pid: int, id: KeyId, secret: string, perms: bv8): Reply {
    if pid in s.calls then Reply(s, Quiet)
    else
      var key := Key(w, id, secret);
      var verdict := Verdict(s.cache, key, s.now);
      var phase := if verdict == None then Missed else if verdict == Some(true) then Hit else Finished;
      Reply(s.(cache := AfterGet(s.cache, key, s.now), calls := s.calls[pid := Call(id, secret, perms, phase)]),
        if phase.Hit? then HitTrue(pid, id, key, s.now) else Quiet)
  }

  /** `WHERE id = $1 AND revoked_at IS NULL`, on committed rows. */
  function Active(s: State, id: KeyId): bool {
    id in s.keys && !s.keys[id].revoked
  }

  function ReadKeyRow(s: State, pid: int): Reply {
    if InPhase(s, pid) != Some(Missed) then Reply(s, Quiet)
    else
      var id := s.calls[pid].id;
      if Active(s, id) then Reply(Advance(s, pid, Looked(Some(s.keys[id]), s.now)), SawActive(pid, id, s.keys[id].authHash, s.now))
      else Reply(Advance(s, pid, Looked(None, s.now)), Quiet)
  }

  /** After the lookup: verify the secret and remember the verdict. */
  function SettleCall(w: World, s: State, pid: int): Reply {
    if pid !in s.calls || !s.calls[pid].phase.Looked? then Reply(s, Quiet)
    else
      var c := s.calls[pid];
      var key := Key(w, c.id, c.secret);
      var good := c.phase.row.Some? && w.argon2(c.phase.row.value.authHash, c.secret);
      var cache := s.cache[key := Entry(good, s.now + w.ttl)];
      if good then
        Reply(Advance(s, pid, Owned(c.phase.row.value.wallet, c.phase.row.value.owner)).(cache := cache),
          Cached(pid, c.id, c.phase.row.value.authHash, c.secret, s.now, c.phase.seenAt))
      else Reply(Advance(s, pid, Finished).(cache := cache), Quiet)
  }

  /** After a hit the owner is read from the row, revoked or not. */
  function ReadOwnerRow(s: State, pid: int): Reply {
    if InPhase(s, pid) != Some(Hit) then Reply(s, Quiet)
    else if s.calls[pid].id !in s.keys then Reply(Advance(s, pid, Finished), Quiet)
    else
      var row := s.keys[s.calls[pid].id];
      Reply(Advance(s, pid, Owned(row.wallet, row.owner)), Quiet)
  }

  /** Step 6: the owner's grant as it is now bounds the token. */
  function CheckOwnerGrant(s: State, pid: int): Reply {
    if pid !in s.calls || !s.calls[pid].phase.Owned? then Reply(s, Quiet)
    else
      var c := s.calls[pid];
      var pair := (c.phase.wallet, c.phase.owner);
      var next := Advance(s, pid, Finished);
      if pair !in s.grants || !IsSubset(c.perms, s.grants[pair]) then Reply(next, Quiet)
      else Reply(next, Accepted(pid, c.id, c.secret, c.phase.wallet, c.phase.owner, c.perms, s.grants[pair]))
  }

  function Revoke(keys: map<KeyId, KeyRow>, ids: set<KeyId>): map<KeyId, KeyRow> {
    map id | id in keys :: if id in ids then keys[id].(revoked := true) else keys[id]
  }

  function OwnedActive(s: State, wallet: int, owner: int): set<KeyId> {
    set id | id in s.keys && !s.keys[id].revoked && s.keys[id].wallet == wallet && s.keys[id].owner == owner
  }

  function Step(w: World, s: State, e: Event): Reply {
    match e
    case Tick(elapsed) => Reply(s.(now := s.now + elapsed), Quiet)
    case IssueKey(id, row) => Reply(if id in s.keys then s else s.(keys := s.keys[id := row]), Quiet)
    case SetGrant(wallet, user, perms) => Reply(s.(grants := s.grants[(wallet, user) := perms]), Quiet)
    case Begin(pid, id, secret, perms) => BeginCall(w, s, pid, id, secret, perms)
    case ReadKey(pid) => ReadKeyRow(s, pid)
    case Settle(pid) => SettleCall(w, s, pid)
    case ReadOwner(pid) => ReadOwnerRow(s, pid)
    case CheckGrant(pid) => CheckOwnerGrant(s, pid)
    case RevokeBegin(id) =>
      Reply(if !Active(s, id) then s else s.(cache := Invalidated(s.cache, id), revoking := s.revoking + {id}), Quiet)
    case RevokeCommit(id) =>
      if id !in s.revoking then Reply(s, Quiet)
      else Reply(s.(keys := Revoke(s.keys, {id}), revoking := s.revoking - {id}), Revoked({id}))
    case RevokeAbort(id) => Reply(s.(revoking := s.revoking - {id}), Quiet)
    case CascadeBegin(tid, wallet, owner) =>
      if tid in s.cascades then Reply(s, Quiet)
      else
        var ids := OwnedActive(s, wallet, owner);
        Reply(s.(cascades := s.cascades[tid := Cascade(wallet, owner, ids)], cache := if ids == {} then s.cache else map[]), Quiet)
    case CascadeCommit(tid) =>
      if tid !in s.cascades then Reply(s, Quiet)
      else
        var c := s.cascades[tid];
        Reply(s.(keys := Revoke(s.keys, c.ids), grants := s.grants - {(c.wallet, c.owner)}, cascades := s.cascades - {tid}), Revoked(c.ids))
    case CascadeAbort(tid) => Reply(s.(cascades := s.cascades - {tid}), Quiet)
  }

  datatype History = History(state: State, trace: seq<Output>)

  const START := State(0, map[], map[], map[], map[], {}, map[])

  function Run(w: World, events: seq<Event>): (past: History)
    ensures |past.trace| == |events|
  {
    if events == [] then History(START, [])
    else
      var before := Run(w, events[..|events| - 1]);
      var reply := Step(w, before.state, events[|events| - 1]);
      History(reply.state, before.trace + [reply.output])
  }
}
