/** How stale an accepted key can be, over every interleaving. */
module ApiKeyStaleness {
  import opened Options
  import opened Permissions
  import opened ApiKeyCache
  import opened ApiKeyAuth

  // ─── Every acceptance goes back to a lookup of an active row ──────────────

  /** A lookup by the call saw the key active, and a secret was verified against what it saw. */
  ghost predicate Verified(w: World, trace: seq<Output>, pid: int, id: KeyId, authHash: string, secret: string, seenAt: int) {
    SawActive(pid, id, authHash, seenAt) in trace && w.argon2(authHash, secret)
  }

  /** A verdict stored at a given time, for a secret that a call had verified against a row it had seen active. */
  ghost predicate StoredAt(w: World, trace: seq<Output>, id: KeyId, key: string, cachedAt: int) {
    exists pid, authHash, secret, seenAt :: Cached(pid, id, authHash, secret, cachedAt, seenAt) in trace
      && Verified(w, trace, pid, id, authHash, secret, seenAt) && key == Key(w, id, secret) && seenAt <= cachedAt
  }

  /** Such a verdict, no older than the time to live. */
  ghost predicate FreshlyCached(w: World, trace: seq<Output>, id: KeyId, key: string, at: int) {
    exists cachedAt :: StoredAt(w, trace, id, key, cachedAt) && cachedAt <= at <= cachedAt + w.ttl
  }

  /** What entitles a call to be accepted: its own lookup and verification, or a hit on a fresh verdict. */
  ghost predicate Backed(w: World, trace: seq<Output>, pid: int, id: KeyId, secret: string) {
    || (exists authHash, seenAt :: Verified(w, trace, pid, id, authHash, secret, seenAt))
    || exists at :: HitTrue(pid, id, Key(w, id, secret), at) in trace && FreshlyCached(w, trace, id, Key(w, id, secret), at)
  }

  ghost predicate EntryBacked(w: World, s: State, trace: seq<Output>, k: string, id: KeyId)
    requires k in s.cache
  {
    StoredAt(w, trace, id, k, s.cache[k].expiresAt - w.ttl) && s.cache[k].expiresAt - w.ttl <= s.now
  }

  ghost predicate CacheBacked(w: World, s: State, trace: seq<Output>) {
    forall k, id: KeyId, digest :: k == CacheKey(id, digest) && k in s.cache && s.cache[k].valid ==> EntryBacked(w, s, trace, k, id)
  }

  ghost predicate CallBacked(w: World, s: State, trace: seq<Output>, pid: int)
    requires pid in s.calls
  {
    var c := s.calls[pid];
    match c.phase
    case Looked(row, seenAt) => row.Some? ==> SawActive(pid, c.id, row.value.authHash, seenAt) in trace && seenAt <= s.now
    case Hit => Backed(w, trace, pid, c.id, c.secret)
    case Owned(_, _) => Backed(w, trace, pid, c.id, c.secret)
    case _ => true
  }

  ghost predicate AllBacked(w: World, s: State, trace: seq<Output>) {
    CacheBacked(w, s, trace) && forall pid :: pid in s.calls ==> CallBacked(w, s, trace, pid)
  }

  lemma StoredAtExtends(w: World, trace: seq<Output>, o: Output, id: KeyId, key: string, cachedAt: int)
    requires StoredAt(w, trace, id, key, cachedAt)
    ensures StoredAt(w, trace + [o], id, key, cachedAt)
  {
    var pid, authHash, secret, seenAt :| Cached(pid, id, authHash, secret, cachedAt, seenAt) in trace
      && Verified(w, trace, pid, id, authHash, secret, seenAt) && key == Key(w, id, secret) && seenAt <= cachedAt;
    assert Cached(pid, id, authHash, secret, cachedAt, seenAt) in trace + [o];
    assert Verified(w, trace + [o], pid, id, authHash, secret, seenAt);
  }

  lemma BackedExtends(w: World, trace: seq<Output>, o: Output, pid: int, id: KeyId, secret: string)
    requires Backed(w, trace, pid, id, secret)
    ensures Backed(w, trace + [o], pid, id, secret)
  {
    if authHash, seenAt :| Verified(w, trace, pid, id, authHash, secret, seenAt) {
      assert Verified(w, trace + [o], pid, id, authHash, secret, seenAt);
    } else {
      var key := Key(w, id, secret);
      var at :| HitTrue(pid, id, key, at) in trace && FreshlyCached(w, trace, id, key, at);
      var cachedAt :| StoredAt(w, trace, id, key, cachedAt) && cachedAt <= at <= cachedAt + w.ttl;
      StoredAtExtends(w, trace, o, id, key, cachedAt);
      assert HitTrue(pid, id, key, at) in trace + [o] && FreshlyCached(w, trace + [o], id, key, at);
    }
  }

  /** Unless an event stores a verdict, the cache stays backed as it shrinks and time passes. */
  lemma SmallerCacheBacked(w: World, s: State, trace: seq<Output>, next: State, o: Output)
    requires CacheBacked(w, s, trace) && s.now <= next.now
    requires forall k :: k in next.cache && next.cache[k].valid ==> k in s.cache && next.cache[k] == s.cache[k]
    ensures CacheBacked(w, next, trace + [o])
  {
    forall k, id: KeyId, digest | k == CacheKey(id, digest) && k in next.cache && next.cache[k].valid
      ensures EntryBacked(w, next, trace + [o], k, id)
    {
      assert EntryBacked(w, s, trace, k, id);
      StoredAtExtends(w, trace, o, id, k, s.cache[k].expiresAt - w.ttl);
    }
  }

  /** Calls an event does not touch stay backed. */
  lemma OtherCallBacked(w: World, s: State, trace: seq<Output>, next: State, o: Output, pid: int)
    requires pid in s.calls && CallBacked(w, s, trace, pid) && s.now <= next.now
    requires pid in next.calls && next.calls[pid] == s.calls[pid]
    ensures CallBacked(w, next, trace + [o], pid)
  {
    var c := s.calls[pid];
    if c.phase.Hit? || c.phase.Owned? { BackedExtends(w, trace, o, pid, c.id, c.secret); }
  }

  lemma CacheKeyInjective(a: KeyId, x: string, b: KeyId, y: string)
    ensures CacheKey(a, x) == CacheKey(b, y) <==> a == b && x == y
  {
    assert CacheKey(a, x)[..36] == a && CacheKey(b, y)[..36] == b;
    assert CacheKey(a, x)[37..] == x && CacheKey(b, y)[37..] == y;
  }

  lemma BeginBacked(w: World, s: State, trace: seq<Output>, pid: int, id: KeyId, secret: string, perms: bv8)
    requires AllBacked(w, s, trace) && pid !in s.calls
    ensures var reply := BeginCall(w, s, pid, id, secret, perms); CallBacked(w, reply.state, trace + [reply.output], pid)
  {
    var reply := BeginCall(w, s, pid, id, secret, perms);
    var key := Key(w, id, secret);
    if Verdict(s.cache, key, s.now) == Some(true) {
      assert key == CacheKey(id, w.sha256(secret));
      var cachedAt := s.cache[key].expiresAt - w.ttl;
      assert EntryBacked(w, s, trace, key, id);
      StoredAtExtends(w, trace, reply.output, id, key, cachedAt);
      assert FreshlyCached(w, trace + [reply.output], id, key, s.now);
      assert HitTrue(pid, id, key, s.now) in trace + [reply.output];
    }
  }

  lemma SettleStores(w: World, s: State, trace: seq<Output>, pid: int)
    requires AllBacked(w, s, trace) && pid in s.calls && s.calls[pid].phase.Looked?
    requires SettleCall(w, s, pid).output.Cached?
    ensures var c := s.calls[pid]; var longer := trace + [SettleCall(w, s, pid).output];
      && StoredAt(w, longer, c.id, Key(w, c.id, c.secret), s.now) && Backed(w, longer, pid, c.id, c.secret)
  {
    var c := s.calls[pid];
    var longer := trace + [SettleCall(w, s, pid).output];
    var authHash := c.phase.row.value.authHash;
    assert CallBacked(w, s, trace, pid);
    assert Verified(w, longer, pid, c.id, authHash, c.secret, c.phase.seenAt);
    assert Cached(pid, c.id, authHash, c.secret, s.now, c.phase.seenAt) in longer;
  }

  lemma SettleBacked(w: World, s: State, trace: seq<Output>, pid: int)
    requires AllBacked(w, s, trace) && pid in s.calls && s.calls[pid].phase.Looked?
    ensures var reply := SettleCall(w, s, pid);
      CacheBacked(w, reply.state, trace + [reply.output]) && CallBacked(w, reply.state, trace + [reply.output], pid)
  {
    var reply := SettleCall(w, s, pid);
    var c := s.calls[pid];
    var key := Key(w, c.id, c.secret);
    if !reply.output.Cached? {
      SmallerCacheBacked(w, s, trace, reply.state, reply.output);
    } else {
      SettleStores(w, s, trace, pid);
      SmallerCacheBacked(w, s, trace, s, reply.output);
      hide StoredAt, Backed;
      forall k, id: KeyId, digest | k == CacheKey(id, digest) && k in reply.state.cache && reply.state.cache[k].valid
        ensures EntryBacked(w, reply.state, trace + [reply.output], k, id)
      {
        CacheKeyInjective(id, digest, c.id, w.sha256(c.secret));
        if k != key { assert EntryBacked(w, s, trace + [reply.output], k, id); }
      }
    }
  }

  /** The call an event moves, if any. */
  function Mover(e: Event): Option<int> {
    match e
    case Begin(pid, _, _, _) => Some(pid)
    case ReadKey(pid) => Some(pid)
    case Settle(pid) => Some(pid)
    case ReadOwner(pid) => Some(pid)
    case CheckGrant(pid) => Some(pid)
    case _ => None
  }

  predicate Framed(s: State, e: Event, next: State) {
    && s.now <= next.now
    && (!e.Settle? ==> forall k :: k in next.cache && next.cache[k].valid ==> k in s.cache && next.cache[k] == s.cache[k])
    && (forall pid :: Some(pid) != Mover(e) && pid in next.calls ==> pid in s.calls && next.calls[pid] == s.calls[pid])
    && (next.calls == s.calls || (Mover(e).Some? && Mover(e).value in next.calls))
  }

  lemma BeginFrame(w: World, s: State, pid: int, id: KeyId, secret: string, perms: bv8)
    ensures Framed(s, Begin(pid, id, secret, perms), BeginCall(w, s, pid, id, secret, perms).state)
  {
  }

  lemma AdvanceFrame(s: State, e: Event, pid: int, phase: Phase)
    requires Mover(e) == Some(pid) && pid in s.calls && !e.Settle?
    ensures Framed(s, e, Advance(s, pid, phase))
  {
  }

  lemma ReadFrame(w: World, s: State, e: Event)
    requires e.ReadKey? || e.ReadOwner? || e.CheckGrant?
    ensures Framed(s, e, Step(w, s, e).state)
  {
    var next := Step(w, s, e).state;
    if next != s {
      assert next == Advance(s, e.pid, next.calls[e.pid].phase);
      hide Step;
      AdvanceFrame(s, e, e.pid, next.calls[e.pid].phase);
    }
  }

  lemma SettleFrame(w: World, s: State, pid: int)
    ensures Framed(s, Settle(pid), SettleCall(w, s, pid).state)
  {
  }

  lemma StoreFrame(w: World, s: State, e: Event)
    requires Mover(e).None?
    ensures Framed(s, e, Step(w, s, e).state)
  {
  }

  lemma StepFrame(w: World, s: State, e: Event)
    ensures Framed(s, e, Step(w, s, e).state)
  {
    hide BeginCall, SettleCall, Framed;
    match e
    case Begin(pid, id, secret, perms) => BeginFrame(w, s, pid, id, secret, perms);
    case Settle(pid) => SettleFrame(w, s, pid);
    case ReadKey(_) => ReadFrame(w, s, e);
    case ReadOwner(_) => ReadFrame(w, s, e);
    case CheckGrant(_) => ReadFrame(w, s, e);
    case _ => StoreFrame(w, s, e);
  }

  lemma MoverBacked(w: World, s: State, trace: seq<Output>, e: Event)
    requires AllBacked(w, s, trace) && Mover(e).Some? && Mover(e).value in Step(w, s, e).state.calls
    ensures CallBacked(w, Step(w, s, e).state, trace + [Step(w, s, e).output], Mover(e).value)
  {
    hide CacheBacked;
    var pid := Mover(e).value;
    var reply := Step(w, s, e);
    if pid in s.calls && reply.state.calls[pid] == s.calls[pid] {
      StepFrame(w, s, e);
      hide Step;
      OtherCallBacked(w, s, trace, reply.state, reply.output, pid);
    } else {
      match e
      case Begin(_, id, secret, perms) => BeginBacked(w, s, trace, pid, id, secret, perms);
      case Settle(_) => SettleBacked(w, s, trace, pid);
      case ReadOwner(_) => BackedExtends(w, trace, reply.output, pid, s.calls[pid].id, s.calls[pid].secret);
      case _ =>
    }
  }

  lemma StepStaysBacked(w: World, s: State, trace: seq<Output>, e: Event)
    requires AllBacked(w, s, trace)
    ensures AllBacked(w, Step(w, s, e).state, trace + [Step(w, s, e).output])
  {
    var reply := Step(w, s, e);
    StepFrame(w, s, e);
    if e.Settle? && e.pid in s.calls && s.calls[e.pid].phase.Looked? {
      SettleBacked(w, s, trace, e.pid);
      assert reply == SettleCall(w, s, e.pid);
    } else {
      assert e.Settle? ==> reply.state == s;
      SmallerCacheBacked(w, s, trace, reply.state, reply.output);
    }
    forall pid | pid in reply.state.calls ensures CallBacked(w, reply.state, trace + [reply.output], pid) {
      if Some(pid) == Mover(e) {
        MoverBacked(w, s, trace, e);
      } else {
        OtherCallBacked(w, s, trace, reply.state, reply.output, pid);
      }
    }
  }

  lemma {:induction false} RunStaysBacked(w: World, events: seq<Event>)
    ensures AllBacked(w, Run(w, events).state, Run(w, events).trace)
  {
    if events != [] {
      var before := Run(w, events[..|events| - 1]);
      RunStaysBacked(w, events[..|events| - 1]);
      hide AllBacked, Step;
      StepStaysBacked(w, before.state, before.trace, events[|events| - 1]);
    }
  }

  lemma OnlyCheckAccepts(w: World, s: State, e: Event)
    requires Step(w, s, e).output.Accepted?
    ensures e.CheckGrant? && e.pid in s.calls && s.calls[e.pid].phase.Owned?
    ensures var o := Step(w, s, e).output; var c := s.calls[e.pid];
      && o.pid == e.pid && o.id == c.id && o.secret == c.secret && o.perms == c.perms
      && o.wallet == c.phase.wallet && o.owner == c.phase.owner
      && (o.wallet, o.owner) in s.grants && o.granted == s.grants[(o.wallet, o.owner)] && IsSubset(o.perms, o.granted)
  {
  }

  /**
    Over every interleaving, a call is accepted only if it verified its secret against an unrevoked
    row it looked up, or hit, at a time t, a verdict stored no earlier than t minus the time to live
    by a call that had done so for a secret of the same digest; and only within the grant its owner
    holds at that step.
  */
  lemma {:induction false} AcceptanceIsBacked(w: World, events: seq<Event>, n: nat)
    requires n < |events| && Run(w, events).trace[n].Accepted?
    ensures var o := Run(w, events).trace[n]; var before := Run(w, events[..n]);
      && Backed(w, before.trace, o.pid, o.id, o.secret)
      && (o.wallet, o.owner) in before.state.grants && o.granted == before.state.grants[(o.wallet, o.owner)]
      && IsSubset(o.perms, o.granted)
    decreases |events|
  {
    hide Backed, Step, CacheBacked;
    var last := |events| - 1;
    var before := Run(w, events[..last]);
    if n < last {
      assert events[..last][..n] == events[..n];
      AcceptanceIsBacked(w, events[..last], n);
    } else {
      RunStaysBacked(w, events[..n]);
      OnlyCheckAccepts(w, before.state, events[n]);
      assert CallBacked(w, before.state, before.trace, events[n].pid);
    }
  }

  // ─── No lookup sees a revoked key ─────────────────────────────────────────

  ghost predicate RevokedKnown(s: State, trace: seq<Output>) {
    forall o, id :: o in trace && o.Revoked? && id in o.ids && id in s.keys ==> s.keys[id].revoked
  }

  ghost predicate PendingKnown(s: State) {
    && (forall id :: id in s.revoking ==> id in s.keys)
    && forall tid, id :: tid in s.cascades && id in s.cascades[tid].ids ==> id in s.keys
  }

  ghost predicate RevokedExist(s: State, trace: seq<Output>) {
    forall o, id :: o in trace && o.Revoked? && id in o.ids ==> id in s.keys
  }

  lemma StepKeepsRevoked(w: World, s: State, trace: seq<Output>, e: Event)
    requires RevokedKnown(s, trace) && PendingKnown(s) && RevokedExist(s, trace)
    ensures var reply := Step(w, s, e);
      RevokedKnown(reply.state, trace + [reply.output]) && PendingKnown(reply.state) && RevokedExist(reply.state, trace + [reply.output])
  {
    KeysGrow(w, s, e);
    StepKeepsPending(w, s, e);
    hide Step, PendingKnown;
  }

  lemma KeysGrow(w: World, s: State, e: Event)
    requires PendingKnown(s)
    ensures var reply := Step(w, s, e);
      && (forall id :: id in s.keys ==> id in reply.state.keys && (s.keys[id].revoked ==> reply.state.keys[id].revoked))
      && (reply.output.Revoked? ==> forall id :: id in reply.output.ids ==> id in reply.state.keys && reply.state.keys[id].revoked)
  {
    hide BeginCall, SettleCall, ReadKeyRow, ReadOwnerRow, CheckOwnerGrant;
    if Mover(e).Some? { KeysUntouched(w, s, e); }
  }

  lemma KeysUntouched(w: World, s: State, e: Event)
    requires Mover(e).Some?
    ensures var reply := Step(w, s, e);
      && reply.state.keys == s.keys && reply.state.revoking == s.revoking && reply.state.cascades == s.cascades
      && !reply.output.Revoked?
  {
  }

  lemma StepKeepsPending(w: World, s: State, e: Event)
    requires PendingKnown(s)
    ensures PendingKnown(Step(w, s, e).state)
  {
    if Mover(e).Some? { KeysUntouched(w, s, e); }
    hide BeginCall, SettleCall, ReadKeyRow, ReadOwnerRow, CheckOwnerGrant;
  }

  lemma {:induction false} RunKeepsRevoked(w: World, events: seq<Event>)
    ensures var past := Run(w, events); RevokedKnown(past.state, past.trace) && PendingKnown(past.state) && RevokedExist(past.state, past.trace)
  {
    if events != [] {
      var before := Run(w, events[..|events| - 1]);
      RunKeepsRevoked(w, events[..|events| - 1]);
      hide RevokedKnown, RevokedExist, PendingKnown, Step;
      StepKeepsRevoked(w, before.state, before.trace, events[|events| - 1]);
    }
  }

  lemma SawActiveIsActive(w: World, s: State, e: Event)
    ensures Step(w, s, e).output.SawActive? ==> Active(s, Step(w, s, e).output.id)
  {
  }

  /** Once a revocation has committed no lookup sees the key active: whatever still accepts it was looked up before. */
  lemma {:induction false} NoLookupAfterRevocation(w: World, events: seq<Event>, j: nat, i: nat)
    requires j < i < |events| && Run(w, events).trace[j].Revoked? && Run(w, events).trace[i].SawActive?
    ensures Run(w, events).trace[i].id !in Run(w, events).trace[j].ids
    decreases |events|
  {
    hide Step;
    var last := |events| - 1;
    var before := Run(w, events[..last]);
    if i < last {
      NoLookupAfterRevocation(w, events[..last], j, i);
    } else {
      RunKeepsRevoked(w, events[..last]);
      SawActiveIsActive(w, before.state, events[last]);
      assert Run(w, events).trace[j] == before.trace[j] && before.trace[j] in before.trace;
    }
  }
}
