/** Exactly when a key whose revocation has committed can still be accepted. */
module ApiKeyRevocation {
  import opened Options
  import opened Sets
  import opened ApiKeyCache
  import opened ApiKeyAuth
  import opened ApiKeyStaleness

  /** Outputs of a run from a given state. */
  function Outputs(w: World, s: State, events: seq<Event>): seq<Output>
    decreases |events|
  {
    if events == [] then []
    else [Step(w, s, events[0]).output] + Outputs(w, Step(w, s, events[0]).state, events[1..])
  }

  ghost predicate Accepts(outputs: seq<Output>, id: KeyId) {
    exists i :: 0 <= i < |outputs| && outputs[i].Accepted? && outputs[i].id == id
  }

  predicate LiveVerdict(w: World, s: State, id: KeyId, secret: string) {
    Verdict(s.cache, Key(w, id, secret), s.now) == Some(true)
  }

  /** A call for the key that needs nothing more from its row. */
  predicate PastLookup(w: World, s: State, pid: int, id: KeyId) {
    && pid in s.calls && s.calls[pid].id == id
    && match s.calls[pid].phase
       case Looked(row, _) => row.Some? && w.argon2(row.value.authHash, s.calls[pid].secret)
       case Hit => true
       case Owned(_, _) => true
       case _ => false
  }

  ghost predicate Lingers(w: World, s: State, id: KeyId) {
    (exists secret :: LiveVerdict(w, s, id, secret)) || exists pid :: PastLookup(w, s, pid, id)
  }

  predicate IsRevoked(s: State, id: KeyId) {
    id in s.keys && s.keys[id].revoked
  }

  lemma VerdictStaysDead(w: World, s: State, e: Event, id: KeyId, secret: string)
    requires IsRevoked(s, id) && !Lingers(w, s, id)
    ensures !LiveVerdict(w, Step(w, s, e).state, id, secret)
  {
    var key := Key(w, id, secret);
    var next := Step(w, s, e).state;
    assert !LiveVerdict(w, s, id, secret);
    if e.Settle? {
      if e.pid in s.calls && s.calls[e.pid].phase.Looked? {
        var c := s.calls[e.pid];
        CacheKeyInjective(id, w.sha256(secret), c.id, w.sha256(c.secret));
        assert !PastLookup(w, s, e.pid, id);
      }
    } else {
      StepFrame(w, s, e);
      hide Step;
      assert key in next.cache && next.cache[key].valid ==> key in s.cache && next.cache[key] == s.cache[key];
    }
  }

  lemma CallStaysShort(w: World, s: State, e: Event, id: KeyId, pid: int)
    requires IsRevoked(s, id) && !Lingers(w, s, id)
    ensures !PastLookup(w, Step(w, s, e).state, pid, id)
  {
    assert !PastLookup(w, s, pid, id);
    if Mover(e) != Some(pid) {
      StepFrame(w, s, e);
      hide Step;
    } else {
      match e
      case Begin(_, i, secret, _) => assert i == id ==> !LiveVerdict(w, s, id, secret);
      case _ =>
    }
  }

  lemma StepStaysDead(w: World, s: State, e: Event, id: KeyId)
    requires IsRevoked(s, id) && !Lingers(w, s, id)
    ensures !Lingers(w, Step(w, s, e).state, id)
    ensures !(Step(w, s, e).output.Accepted? && Step(w, s, e).output.id == id)
  {
    forall secret ensures !LiveVerdict(w, Step(w, s, e).state, id, secret) { VerdictStaysDead(w, s, e, id, secret); }
    forall pid ensures !PastLookup(w, Step(w, s, e).state, pid, id) { CallStaysShort(w, s, e, id, pid); }
    if Step(w, s, e).output.Accepted? {
      OnlyCheckAccepts(w, s, e);
      assert !PastLookup(w, s, e.pid, id);
    }
  }

  lemma StaysRevoked(w: World, s: State, e: Event, id: KeyId)
    requires IsRevoked(s, id)
    ensures IsRevoked(Step(w, s, e).state, id)
  {
    if Mover(e).Some? { KeysUntouched(w, s, e); }
    hide BeginCall, SettleCall, ReadKeyRow, ReadOwnerRow, CheckOwnerGrant;
  }

  lemma {:induction false} NeverAcceptedAgain(w: World, s: State, events: seq<Event>, id: KeyId)
    requires IsRevoked(s, id) && !Lingers(w, s, id)
    ensures !Accepts(Outputs(w, s, events), id)
    decreases |events|
  {
    hide Lingers, Step, IsRevoked;
    if events != [] {
      var next := Step(w, s, events[0]).state;
      StepStaysDead(w, s, events[0], id);
      StaysRevoked(w, s, events[0], id);
      NeverAcceptedAgain(w, next, events[1..], id);
      var rest := Outputs(w, next, events[1..]);
      assert forall i :: 1 <= i < |rest| + 1 ==> Outputs(w, s, events)[i] == rest[i - 1];
    }
  }

  // ─── The other direction: a run that accepts it ───────────────────────────

  lemma Prepend(w: World, s: State, e: Event, rest: seq<Event>, id: KeyId)
    requires Accepts(Outputs(w, Step(w, s, e).state, rest), id) || (Step(w, s, e).output.Accepted? && Step(w, s, e).output.id == id)
    ensures Accepts(Outputs(w, s, [e] + rest), id)
  {
    hide Step;
    var tail := Outputs(w, Step(w, s, e).state, rest);
    assert ([e] + rest)[1..] == rest;
    assert Outputs(w, s, [e] + rest) == [Step(w, s, e).output] + tail;
    if Accepts(tail, id) {
      var i :| 0 <= i < |tail| && tail[i].Accepted? && tail[i].id == id;
      assert Outputs(w, s, [e] + rest)[i + 1] == tail[i];
    } else {
      assert Outputs(w, s, [e] + rest)[0].Accepted?;
    }
  }

  lemma OwnedAccepts(w: World, s: State, pid: int) returns (events: seq<Event>)
    requires pid in s.calls && s.calls[pid].phase.Owned?
    ensures Accepts(Outputs(w, s, events), s.calls[pid].id)
  {
    var c := s.calls[pid];
    var grant, check := SetGrant(c.phase.wallet, c.phase.owner, c.perms), CheckGrant(pid);
    var granted := Step(w, s, grant).state;
    assert Step(w, granted, check).output.Accepted? && Step(w, granted, check).output.id == c.id;
    hide Step;
    Prepend(w, granted, check, [], c.id);
    Prepend(w, s, grant, [check] + [], c.id);
    events := [grant] + ([check] + []);
  }

  lemma HitAccepts(w: World, s: State, pid: int) returns (events: seq<Event>)
    requires pid in s.calls && s.calls[pid].phase.Hit? && s.calls[pid].id in s.keys
    ensures Accepts(Outputs(w, s, events), s.calls[pid].id)
  {
    var next := Step(w, s, ReadOwner(pid)).state;
    assert pid in next.calls && next.calls[pid].phase.Owned? && next.calls[pid].id == s.calls[pid].id;
    hide Step;
    var rest := OwnedAccepts(w, next, pid);
    Prepend(w, s, ReadOwner(pid), rest, s.calls[pid].id);
    events := [ReadOwner(pid)] + rest;
  }

  lemma LookedAccepts(w: World, s: State, pid: int, id: KeyId) returns (events: seq<Event>)
    requires PastLookup(w, s, pid, id) && s.calls[pid].phase.Looked?
    ensures Accepts(Outputs(w, s, events), id)
  {
    var next := Step(w, s, Settle(pid)).state;
    assert pid in next.calls && next.calls[pid].phase.Owned? && next.calls[pid].id == id;
    hide Step;
    var rest := OwnedAccepts(w, next, pid);
    Prepend(w, s, Settle(pid), rest, id);
    events := [Settle(pid)] + rest;
  }

  lemma UnusedPid(s: State) returns (pid: int)
    ensures pid !in s.calls
  {
    if s.calls.Keys == {} { return 0; }
    var least := Least(s.calls.Keys);
    assert IsLeast(s.calls.Keys, least);
    pid := least - 1;
  }

  lemma LiveVerdictAccepts(w: World, s: State, id: KeyId, secret: string) returns (events: seq<Event>)
    requires id in s.keys && LiveVerdict(w, s, id, secret)
    ensures Accepts(Outputs(w, s, events), id)
  {
    var pid := UnusedPid(s);
    var begin := Begin(pid, id, secret, 0);
    var next := Step(w, s, begin).state;
    assert pid in next.calls && next.calls[pid].phase.Hit? && next.calls[pid].id == id && id in next.keys;
    hide Step;
    var rest := HitAccepts(w, next, pid);
    Prepend(w, s, begin, rest, id);
    events := [begin] + rest;
  }

  /**
    A key whose revocation has committed is accepted in some continuation if and only if a cached
    acceptance of it is unexpired or a call for it is past its lookup. Nothing else revives it.
  */
  lemma AcceptedAfterRevocationIff(w: World, s: State, id: KeyId)
    requires IsRevoked(s, id)
    ensures (exists events :: Accepts(Outputs(w, s, events), id)) <==> Lingers(w, s, id)
  {
    hide Step, Outputs;
    if secret :| LiveVerdict(w, s, id, secret) {
      var events := LiveVerdictAccepts(w, s, id, secret);
    } else if pid :| PastLookup(w, s, pid, id) {
      if s.calls[pid].phase.Looked? {
        var events := LookedAccepts(w, s, pid, id);
      } else if s.calls[pid].phase.Hit? {
        var events := HitAccepts(w, s, pid);
      } else {
        var events := OwnedAccepts(w, s, pid);
      }
    } else {
      forall events ensures !Accepts(Outputs(w, s, events), id) { NeverAcceptedAgain(w, s, events, id); }
    }
  }

  // ─── A deleted grant locks its user out at once ───────────────────────────

  ghost predicate AcceptsFor(outputs: seq<Output>, wallet: int, owner: int) {
    exists i :: 0 <= i < |outputs| && outputs[i].Accepted? && outputs[i].wallet == wallet && outputs[i].owner == owner
  }

  lemma StepStaysUngranted(w: World, s: State, e: Event, wallet: int, owner: int)
    requires (wallet, owner) !in s.grants && !(e.SetGrant? && e.wallet == wallet && e.user == owner)
    ensures (wallet, owner) !in Step(w, s, e).state.grants
    ensures var o := Step(w, s, e).output; !(o.Accepted? && o.wallet == wallet && o.owner == owner)
  {
    if Step(w, s, e).output.Accepted? { OnlyCheckAccepts(w, s, e); }
  }

  /** Until the grant is set again no key of its user is accepted on the wallet, whatever the cache and the calls hold. */
  lemma {:induction false} NoGrantNoAcceptance(w: World, s: State, events: seq<Event>, wallet: int, owner: int)
    requires (wallet, owner) !in s.grants
    requires forall perms :: SetGrant(wallet, owner, perms) !in events
    ensures !AcceptsFor(Outputs(w, s, events), wallet, owner)
    decreases |events|
  {
    hide Step;
    if events != [] {
      var next := Step(w, s, events[0]).state;
      assert events[0] in events && forall e :: e in events[1..] ==> e in events;
      StepStaysUngranted(w, s, events[0], wallet, owner);
      NoGrantNoAcceptance(w, next, events[1..], wallet, owner);
      var rest := Outputs(w, next, events[1..]);
      assert forall i :: 1 <= i < |rest| + 1 ==> Outputs(w, s, events)[i] == rest[i - 1];
    }
  }

  /** So it is after a grant deletion commits: its keys are revoked, and even a cached verdict helps none of them. */
  lemma CascadeLocksOut(w: World, s: State, tid: int, events: seq<Event>)
    requires tid in s.cascades
    requires forall perms :: SetGrant(s.cascades[tid].wallet, s.cascades[tid].owner, perms) !in events
    ensures var c := s.cascades[tid]; var after := Step(w, s, CascadeCommit(tid)).state;
      && (forall id :: id in c.ids && id in s.keys ==> IsRevoked(after, id))
      && !AcceptsFor(Outputs(w, after, events), c.wallet, c.owner)
  {
    NoGrantNoAcceptance(w, Step(w, s, CascadeCommit(tid)).state, events, s.cascades[tid].wallet, s.cascades[tid].owner);
    hide Outputs;
  }

  // ─── Invalidating before the commit leaves such a run ─────────────────────

  const ROW := KeyRow(1, 7, "hash", false)
  const ID: KeyId := "11111111-2222-3333-4444-555555555555"

  /** A call looks the key up between the invalidation and the commit, and stores its verdict after both. */
  const RACE := [IssueKey(ID, ROW), Begin(1, ID, "secret", 0x01), RevokeBegin(ID), ReadKey(1), RevokeCommit(ID), Settle(1)]

  lemma RunSnoc(w: World, past: seq<Event>, e: Event)
    ensures Run(w, past + [e]).state == Step(w, Run(w, past).state, e).state
  {
    assert (past + [e])[..|past|] == past;
  }

  /** The states of the race: waiting for the row, and holding a row that is revoked meanwhile. */
  const WAITING := START.(keys := map[ID := ROW], calls := map[1 := Call(ID, "secret", 0x01, Missed)])
  const HOLDING := WAITING.(keys := map[ID := ROW.(revoked := true)],
    calls := map[1 := Call(ID, "secret", 0x01, Looked(Some(ROW), 0))])

  lemma RaceWaits(w: World)
    ensures Run(w, RACE[..2]).state == WAITING
  {
    RunSnoc(w, [], RACE[0]);
    RunSnoc(w, RACE[..1], RACE[1]);
    assert [] + [RACE[0]] == RACE[..1] && RACE[..1] + [RACE[1]] == RACE[..2];
    hide Run;
    assert Step(w, START, RACE[0]).state == START.(keys := map[ID := ROW]);
  }

  lemma RaceLooks(w: World)
    ensures Run(w, RACE[..4]).state == WAITING.(revoking := {ID}, calls := HOLDING.calls)
  {
    RaceWaits(w);
    RunSnoc(w, RACE[..2], RACE[2]);
    RunSnoc(w, RACE[..3], RACE[3]);
    assert RACE[..2] + [RACE[2]] == RACE[..3] && RACE[..3] + [RACE[3]] == RACE[..4];
    hide Run;
    assert Step(w, WAITING, RACE[2]).state == WAITING.(revoking := {ID});
  }

  lemma RaceHolds(w: World)
    ensures Run(w, RACE[..5]).state == HOLDING
  {
    RaceLooks(w);
    RunSnoc(w, RACE[..4], RACE[4]);
    assert RACE[..4] + [RACE[4]] == RACE[..5];
    hide Run;
  }

  /** After this run the revoked key is accepted from the cache for a whole time to live. */
  lemma RaceLeavesStaleVerdict(w: World)
    requires w.argon2("hash", "secret")
    ensures var s := Run(w, RACE).state;
      && IsRevoked(s, ID) && LiveVerdict(w, s, ID, "secret") && s.revoking == {}
      && s.cache[Key(w, ID, "secret")].expiresAt == s.now + w.ttl
  {
    RaceHolds(w);
    RunSnoc(w, RACE[..5], RACE[5]);
    assert RACE[..5] + [RACE[5]] == RACE;
    hide Run;
  }
}
