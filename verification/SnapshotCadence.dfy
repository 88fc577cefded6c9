/**
  Which snapshots climb the tiers over many days: what rotations on the right days make of a
  snapshot taken on one day, and which periods they miss.
*/
module SnapshotCadence {
  import opened Options
  import opened GfsRotation
  import opened GfsBounds
  import opened SnapshotScheduler
  import opened SnapshotRuns

  /** No removal by hand; a rotation lists at most 500 snapshots, and no other has actions left. */
  predicate CalmEvent(s: State, e: Event) {
    && !e.Remove?
    && (e.List? ==> |s.db| <= LISTING_LIMIT && forall q <- s.jobs.Keys :: Remaining(s.jobs[q]) == [])
  }

  predicate Calm(s: State, events: seq<Event>)
    requires IsRun(s, events)
    decreases |events|
  {
    events == [] || (CalmEvent(s, events[0]) && Calm(Step(s, events[0]), events[1..]))
  }

  /** A rotation under way still has an action on the row. */
  predicate Named(s: State, id: int) {
    exists r <- s.jobs.Keys :: id in Ids(Remaining(s.jobs[r]))
  }

  /** Of day `n` or later, and of the same period of tier `t`. */
  predicate Since(row: Snapshot, t: Tier, n: int)
    requires 1 <= n
  {
    n <= DayOf(row) && Period(t, DayOf(row)) == Period(t, n)
  }

  /** The source tier of `t` has such a snapshot, and nothing is about to happen to it. */
  predicate Held(s: State, t: Tier, n: int)
    requires 1 <= n
  {
    exists id <- s.db.Keys :: s.db[id].tier == Some(Source(t)) && Since(s.db[id], t, n) && !Named(s, id)
  }

  predicate InTierSince(db: Backups, t: Tier, n: int)
    requires 1 <= n
  {
    exists id <- db.Keys :: db[id].tier == Some(t) && Since(db[id], t, n)
  }

  // ─── A tier keeps its newest snapshot ─────────────────────────────────────

  /** The newest of a tier, in a store listed whole: not older than `row`, and of no day to come. */
  lemma NewestFacts(db: Backups, listing: seq<Snapshot>, u: Tier, row: Snapshot)
    requires WellFormed(db) && IsListing(db, listing) && row in listing && row.tier == Some(u)
    ensures Ranked(listing, u) != []
    ensures var first := Ranked(listing, u)[0];
      first in listing && first.tier == Some(u) && row.createdAt <= first.createdAt && first.id in db && db[first.id] == first
  {
    hide Ranked, InTier, DistinctIds;
    RankedFacts(listing, u);
    var ranked := Ranked(listing, u);
    assert row in ranked;
    var i :| 0 <= i < |ranked| && ranked[i] == row;
    assert ranked[0] in ranked;
  }

  /** While the period lasts no rotation acts on the newest snapshot of the source tier. */
  lemma NewestIsSpared(db: Backups, listing: seq<Snapshot>, retention: Retention, today: int, t: Tier)
    requires WellFormed(db) && IsListing(db, listing) && Complete(retention) && 2 <= today && t != Hourly
    requires Ranked(listing, Source(t)) != []
    requires var first := Ranked(listing, Source(t))[0];
      first.tier == Some(Source(t)) && first.id in db && db[first.id] == first && Period(t, DayOf(first)) == Period(t, today)
    ensures Ranked(listing, Source(t))[0].id !in Ids(Actions(listing, retention, today))
  {
    hide Ranked, Actions, Promotion, Period, Due, IsListing, DayOf;
    var first := Ranked(listing, Source(t))[0];
    ListingDistinct(db, listing);
    FirstIsNotDeleted(listing, retention, today, Source(t));
    forall v: Tier ensures Promote(first.id, v) !in Actions(listing, retention, today) {
      PromoteInActions(listing, retention, today, first.id, v);
      if v != Hourly && Promote(first.id, v) in Promotion(listing, today, v) {
        PromotedRow(db, listing, today, first.id, v);
        SourceIsInjective(v, t);
        EndedIsPast(t, today);
      }
    }
    forall a | a in Actions(listing, retention, today) ensures a.id != first.id {
      assert a == Delete(a.id) || a == Promote(a.id, a.newTier);
    }
  }

  lemma SourceIsInjective(t: Tier, u: Tier)
    ensures t != Hourly && u != Hourly && Source(t) == Source(u) ==> t == u
  {
  }

  lemma SinceNewest(row: Snapshot, first: Snapshot, t: Tier, n: int, today: int)
    requires 1 <= n && Since(row, t, n) && row.createdAt <= first.createdAt && DayOf(first) <= today
    requires Period(t, today) == Period(t, n)
    ensures Since(first, t, n) && Period(t, DayOf(first)) == Period(t, today)
  {
    hide Period;
    PeriodMonotone(t, DayOf(row), DayOf(first));
    PeriodMonotone(t, DayOf(first), today);
  }

  lemma ListKeepsHeld(s: State, r: int, listing: seq<Snapshot>, retention: Retention, now: nat, t: Tier, n: int)
    requires Sound(s) && Enabled(s, List(r, listing, retention, now)) && CalmEvent(s, List(r, listing, retention, now))
    requires 1 <= n && t != Hourly && Held(s, t, n) && Period(t, Today(now)) == Period(t, n)
    ensures Held(Step(s, List(r, listing, retention, now)), t, n)
  {
    hide Ranked, Period, IsListing, Actions, Settled, JobSound;
    var id :| id in s.db.Keys && s.db[id].tier == Some(Source(t)) && Since(s.db[id], t, n);
    SmallListingShowsAll(s.db, listing);
    ListedRow(s.db, listing, id);
    NewestFacts(s.db, listing, Source(t), s.db[id]);
    var first := Ranked(listing, Source(t))[0];
    assert first.createdAt <= now;
    SinceNewest(s.db[id], first, t, n, Today(now));
    NewestIsSpared(s.db, listing, retention, Today(now), t);
    hide Sound, Since;
    NewestHolds(s, r, listing, retention, now, t, n, first);
  }

  lemma NewestHolds(s: State, r: int, listing: seq<Snapshot>, retention: Retention, now: nat, t: Tier, n: int, first: Snapshot)
    requires Enabled(s, List(r, listing, retention, now)) && CalmEvent(s, List(r, listing, retention, now)) && 1 <= n
    requires first.id in s.db && s.db[first.id] == first && first.tier == Some(Source(t)) && Since(first, t, n)
    requires first.id !in Ids(Actions(listing, retention, Today(now)))
    ensures Held(Step(s, List(r, listing, retention, now)), t, n)
  {
    hide Since, IsListing, Actions, Ids;
    var next := Step(s, List(r, listing, retention, now));
    NoIds();
    assert forall q :: q in next.jobs ==> Remaining(next.jobs[q]) == if q == r then Actions(listing, retention, Today(now)) else [];
    assert !Named(next, first.id) && first.id in next.db.Keys;
  }

  lemma ListedRow(db: Backups, listing: seq<Snapshot>, id: int)
    requires WellFormed(db) && IsListing(db, listing) && id in db && id in IdSet(listing)
    ensures db[id] in listing
  {
  }

  lemma CommitKeepsHeld(s: State, r: int, t: Tier, n: int)
    requires HasNext(s, r) && 1 <= n && Held(s, t, n)
    ensures Held(Step(s, Commit(r)), t, n)
  {
    var next := Step(s, Commit(r));
    var id :| id in s.db.Keys && s.db[id].tier == Some(Source(t)) && Since(s.db[id], t, n) && !Named(s, id);
    hide Since;
    assert Remaining(s.jobs[r])[0] == NextAction(s, r);
    assert id !in Ids(Remaining(s.jobs[r])) && NextAction(s, r).id != id;
    assert next.db[id] == s.db[id];
    forall q | q in next.jobs ensures id !in Ids(Remaining(next.jobs[q])) {
      RemainingAfter(s, r);
      assert id !in Ids(Remaining(s.jobs[q]));
      hide AfterCommit, Remaining;
    }
  }

  lemma StepKeepsHeld(s: State, e: Event, t: Tier, n: int)
    requires Sound(s) && Enabled(s, e) && CalmEvent(s, e) && 1 <= n && t != Hourly && Held(s, t, n)
    requires e.List? ==> Period(t, Today(e.now)) == Period(t, n)
    ensures Held(Step(s, e), t, n)
  {
    if e.List? {
      ListKeepsHeld(s, e.rotation, e.listing, e.retention, e.now, t, n);
    } else if e.Commit? {
      CommitKeepsHeld(s, e.rotation, t, n);
    } else {
      hide Sound, Since, Remaining;
      var id :| id in s.db.Keys && s.db[id].tier == Some(Source(t)) && Since(s.db[id], t, n) && !Named(s, id);
      assert id in Step(s, e).db.Keys && Step(s, e).db[id] == s.db[id] && !Named(Step(s, e), id);
    }
  }

  /** Every rotation of the events lists while the period of day `n` lasts. */
  predicate ListsWithin(events: seq<Event>, t: Tier, n: int)
    requires 1 <= n
  {
    forall e <- events :: e.List? ==> Period(t, Today(e.now)) == Period(t, n)
  }

  /** While no rotation lists after the period, the source tier keeps such a snapshot, whatever its retention. */
  lemma {:induction false} HeldThrough(s: State, events: seq<Event>, t: Tier, n: int)
    requires Sound(s) && IsRun(s, events) && Calm(s, events) && 1 <= n && t != Hourly && Held(s, t, n)
    requires ListsWithin(events, t, n)
    ensures Held(Run(s, events), t, n)
    decreases |events|
  {
    hide Sound, Enabled, Step, Held, Period, CalmEvent;
    if events != [] {
      assert events[0] in events && forall e :: e in events[1..] ==> e in events;
      StepKeepsSound(s, events[0]);
      StepKeepsHeld(s, events[0], t, n);
      HeldThrough(Step(s, events[0]), events[1..], t, n);
    }
  }

  /** No snapshot of the period of day `n`, or of a later one, is in tier `t` or about to be. */
  predicate Unpromoted(s: State, t: Tier, n: int)
    requires 1 <= n
  {
    && (forall id <- s.db.Keys :: s.db[id].tier == Some(t) ==> Period(t, DayOf(s.db[id])) < Period(t, n))
    && (forall r <- s.jobs.Keys :: 1 <= s.jobs[r].today && Period(t, s.jobs[r].today) <= Period(t, n))
  }

  lemma CommitKeepsUnpromoted(s: State, r: int, t: Tier, n: int)
    requires Sound(s) && HasNext(s, r) && 1 <= n && t != Hourly && Unpromoted(s, t, n)
    ensures Unpromoted(Step(s, Commit(r)), t, n)
  {
    hide Period, Due, Promotion, Planned, JobSound;
    var a := NextAction(s, r);
    if a.Promote? && a.id in s.db && a.newTier == t {
      NextPromotion(s, r);
      EndedIsPast(t, s.jobs[r].today);
    }
  }

  lemma StepKeepsUnpromoted(s: State, e: Event, t: Tier, n: int)
    requires Sound(s) && Enabled(s, e) && 1 <= n && t != Hourly && Unpromoted(s, t, n)
    requires e.List? ==> Period(t, Today(e.now)) <= Period(t, n)
    ensures Unpromoted(Step(s, e), t, n)
  {
    if e.Commit? {
      CommitKeepsUnpromoted(s, e.rotation, t, n);
    } else {
      hide Sound, Period, Actions, IsListing;
    }
  }

  /** As long as no rotation lists after the period, none of it is promoted, whatever else happens. */
  lemma {:induction false} UnpromotedThrough(s: State, events: seq<Event>, t: Tier, n: int)
    requires Sound(s) && IsRun(s, events) && 1 <= n && t != Hourly && Unpromoted(s, t, n)
    requires forall e :: e in events && e.List? ==> Period(t, Today(e.now)) <= Period(t, n)
    ensures Unpromoted(Run(s, events), t, n)
    decreases |events|
  {
    hide Sound, Enabled, Step, Unpromoted, Period;
    if events != [] {
      assert events[0] in events && forall e :: e in events[1..] ==> e in events;
      StepKeepsSound(s, events[0]);
      StepKeepsUnpromoted(s, events[0], t, n);
      UnpromotedThrough(Step(s, events[0]), events[1..], t, n);
    }
  }

  /** While the period lasts nothing of it has been promoted. */
  lemma UnpromotedWithin(s: State, t: Tier, n: int)
    requires Sound(s) && 1 <= n && t != Hourly && Period(t, Today(s.clock)) == Period(t, n)
    ensures Unpromoted(s, t, n)
  {
    hide Period, Planned;
    forall id | id in s.db.Keys && s.db[id].tier == Some(t) ensures Period(t, DayOf(s.db[id])) < Period(t, n) {
      assert SettledRow(s.db[id], Today(s.clock));
    }
    forall r | r in s.jobs.Keys ensures 1 <= s.jobs[r].today && Period(t, s.jobs[r].today) <= Period(t, n) {
      assert JobSound(s.db, s.clock, s.jobs[r]);
      JobDay(s.jobs[r]);
      PeriodMonotone(t, s.jobs[r].today, Today(s.clock));
    }
  }

  lemma JobDay(job: Job)
    ensures Planned(job) ==> 2 <= job.today
  {
  }

  // ─── One tier up ──────────────────────────────────────────────────────────

  /** The first rotation to list after the period promotes a snapshot of it. */
  lemma HeldIsPromoted(s: State, listing: seq<Snapshot>, retention: Retention, today: int, t: Tier, n: int) returns (id: int)
    requires Sound(s) && IsListing(s.db, listing) && |s.db| <= LISTING_LIMIT && Complete(retention) && 2 <= today
    requires 1 <= n && t != Hourly && Held(s, t, n) && Unpromoted(s, t, n)
    requires Due(t, today) && Ended(t, today) == Period(t, n)
    ensures id in s.db && Promote(id, t) in Promotion(listing, today, t) && Since(s.db[id], t, n) && DayOf(s.db[id]) < today
  {
    hide Period, Due, Promotion;
    var row :| row in s.db.Keys && s.db[row].tier == Some(Source(t)) && Since(s.db[row], t, n);
    SmallListingShowsAll(s.db, listing);
    ListedRow(s.db, listing, row);
    assert !HasMember(listing, t, t, Ended(t, today)) by { NoneListed(s, listing, t, n); }
    assert HasMember(listing, Source(t), t, Ended(t, today));
    PromotesExactlyWhen(listing, today, t);
    var c: Snapshot :| Promotion(listing, today, t) == [Promote(c.id, t)] && IsCandidate(listing, t, Ended(t, today), c);
    assert s.db[c.id] == c && s.db[row].createdAt <= c.createdAt;
    id := c.id;
    EndedIsPast(t, today);
    if today <= DayOf(c) { PeriodMonotone(t, today, DayOf(c)); }
  }

  lemma NoneListed(s: State, listing: seq<Snapshot>, t: Tier, n: int)
    requires IsListing(s.db, listing) && 1 <= n && Unpromoted(s, t, n)
    ensures !HasMember(listing, t, t, Period(t, n))
  {
    hide Period, DistinctIds, Descending;
    forall x | x in listing && x.tier == Some(t) ensures !InPeriod(x, t, Period(t, n)) {
      assert x.id in s.db.Keys && s.db[x.id] == x;
    }
  }

  /** A rotation lists on the first day after the period of day `n`. */
  predicate TurnOf(s: State, e: Event, t: Tier, n: int)
    requires 1 <= n
  {
    && e.List? && Enabled(s, e) && CalmEvent(s, e) && t != Hourly
    && Due(t, Today(e.now)) && Ended(t, Today(e.now)) == Period(t, n)
  }

  /** No rotation lists, nothing is removed by hand, and this rotation is not dropped. */
  predicate LetRun(events: seq<Event>, r: int) {
    forall e <- events :: !e.List? && !e.Remove? && e != Finish(r)
  }

  /** The rotation is still to promote the row, or has done so; nobody else acts on it. */
  predicate Climbing(s: State, r: int, id: int, t: Tier) {
    && r in s.jobs && id in s.db
    && (forall q <- s.jobs.Keys :: q != r ==> id !in Ids(Remaining(s.jobs[q])))
    && OncePerId(Remaining(s.jobs[r]))
    && (Promote(id, t) in Remaining(s.jobs[r]) || (s.db[id].tier == Some(t) && id !in Ids(Remaining(s.jobs[r]))))
  }

  lemma TurnPromotes(s: State, e: Event, t: Tier, n: int) returns (id: int)
    requires Sound(s) && 1 <= n && TurnOf(s, e, t, n) && Held(s, t, n) && Unpromoted(s, t, n)
    ensures id in s.db && Since(s.db[id], t, n) && DayOf(s.db[id]) < Today(e.now)
    ensures Climbing(Step(s, e), e.rotation, id, t)
  {
    hide Due, Period, Actions, Promotion, JobSound, Since, Unpromoted, Held, OncePerId;
    var today := Today(e.now);
    id := HeldIsPromoted(s, e.listing, e.retention, today, t, n);
    ListingDistinct(s.db, e.listing);
    PromoteInActions(e.listing, e.retention, today, id, t);
    RotationActions(s.db, e.listing, e.retention, today);
    hide IsListing;
    var next := Step(s, e);
    assert forall q :: q in next.jobs ==> Remaining(next.jobs[q]) == if q == e.rotation then Actions(e.listing, e.retention, today) else [];
    NoIds();
  }

  /** What is left of a list of actions after its first. */
  lemma HeadGone(actions: seq<Action>)
    requires OncePerId(actions) && actions != []
    ensures OncePerId(actions[1..]) && actions[0].id !in Ids(actions[1..])
    ensures Ids(actions) == Ids(actions[1..]) + {actions[0].id}
    ensures forall a :: a in actions ==> a == actions[0] || a in actions[1..]
  {
    assert actions == [actions[0]] + actions[1..];
    forall b | b in actions[1..] ensures b.id != actions[0].id {
      var i :| 0 <= i < |actions[1..]| && actions[1..][i] == b;
      assert actions[i + 1] == b;
    }
    assert Ids([actions[0]]) == {actions[0].id};
    IdsConcat([actions[0]], actions[1..]);
  }

  lemma CommitKeepsClimbing(s: State, q: int, r: int, id: int, t: Tier)
    requires HasNext(s, q) && Climbing(s, r, id, t)
    ensures var next := Step(s, Commit(q)); Climbing(next, r, id, t) && next.db[id].createdAt == s.db[id].createdAt
  {
    var next, a, left := Step(s, Commit(q)), NextAction(s, q), Remaining(s.jobs[q]);
    assert left != [] && left[0] == a;
    RemainingAfter(s, q);
    assert next.db == ApplyAction(s.db, a) && next.jobs.Keys == s.jobs.Keys;
    assert forall p :: p in s.jobs ==> Remaining(next.jobs[p]) == if p == q then left[1..] else Remaining(s.jobs[p]);
    hide Step, AfterCommit, Remaining, NextAction, HasNext, OncePerId, Ids;
    if q == r { OwnStepClimbs(s, next, r, id, t, left); } else { OtherStepClimbs(s, next, q, r, id, t, left); }
  }

  lemma OwnStepClimbs(s: State, next: State, r: int, id: int, t: Tier, left: seq<Action>)
    requires Climbing(s, r, id, t) && left != [] && left == Remaining(s.jobs[r])
    requires next.db == ApplyAction(s.db, left[0]) && next.jobs.Keys == s.jobs.Keys && Remaining(next.jobs[r]) == left[1..]
    requires forall p :: p in s.jobs && p != r ==> Remaining(next.jobs[p]) == Remaining(s.jobs[p])
    ensures Climbing(next, r, id, t) && next.db[id].createdAt == s.db[id].createdAt
  {
    hide Remaining, OncePerId;
    HeadGone(left);
    IdOf(left, Promote(id, t));
    IdOf(left[1..], Promote(id, t));
    hide Ids;
  }

  lemma IdOf(actions: seq<Action>, a: Action)
    ensures a in actions ==> a.id in Ids(actions)
  {
  }

  lemma OtherStepClimbs(s: State, next: State, q: int, r: int, id: int, t: Tier, left: seq<Action>)
    requires Climbing(s, r, id, t) && q in s.jobs && q != r && left != [] && left == Remaining(s.jobs[q])
    requires next.db == ApplyAction(s.db, left[0]) && next.jobs.Keys == s.jobs.Keys && Remaining(next.jobs[q]) == left[1..]
    requires forall p :: p in s.jobs && p != q ==> Remaining(next.jobs[p]) == Remaining(s.jobs[p])
    ensures Climbing(next, r, id, t) && next.db[id].createdAt == s.db[id].createdAt
  {
    hide Remaining, OncePerId;
    TailIds(left);
    hide Ids;
  }

  lemma TailIds(actions: seq<Action>)
    requires actions != []
    ensures Ids(actions[1..]) <= Ids(actions) && actions[0].id in Ids(actions)
  {
    assert actions == [actions[0]] + actions[1..];
    IdsConcat([actions[0]], actions[1..]);
    assert actions[0] in actions;
  }

  lemma StepKeepsClimbing(s: State, e: Event, r: int, id: int, t: Tier)
    requires Enabled(s, e) && Climbing(s, r, id, t) && !e.List? && !e.Remove? && e != Finish(r)
    ensures Climbing(Step(s, e), r, id, t) && Step(s, e).db[id].createdAt == s.db[id].createdAt
  {
    if e.Commit? { CommitKeepsClimbing(s, e.rotation, r, id, t); }
    hide OncePerId, Ids, Remaining;
  }

  lemma {:induction false} RunKeepsClimbing(s: State, events: seq<Event>, r: int, id: int, t: Tier)
    requires IsRun(s, events) && Climbing(s, r, id, t) && LetRun(events, r)
    ensures var end := Run(s, events); Climbing(end, r, id, t) && end.db[id].createdAt == s.db[id].createdAt
    decreases |events|
  {
    hide Enabled, Step, Climbing;
    if events != [] {
      assert events[0] in events && forall e :: e in events[1..] ==> e in events;
      StepKeepsClimbing(s, events[0], r, id, t);
      ClimbingRow(s, r, id, t);
      RunKeepsClimbing(Step(s, events[0]), events[1..], r, id, t);
    }
  }

  lemma ClimbingRow(s: State, r: int, id: int, t: Tier)
    requires Climbing(s, r, id, t)
    ensures id in s.db
  {
  }

  // ─── Up the ladder ────────────────────────────────────────────────────────

  const LADDER: seq<Tier> := [Daily, Weekly, Monthly, Yearly]

  /** Calm events, a rotation's listing, and what happens until it has performed its actions. */
  datatype Stage = Stage(calm: seq<Event>, turn: Event, rest: seq<Event>)

  /**
    A stage of tier `t` for a snapshot of day `n`: it begins while the period lasts, and the first
    rotation to list after the period does so on the first day and finishes.
  */
  ghost predicate IsStage(s: State, n: int, t: Tier, stage: Stage)
    requires 1 <= n
  {
    && Period(t, Today(s.clock)) == Period(t, n)
    && IsRun(s, stage.calm) && Calm(s, stage.calm) && ListsWithin(stage.calm, t, n)
    && TurnOf(Run(s, stage.calm), stage.turn, t, n)
    && var listed := Step(Run(s, stage.calm), stage.turn);
      && IsRun(listed, stage.rest) && LetRun(stage.rest, stage.turn.rotation)
      && !HasNext(Run(listed, stage.rest), stage.turn.rotation)
  }

  ghost function AfterStage(s: State, n: int, t: Tier, stage: Stage): State
    requires 1 <= n && IsStage(s, n, t, stage)
  {
    Run(Step(Run(s, stage.calm), stage.turn), stage.rest)
  }

  /** One stage: the tier gets a snapshot of the period, and nothing is about to happen to it. */
  lemma StageFills(s: State, n: int, t: Tier, stage: Stage) returns (id: int)
    requires 1 <= n && t != Hourly && Sound(s) && Held(s, t, n) && IsStage(s, n, t, stage)
    ensures var after := AfterStage(s, n, t, stage);
      && Sound(after) && id in after.db.Keys && after.db[id].tier == Some(t) && Since(after.db[id], t, n)
      && !Named(after, id) && DayOf(after.db[id]) <= Today(after.clock)
  {
    hide Sound, Held, Unpromoted, Period, Calm, IsRun, Run, Enabled, Due, CalmEvent, Climbing, Ids;
    var middle := Run(s, stage.calm);
    RunKeepsSound(s, stage.calm);
    HeldThrough(s, stage.calm, t, n);
    UnpromotedWithin(s, t, n);
    UnpromotedThrough(s, stage.calm, t, n);
    id := TurnPromotes(middle, stage.turn, t, n);
    var listed := Step(middle, stage.turn);
    StepKeepsSound(middle, stage.turn);
    RunKeepsSound(listed, stage.rest);
    RunKeepsClimbing(listed, stage.rest, stage.turn.rotation, id, t);
    var after := AfterStage(s, n, t, stage);
    ClimbedRow(after, stage.turn.rotation, id, t);
    assert listed.db == middle.db;
    assert DayOf(after.db[id]) == DayOf(middle.db[id]);
    RowIsPast(after, id);
  }

  lemma ClimbedRow(s: State, r: int, id: int, t: Tier)
    requires Climbing(s, r, id, t) && !HasNext(s, r)
    ensures id in s.db && s.db[id].tier == Some(t) && !Named(s, id)
  {
    assert Remaining(s.jobs[r]) == [];
    NoIds();
  }

  lemma RowIsPast(s: State, id: int)
    requires Sound(s) && id in s.db
    ensures DayOf(s.db[id]) <= Today(s.clock)
  {
  }

  lemma NoIds()
    ensures Ids([]) == {}
  {
  }

  /** What a stage leaves is held for the next tier, if that tier's period lasts. */
  lemma StageHoldsForNext(s: State, n: int, t: Tier, next: Tier, stage: Stage)
    requires 1 <= n && t != Hourly && Sound(s) && Held(s, t, n) && IsStage(s, n, t, stage)
    requires next != Hourly && Source(next) == t && Period(next, Today(AfterStage(s, n, t, stage).clock)) == Period(next, n)
    ensures Held(AfterStage(s, n, t, stage), next, n)
  {
    hide Sound, Period, IsStage, AfterStage, Named;
    var id := StageFills(s, n, t, stage);
    var after := AfterStage(s, n, t, stage);
    PeriodMonotone(next, n, DayOf(after.db[id]));
    PeriodMonotone(next, DayOf(after.db[id]), Today(after.clock));
  }

  /** A stage for each tier in turn. */
  ghost predicate IsClimb(s: State, n: int, k: nat, stages: seq<Stage>)
    requires 1 <= n
    decreases |stages|
  {
    stages == [] ||
    (k < 4 && IsStage(s, n, LADDER[k], stages[0]) && IsClimb(AfterStage(s, n, LADDER[k], stages[0]), n, k + 1, stages[1..]))
  }

  ghost function Climbed(s: State, n: int, k: nat, stages: seq<Stage>): State
    requires 1 <= n && IsClimb(s, n, k, stages)
    decreases |stages|
  {
    if stages == [] then s
    else Climbed(AfterStage(s, n, LADDER[k], stages[0]), n, k + 1, stages[1..])
  }

  /**
    Whatever the retentions, and whatever else happens calmly in between: a snapshot, or a newer one
    of the same day, week, month and year, reaches each tier whose stage takes place.
  */
  lemma {:induction false} SnapshotClimbs(s: State, n: int, k: nat, stages: seq<Stage>)
    requires Sound(s) && 1 <= n && k < 4 && Held(s, LADDER[k], n) && stages != [] && IsClimb(s, n, k, stages)
    ensures k + |stages| <= 4 && InTierSince(Climbed(s, n, k, stages).db, LADDER[k + |stages| - 1], n)
    decreases |stages|
  {
    hide Sound, Held, Period, AfterStage, Since, IsStage, Named;
    var t, after := LADDER[k], AfterStage(s, n, LADDER[k], stages[0]);
    var id := StageFills(s, n, t, stages[0]);
    if stages[1..] == [] {
      assert Climbed(s, n, k, stages) == after;
    } else {
      StageStart(after, n, LADDER[k + 1], stages[1]);
      StageHoldsForNext(s, n, t, LADDER[k + 1], stages[0]);
      SnapshotClimbs(after, n, k + 1, stages[1..]);
    }
  }

  lemma StageStart(s: State, n: int, t: Tier, stage: Stage)
    requires 1 <= n && IsStage(s, n, t, stage)
    ensures Period(t, Today(s.clock)) == Period(t, n)
  {
  }

  /** A snapshot just taken is held for the daily tier. */
  lemma TakenIsHeld(s: State, id: int, now: nat)
    requires Sound(s) && Enabled(s, Create(id, now))
    ensures Sound(Step(s, Create(id, now))) && Held(Step(s, Create(id, now)), Daily, Today(now))
  {
    StepKeepsSound(s, Create(id, now));
    var next := Step(s, Create(id, now));
    forall r | r in s.jobs ensures id !in Ids(Remaining(s.jobs[r])) {
      if id in Ids(Remaining(s.jobs[r])) { RemainingIsSeen(s, r, id); }
    }
    hide Sound;
    assert id in next.db.Keys && !Named(next, id);
  }

  lemma RemainingIsSeen(s: State, r: int, id: int)
    requires Sound(s) && r in s.jobs && id in Ids(Remaining(s.jobs[r]))
    ensures id in s.jobs[r].seen
  {
    assert JobSound(s.db, s.clock, s.jobs[r]) && Planned(s.jobs[r]);
    PlannedIsSeen(s.jobs[r], id);
  }

  lemma PlannedIsSeen(job: Job, id: int)
    requires Planned(job) && id in Ids(Remaining(job))
    ensures id in job.seen
  {
    hide Promotion, OncePerId, DistinctIds, Descending;
    var a :| a in Remaining(job) && a.id == id;
    assert a in job.actions && id in Ids(job.actions) && id in IdSet(job.listing);
    var x :| x in job.listing && x.id == id;
  }

  // ─── The periods that are missed ──────────────────────────────────────────

  /**
    Too late: when every stored snapshot of the period dates from the last day, week or month of
    it, whichever the source tier counts, the first rotation after the period does not cover it,
    though its own tick and others may have taken snapshots on that day before.
  */
  lemma TooLateForItsPeriod(events: seq<Event>, r: int, listing: seq<Snapshot>, retention: Retention, now: nat, t: Tier)
    requires IsRun(EMPTY, events) && Enabled(Run(EMPTY, events), List(r, listing, retention, now))
    requires t in {Weekly, Monthly, Yearly} && Due(t, Today(now))
    requires forall e :: e in events && e.List? ==> Today(e.now) != Today(now)
    requires forall id :: id in Run(EMPTY, events).db && InPeriod(Run(EMPTY, events).db[id], t, Ended(t, Today(now))) ==>
      InPeriod(Run(EMPTY, events).db[id], Source(t), Ended(Source(t), Today(now)))
    ensures var db := Run(EMPTY, events).db;
      !Covered(db, Rotated(db, listing, retention, Today(now)), t, Ended(t, Today(now)))
  {
    hide Period, Run, IsRun, Rotated, Covered, IsListing, Due, Unpromoted;
    UnpromotedBefore(events, now, t);
    UnpromotedBefore(events, now, Source(t));
    EveryRotationCovers(events, r, listing, retention, now, t);
    NotThereYet(Run(EMPTY, events), Today(now), t, listing);
  }

  /** Before the first rotation of a day, nothing of the periods that end with the day before is promoted. */
  lemma UnpromotedBefore(events: seq<Event>, now: nat, t: Tier)
    requires IsRun(EMPTY, events) && Run(EMPTY, events).clock <= now && 2 <= Today(now) && t != Hourly
    requires forall e :: e in events && e.List? ==> Today(e.now) != Today(now)
    ensures Unpromoted(Run(EMPTY, events), t, Today(now) - 1)
  {
    hide Today, Sound, Unpromoted, Period, Run, IsRun;
    EmptyIsSound();
    ListsBefore(EMPTY, events);
    forall e | e in events && e.List? ensures Period(t, Today(e.now)) <= Period(t, Today(now) - 1) {
      TodayGrows(e.now, now);
      PeriodMonotone(t, Today(e.now), Today(now) - 1);
    }
    NothingPromoted(t, Today(now) - 1);
    UnpromotedThrough(EMPTY, events, t, Today(now) - 1);
  }

  lemma NothingPromoted(t: Tier, n: int)
    requires 1 <= n
    ensures Unpromoted(EMPTY, t, n)
  {
  }

  lemma TodayGrows(a: nat, b: nat)
    requires a <= b
    ensures Today(a) <= Today(b)
  {
  }

  lemma {:induction false} ListsBefore(s: State, events: seq<Event>)
    requires IsRun(s, events)
    ensures s.clock <= Run(s, events).clock
    ensures forall e :: e in events && e.List? ==> e.now <= Run(s, events).clock
    decreases |events|
  {
    hide Step, Enabled;
    if events != [] {
      ClockStep(s, events[0]);
      ListsBefore(Step(s, events[0]), events[1..]);
      assert events == [events[0]] + events[1..];
    }
  }

  lemma ClockStep(s: State, e: Event)
    requires Enabled(s, e)
    ensures s.clock <= Step(s, e).clock && (e.List? ==> Step(s, e).clock == e.now)
  {
  }

  lemma NotThereYet(s: State, today: int, t: Tier, listing: seq<Snapshot>)
    requires 2 <= today && t in {Weekly, Monthly, Yearly} && IsListing(s.db, listing)
    requires Unpromoted(s, t, today - 1) && Unpromoted(s, Source(t), today - 1)
    requires forall id :: id in s.db && InPeriod(s.db[id], t, Ended(t, today)) ==> InPeriod(s.db[id], Source(t), Ended(Source(t), today))
    ensures !InTierBefore(s.db, t, t, Ended(t, today)) && !HasMember(listing, Source(t), t, Ended(t, today))
  {
    hide Period, DistinctIds, Descending;
    assert forall x :: x in listing ==> x.id in s.db.Keys && s.db[x.id] == x;
  }
}
