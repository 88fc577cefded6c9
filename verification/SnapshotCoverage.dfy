/**
  Whether an ended period stays covered when rotations overlap: what a commit can uncover, and
  when it cannot.
*/
module SnapshotCoverage {
  import opened Options
  import opened GfsRotation
  import opened GfsBounds
  import opened SnapshotScheduler
  import opened SnapshotRuns
  import opened SnapshotCadence

  function Rank(t: Tier): nat {
    match t
    case Hourly => 0
    case Daily => 1
    case Weekly => 2
    case Monthly => 3
    case Yearly => 4
  }

  /** The row is of the period and in tier `t` or a longer-lived one. */
  predicate Covers(row: Snapshot, t: Tier, period: int) {
    row.tier.Some? && Rank(t) <= Rank(row.tier.value) && InPeriod(row, t, period)
  }

  predicate IsCovered(db: Backups, t: Tier, period: int) {
    exists id <- db.Keys :: Covers(db[id], t, period)
  }

  // ─── What a commit can uncover ────────────────────────────────────────────

  /** The action takes the row away or puts it in a shorter-lived tier than `t`. */
  predicate TakesAway(a: Action, t: Tier) {
    a.Delete? || Rank(a.newTier) < Rank(t)
  }

  /** A covered period is uncovered exactly when the last row that covers it is deleted or put back. */
  lemma UncoversIff(db: Backups, a: Action, t: Tier, period: int)
    requires IsCovered(db, t, period)
    ensures !IsCovered(ApplyAction(db, a), t, period)
      <==> TakesAway(a, t) && forall id <- db.Keys :: Covers(db[id], t, period) ==> id == a.id
  {
    hide Period, Rank;
    var after := ApplyAction(db, a);
    var id :| id in db.Keys && Covers(db[id], t, period);
    if k :| k in db.Keys && Covers(db[k], t, period) && k != a.id {
      assert k in after.Keys && after[k] == db[k];
    } else if !TakesAway(a, t) {
      assert id == a.id && id in after.Keys && Covers(after[id], t, period);
    }
  }

  /** Nobody else has changed what the rotation listed: the rows it saw are as its own commits have left them. */
  predicate Undisturbed(db: Backups, job: Job) {
    job.done <= |job.actions| &&
    var own := ApplyActions(job.seen, job.actions[..job.done]);
    forall id <- job.seen.Keys :: (id in db <==> id in own) && (id in db ==> db[id] == own[id])
  }

  /** A row an undisturbed rotation has not acted on is as it saw it. */
  lemma UnactedRow(db: Backups, job: Job, id: int)
    requires Planned(job) && Undisturbed(db, job) && id in job.seen && id !in Ids(job.actions[..job.done])
    ensures id in db && db[id] == job.seen[id]
  {
    hide Promotion, IsListing;
    PartOnce(job.actions, job.done);
    RowAfter(job.seen, job.actions[..job.done], id);
  }

  lemma PartOnce(actions: seq<Action>, n: nat)
    requires OncePerId(actions) && n <= |actions|
    ensures OncePerId(actions[..n]) && Ids(actions[..n]) <= Ids(actions)
    ensures n < |actions| ==> actions[n].id !in Ids(actions[..n])
  {
    forall a | a in actions[..n] ensures a in actions {
      var i :| 0 <= i < n && actions[i] == a;
    }
    if n < |actions| {
      forall a | a in actions[..n] ensures a.id != actions[n].id {
        var i :| 0 <= i < n && actions[i] == a;
      }
    }
  }

  /** A row it has not deleted is still there, in the tier it saw or promoted to a longer-lived one. */
  lemma SparedRow(db: Backups, job: Job, id: int)
    requires Planned(job) && Undisturbed(db, job) && id in job.seen && Delete(id) !in job.actions
    ensures id in db && db[id].createdAt == job.seen[id].createdAt
    ensures job.seen[id].tier.Some? ==> db[id].tier.Some? && Rank(job.seen[id].tier.value) <= Rank(db[id].tier.value)
  {
    hide IsListing, Promotion;
    var part := job.actions[..job.done];
    PartOnce(job.actions, job.done);
    RowAfter(job.seen, part, id);
    if id in Ids(part) {
      var a :| a in part && a.id == id;
      assert a in job.actions && a != Delete(id) && a == Promote(id, a.newTier);
      PromotionRaises(job, id, a.newTier);
    }
  }

  lemma PromotionRaises(job: Job, id: int, u: Tier)
    requires Planned(job) && Promote(id, u) in job.actions
    ensures id in job.seen && job.seen[id].tier == Some(Source(u)) && Rank(Source(u)) < Rank(u)
  {
    hide IsListing, Promotion, OncePerId, Due, Period;
    PromotedRow(job.seen, job.listing, job.today, id, u);
  }

  // ─── What an undisturbed rotation keeps covered ───────────────────────────

  /** The rotation listed on the first day after this period of tier `t`. */
  predicate EndsAt(job: Job, t: Tier, period: int) {
    2 <= job.today && t != Hourly && Due(t, job.today) && period == Ended(t, job.today)
  }

  /**
    Of a period that a rotation found covered when it listed, one snapshot it does not delete: the
    one it found, or the newest of that one's tier.
  */
  lemma SomeSpared(job: Job, t: Tier, period: int, x: int) returns (id: int)
    requires Planned(job) && EndsAt(job, t, period)
    requires x in job.seen && x in IdSet(job.listing) && Covers(job.seen[x], t, period)
    ensures id in job.seen && Covers(job.seen[id], t, period) && Delete(id) !in job.actions
  {
    hide Ranked, IsListing, OncePerId, Promotion, Settled, Actions, Due;
    var u := job.seen[x].tier.value;
    ListedRow(job.seen, job.listing, x);
    NewestFacts(job.seen, job.listing, u, job.seen[x]);
    var first := Ranked(job.listing, u)[0];
    NewestIsNotDeleted(job, u);
    SettledIn(job, first.id);
    id := first.id;
    NewerCovers(job.seen[x], first, t, period, job.today);
  }

  lemma NewestIsNotDeleted(job: Job, u: Tier)
    requires Planned(job) && Ranked(job.listing, u) != []
    ensures Delete(Ranked(job.listing, u)[0].id) !in job.actions
  {
    hide Ranked, IsListing, OncePerId, Promotion, Settled, Actions;
    var retention :| Complete(retention) && job.actions == Actions(job.listing, retention, job.today);
    ListingDistinct(job.seen, job.listing);
    FirstIsNotDeleted(job.listing, retention, job.today, u);
  }

  lemma SettledIn(job: Job, id: int)
    requires Planned(job) && id in job.seen
    ensures SettledRow(job.seen[id], job.today)
  {
  }

  /** A newer snapshot of the tier, of a period that has ended, covers what the older one does. */
  lemma NewerCovers(x: Snapshot, first: Snapshot, t: Tier, period: int, today: int)
    requires 2 <= today && t != Hourly && period == Ended(t, today) && Covers(x, t, period)
    requires first.tier == x.tier && x.createdAt <= first.createdAt && SettledRow(first, today)
    ensures Covers(first, t, period)
  {
    hide Period;
    var u := x.tier.value;
    PeriodMonotone(t, DayOf(x), DayOf(first));
    if today <= DayOf(first) { PeriodMonotone(u, today, DayOf(first)); }
    PeriodMonotone(t, DayOf(first), today - 1);
  }

  /** A deletion concerns a listed row. */
  lemma ActedIsListed(job: Job, a: Action)
    requires Planned(job) && a in job.actions
    ensures a.id in IdSet(job.listing) && a.id in job.seen
  {
    hide OfPolicy, Settled, OncePerId, Promotion;
    assert a.id in Ids(job.actions);
    var x :| x in job.listing && x.id == a.id;
  }

  /**
    On the first day after a period, no commit of a rotation that nobody has disturbed since it
    listed uncovers it.
  */
  lemma UndisturbedKeepsCover(s: State, r: int, t: Tier, period: int)
    requires Sound(s) && HasNext(s, r) && EndsAt(s.jobs[r], t, period)
    requires Undisturbed(s.db, s.jobs[r]) && IsCovered(s.db, t, period)
    ensures IsCovered(Step(s, Commit(r)).db, t, period)
  {
    var job, a := s.jobs[r], NextAction(s, r);
    assert JobSound(s.db, s.clock, job) && Planned(job);
    hide Sound, JobSound, Planned, Undisturbed, Covers, EndsAt, IsCovered;
    CommitKeepsCover(s.db, job, a, t, period);
  }

  lemma CommitKeepsCover(db: Backups, job: Job, a: Action, t: Tier, period: int)
    requires Planned(job) && EndsAt(job, t, period) && Undisturbed(db, job) && IsCovered(db, t, period)
    requires job.done < |job.actions| && a == job.actions[job.done]
    ensures IsCovered(ApplyAction(db, a), t, period)
  {
    hide Planned, Undisturbed, Covers, EndsAt, ApplyAction;
    UncoversIff(db, a, t, period);
    if a.id in db && Covers(db[a.id], t, period) { LastIsSpared(db, job, a, t, period); }
  }

  lemma LastIsSpared(db: Backups, job: Job, a: Action, t: Tier, period: int)
    requires Planned(job) && EndsAt(job, t, period) && Undisturbed(db, job)
    requires job.done < |job.actions| && a == job.actions[job.done] && a.id in db && Covers(db[a.id], t, period)
    ensures !TakesAway(a, t) || exists id <- db.Keys :: id != a.id && Covers(db[id], t, period)
  {
    hide IsListing, OncePerId, Promotion, Settled, Due, Period, OfPolicy;
    ActedIsListed(job, a);
    PartOnce(job.actions, job.done);
    UnactedRow(db, job, a.id);
    if a.Promote? {
      PromotionRaises(job, a.id, a.newTier);
    } else {
      var id := SomeSpared(job, t, period, a.id);
      SparedRow(db, job, id);
      assert a == Delete(a.id) && id in db.Keys;
    }
  }

  // ─── What an undisturbed rotation covers ──────────────────────────────────

  /**
    Once a rotation has performed all it decided on the first day after a period, undisturbed, the
    period is covered if and only if it was when the rotation listed, or the listing showed a
    candidate, whatever snapshots were taken and whatever else happened to them since.
  */
  lemma UndisturbedCoversIff(s: State, r: int, t: Tier, period: int)
    requires Sound(s) && r in s.jobs && !HasNext(s, r) && EndsAt(s.jobs[r], t, period) && Undisturbed(s.db, s.jobs[r])
    ensures IsCovered(s.db, t, period)
      <==> IsCovered(s.jobs[r].seen, t, period) || HasMember(s.jobs[r].listing, Source(t), t, period)
  {
    var job := s.jobs[r];
    assert JobSound(s.db, s.clock, job) && job.actions[..job.done] == job.actions;
    if IsCovered(s.db, t, period) {
      CoveredBefore(s.db, s.clock, job, t, period);
    }
    hide Sound, JobSound, Undisturbed, Covers, EndsAt, Planned, HasMember;
    if IsCovered(job.seen, t, period) {
      var x :| x in job.seen.Keys && Covers(job.seen[x], t, period);
      SeenStaysCovered(s.db, job, t, period, x);
    } else if HasMember(job.listing, Source(t), t, period) {
      CandidateCovers(s.db, job, t, period);
    }
  }

  lemma SeenStaysCovered(db: Backups, job: Job, t: Tier, period: int, x: int)
    requires Planned(job) && EndsAt(job, t, period) && Undisturbed(db, job) && x in job.seen && Covers(job.seen[x], t, period)
    ensures IsCovered(db, t, period)
  {
    hide IsListing, OncePerId, Promotion, Settled, Due, Period, OfPolicy;
    var id := x;
    if Delete(x) in job.actions {
      ActedIsListed(job, Delete(x));
      id := SomeSpared(job, t, period, x);
    }
    SparedRow(db, job, id);
    assert id in db.Keys && Covers(db[id], t, period);
  }

  lemma CandidateCovers(db: Backups, job: Job, t: Tier, period: int)
    requires Planned(job) && EndsAt(job, t, period) && Undisturbed(db, job) && job.actions[..job.done] == job.actions
    requires !IsCovered(job.seen, t, period) && HasMember(job.listing, Source(t), t, period)
    ensures IsCovered(db, t, period)
  {
    hide IsListing, OncePerId, Promotion, Settled, Due, Period, OfPolicy, Ended;
    PromotesExactlyWhen(job.listing, job.today, t);
    NotShown(job, t, period);
    var c: Snapshot :| Promotion(job.listing, job.today, t) == [Promote(c.id, t)] && IsCandidate(job.listing, t, period, c);
    PolicyPromotes(job, c.id, t);
    PromotedRow(job.seen, job.listing, job.today, c.id, t);
    RowAfter(job.seen, job.actions, c.id);
    assert db[c.id] == job.seen[c.id].(tier := Some(t));
    assert c.id in db.Keys && Covers(db[c.id], t, period);
  }

  lemma NotShown(job: Job, t: Tier, period: int)
    requires Planned(job) && !IsCovered(job.seen, t, period)
    ensures !HasMember(job.listing, t, t, period)
  {
    hide OncePerId, Promotion, Settled, Period, OfPolicy, DistinctIds, Descending;
    assert forall x :: x in job.listing ==> x.id in job.seen.Keys && job.seen[x.id] == x;
  }

  lemma PolicyPromotes(job: Job, id: int, t: Tier)
    requires Planned(job) && t != Hourly && Promote(id, t) in Promotion(job.listing, job.today, t)
    ensures Promote(id, t) in job.actions
  {
    hide IsListing, OncePerId, Promotion, Settled, Actions;
    var retention :| Complete(retention) && job.actions == Actions(job.listing, retention, job.today);
    ListingDistinct(job.seen, job.listing);
    PromoteInActions(job.listing, retention, job.today, id, t);
  }

  lemma CoveredBefore(db: Backups, clock: nat, job: Job, t: Tier, period: int)
    requires JobSound(db, clock, job) && WellFormed(db) && EndsAt(job, t, period) && Undisturbed(db, job)
    requires IsCovered(db, t, period)
    ensures IsCovered(job.seen, t, period) || HasMember(job.listing, Source(t), t, period)
  {
    hide IsListing, OncePerId, Promotion, Settled, Due, Period, OfPolicy;
    var x :| x in db.Keys && Covers(db[x], t, period);
    assert SameRow(job, db[x]);
    SeenIfOfPeriod(job, db[x], t, period);
    var part := job.actions[..job.done];
    PartOnce(job.actions, job.done);
    RowAfter(job.seen, part, x);
    if x in Ids(part) {
      var a :| a in part && a.id == x;
      assert a in job.actions && a != Delete(x) && a == Promote(x, a.newTier);
      ActedIsListed(job, a);
      PromotionRaises(job, x, a.newTier);
      SourceIsNext(a.newTier, t);
      ListedRow(job.seen, job.listing, x);
      assert x in job.seen.Keys && job.seen[x] in job.listing;
    } else {
      assert x in job.seen.Keys && db[x] == job.seen[x];
    }
  }

  /** A row of the ended period was there when the rotation listed. */
  lemma SeenIfOfPeriod(job: Job, row: Snapshot, t: Tier, period: int)
    requires EndsAt(job, t, period) && Covers(row, t, period) && SameRow(job, row)
    ensures row.id in job.seen
  {
    hide Period, Due;
    if row.id !in job.seen {
      EndedIsPast(t, job.today);
      PeriodMonotone(t, job.today, DayOf(row));
    }
  }

  lemma SourceIsNext(u: Tier, t: Tier)
    ensures u != Hourly && Rank(t) <= Rank(u) && Rank(Source(u)) < Rank(t) ==> u == t
  {
  }

  // ─── Runs without overlaps ────────────────────────────────────────────────

  /** At most one rotation has actions left; it listed on day `d` and nobody has disturbed it. */
  ghost predicate OnlyOne(s: State, d: int) {
    && (forall r :: HasNext(s, r) ==> s.jobs[r].today == d && Undisturbed(s.db, s.jobs[r]))
    && forall r, q :: HasNext(s, r) && HasNext(s, q) ==> r == q
  }

  lemma CommitKeepsUndisturbed(db: Backups, job: Job)
    requires Undisturbed(db, job) && job.done < |job.actions|
    ensures Undisturbed(ApplyAction(db, job.actions[job.done]), job.(done := job.done + 1))
  {
    var part, longer := job.actions[..job.done], job.actions[..job.done + 1];
    assert longer[..|longer| - 1] == part && longer[|longer| - 1] == job.actions[job.done];
    hide ApplyActions;
    assert ApplyActions(job.seen, longer) == ApplyAction(ApplyActions(job.seen, part), job.actions[job.done]) by { LastApplied(job.seen, longer); }
  }

  lemma LastApplied(db: Backups, actions: seq<Action>)
    ensures actions != [] ==> ApplyActions(db, actions) == ApplyAction(ApplyActions(db, actions[..|actions| - 1]), actions[|actions| - 1])
  {
  }

  lemma StepKeepsOnlyOne(s: State, e: Event, d: int)
    requires Sound(s) && Enabled(s, e) && CalmEvent(s, e) && OnlyOne(s, d) && (e.List? ==> Today(e.now) == d)
    ensures OnlyOne(Step(s, e), d)
  {
    hide Sound;
    if e.List? {
      ListIsUndisturbed(s, e, d);
    } else if e.Commit? {
      var r := e.rotation;
      CommitKeepsUndisturbed(s.db, s.jobs[r]);
      hide Undisturbed, ApplyAction;
      assert forall q :: HasNext(Step(s, e), q) ==> HasNext(s, q);
    } else if e.Create? {
      forall r | HasNext(s, r) ensures Undisturbed(Step(s, e).db, s.jobs[r]) {
        assert Undisturbed(s.db, s.jobs[r]) && e.id !in s.jobs[r].seen;
        hide ApplyActions;
      }
      hide Undisturbed;
      assert forall r :: HasNext(Step(s, e), r) ==> HasNext(s, r) && Step(s, e).jobs[r] == s.jobs[r];
    } else {
      hide Undisturbed;
      assert forall r :: HasNext(Step(s, e), r) ==> HasNext(s, r) && Step(s, e).jobs[r] == s.jobs[r];
    }
  }

  lemma ListIsUndisturbed(s: State, e: Event, d: int)
    requires e.List? && Enabled(s, e) && CalmEvent(s, e) && Today(e.now) == d
    ensures OnlyOne(Step(s, e), d)
  {
    hide IsListing, Actions;
    var next := Step(s, e);
    forall q | q in s.jobs.Keys ensures !HasNext(s, q) { NoneLeft(s, q); }
    assert forall q :: HasNext(next, q) ==> q == e.rotation;
    assert next.jobs[e.rotation].actions[..0] == [];
    NothingApplied(s.db);
  }

  lemma NoneLeft(s: State, q: int)
    requires q in s.jobs && Remaining(s.jobs[q]) == []
    ensures !HasNext(s, q)
  {
  }

  lemma NothingApplied(db: Backups)
    ensures ApplyActions(db, []) == db
  {
  }

  lemma StepKeepsCover(s: State, e: Event, t: Tier, d: int)
    requires Sound(s) && Enabled(s, e) && CalmEvent(s, e) && OnlyOne(s, d)
    requires 2 <= d && t != Hourly && Due(t, d) && IsCovered(s.db, t, Ended(t, d))
    ensures IsCovered(Step(s, e).db, t, Ended(t, d))
  {
    hide Sound, Undisturbed, Period, Due;
    if e.Commit? {
      UndisturbedKeepsCover(s, e.rotation, t, Ended(t, d));
    } else {
      var id :| id in s.db.Keys && Covers(s.db[id], t, Ended(t, d));
      hide Covers, IsListing;
      assert id in Step(s, e).db.Keys && Step(s, e).db[id] == s.db[id];
    }
  }

  /**
    So while rotations list on that day without overlapping and nothing is removed by hand, a
    covered period stays covered, whatever the retentions and wherever rotations stop.
  */
  lemma {:induction false} CalmKeepsCover(s: State, events: seq<Event>, t: Tier, d: int)
    requires Sound(s) && IsRun(s, events) && Calm(s, events) && OnlyOne(s, d)
    requires 2 <= d && t != Hourly && Due(t, d) && IsCovered(s.db, t, Ended(t, d))
    requires forall e :: e in events && e.List? ==> Today(e.now) == d
    ensures IsCovered(Run(s, events).db, t, Ended(t, d))
    decreases |events|
  {
    hide Sound, Enabled, Step, CalmEvent, OnlyOne, Period, Due, IsCovered;
    if events != [] {
      assert events[0] in events && forall e :: e in events[1..] ==> e in events;
      StepKeepsSound(s, events[0]);
      StepKeepsOnlyOne(s, events[0], d);
      StepKeepsCover(s, events[0], t, d);
      CalmKeepsCover(Step(s, events[0]), events[1..], t, d);
    }
  }
}
