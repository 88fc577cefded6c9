/**
  Any sequence of ticks, manual removals and rotations, at a clock that never goes back.

  A rotation lists the newest snapshots, computes its actions, and performs them one commit at a
  time. No lock covers this, and the loop and a manual trigger run on connections of their own:
  between any two commits of one rotation another may list or commit.
*/
module SnapshotRuns {
  import opened Options
  import opened Calendar
  import opened GfsRotation
  import opened GfsBounds
  import opened SnapshotScheduler

  /**
    A rotation under way: the store it listed, the listing, the day, its actions and how many are
    done; and the promotions that other rotations have performed since it listed. What happens
    next depends on the actions left only; the rest is for the theorems.
  */
  datatype Job = Job(seen: Backups, listing: seq<Snapshot>, today: int, actions: seq<Action>, done: nat, since: set<(int, Tier)>)

  datatype State = State(db: Backups, clock: nat, jobs: map<int, Job>)

  datatype Event =
    | Create(id: int, now: nat)
    | Remove(id: int)
    | List(rotation: int, listing: seq<Snapshot>, retention: Retention, now: nat)
    | Commit(rotation: int)
    | Finish(rotation: int)

  const EMPTY := State(map[], 0, map[])

  function Today(now: nat): (n: int)
    ensures 1 <= n
  {
    now / MICROSECONDS_PER_DAY + 1
  }

  /** Midnight of a day. */
  function At(day: int): nat
    requires 1 <= day
  {
    (day - 1) * MICROSECONDS_PER_DAY
  }

  lemma TodayAt(day: int)
    requires 1 <= day
    ensures Today(At(day)) == day
  {
  }

  lemma AtGrows(a: int, b: int)
    requires 1 <= a <= b
    ensures At(a) <= At(b)
  {
  }

  /** Ids are random: one that a rotation under way has seen does not come back. */
  predicate Unused(s: State, id: int) {
    id !in s.db && forall r :: r in s.jobs ==> id !in s.jobs[r].seen
  }

  function Remaining(job: Job): seq<Action> {
    if job.done <= |job.actions| then job.actions[job.done..] else []
  }

  predicate HasNext(s: State, r: int) {
    r in s.jobs && s.jobs[r].done < |s.jobs[r].actions|
  }

  function NextAction(s: State, r: int): Action
    requires HasNext(s, r)
  {
    s.jobs[r].actions[s.jobs[r].done]
  }

  /** What the environment guarantees: a fresh id, a listing the query may return, a later clock. */
  predicate Enabled(s: State, e: Event) {
    match e
    case Create(id, now) => s.clock <= now && Unused(s, id)
    case Remove(id) => true
    case List(r, listing, retention, now) =>
      r !in s.jobs && s.clock <= now && 2 <= Today(now) && Complete(retention) && IsListing(s.db, listing)
    case Commit(r) => HasNext(s, r)
    case Finish(r) => r in s.jobs
  }

  /** The promotion an action makes of a row that is still there. */
  function Promoted(db: Backups, a: Action): set<(int, Tier)> {
    if a.Promote? && a.id in db then {(a.id, a.newTier)} else {}
  }

  function AfterCommit(s: State, r: int): map<int, Job>
    requires HasNext(s, r)
  {
    map q | q in s.jobs ::
      if q == r then s.jobs[q].(done := s.jobs[q].done + 1)
      else s.jobs[q].(since := s.jobs[q].since + Promoted(s.db, NextAction(s, r)))
  }

  /** A rotation that finishes, or stops for good after some of its commits, is dropped. */
  function Step(s: State, e: Event): State
    requires Enabled(s, e)
  {
    match e
    case Create(id, now) => s.(db := s.db[id := Snapshot(id, Some(Hourly), now)], clock := now)
    case Remove(id) => s.(db := s.db - {id})
    case List(r, listing, retention, now) =>
      s.(clock := now, jobs := s.jobs[r := Job(s.db, listing, Today(now), Actions(listing, retention, Today(now)), 0, {})])
    case Commit(r) => s.(db := ApplyAction(s.db, NextAction(s, r)), jobs := AfterCommit(s, r))
    case Finish(r) => s.(jobs := s.jobs - {r})
  }

  predicate IsRun(s: State, events: seq<Event>)
    decreases |events|
  {
    events == [] || (Enabled(s, events[0]) && IsRun(Step(s, events[0]), events[1..]))
  }

  function Run(s: State, events: seq<Event>): State
    requires IsRun(s, events)
    decreases |events|
  {
    if events == [] then s else Run(Step(s, events[0]), events[1..])
  }

  lemma {:induction false} RunOfConcat(s: State, first: seq<Event>, second: seq<Event>)
    requires IsRun(s, first) && IsRun(Run(s, first), second)
    ensures IsRun(s, first + second) && Run(s, first + second) == Run(Run(s, first), second)
    decreases |first|
  {
    hide Step, Enabled;
    if first == [] {
      assert first + second == second;
    } else {
      assert (first + second)[1..] == first[1..] + second;
      RunOfConcat(Step(s, first[0]), first[1..], second);
    }
  }

  lemma OneStep(s: State, e: Event)
    requires Enabled(s, e)
    ensures IsRun(s, [e]) && Run(s, [e]) == Step(s, e)
  {
    assert [e][1..] == [];
  }

  // ─── The scheduler, updating its rows in place ────────────────────────────

  predicate Agree(backups: Backups, pending: map<int, seq<Action>>, s: State) {
    && backups == s.db && pending.Keys == s.jobs.Keys
    && forall r :: r in pending ==> pending[r] == Remaining(s.jobs[r])
  }

  lemma CommitAgrees(backups: Backups, pending: map<int, seq<Action>>, s: State, r: int)
    requires Agree(backups, pending, s) && r in pending && pending[r] != []
    ensures Enabled(s, Commit(r))
    ensures Agree(ApplyAction(backups, pending[r][0]), pending[r := pending[r][1..]], Step(s, Commit(r)))
  {
    hide ApplyAction, AfterCommit, NextAction, Remaining, Enabled, HasNext;
    RemainingAfter(s, r);
    assert Enabled(s, Commit(r)) by { CommitEnabled(s, r); }
    var next := Step(s, Commit(r));
    assert next.db == ApplyAction(s.db, NextAction(s, r)) && next.jobs == AfterCommit(s, r);
    hide Step;
    forall q | q in pending ensures pending[r := pending[r][1..]][q] == Remaining(next.jobs[q]) {}
  }

  lemma CommitEnabled(s: State, r: int)
    ensures HasNext(s, r) ==> Enabled(s, Commit(r))
  {
  }

  lemma RemainingAfter(s: State, r: int)
    requires r in s.jobs && Remaining(s.jobs[r]) != []
    ensures HasNext(s, r) && Remaining(s.jobs[r])[0] == NextAction(s, r)
    ensures AfterCommit(s, r).Keys == s.jobs.Keys
    ensures forall q :: q in s.jobs ==>
      Remaining(AfterCommit(s, r)[q]) == if q == r then Remaining(s.jobs[r])[1..] else Remaining(s.jobs[q])
  {
  }

  /** The backup rows, and for each rotation under way the actions it has left. */
  class Scheduler {
    var backups: Backups
    var pending: map<int, seq<Action>>
    ghost var state: State

    ghost predicate Valid()
      reads this
    {
      Agree(backups, pending, state)
    }

    constructor ()
      ensures Valid() && state == EMPTY
    {
      backups, pending, state := map[], map[], EMPTY;
    }

    /** The row a tick inserts for its new snapshot. */
    method CreateHourly(id: int, now: nat)
      requires Valid() && Enabled(state, Create(id, now))
      modifies this
      ensures Valid() && state == Step(old(state), Create(id, now))
    {
      backups := backups[id := Snapshot(id, Some(Hourly), now)];
      state := Step(state, Create(id, now));
    }

    method RemoveBackup(id: int)
      requires Valid()
      modifies this
      ensures Valid() && state == Step(old(state), Remove(id))
    {
      backups := backups - {id};
      state := Step(state, Remove(id));
    }

    /** The listing of a rotation and the actions it computes from it. */
    method BeginRotation(r: int, listing: seq<Snapshot>, retention: Retention, now: nat)
      requires Valid() && Enabled(state, List(r, listing, retention, now))
      modifies this
      ensures Valid() && state == Step(old(state), List(r, listing, retention, now))
    {
      var actions := Rotate(listing, retention, Today(now));
      pending := pending[r := actions];
      state := Step(state, List(r, listing, retention, now));
    }

    method Perform(a: Action)
      modifies this`backups
      ensures backups == ApplyAction(old(backups), a)
    {
      match a {
        case Delete(id) =>
          if id in backups { backups := backups - {id}; }
        case Promote(id, t) =>
          if id in backups { backups := backups[id := backups[id].(tier := Some(t))]; }
      }
    }

    /** One pass of the loop over the actions: a deletion or a change of tier, in a commit of its own. */
    method PerformNext(r: int)
      requires Valid() && r in pending && pending[r] != []
      modifies this
      ensures Enabled(old(state), Commit(r)) && Valid() && state == Step(old(state), Commit(r))
    {
      hide Agree, Step, Enabled, ApplyAction;
      CommitAgrees(backups, pending, state, r);
      Perform(pending[r][0]);
      pending := pending[r := pending[r][1..]];
      state := Step(state, Commit(r));
    }

    method EndRotation(r: int)
      requires Valid() && r in pending
      modifies this
      ensures Valid() && state == Step(old(state), Finish(r))
    {
      pending := pending - {r};
      state := Step(state, Finish(r));
    }
  }

  // ─── What every event keeps ───────────────────────────────────────────────

  /** What the rotation decided for its listing under some policy. */
  ghost predicate OfPolicy(job: Job) {
    2 <= job.today && exists retention :: Complete(retention) && job.actions == Actions(job.listing, retention, job.today)
  }

  /** The actions of a rotation are each of one id, and its promotions are due on its listing. */
  ghost predicate Planned(job: Job) {
    && 2 <= job.today && job.done <= |job.actions| && OncePerId(job.actions) && OfPolicy(job) && Settled(job.seen, job.today)
    && WellFormed(job.seen) && IsListing(job.seen, job.listing) && Ids(job.actions) <= IdSet(job.listing)
    && forall id, t: Tier :: Promote(id, t) in job.actions ==> t != Hourly && Promote(id, t) in Promotion(job.listing, job.today, t)
  }

  /** Whatever is in a tier now was there at the listing, or somebody has promoted it since. */
  predicate Explained(job: Job, row: Snapshot) {
    row.tier.Some? && row.tier.value != Hourly ==>
      || (row.id in job.seen && job.seen[row.id].tier == row.tier)
      || (row.id, row.tier.value) in job.since
      || Promote(row.id, row.tier.value) in job.actions[..if job.done <= |job.actions| then job.done else 0]
  }

  /** What a rotation has not seen was taken since. */
  predicate SameRow(job: Job, row: Snapshot) {
    if row.id in job.seen then job.seen[row.id].createdAt == row.createdAt else job.today <= DayOf(row)
  }

  ghost predicate JobSound(db: Backups, clock: nat, job: Job) {
    && Planned(job) && job.today <= Today(clock)
    && forall id :: id in db ==> SameRow(job, db[id]) && Explained(job, db[id])
  }

  predicate StoreSound(db: Backups, clock: nat) {
    WellFormed(db) && Settled(db, Today(clock)) && forall id :: id in db ==> db[id].createdAt <= clock
  }

  ghost predicate Sound(s: State) {
    StoreSound(s.db, s.clock) && forall r :: r in s.jobs ==> JobSound(s.db, s.clock, s.jobs[r])
  }

  lemma SettledLater(db: Backups, today: int, later: int)
    requires 1 <= today <= later && Settled(db, today)
    ensures Settled(db, later)
  {
    hide Period;
    forall id | id in db ensures SettledRow(db[id], later) {
      if db[id].tier.Some? { PeriodMonotone(db[id].tier.value, today, later); }
    }
  }

  lemma PlannedByRotation(db: Backups, listing: seq<Snapshot>, retention: Retention, today: int)
    requires WellFormed(db) && IsListing(db, listing) && Complete(retention) && 2 <= today && Settled(db, today)
    ensures Planned(Job(db, listing, today, Actions(listing, retention, today), 0, {}))
  {
    hide Actions, Promotion, IsListing, OncePerId;
    RotationActions(db, listing, retention, today);
    ListingDistinct(db, listing);
    forall id, t: Tier | Promote(id, t) in Actions(listing, retention, today)
      ensures t != Hourly && Promote(id, t) in Promotion(listing, today, t)
    {
      PromoteInActions(listing, retention, today, id, t);
    }
  }

  /** What a promotion still to be made says about its row, if it is still there. */
  lemma NextPromotion(s: State, r: int)
    requires Sound(s) && HasNext(s, r) && NextAction(s, r).Promote?
    ensures var job := s.jobs[r]; var a := NextAction(s, r);
      && a.newTier != Hourly && a in job.actions && Promote(a.id, a.newTier) in Promotion(job.listing, job.today, a.newTier)
      && 2 <= job.today <= Today(s.clock) && Due(a.newTier, job.today)
      && a.id in job.seen && a.id in IdSet(job.listing)
      && (a.id in s.db ==> InPeriod(s.db[a.id], a.newTier, Ended(a.newTier, job.today)))
  {
    hide Period, Promotion, IsListing, OncePerId, Settled, OfPolicy, Explained;
    var job, a := s.jobs[r], NextAction(s, r);
    assert JobSound(s.db, s.clock, job);
    assert a in job.actions && a == Promote(a.id, a.newTier);
    PromotedRow(job.seen, job.listing, job.today, a.id, a.newTier);
    if a.id in s.db { assert SameRow(job, s.db[a.id]); }
  }

  lemma CommitKeepsStore(s: State, r: int)
    requires Sound(s) && HasNext(s, r)
    ensures StoreSound(ApplyAction(s.db, NextAction(s, r)), s.clock)
  {
    hide Period, Promotion;
    var a := NextAction(s, r);
    if a.Promote? && a.id in s.db {
      NextPromotion(s, r);
      EndedIsPast(a.newTier, s.jobs[r].today);
      PeriodMonotone(a.newTier, s.jobs[r].today, Today(s.clock));
      hide Sound;
      forall id | id in s.db ensures SettledRow(ApplyAction(s.db, a)[id], Today(s.clock)) {
        assert SettledRow(s.db[id], Today(s.clock));
      }
    }
  }

  /** The row of one id after an action, unless it is deleted. */
  lemma ActedRow(db: Backups, a: Action, id: int)
    requires WellFormed(db) && id in ApplyAction(db, a)
    ensures var row := ApplyAction(db, a)[id];
      && id in db && row.id == id && row.createdAt == db[id].createdAt
      && (row == db[id] || (a.Promote? && a.id == id && row.tier == Some(a.newTier)))
  {
  }

  lemma OwnCommitExplained(db: Backups, job: Job, a: Action, id: int)
    requires WellFormed(db) && id in ApplyAction(db, a) && SameRow(job, db[id]) && Explained(job, db[id])
    requires job.done < |job.actions| && job.actions[job.done] == a
    ensures SameRow(job.(done := job.done + 1), ApplyAction(db, a)[id])
    ensures Explained(job.(done := job.done + 1), ApplyAction(db, a)[id])
  {
    var k := job.done;
    assert job.actions[..k + 1] == job.actions[..k] + [a];
    ActedRow(db, a, id);
    hide ApplyAction;
  }

  lemma OtherCommitExplained(db: Backups, job: Job, a: Action, id: int)
    requires WellFormed(db) && id in ApplyAction(db, a) && SameRow(job, db[id]) && Explained(job, db[id])
    ensures SameRow(job.(since := job.since + Promoted(db, a)), ApplyAction(db, a)[id])
    ensures Explained(job.(since := job.since + Promoted(db, a)), ApplyAction(db, a)[id])
  {
    ActedRow(db, a, id);
    hide ApplyAction;
  }

  lemma CommitKeepsJob(s: State, r: int, q: int)
    requires Sound(s) && HasNext(s, r) && q in s.jobs
    ensures JobSound(ApplyAction(s.db, NextAction(s, r)), s.clock, AfterCommit(s, r)[q])
  {
    var a, after, job := NextAction(s, r), ApplyAction(s.db, NextAction(s, r)), s.jobs[q];
    assert JobSound(s.db, s.clock, job);
    forall id | id in after ensures SameRow(AfterCommit(s, r)[q], after[id]) && Explained(AfterCommit(s, r)[q], after[id]) {
      ActedRow(s.db, a, id);
      if q == r { OwnCommitExplained(s.db, job, a, id); } else { OtherCommitExplained(s.db, job, a, id); }
    }
    hide Explained, SameRow, ApplyAction, Sound;
    CommitKeepsPlan(s, r, q);
  }

  lemma CommitKeepsPlan(s: State, r: int, q: int)
    requires HasNext(s, r) && q in s.jobs && Planned(s.jobs[q])
    ensures Planned(AfterCommit(s, r)[q]) && AfterCommit(s, r)[q].today == s.jobs[q].today
  {
    hide IsListing, Promotion, OncePerId;
  }

  lemma CommitKeepsSound(s: State, r: int)
    requires Sound(s) && HasNext(s, r)
    ensures Sound(Step(s, Commit(r)))
  {
    hide ApplyAction, StoreSound, JobSound, NextAction;
    CommitKeepsStore(s, r);
    var next := Step(s, Commit(r));
    assert next.db == ApplyAction(s.db, NextAction(s, r)) && next.clock == s.clock && next.jobs == AfterCommit(s, r);
    assert next.jobs.Keys == s.jobs.Keys;
    hide Step, AfterCommit;
    forall q | q in next.jobs ensures JobSound(next.db, next.clock, next.jobs[q]) {
      CommitKeepsJob(s, r, q);
    }
  }

  lemma LaterJob(db: Backups, clock: nat, later: nat, job: Job)
    requires JobSound(db, clock, job) && clock <= later
    ensures JobSound(db, later, job)
  {
    hide Planned, Explained, SameRow;
  }

  lemma CreateKeepsJob(db: Backups, clock: nat, job: Job, id: int, now: nat)
    requires JobSound(db, clock, job) && clock <= now && id !in job.seen
    ensures JobSound(db[id := Snapshot(id, Some(Hourly), now)], now, job)
  {
    hide Planned;
  }

  lemma CreateKeepsSound(s: State, id: int, now: nat)
    requires Sound(s) && Enabled(s, Create(id, now))
    ensures Sound(Step(s, Create(id, now)))
  {
    hide JobSound, Period;
    SettledLater(s.db, Today(s.clock), Today(now));
    forall q | q in s.jobs ensures JobSound(s.db[id := Snapshot(id, Some(Hourly), now)], now, s.jobs[q]) {
      CreateKeepsJob(s.db, s.clock, s.jobs[q], id, now);
    }
  }

  lemma ListKeepsSound(s: State, r: int, listing: seq<Snapshot>, retention: Retention, now: nat)
    requires Sound(s) && Enabled(s, List(r, listing, retention, now))
    ensures Sound(Step(s, List(r, listing, retention, now)))
  {
    hide JobSound, IsListing, Actions, Settled;
    var job := Job(s.db, listing, Today(now), Actions(listing, retention, Today(now)), 0, {});
    SettledLater(s.db, Today(s.clock), Today(now));
    NewJobSound(s.db, listing, retention, now);
    forall q | q in s.jobs ensures JobSound(s.db, now, s.jobs[q]) { LaterJob(s.db, s.clock, now, s.jobs[q]); }
  }

  lemma NewJobSound(db: Backups, listing: seq<Snapshot>, retention: Retention, now: nat)
    requires WellFormed(db) && IsListing(db, listing) && Complete(retention) && 2 <= Today(now) && Settled(db, Today(now))
    ensures JobSound(db, now, Job(db, listing, Today(now), Actions(listing, retention, Today(now)), 0, {}))
  {
    PlannedByRotation(db, listing, retention, Today(now));
    hide Planned, IsListing, Actions;
  }

  lemma RemoveKeepsSound(s: State, id: int)
    requires Sound(s)
    ensures Sound(Step(s, Remove(id)))
  {
    hide Planned, Period;
    forall q | q in s.jobs ensures JobSound(s.db - {id}, s.clock, s.jobs[q]) { assert JobSound(s.db, s.clock, s.jobs[q]); }
  }

  /** The rows date from ended periods, and each rotation under way still explains every tier it finds. */
  lemma StepKeepsSound(s: State, e: Event)
    requires Sound(s) && Enabled(s, e)
    ensures Sound(Step(s, e))
  {
    hide StoreSound, JobSound;
    match e
    case Create(id, now) => CreateKeepsSound(s, id, now);
    case Remove(id) => RemoveKeepsSound(s, id);
    case List(r, listing, retention, now) => ListKeepsSound(s, r, listing, retention, now);
    case Commit(r) => CommitKeepsSound(s, r);
    case Finish(r) =>
  }

  lemma {:induction false} RunKeepsSound(s: State, events: seq<Event>)
    requires Sound(s) && IsRun(s, events)
    ensures Sound(Run(s, events))
    decreases |events|
  {
    hide Sound, Step, Enabled;
    if events != [] {
      StepKeepsSound(s, events[0]);
      RunKeepsSound(Step(s, events[0]), events[1..]);
    }
  }

  lemma EmptyIsSound()
    ensures Sound(EMPTY)
  {
  }

  // ─── A rotation nobody disturbs ───────────────────────────────────────────

  function Commits(r: int, n: nat): seq<Event> {
    if n == 0 then [] else Commits(r, n - 1) + [Commit(r)]
  }

  /** A rotation from its listing to its end, stopped after `commits` actions if there are more. */
  function Whole(r: int, listing: seq<Snapshot>, retention: Retention, now: nat, commits: nat): seq<Event>
    requires Complete(retention) && 2 <= Today(now)
  {
    [List(r, listing, retention, now)] + Commits(r, |Performed(listing, retention, Today(now), commits)|) + [Finish(r)]
  }

  lemma {:induction false} CommitsRun(s: State, r: int, n: nat)
    requires r in s.jobs && s.jobs[r].done == 0 && n <= |s.jobs[r].actions|
    ensures IsRun(s, Commits(r, n))
    ensures var end := Run(s, Commits(r, n));
      && end.db == ApplyActions(s.db, s.jobs[r].actions[..n]) && end.clock == s.clock && end.jobs.Keys == s.jobs.Keys
      && end.jobs[r] == s.jobs[r].(done := n)
      && (forall q :: q in s.jobs && q != r ==> Remaining(end.jobs[q]) == Remaining(s.jobs[q]))
      && forall q :: q in s.jobs ==> end.jobs[q].seen == s.jobs[q].seen
  {
    hide IsRun, Run;
    var actions := s.jobs[r].actions;
    if n == 0 {
      NoEvents(s);
    } else {
      CommitsRun(s, r, n - 1);
      var before := Run(s, Commits(r, n - 1));
      OneStep(before, Commit(r));
      RunOfConcat(s, Commits(r, n - 1), [Commit(r)]);
      assert actions[..n][..n - 1] == actions[..n - 1];
    }
  }

  lemma NoEvents(s: State)
    ensures IsRun(s, []) && Run(s, []) == s
  {
  }

  /** With nothing in between, the commits of a rotation leave what its actions make of the listed store. */
  lemma UndisturbedRotation(s: State, r: int, listing: seq<Snapshot>, retention: Retention, now: nat, commits: nat)
    requires Enabled(s, List(r, listing, retention, now))
    ensures IsRun(s, Whole(r, listing, retention, now, commits))
    ensures var end := Run(s, Whole(r, listing, retention, now, commits));
      && end.db == Cut(s.db, listing, retention, Today(now), commits)
      && (|Actions(listing, retention, Today(now))| <= commits ==> end.db == Rotated(s.db, listing, retention, Today(now)))
      && end.clock == now && end.jobs.Keys == s.jobs.Keys
      && forall q :: q in s.jobs ==> Remaining(end.jobs[q]) == Remaining(s.jobs[q])
  {
    hide IsRun, Run, Actions, IsListing, ApplyActions;
    var e := List(r, listing, retention, now);
    var n := |Performed(listing, retention, Today(now), commits)|;
    var listed := Step(s, e);
    OneStep(s, e);
    CommitsRun(listed, r, n);
    RunOfConcat(s, [e], Commits(r, n));
    var done := Run(listed, Commits(r, n));
    OneStep(done, Finish(r));
    RunOfConcat(s, [e] + Commits(r, n), [Finish(r)]);
    assert listed.jobs[r].actions[..n] == Performed(listing, retention, Today(now), commits);
  }

  // ─── One per period ───────────────────────────────────────────────────────

  /**
    A snapshot of the promotion's tier and period which its listing did not show there: beyond the
    limit when it listed, or promoted by another rotation since.
  */
  predicate Rival(db: Backups, job: Job, a: Action, id: int)
    requires a.Promote? && 2 <= job.today
  {
    && id in db && id != a.id && db[id].tier == Some(a.newTier) && InPeriod(db[id], a.newTier, Ended(a.newTier, job.today))
    && ((id in job.seen && job.seen[id].tier == Some(a.newTier) && id !in IdSet(job.listing)) || (id, a.newTier) in job.since)
  }

  /** The event promotes a snapshot beside one its listing did not show in that tier. */
  ghost predicate PromotesBeside(s: State, e: Event) {
    && e.Commit? && HasNext(s, e.rotation) && NextAction(s, e.rotation).Promote? && NextAction(s, e.rotation).id in s.db
    && 2 <= s.jobs[e.rotation].today
    && exists id :: Rival(s.db, s.jobs[e.rotation], NextAction(s, e.rotation), id)
  }

  lemma RivalClashes(s: State, r: int, id: int)
    requires Sound(s) && HasNext(s, r) && NextAction(s, r).Promote? && NextAction(s, r).id in s.db
    requires 2 <= s.jobs[r].today && Rival(s.db, s.jobs[r], NextAction(s, r), id)
    ensures !OnePerPeriod(Step(s, Commit(r)).db)
  {
    hide Sound, Period, Promotion, Due;
    NextPromotion(s, r);
    var db := Step(s, Commit(r)).db;
    assert SamePeriod(db[NextAction(s, r).id], db[id]);
  }

  /** A clash after a promotion is with a snapshot the listing did not show: those shown forbid it. */
  lemma ClashIsRival(s: State, r: int, id: int)
    requires Sound(s) && HasNext(s, r) && NextAction(s, r).Promote? && NextAction(s, r).id in s.db
    requires 2 <= s.jobs[r].today && id in s.db && id != NextAction(s, r).id
    requires s.db[id].tier == Some(NextAction(s, r).newTier)
    requires InPeriod(s.db[id], NextAction(s, r).newTier, Ended(NextAction(s, r).newTier, s.jobs[r].today))
    ensures Rival(s.db, s.jobs[r], NextAction(s, r), id)
  {
    hide OfPolicy, Settled, Period, Due, Promotion, IsListing, OncePerId;
    var job, a := s.jobs[r], NextAction(s, r);
    var t := a.newTier;
    NextPromotion(s, r);
    assert JobSound(s.db, s.clock, job) && SameRow(job, s.db[id]) && Explained(job, s.db[id]) && s.db[id].id == id;
    assert Promote(id, t) in job.actions[..job.done] ==> Promote(id, t) in job.actions;
    hide Sound;
    PromotedRow(job.seen, job.listing, job.today, a.id, t);
    if id in job.seen && job.seen[id].tier == Some(t) {
      if id in IdSet(job.listing) { ListedMember(job.seen, job.listing, id, t, t, Ended(t, job.today)); }
    }
  }

  lemma NoRivalNoClash(s: State, r: int, x: int, y: int)
    requires Sound(s) && HasNext(s, r) && NextAction(s, r).Promote? && NextAction(s, r).id in s.db
    requires x == NextAction(s, r).id && y in s.db && x != y && 2 <= s.jobs[r].today
    requires !Rival(s.db, s.jobs[r], NextAction(s, r), y)
    ensures !SamePeriod(s.db[x].(tier := Some(NextAction(s, r).newTier)), s.db[y])
  {
    hide Period, Promotion, Due, Rival, Sound;
    NextPromotion(s, r);
    if SamePeriod(s.db[x].(tier := Some(NextAction(s, r).newTier)), s.db[y]) { ClashIsRival(s, r, y); }
  }

  lemma CommitKeepsOnePerPeriodIff(s: State, r: int)
    requires Sound(s) && HasNext(s, r) && OnePerPeriod(s.db)
    ensures OnePerPeriod(Step(s, Commit(r)).db) <==> !PromotesBeside(s, Commit(r))
  {
    hide Sound, Rival;
    var a, job, after := NextAction(s, r), s.jobs[r], Step(s, Commit(r)).db;
    if a.Promote? && a.id in s.db {
      NextPromotion(s, r);
      if id :| Rival(s.db, job, a, id) {
        RivalClashes(s, r, id);
      } else {
        assert after == s.db[a.id := s.db[a.id].(tier := Some(a.newTier))];
        forall y | y in s.db && y != a.id ensures !SamePeriod(after[a.id], after[y]) && !SamePeriod(after[y], after[a.id]) {
          NoRivalNoClash(s, r, a.id, y);
        }
      }
    }
  }

  lemma CreateKeepsOnePerPeriod(db: Backups, id: int, now: nat)
    requires OnePerPeriod(db) && id !in db
    ensures OnePerPeriod(db[id := Snapshot(id, Some(Hourly), now)])
  {
  }

  lemma RemoveKeepsOnePerPeriod(db: Backups, id: int)
    requires OnePerPeriod(db)
    ensures OnePerPeriod(db - {id})
  {
  }

  lemma StepKeepsOnePerPeriodIff(s: State, e: Event)
    requires Sound(s) && Enabled(s, e) && OnePerPeriod(s.db)
    ensures OnePerPeriod(Step(s, e).db) <==> !PromotesBeside(s, e)
  {
    hide OnePerPeriod, Sound;
    match e
    case Create(id, now) => CreateKeepsOnePerPeriod(s.db, id, now);
    case Remove(id) => RemoveKeepsOnePerPeriod(s.db, id);
    case Commit(r) => CommitKeepsOnePerPeriodIff(s, r);
    case _ =>
  }

  /** In every state the run goes through, its last included, no two snapshots share a tier and a period. */
  predicate AlwaysOnePerPeriod(s: State, events: seq<Event>)
    requires IsRun(s, events)
    decreases |events|
  {
    OnePerPeriod(s.db) && (events == [] || AlwaysOnePerPeriod(Step(s, events[0]), events[1..]))
  }

  ghost predicate NeverPromotesBeside(s: State, events: seq<Event>)
    requires IsRun(s, events)
    decreases |events|
  {
    events == [] || (!PromotesBeside(s, events[0]) && NeverPromotesBeside(Step(s, events[0]), events[1..]))
  }

  lemma {:induction false} OnePerPeriodFromIff(s: State, events: seq<Event>)
    requires Sound(s) && OnePerPeriod(s.db) && IsRun(s, events)
    ensures AlwaysOnePerPeriod(s, events) <==> NeverPromotesBeside(s, events)
    decreases |events|
  {
    hide Sound, OnePerPeriod, Enabled, Step, PromotesBeside;
    if events != [] {
      var next := Step(s, events[0]);
      StepKeepsSound(s, events[0]);
      StepKeepsOnePerPeriodIff(s, events[0]);
      if !PromotesBeside(s, events[0]) { OnePerPeriodFromIff(next, events[1..]); }
    }
  }

  /**
    Over every run from an empty store, rotations overlapping or stopped anywhere: throughout it
    there is at most one daily per date, one weekly per week, one monthly per month and one yearly
    per year, if and only if no commit promotes a snapshot beside one of the same period that its
    rotation's listing did not show in that tier, hidden by the limit or promoted by another since.
  */
  lemma OnePerPeriodThroughoutIff(events: seq<Event>)
    requires IsRun(EMPTY, events)
    ensures AlwaysOnePerPeriod(EMPTY, events) <==> NeverPromotesBeside(EMPTY, events)
  {
    EmptyIsSound();
    OnePerPeriodFromIff(EMPTY, events);
  }

  // ─── What a caller can check ──────────────────────────────────────────────

  /** The rotation has promotions left to make. */
  predicate Promoting(job: Job) {
    exists a <- Remaining(job) :: a.Promote?
  }

  /** A rotation lists at most 500 snapshots, while no other has promotions left to make. */
  predicate OrderlyEvent(s: State, e: Event) {
    e.List? ==> |s.db| <= LISTING_LIMIT && forall q <- s.jobs.Keys :: !Promoting(s.jobs[q])
  }

  predicate Orderly(s: State, events: seq<Event>)
    requires IsRun(s, events)
    decreases |events|
  {
    events == [] || (OrderlyEvent(s, events[0]) && Orderly(Step(s, events[0]), events[1..]))
  }

  /** At most one rotation has promotions left; its listing showed everything, and no other has promoted since. */
  ghost predicate OneAtATime(s: State) {
    && (forall r, q :: r in s.jobs && q in s.jobs && r != q ==> !Promoting(s.jobs[r]) || !Promoting(s.jobs[q]))
    && (forall r :: r in s.jobs && Promoting(s.jobs[r]) ==> s.jobs[r].since == {} && s.jobs[r].seen.Keys == IdSet(s.jobs[r].listing))
  }

  lemma NextIsPromoting(s: State, r: int)
    requires HasNext(s, r) && NextAction(s, r).Promote?
    ensures Promoting(s.jobs[r])
  {
    assert Remaining(s.jobs[r])[0] == NextAction(s, r);
  }

  lemma OrderlyNeverBeside(s: State, e: Event)
    requires OneAtATime(s)
    ensures !PromotesBeside(s, e)
  {
    if PromotesBeside(s, e) {
      NextIsPromoting(s, e.rotation);
    }
  }

  lemma CommitKeepsPromoting(s: State, r: int, q: int)
    requires HasNext(s, r) && q in s.jobs && OneAtATime(s)
    ensures Promoting(AfterCommit(s, r)[q]) ==> Promoting(s.jobs[q]) && AfterCommit(s, r)[q].since == s.jobs[q].since
  {
    var job, next := s.jobs[q], AfterCommit(s, r)[q];
    if Promoting(next) {
      var a :| a in Remaining(next) && a.Promote?;
      var i :| 0 <= i < |Remaining(next)| && Remaining(next)[i] == a;
      assert Remaining(job)[if q == r then i + 1 else i] == a;
    }
    if NextAction(s, r).Promote? { NextIsPromoting(s, r); }
  }

  lemma OrderlyCommit(s: State, r: int)
    requires HasNext(s, r) && OneAtATime(s)
    ensures OneAtATime(Step(s, Commit(r)))
  {
    forall q | q in s.jobs
      ensures Promoting(AfterCommit(s, r)[q]) ==> Promoting(s.jobs[q]) && AfterCommit(s, r)[q].since == s.jobs[q].since
    {
      CommitKeepsPromoting(s, r, q);
    }
    assert forall q :: q in s.jobs ==> AfterCommit(s, r)[q].seen == s.jobs[q].seen && AfterCommit(s, r)[q].listing == s.jobs[q].listing;
    hide Promoting, AfterCommit, IdSet;
  }

  lemma OrderlyList(s: State, r: int, listing: seq<Snapshot>, retention: Retention, now: nat)
    requires Enabled(s, List(r, listing, retention, now)) && OrderlyEvent(s, List(r, listing, retention, now)) && OneAtATime(s)
    ensures OneAtATime(Step(s, List(r, listing, retention, now)))
  {
    SmallListingShowsAll(s.db, listing);
    hide IsListing, Promoting, Actions, IdSet;
    assert forall q :: q in s.jobs ==> !Promoting(s.jobs[q]);
  }

  lemma OrderlyStep(s: State, e: Event)
    requires Enabled(s, e) && OrderlyEvent(s, e) && OneAtATime(s)
    ensures OneAtATime(Step(s, e))
  {
    hide Promoting, IdSet, IsListing, Actions;
    match e
    case List(r, listing, retention, now) => OrderlyList(s, r, listing, retention, now);
    case Commit(r) => OrderlyCommit(s, r);
    case _ =>
  }

  lemma {:induction false} OrderlyRunNeverBeside(s: State, events: seq<Event>)
    requires IsRun(s, events) && Orderly(s, events) && OneAtATime(s)
    ensures NeverPromotesBeside(s, events)
    decreases |events|
  {
    hide OneAtATime, Enabled, Step, PromotesBeside, OrderlyEvent;
    if events != [] {
      OrderlyNeverBeside(s, events[0]);
      OrderlyStep(s, events[0]);
      OrderlyRunNeverBeside(Step(s, events[0]), events[1..]);
    }
  }

  /** So it is in every run whose rotations list at most 500 snapshots, none while another has promotions left to make. */
  lemma OnePerPeriodWhenOrderly(events: seq<Event>)
    requires IsRun(EMPTY, events) && Orderly(EMPTY, events)
    ensures AlwaysOnePerPeriod(EMPTY, events)
  {
    OrderlyRunNeverBeside(EMPTY, events);
    OnePerPeriodThroughoutIff(events);
  }

  // ─── Coverage after every run ─────────────────────────────────────────────

  /**
    After every run, a rotation on the first day of a period covers the period that just ended
    if and only if the tier holds a snapshot of it or the listing shows one of the source tier.
  */
  lemma EveryRotationCovers(events: seq<Event>, r: int, listing: seq<Snapshot>, retention: Retention, now: nat, t: Tier)
    requires IsRun(EMPTY, events) && Enabled(Run(EMPTY, events), List(r, listing, retention, now))
    requires t != Hourly && Due(t, Today(now))
    ensures var db := Run(EMPTY, events).db; var period := Ended(t, Today(now));
      Covered(db, Rotated(db, listing, retention, Today(now)), t, period)
      <==> InTierBefore(db, t, t, period) || HasMember(listing, Source(t), t, period)
  {
    var s := Run(EMPTY, events);
    EmptyIsSound();
    RunKeepsSound(EMPTY, events);
    SettledLater(s.db, Today(s.clock), Today(now));
    hide JobSound, Run, IsRun;
    CoveredIff(s.db, listing, retention, Today(now), t);
  }

  /** With at most 500 snapshots, a stored snapshot of the source tier is enough. */
  lemma EveryStoredCandidateCovers(events: seq<Event>, r: int, listing: seq<Snapshot>, retention: Retention, now: nat, t: Tier)
    requires IsRun(EMPTY, events) && Enabled(Run(EMPTY, events), List(r, listing, retention, now))
    requires t != Hourly && Due(t, Today(now)) && |Run(EMPTY, events).db| <= LISTING_LIMIT
    requires var db := Run(EMPTY, events).db; var period := Ended(t, Today(now));
      InTierBefore(db, t, t, period) || InTierBefore(db, Source(t), t, period)
    ensures var db := Run(EMPTY, events).db;
      Covered(db, Rotated(db, listing, retention, Today(now)), t, Ended(t, Today(now)))
  {
    var db, period := Run(EMPTY, events).db, Ended(t, Today(now));
    SmallListingShowsAll(db, listing);
    EveryRotationCovers(events, r, listing, retention, now, t);
    hide Run, IsRun;
    if InTierBefore(db, Source(t), t, period) {
      var id :| id in db.Keys && db[id].tier == Some(Source(t)) && InPeriod(db[id], t, period);
      ListedMember(db, listing, id, Source(t), t, period);
    }
  }
}
