/**
  A climb made of ordinary ticks, each of which takes a snapshot and then runs a whole rotation:
  a snapshot of the second day becomes daily, weekly, monthly and yearly.
*/
module SnapshotTicks {
  import opened Sets
  import opened Calendar
  import opened GfsRotation
  import opened GfsBounds
  import opened SnapshotScheduler
  import opened SnapshotRuns
  import opened SnapshotCadence

  // ─── Every small store has a listing ──────────────────────────────────────

  lemma {:induction false} AnyOrder(db: Backups) returns (listing: seq<Snapshot>)
    requires WellFormed(db)
    ensures |listing| == |db| && DistinctIds(listing) && Shows(db, listing)
    decreases |db.Keys|
  {
    if db == map[] {
      listing := [];
    } else {
      var id := Least(db.Keys);
      var fewer := db - {id};
      assert fewer.Keys == db.Keys - {id} && |fewer| == |db| - 1;
      var rest := AnyOrder(fewer);
      DistinctCons(db[id], rest);
      ShowsOneMore(db, id, rest);
      listing := [db[id]] + rest;
    }
  }

  /** The listing holds exactly the rows of the store. */
  predicate Shows(db: Backups, listing: seq<Snapshot>) {
    (forall x <- listing :: x.id in db && db[x.id] == x) && IdSet(listing) == db.Keys
  }

  lemma ShowsOneMore(db: Backups, id: int, rest: seq<Snapshot>)
    requires WellFormed(db) && id in db && Shows(db - {id}, rest)
    ensures Shows(db, [db[id]] + rest)
  {
    assert IdSet([db[id]] + rest) == {id} + IdSet(rest);
  }

  lemma SortedShows(db: Backups, rows: seq<Snapshot>)
    requires WellFormed(db) && |db| <= LISTING_LIMIT && |rows| == |db| && DistinctIds(rows) && Shows(db, rows)
    ensures IsListing(db, NewestFirst(rows))
  {
    SortFacts(rows);
    assert IdSet(NewestFirst(rows)) == IdSet(rows);
    hide NewestFirst, DistinctIds, Descending;
  }

  lemma SomeListing(db: Backups) returns (listing: seq<Snapshot>)
    requires WellFormed(db) && |db| <= LISTING_LIMIT
    ensures IsListing(db, listing)
  {
    var rows := AnyOrder(db);
    SortedShows(db, rows);
    listing := NewestFirst(rows);
  }

  // ─── One tick ─────────────────────────────────────────────────────────────

  /** Nothing is left to do. */
  predicate AllDone(s: State) {
    forall r <- s.jobs.Keys :: Remaining(s.jobs[r]) == []
  }

  /** Ids from `id` on are new. */
  predicate IdsBelow(s: State, id: int) {
    && (forall k <- s.db.Keys :: k < id)
    && forall q <- s.jobs.Keys :: SeenBelow(s.jobs[q], id)
  }

  predicate SeenBelow(job: Job, id: int) {
    forall k <- job.seen.Keys :: k < id
  }

  predicate RotationsBelow(s: State, r: int) {
    forall q <- s.jobs.Keys :: q < r
  }

  lemma {:induction false} ActionsOnlyDrop(db: Backups, actions: seq<Action>)
    ensures ApplyActions(db, actions).Keys <= db.Keys
  {
    if actions != [] { ActionsOnlyDrop(db, actions[..|actions| - 1]); }
  }

  lemma NoLargerStore(small: Backups, db: Backups)
    requires small.Keys <= db.Keys
    ensures |small| <= |db|
  {
    assert db.Keys == small.Keys + (db.Keys - small.Keys);
  }

  /** The state in which the next tick finds the scheduler. */
  predicate Ready(s: State, id: int, r: int, size: nat) {
    AllDone(s) && |s.db| <= size && size < LISTING_LIMIT && RotationsBelow(s, r) && IdsBelow(s, id)
  }

  /** A tick: a snapshot is taken, and then a rotation lists and performs all it decides. */
  ghost predicate IsTick(stage: Stage) {
    && |stage.calm| == 1 && stage.calm[0].Create? && stage.turn.List? && stage.calm[0].now == stage.turn.now
    && Complete(stage.turn.retention) && 2 <= Today(stage.turn.now)
    && stage.rest == Commits(stage.turn.rotation, |Actions(stage.turn.listing, stage.turn.retention, Today(stage.turn.now))|)
  }

  lemma TakeSnapshot(s: State, id: int, r: int, size: nat, now: nat)
    requires Sound(s) && Ready(s, id, r, size) && s.clock <= now
    ensures var e := Create(id, now);
      && Enabled(s, e) && IsRun(s, [e]) && Run(s, [e]) == Step(s, e) && Calm(s, [e]) && Sound(Step(s, e))
    ensures var taken := Step(s, Create(id, now));
      && WellFormed(taken.db) && |taken.db| <= size + 1 && taken.jobs == s.jobs && taken.clock == now
      && AllDone(taken) && RotationsBelow(taken, r) && IdsBelow(taken, id + 1)
  {
    var e := Create(id, now);
    hide Sound, Remaining, Run, IsRun, Calm, IdsBelow;
    UnusedBelow(s, id);
    assert Enabled(s, e);
    hide Unused;
    OneStep(s, e);
    CalmCreate(s, e);
    StepKeepsSound(s, e);
    SoundIsWellFormed(Step(s, e));
    assert Step(s, e).db.Keys == s.db.Keys + {id};
    LargerIds(s, Step(s, e), id);
  }

  lemma UnusedBelow(s: State, id: int)
    requires IdsBelow(s, id)
    ensures Unused(s, id)
  {
    forall r | r in s.jobs ensures id !in s.jobs[r].seen { assert SeenBelow(s.jobs[r], id); }
  }

  lemma LargerIds(s: State, next: State, id: int)
    requires IdsBelow(s, id) && next.db.Keys == s.db.Keys + {id} && next.jobs == s.jobs
    ensures IdsBelow(next, id + 1)
  {
    forall q | q in s.jobs.Keys ensures SeenBelow(s.jobs[q], id + 1) { assert SeenBelow(s.jobs[q], id); }
    hide SeenBelow;
  }

  lemma CalmCreate(s: State, e: Event)
    requires e.Create? && Enabled(s, e) && IsRun(s, [e])
    ensures Calm(s, [e])
  {
    assert [e][1..] == [];
  }

  lemma SoundIsWellFormed(s: State)
    requires Sound(s)
    ensures WellFormed(s.db)
  {
  }

  lemma {:induction false} CommitsLetRun(r: int, n: nat)
    ensures LetRun(Commits(r, n), r)
  {
    if n > 0 { CommitsLetRun(r, n - 1); }
  }

  /** The whole of a rotation that has listed, with nothing in between. */
  lemma RestIsPerformed(s: State, r: int, size: nat, id: int)
    requires r in s.jobs && s.jobs[r].done == 0 && |s.db| <= size && RotationsBelow(s, r + 1) && IdsBelow(s, id)
    requires forall q <- s.jobs.Keys :: q != r ==> Remaining(s.jobs[q]) == []
    ensures var rest := Commits(r, |s.jobs[r].actions|);
      && IsRun(s, rest) && LetRun(rest, r) && !HasNext(Run(s, rest), r) && Run(s, rest).clock == s.clock
      && |Run(s, rest).db| <= size && AllDone(Run(s, rest)) && RotationsBelow(Run(s, rest), r + 1) && IdsBelow(Run(s, rest), id)
  {
    hide Run, IsRun;
    var n := |s.jobs[r].actions|;
    CommitsRun(s, r, n);
    CommitsLetRun(r, n);
    var end := Run(s, Commits(r, n));
    ActionsOnlyDrop(s.db, s.jobs[r].actions[..n]);
    NoLargerStore(end.db, s.db);
    hide ApplyActions, Commits, LetRun, IdsBelow;
    DoneAtEnd(end.jobs[r]);
    SameIds(s, end, id);
    hide Remaining;
  }

  lemma DoneAtEnd(job: Job)
    ensures job.done == |job.actions| ==> Remaining(job) == []
  {
  }

  lemma SameIds(s: State, end: State, id: int)
    requires IdsBelow(s, id) && end.db.Keys <= s.db.Keys && end.jobs.Keys == s.jobs.Keys
    requires forall q :: q in s.jobs ==> end.jobs[q].seen == s.jobs[q].seen
    ensures IdsBelow(end, id)
  {
    forall q | q in end.jobs.Keys ensures SeenBelow(end.jobs[q], id) { assert SeenBelow(s.jobs[q], id); }
    hide SeenBelow;
  }

  /** The listing of a tick, in the state its snapshot leaves. */
  lemma TickLists(s: State, r: int, size: nat, id: int, listing: seq<Snapshot>, retention: Retention, now: nat)
    requires Enabled(s, List(r, listing, retention, now)) && |s.db| <= size && AllDone(s) && RotationsBelow(s, r) && IdsBelow(s, id)
    ensures var listed := Step(s, List(r, listing, retention, now));
      && r in listed.jobs && listed.jobs[r].done == 0 && listed.jobs[r].actions == Actions(listing, retention, Today(now))
      && |listed.db| <= size && listed.clock == now && RotationsBelow(listed, r + 1) && IdsBelow(listed, id)
      && forall q <- listed.jobs.Keys :: q != r ==> Remaining(listed.jobs[q]) == []
  {
    hide IsListing, Actions, Remaining;
    var listed := Step(s, List(r, listing, retention, now));
    forall q | q in listed.jobs.Keys ensures SeenBelow(listed.jobs[q], id) {
      if q != r { assert SeenBelow(s.jobs[q], id); }
    }
  }

  /** A tick on the first day after a period that was still running. */
  lemma TickIsStage(s: State, n: int, t: Tier, id: int, r: int, size: nat, retention: Retention, day: int) returns (stage: Stage)
    requires 1 <= n && t != Hourly && Sound(s) && Ready(s, id, r, size) && size + 1 < LISTING_LIMIT && Complete(retention)
    requires 2 <= day && s.clock <= At(day) && Period(t, Today(s.clock)) == Period(t, n)
    requires Due(t, day) && Ended(t, day) == Period(t, n)
    ensures IsTick(stage) && IsStage(s, n, t, stage)
    ensures var after := AfterStage(s, n, t, stage); Ready(after, id + 1, r + 1, size + 1) && after.clock == At(day)
  {
    TodayAt(day);
    hide Sound, Period, Due, At, Remaining, IsRun, Run, IsListing, Actions, Calm, AllDone, RotationsBelow, IdsBelow, Today;
    TakeSnapshot(s, id, r, size, At(day));
    var taken := Step(s, Create(id, At(day)));
    var listing := SomeListing(taken.db);
    var turn := List(r, listing, retention, At(day));
    stage := Stage([Create(id, At(day))], turn, Commits(r, |Actions(listing, retention, day)|));
    TickIsEnabled(taken, turn);
    TickLists(taken, r, size + 1, id + 1, listing, retention, At(day));
    RestIsPerformed(Step(taken, turn), r, size + 1, id + 1);
    hide Step, LetRun, HasNext, Enabled, CalmEvent;
    assert ListsWithin(stage.calm, t, n);
  }

  lemma TickIsEnabled(s: State, turn: Event)
    requires turn.List? && AllDone(s) && RotationsBelow(s, turn.rotation) && |s.db| <= LISTING_LIMIT && s.clock <= turn.now
    requires IsListing(s.db, turn.listing) && Complete(turn.retention) && 2 <= Today(turn.now)
    ensures Enabled(s, turn) && CalmEvent(s, turn)
  {
  }

  // ─── Four ticks ───────────────────────────────────────────────────────────

  lemma JanuaryDates()
    ensures DateOf(2) == Date(1, 1, 2) && DateOf(8) == Date(1, 1, 8) && DateOf(31) == Date(1, 1, 31) && DateOf(32) == Date(1, 2, 1)
  {
    hide DateOf;
    DateOfOrdinal(Date(1, 1, 2), 2);
    DateOfOrdinal(Date(1, 1, 8), 8);
    DateOfOrdinal(Date(1, 1, 31), 31);
    DateOfOrdinal(Date(1, 2, 1), 32);
  }

  lemma YearEnd()
    ensures DateOf(365) == Date(1, 12, 31) && DateOf(366) == Date(2, 1, 1)
  {
    hide DateOf;
    MonthsAddUp(1);
    DateOfOrdinal(Date(1, 12, 31), 365);
    DateOfOrdinal(Date(2, 1, 1), 366);
  }

  /** Tuesday the second; the day after it, the Monday after it, the first of the next month and of the next year. */
  lemma FirstDays()
    ensures Due(Daily, 3) && Ended(Daily, 3) == Period(Daily, 2)
    ensures Due(Weekly, 8) && Ended(Weekly, 8) == Period(Weekly, 2) && Period(Weekly, 3) == Period(Weekly, 2)
    ensures Due(Monthly, 32) && Ended(Monthly, 32) == Period(Monthly, 2) && Period(Monthly, 8) == Period(Monthly, 2)
    ensures Due(Yearly, 366) && Ended(Yearly, 366) == Period(Yearly, 2) && Period(Yearly, 32) == Period(Yearly, 2)
  {
    hide DateOf;
    JanuaryDates();
    YearEnd();
  }

  /** The store with its first snapshot, taken on the second day. */
  function First(): State {
    Step(EMPTY, Create(0, At(2)))
  }

  lemma FirstIsReady()
    ensures Sound(First()) && Held(First(), Daily, 2) && Ready(First(), 1, 0, 1) && First().clock == At(2)
  {
    EmptyIsSound();
    TodayAt(2);
    TakenIsHeld(EMPTY, 0, At(2));
    assert First().db.Keys == {0};
  }

  lemma Later(a: int, b: int)
    requires 1 <= a <= b
    ensures At(a) <= At(b)
  {
    AtGrows(a, b);
  }

  /**
    From an empty store, with any retentions: a snapshot, and four ticks on the right days, each
    taking a snapshot of its own before it rotates. The first snapshot, or a newer one of its
    periods, becomes daily, weekly, monthly and yearly.
  */
  lemma FourTicksClimb(retention: Retention) returns (stages: seq<Stage>)
    requires Complete(retention)
    ensures Enabled(EMPTY, Create(0, At(2))) && |stages| == 4 && forall stage :: stage in stages ==> IsTick(stage)
    ensures IsClimb(First(), 2, 0, stages) && InTierSince(Climbed(First(), 2, 0, stages).db, Yearly, 2)
  {
    hide Period, Due, Ready, Held, Sound, AfterStage, IsStage, First, IsTick, At, InTierSince;
    FirstDays();
    FirstIsReady();
    var s0 := First();
    var a, s1 := NextTick(s0, Daily, Weekly, 1, 0, 1, retention, 2, 3);
    var b, s2 := NextTick(s1, Weekly, Monthly, 2, 1, 2, retention, 3, 8);
    var c, s3 := NextTick(s2, Monthly, Yearly, 3, 2, 3, retention, 8, 32);
    var d := LastTick(s3, 4, 3, 4, retention);
    stages := [a, b, c, d];
    ClimbOfFour(s0, a, b, c, d);
    SnapshotClimbs(s0, 2, 0, stages);
  }

  /** A tick on `day`, the one before having been on `last`; what it leaves is held for the next tier. */
  lemma NextTick(s: State, t: Tier, next: Tier, id: int, r: int, size: nat, retention: Retention, last: int, day: int)
    returns (stage: Stage, after: State)
    requires t != Hourly && next != Hourly && Source(next) == t && Sound(s) && Held(s, t, 2) && Ready(s, id, r, size)
    requires size < 10 && Complete(retention) && 2 <= last <= day && s.clock == At(last) && Period(t, last) == Period(t, 2)
    requires Due(t, day) && Ended(t, day) == Period(t, 2) && Period(next, day) == Period(next, 2)
    ensures IsTick(stage) && IsStage(s, 2, t, stage) && after == AfterStage(s, 2, t, stage)
    ensures Sound(after) && Held(after, next, 2) && Ready(after, id + 1, r + 1, size + 1) && after.clock == At(day)
  {
    hide Period, Due, Ready, Held, Sound, AfterStage, IsStage, IsTick, Named;
    TodayAt(last);
    TodayAt(day);
    Later(last, day);
    stage := TickIsStage(s, 2, t, id, r, size, retention, day);
    after := AfterStage(s, 2, t, stage);
    var row := StageFills(s, 2, t, stage);
    StageHoldsForNext(s, 2, t, next, stage);
  }

  lemma LastTick(s: State, id: int, r: int, size: nat, retention: Retention) returns (stage: Stage)
    requires Sound(s) && Ready(s, id, r, size) && size < 10 && Complete(retention) && s.clock == At(32)
    requires Due(Yearly, 366) && Ended(Yearly, 366) == Period(Yearly, 2) && Period(Yearly, 32) == Period(Yearly, 2)
    ensures IsTick(stage) && IsStage(s, 2, Yearly, stage)
  {
    hide Period, Due, Ready, Sound, AfterStage, IsStage, IsTick;
    TodayAt(32);
    Later(32, 366);
    stage := TickIsStage(s, 2, Yearly, id, r, size, retention, 366);
  }

  lemma ClimbOfFour(s: State, a: Stage, b: Stage, c: Stage, d: Stage)
    requires IsStage(s, 2, Daily, a)
    requires var s1 := AfterStage(s, 2, Daily, a);
      && IsStage(s1, 2, Weekly, b)
      && var s2 := AfterStage(s1, 2, Weekly, b);
        && IsStage(s2, 2, Monthly, c) && IsStage(AfterStage(s2, 2, Monthly, c), 2, Yearly, d)
    ensures IsClimb(s, 2, 0, [a, b, c, d])
  {
    hide IsStage, AfterStage;
    var s1 := AfterStage(s, 2, Daily, a);
    var s2 := AfterStage(s1, 2, Weekly, b);
    var s3 := AfterStage(s2, 2, Monthly, c);
    var s4 := AfterStage(s3, 2, Yearly, d);
    assert [a, b, c, d][1..] == [b, c, d] && [b, c, d][1..] == [c, d] && [c, d][1..] == [d] && [d][1..] == [];
    assert IsClimb(s4, 2, 4, []);
    assert IsClimb(s3, 2, 3, [d]);
    assert IsClimb(s2, 2, 2, [c, d]);
    assert IsClimb(s1, 2, 1, [b, c, d]);
  }
}
