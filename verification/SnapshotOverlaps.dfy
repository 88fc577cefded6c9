/** Runs of ticks from an empty store in which rotations overlap. */
module SnapshotOverlaps {
  import opened Calendar
  import opened GfsRotation
  import opened SnapshotScheduler
  import opened SnapshotRuns
  import opened SnapshotCoverage
  import opened SnapshotScenes
  import opened SnapshotLimits

  /** A Monday that is not the first of a month. */
  predicate IsPlainMonday(d: int) {
    9 <= d && Weekday(d) == 0 && Day(d) != 1
  }

  lemma MondayExists()
    ensures IsPlainMonday(15)
  {
    DateOfOrdinal(Date(1, 1, 15), 15);
  }

  lemma BeforeMonday(d: int)
    requires Weekday(d) == 0
    ensures Weekday(d - 1) == 6 && Weekday(d - 2) == 5
  {
  }

  lemma PlainMondayDue(d: int)
    requires IsPlainMonday(d)
    ensures Due(Weekly, d) && Ended(Weekly, d) == d - 7 && Period(Weekly, d - 1) == d - 7 && Period(Weekly, d - 2) == d - 7
    ensures !Due(Monthly, d) && !Due(Yearly, d) && !Due(Weekly, d - 1)
  {
    BeforeMonday(d);
    hide DateOf, Weekday;
  }

  // ─── Two weeklies of one week ─────────────────────────────────────────────

  function OnSunday(d: int): Board
    requires 9 <= d
  {
    [(Hourly, d - 2), (Hourly, d - 1)]
  }

  function OnMonday(d: int): Board
    requires 9 <= d
  {
    [(Daily, d - 2), (Hourly, d - 1), (Hourly, d)]
  }

  function BothDaily(d: int): Board
    requires 9 <= d
  {
    [(Daily, d - 2), (Daily, d - 1), (Hourly, d), (Hourly, d)]
  }

  function BothWeekly(d: int): Board
    requires 9 <= d
  {
    [(Weekly, d - 2), (Weekly, d - 1), (Hourly, d), (Hourly, d)]
  }

  lemma SaturdayDaily(d: int, listing: seq<Snapshot>)
    requires IsPlainMonday(d) && IsListing(Stored(OnSunday(d)), listing)
    ensures Promotion(listing, d - 1, Daily) == [Promote(0, Daily)]
  {
    PlainMondayDue(d);
    DailyPeriod(d - 2);
    DailyPeriod(d - 1);
    hide Stored, IsListing, Promotion, KeepAll, Actions, Weekday, Day, Month, Period, Due, Ended, IsPlainMonday;
    BoardPromotes(OnSunday(d), listing, d - 1, Daily, 0);
  }

  lemma SaturdayMonthly(d: int, listing: seq<Snapshot>)
    requires IsPlainMonday(d) && IsListing(Stored(OnSunday(d)), listing)
    ensures Promotion(listing, d - 1, Monthly) == []
  {
    PlainMondayDue(d);
    hide Stored, IsListing, Promotion, KeepAll, Actions, Weekday, Day, Month, Period, Due, Ended, IsPlainMonday;
    NothingRipe(OnSunday(d), listing, d - 1, Monthly);
  }

  lemma SaturdayYearly(d: int, listing: seq<Snapshot>)
    requires IsPlainMonday(d) && IsListing(Stored(OnSunday(d)), listing)
    ensures Promotion(listing, d - 1, Yearly) == []
  {
    PlainMondayDue(d);
    hide Stored, IsListing, Promotion, KeepAll, Actions, Weekday, Day, Month, Period, Due, Ended, IsPlainMonday;
    NothingRipe(OnSunday(d), listing, d - 1, Yearly);
  }

  /** On Sunday a tick makes Saturday's daily. */
  lemma SaturdayActions(d: int, listing: seq<Snapshot>)
    requires IsPlainMonday(d) && IsListing(Stored(OnSunday(d)), listing)
    ensures Actions(listing, KeepAll(), d - 1) == [Promote(0, Daily)]
  {
    PlainMondayDue(d);
    hide Stored, IsListing, Promotion, KeepAll, Actions, Weekday, Day, Month, Period, Due, Ended, IsPlainMonday;
    SaturdayDaily(d, listing);
    NothingDue(listing, d - 1, Weekly);
    SaturdayMonthly(d, listing);
    SaturdayYearly(d, listing);
    Decided(listing, d - 1, [Promote(0, Daily)], [], [], []);
  }

  lemma FirstDaily(d: int, listing: seq<Snapshot>)
    requires IsPlainMonday(d) && IsListing(Stored(OnMonday(d)), listing)
    ensures Promotion(listing, d, Daily) == [Promote(1, Daily)]
  {
    PlainMondayDue(d);
    DailyPeriod(d - 2);
    DailyPeriod(d - 1);
    DailyPeriod(d);
    hide Stored, IsListing, Promotion, KeepAll, Actions, Weekday, Day, Month, Period, Due, Ended, IsPlainMonday;
    BoardPromotes(OnMonday(d), listing, d, Daily, 1);
  }

  lemma FirstWeekly(d: int, listing: seq<Snapshot>)
    requires IsPlainMonday(d) && IsListing(Stored(OnMonday(d)), listing)
    ensures Promotion(listing, d, Weekly) == [Promote(0, Weekly)]
  {
    PlainMondayDue(d);
    DailyPeriod(d);
    hide Stored, IsListing, Promotion, KeepAll, Actions, Weekday, Day, Month, Period, Due, Ended, IsPlainMonday;
    BoardPromotes(OnMonday(d), listing, d, Weekly, 0);
  }

  /** On Monday the first tick decides Sunday's daily and, of what it sees, Saturday's weekly. */
  lemma FirstActions(d: int, listing: seq<Snapshot>)
    requires IsPlainMonday(d) && IsListing(Stored(OnMonday(d)), listing)
    ensures Actions(listing, KeepAll(), d) == [Promote(1, Daily), Promote(0, Weekly)]
  {
    PlainMondayDue(d);
    hide Stored, IsListing, Promotion, KeepAll, Actions, Weekday, Day, Month, Period, Due, Ended, IsPlainMonday;
    FirstDaily(d, listing);
    FirstWeekly(d, listing);
    NothingDue(listing, d, Monthly);
    NothingDue(listing, d, Yearly);
    Decided(listing, d, [Promote(1, Daily)], [Promote(0, Weekly)], [], []);
  }

  lemma SecondDaily(d: int, listing: seq<Snapshot>)
    requires IsPlainMonday(d) && IsListing(Stored(BothDaily(d)), listing)
    ensures Promotion(listing, d, Daily) == []
  {
    PlainMondayDue(d);
    DailyPeriod(d - 1);
    DailyPeriod(d);
    hide Stored, IsListing, Promotion, KeepAll, Actions, Weekday, Day, Month, Period, Due, Ended, IsPlainMonday;
    AlreadyThere(BothDaily(d), listing, d, Daily, 1);
  }

  lemma SecondWeekly(d: int, listing: seq<Snapshot>)
    requires IsPlainMonday(d) && IsListing(Stored(BothDaily(d)), listing)
    ensures Promotion(listing, d, Weekly) == [Promote(1, Weekly)]
  {
    PlainMondayDue(d);
    DailyPeriod(d);
    hide Stored, IsListing, Promotion, KeepAll, Actions, Weekday, Day, Month, Period, Due, Ended, IsPlainMonday;
    BoardPromotes(BothDaily(d), listing, d, Weekly, 1);
  }

  /** Once both are daily, the second tick decides Sunday's weekly. */
  lemma SecondActions(d: int, listing: seq<Snapshot>)
    requires IsPlainMonday(d) && IsListing(Stored(BothDaily(d)), listing)
    ensures Actions(listing, KeepAll(), d) == [Promote(1, Weekly)]
  {
    PlainMondayDue(d);
    hide Stored, IsListing, Promotion, KeepAll, Actions, Weekday, Day, Month, Period, Due, Ended, IsPlainMonday;
    SecondDaily(d, listing);
    SecondWeekly(d, listing);
    NothingDue(listing, d, Monthly);
    NothingDue(listing, d, Yearly);
    Decided(listing, d, [], [Promote(1, Weekly)], [], []);
  }

  lemma SaturdayMade(d: int) returns (events: seq<Event>, s: State)
    requires IsPlainMonday(d)
    ensures Scene(events, s, [(Daily, d - 2), (Hourly, d - 1)], d - 1) && s.jobs.Keys == {1}
  {
    hide Scene, JustTaken, IsListing, Actions, KeepAll, Under, Stored, Weekday, Day;
    events, s := Opening(d - 2);
    events, s := Take(events, s, [(Hourly, d - 2)], d - 2, d - 1);
    assert [(Hourly, d - 2)] + [(Hourly, d - 1)] == OnSunday(d);
    var listing := SomeShown(OnSunday(d));
    SaturdayActions(d, listing);
    events, s := Begin(events, s, OnSunday(d), d - 1, 1, listing, [Promote(0, Daily)]);
    events, s := Perform(events, s, OnSunday(d), d - 1, 1, [Promote(0, Daily)], 0, 0, Daily);
    assert OnSunday(d)[0 := (Daily, d - 2)] == [(Daily, d - 2), (Hourly, d - 1)];
  }

  /**
    Four snapshots, nothing hidden by the limit, and two weeklies of one week: the second tick of
    Monday lists while the first still has a promotion to make.
  */
  lemma OverlapMakesTwoWeeklies(d: int) returns (events: seq<Event>)
    requires IsPlainMonday(d)
    ensures IsRun(EMPTY, events) && Ticks(events)
    ensures !OnePerPeriod(Run(EMPTY, events).db) && |Run(EMPTY, events).db| == 4
  {
    hide Scene, JustTaken, IsListing, Actions, KeepAll, Under, Stored, Weekday, Day, OnePerPeriod;
    var s;
    events, s := SaturdayMade(d);
    events, s := Take(events, s, [(Daily, d - 2), (Hourly, d - 1)], d - 1, d);
    assert [(Daily, d - 2), (Hourly, d - 1)] + [(Hourly, d)] == OnMonday(d);
    var first := [Promote(1, Daily), Promote(0, Weekly)];
    var listing := SomeShown(OnMonday(d));
    FirstActions(d, listing);
    events, s := Begin(events, s, OnMonday(d), d, 2, listing, first);
    events, s := Perform(events, s, OnMonday(d), d, 2, first, 0, 1, Daily);
    events, s := Take(events, s, OnMonday(d)[1 := (Daily, d - 1)], d, d);
    assert OnMonday(d)[1 := (Daily, d - 1)] + [(Hourly, d)] == BothDaily(d);
    events, s := SecondTick(d, events, s, first);
    TwoInWeek(d);
    SceneIsRun(events, s, BothWeekly(d), d);
    StoredFacts(BothWeekly(d));
  }

  /** The second tick's rotation, and then the rest of the first one's. */
  lemma SecondTick(d: int, events: seq<Event>, s: State, first: seq<Action>) returns (longer: seq<Event>, next: State)
    requires IsPlainMonday(d) && Scene(events, s, BothDaily(d), d) && JustTaken(events, d) && 3 !in s.jobs
    requires first == [Promote(1, Daily), Promote(0, Weekly)] && Under(s, 2, first, 1)
    ensures Scene(longer, next, BothWeekly(d), d)
  {
    hide Scene, JustTaken, IsListing, Actions, KeepAll, Under, Stored, Weekday, Day;
    var listing := SomeShown(BothDaily(d));
    SecondActions(d, listing);
    longer, next := Begin(events, s, BothDaily(d), d, 3, listing, [Promote(1, Weekly)]);
    longer, next := Perform(longer, next, BothDaily(d), d, 3, [Promote(1, Weekly)], 0, 1, Weekly);
    var board := BothDaily(d)[1 := (Weekly, d - 1)];
    longer, next := Perform(longer, next, board, d, 2, first, 1, 0, Weekly);
    assert board[0 := (Weekly, d - 2)] == BothWeekly(d);
  }

  lemma TwoInWeek(d: int)
    requires IsPlainMonday(d)
    ensures !OnePerPeriod(Stored(BothWeekly(d)))
  {
    PlainMondayDue(d);
    hide Stored, OnePerPeriod, Period, IsPlainMonday;
    TwoOfOnePeriod(BothWeekly(d), 0, 1, Weekly);
  }

  // ─── A promotion undone ───────────────────────────────────────────────────

  function OneTick(d: int): Board
    requires 9 <= d
  {
    [(Hourly, d - 1), (Hourly, d)]
  }

  function TwoTicks(d: int): Board
    requires 9 <= d
  {
    [(Hourly, d - 1), (Hourly, d), (Hourly, d)]
  }

  function ThreeTicks(d: int): Board
    requires 9 <= d
  {
    [(Daily, d - 1), (Hourly, d), (Hourly, d), (Hourly, d)]
  }

  lemma OneDaily(d: int, listing: seq<Snapshot>)
    requires IsPlainMonday(d) && IsListing(Stored(OneTick(d)), listing)
    ensures Promotion(listing, d, Daily) == [Promote(0, Daily)]
  {
    PlainMondayDue(d);
    DailyPeriod(d - 1);
    DailyPeriod(d);
    hide Stored, IsListing, Promotion, KeepAll, Actions, Weekday, Day, Month, Period, Due, Ended, IsPlainMonday;
    BoardPromotes(OneTick(d), listing, d, Daily, 0);
  }

  lemma OneWeekly(d: int, listing: seq<Snapshot>)
    requires IsPlainMonday(d) && IsListing(Stored(OneTick(d)), listing)
    ensures Promotion(listing, d, Weekly) == []
  {
    PlainMondayDue(d);
    hide Stored, IsListing, Promotion, KeepAll, Actions, Weekday, Day, Month, Period, Due, Ended, IsPlainMonday;
    NothingRipe(OneTick(d), listing, d, Weekly);
  }

  /** The first two ticks of Monday both decide Sunday's daily. */
  lemma OneActions(d: int, listing: seq<Snapshot>)
    requires IsPlainMonday(d) && IsListing(Stored(OneTick(d)), listing)
    ensures Actions(listing, KeepAll(), d) == [Promote(0, Daily)]
  {
    PlainMondayDue(d);
    hide Stored, IsListing, Promotion, KeepAll, Actions, Weekday, Day, Month, Period, Due, Ended, IsPlainMonday;
    OneDaily(d, listing);
    OneWeekly(d, listing);
    NothingDue(listing, d, Monthly);
    NothingDue(listing, d, Yearly);
    Decided(listing, d, [Promote(0, Daily)], [], [], []);
  }

  lemma TwoDaily(d: int, listing: seq<Snapshot>)
    requires IsPlainMonday(d) && IsListing(Stored(TwoTicks(d)), listing)
    ensures Promotion(listing, d, Daily) == [Promote(0, Daily)]
  {
    PlainMondayDue(d);
    DailyPeriod(d - 1);
    DailyPeriod(d);
    hide Stored, IsListing, Promotion, KeepAll, Actions, Weekday, Day, Month, Period, Due, Ended, IsPlainMonday;
    BoardPromotes(TwoTicks(d), listing, d, Daily, 0);
  }

  lemma TwoWeekly(d: int, listing: seq<Snapshot>)
    requires IsPlainMonday(d) && IsListing(Stored(TwoTicks(d)), listing)
    ensures Promotion(listing, d, Weekly) == []
  {
    PlainMondayDue(d);
    hide Stored, IsListing, Promotion, KeepAll, Actions, Weekday, Day, Month, Period, Due, Ended, IsPlainMonday;
    NothingRipe(TwoTicks(d), listing, d, Weekly);
  }

  /** And so the second. */
  lemma TwoActions(d: int, listing: seq<Snapshot>)
    requires IsPlainMonday(d) && IsListing(Stored(TwoTicks(d)), listing)
    ensures Actions(listing, KeepAll(), d) == [Promote(0, Daily)]
  {
    PlainMondayDue(d);
    hide Stored, IsListing, Promotion, KeepAll, Actions, Weekday, Day, Month, Period, Due, Ended, IsPlainMonday;
    TwoDaily(d, listing);
    TwoWeekly(d, listing);
    NothingDue(listing, d, Monthly);
    NothingDue(listing, d, Yearly);
    Decided(listing, d, [Promote(0, Daily)], [], [], []);
  }

  lemma ThreeDaily(d: int, listing: seq<Snapshot>)
    requires IsPlainMonday(d) && IsListing(Stored(ThreeTicks(d)), listing)
    ensures Promotion(listing, d, Daily) == []
  {
    PlainMondayDue(d);
    DailyPeriod(d - 1);
    DailyPeriod(d);
    hide Stored, IsListing, Promotion, KeepAll, Actions, Weekday, Day, Month, Period, Due, Ended, IsPlainMonday;
    AlreadyThere(ThreeTicks(d), listing, d, Daily, 0);
  }

  lemma ThreeWeekly(d: int, listing: seq<Snapshot>)
    requires IsPlainMonday(d) && IsListing(Stored(ThreeTicks(d)), listing)
    ensures Promotion(listing, d, Weekly) == [Promote(0, Weekly)]
  {
    PlainMondayDue(d);
    DailyPeriod(d);
    hide Stored, IsListing, Promotion, KeepAll, Actions, Weekday, Day, Month, Period, Due, Ended, IsPlainMonday;
    BoardPromotes(ThreeTicks(d), listing, d, Weekly, 0);
  }

  /** The third, after the second has made it, decides last week's weekly. */
  lemma ThreeActions(d: int, listing: seq<Snapshot>)
    requires IsPlainMonday(d) && IsListing(Stored(ThreeTicks(d)), listing)
    ensures Actions(listing, KeepAll(), d) == [Promote(0, Weekly)]
  {
    PlainMondayDue(d);
    hide Stored, IsListing, Promotion, KeepAll, Actions, Weekday, Day, Month, Period, Due, Ended, IsPlainMonday;
    ThreeDaily(d, listing);
    ThreeWeekly(d, listing);
    NothingDue(listing, d, Monthly);
    NothingDue(listing, d, Yearly);
    Decided(listing, d, [], [Promote(0, Weekly)], [], []);
  }

  lemma StalledTick(d: int) returns (events: seq<Event>, s: State)
    requires IsPlainMonday(d)
    ensures Scene(events, s, TwoTicks(d), d) && JustTaken(events, d) && s.jobs.Keys == {1} && Under(s, 1, [Promote(0, Daily)], 0)
  {
    hide Scene, JustTaken, IsListing, Actions, KeepAll, Under, Stored, Weekday, Day;
    events, s := Opening(d - 1);
    events, s := Take(events, s, [(Hourly, d - 1)], d - 1, d);
    assert [(Hourly, d - 1)] + [(Hourly, d)] == OneTick(d);
    var listing := SomeShown(OneTick(d));
    OneActions(d, listing);
    events, s := Begin(events, s, OneTick(d), d, 1, listing, [Promote(0, Daily)]);
    events, s := Take(events, s, OneTick(d), d, d);
    assert OneTick(d) + [(Hourly, d)] == TwoTicks(d);
  }

  function WeekCovered(d: int): Board
    requires 9 <= d
  {
    [(Weekly, d - 1), (Hourly, d), (Hourly, d), (Hourly, d)]
  }

  /** Two more ticks, while the first one stalls: Sunday's becomes daily and then weekly. */
  lemma TwoMoreTicks(d: int) returns (events: seq<Event>, s: State)
    requires IsPlainMonday(d)
    ensures Scene(events, s, WeekCovered(d), d) && Under(s, 1, [Promote(0, Daily)], 0)
  {
    hide Scene, JustTaken, IsListing, Actions, KeepAll, Under, Stored, Weekday, Day;
    events, s := StalledTick(d);
    var listing := SomeShown(TwoTicks(d));
    TwoActions(d, listing);
    events, s := Begin(events, s, TwoTicks(d), d, 2, listing, [Promote(0, Daily)]);
    events, s := Perform(events, s, TwoTicks(d), d, 2, [Promote(0, Daily)], 0, 0, Daily);
    events, s := Take(events, s, TwoTicks(d)[0 := (Daily, d - 1)], d, d);
    assert TwoTicks(d)[0 := (Daily, d - 1)] + [(Hourly, d)] == ThreeTicks(d);
    listing := SomeShown(ThreeTicks(d));
    ThreeActions(d, listing);
    events, s := Begin(events, s, ThreeTicks(d), d, 3, listing, [Promote(0, Weekly)]);
    events, s := Perform(events, s, ThreeTicks(d), d, 3, [Promote(0, Weekly)], 0, 0, Weekly);
    assert ThreeTicks(d)[0 := (Weekly, d - 1)] == WeekCovered(d);
  }

  /**
    Last week is covered, and then the stalled rotation of the first tick makes its weekly snapshot
    daily again: nothing of last week is weekly, and no later Monday looks at that week.
  */
  lemma OverlapUndoesTheWeekly(d: int) returns (events: seq<Event>)
    requires IsPlainMonday(d)
    ensures IsRun(EMPTY, events) && Ticks(events) && Enabled(Run(EMPTY, events), Commit(1))
    ensures IsCovered(Run(EMPTY, events).db, Weekly, Ended(Weekly, d))
    ensures !IsCovered(Step(Run(EMPTY, events), Commit(1)).db, Weekly, Ended(Weekly, d))
  {
    hide Stored, Weekday, Day, Period, KeepAll, Ticks, Run, IsRun, IsCovered;
    var s;
    events, s := TwoMoreTicks(d);
    assert NextAction(s, 1) == Promote(0, Daily);
    StoredOfPromoted(WeekCovered(d), 0, Daily);
    WeekIsCovered(d);
    WeekIsNot(d);
  }

  lemma WeekIsCovered(d: int)
    requires IsPlainMonday(d)
    ensures IsCovered(Stored(WeekCovered(d)), Weekly, Ended(Weekly, d))
  {
    PlainMondayDue(d);
    RowDay(0, (Weekly, d - 1));
    var db := Stored(WeekCovered(d));
    hide At, DayOf, Period, IsPlainMonday;
    assert 0 in db.Keys && db[0] == Row(0, (Weekly, d - 1));
  }

  lemma WeekIsNot(d: int)
    requires 9 <= d
    ensures !IsCovered(Stored(WeekCovered(d)[0 := (Daily, d - 1)]), Weekly, Ended(Weekly, d))
  {
    hide At, DayOf, Period;
  }
}
