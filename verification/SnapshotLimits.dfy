/** Runs of ticks from an empty store that meet the limit of 500 listed snapshots. */
module SnapshotLimits {
  import opened Options
  import opened Calendar
  import opened GfsRotation
  import opened GfsBounds
  import opened SnapshotScheduler
  import opened SnapshotRuns
  import opened SnapshotTicks
  import opened SnapshotScenes

  /** A Monday that is the first of a month but not of a year; the week before it is in the last month. */
  predicate IsTurn(d: int) {
    9 <= d && Weekday(d) == 0 && Day(d) == 1 && Month(d) != 1
  }

  lemma TurnExists()
    ensures IsTurn(274)
  {
    DateOfOrdinal(Date(1, 10, 1), 274);
  }

  lemma TurnFacts(d: int)
    requires IsTurn(d)
    ensures MonthIndex(d - 8) == MonthIndex(d - 1) && MonthIndex(d - 1) < MonthIndex(d) && Day(d - 7) != 1
    ensures WeekMonday(d - 8) == d - 14 && WeekMonday(d - 1) == d - 7 && WeekMonday(d) == d && Weekday(d - 7) == 0
  {
    TurnWeeks(d);
    hide Weekday, WeekMonday;
    FirstOfMonth(d);
    LastDay(d);
    hide DateOf;
    SameMonthBack(d - 1, 6);
    SameMonthBack(d - 1, 7);
  }

  lemma TurnWeeks(d: int)
    requires Weekday(d) == 0
    ensures WeekMonday(d - 8) == d - 14 && WeekMonday(d - 1) == d - 7 && WeekMonday(d) == d && Weekday(d - 7) == 0
  {
  }

  lemma LastDay(d: int)
    requires 2 <= d && Day(d) == 1
    ensures 28 <= Day(d - 1)
  {
  }

  /** Which promotions are due on the Monday before the turn and on the turn, and for which periods. */
  lemma MondayDue(d: int)
    requires IsTurn(d)
    ensures Due(Weekly, d - 7) && Ended(Weekly, d - 7) == d - 14 && Period(Weekly, d - 8) == d - 14
    ensures !Due(Monthly, d - 7) && !Due(Yearly, d - 7)
  {
    TurnFacts(d);
    hide DateOf, Weekday;
  }

  lemma TurnDue(d: int)
    requires IsTurn(d)
    ensures Due(Weekly, d) && Ended(Weekly, d) == d - 7 && Period(Weekly, d - 1) == d - 7
    ensures Due(Monthly, d) && Ended(Monthly, d) == MonthIndex(d - 1) && !Due(Yearly, d)
    ensures Period(Monthly, d - 8) == MonthIndex(d - 1) && Period(Monthly, d - 1) == MonthIndex(d - 1)
  {
    TurnFacts(d);
    hide DateOf, Weekday;
  }

  // ─── One weekly snapshot of last month ────────────────────────────────────

  function Sunday(d: int): Board
    requires 9 <= d
  {
    [(Hourly, d - 8), (Hourly, d - 7)]
  }

  function MondayOnce(d: int): Board
    requires 9 <= d
  {
    [(Daily, d - 8), (Hourly, d - 7), (Hourly, d - 7)]
  }

  function WeekMade(d: int): Board
    requires 9 <= d
  {
    [(Weekly, d - 8), (Hourly, d - 7), (Hourly, d - 7)]
  }

  lemma SundayDaily(d: int, listing: seq<Snapshot>)
    requires IsTurn(d) && IsListing(Stored(Sunday(d)), listing)
    ensures Promotion(listing, d - 7, Daily) == [Promote(0, Daily)]
  {
    MondayDue(d);
    DailyPeriod(d - 8);
    DailyPeriod(d - 7);
    hide Stored, IsListing, Promotion, KeepAll, Actions, Weekday, Day, Month, Period, Due, Ended, IsTurn;
    BoardPromotes(Sunday(d), listing, d - 7, Daily, 0);
  }

  lemma SundayWeekly(d: int, listing: seq<Snapshot>)
    requires IsTurn(d) && IsListing(Stored(Sunday(d)), listing)
    ensures Promotion(listing, d - 7, Weekly) == []
  {
    MondayDue(d);
    hide Stored, IsListing, Promotion, KeepAll, Actions, Weekday, Day, Month, Period, Due, Ended, IsTurn;
    NothingRipe(Sunday(d), listing, d - 7, Weekly);
  }

  /** The first tick of the Monday before the turn makes Sunday's daily. */
  lemma SundayActions(d: int, listing: seq<Snapshot>)
    requires IsTurn(d) && IsListing(Stored(Sunday(d)), listing)
    ensures Actions(listing, KeepAll(), d - 7) == [Promote(0, Daily)]
  {
    MondayDue(d);
    hide Stored, IsListing, Promotion, KeepAll, Actions, Weekday, Day, Month, Period, Due, Ended, IsTurn, Sunday;
    SundayDaily(d, listing);
    SundayWeekly(d, listing);
    NothingDue(listing, d - 7, Monthly);
    NothingDue(listing, d - 7, Yearly);
    Decided(listing, d - 7, [Promote(0, Daily)], [], [], []);
  }

  lemma MondayDaily(d: int, listing: seq<Snapshot>)
    requires IsTurn(d) && IsListing(Stored(MondayOnce(d)), listing)
    ensures Promotion(listing, d - 7, Daily) == []
  {
    MondayDue(d);
    DailyPeriod(d - 8);
    DailyPeriod(d - 7);
    hide Stored, IsListing, Promotion, KeepAll, Actions, Weekday, Day, Month, Period, Due, Ended, IsTurn;
    AlreadyThere(MondayOnce(d), listing, d - 7, Daily, 0);
  }

  lemma MondayWeekly(d: int, listing: seq<Snapshot>)
    requires IsTurn(d) && IsListing(Stored(MondayOnce(d)), listing)
    ensures Promotion(listing, d - 7, Weekly) == [Promote(0, Weekly)]
  {
    MondayDue(d);
    hide Stored, IsListing, Promotion, KeepAll, Actions, Weekday, Day, Month, Period, Due, Ended, IsTurn;
    BoardPromotes(MondayOnce(d), listing, d - 7, Weekly, 0);
  }

  /** The second tick makes it weekly. */
  lemma MondayActions(d: int, listing: seq<Snapshot>)
    requires IsTurn(d) && IsListing(Stored(MondayOnce(d)), listing)
    ensures Actions(listing, KeepAll(), d - 7) == [Promote(0, Weekly)]
  {
    MondayDue(d);
    hide Stored, IsListing, Promotion, KeepAll, Actions, Weekday, Day, Month, Period, Due, Ended, IsTurn, MondayOnce;
    MondayDaily(d, listing);
    MondayWeekly(d, listing);
    NothingDue(listing, d - 7, Monthly);
    NothingDue(listing, d - 7, Yearly);
    Decided(listing, d - 7, [], [Promote(0, Weekly)], [], []);
  }

  lemma SomeShown(board: Board) returns (listing: seq<Snapshot>)
    requires Dated(board) && |board| <= LISTING_LIMIT
    ensures IsListing(Stored(board), listing)
  {
    StoredFacts(board);
    listing := SomeListing(Stored(board));
  }

  lemma MakeWeekly(d: int) returns (events: seq<Event>, s: State)
    requires IsTurn(d)
    ensures Scene(events, s, WeekMade(d), d - 7) && s.jobs.Keys == {1, 2}
  {
    hide Scene, JustTaken, IsListing, Actions, KeepAll, Under, Stored, Weekday, Day, Month;
    events, s := Opening(d - 8);
    events, s := Take(events, s, [(Hourly, d - 8)], d - 8, d - 7);
    assert [(Hourly, d - 8)] + [(Hourly, d - 7)] == Sunday(d);
    var listing := SomeShown(Sunday(d));
    SundayActions(d, listing);
    events, s := Begin(events, s, Sunday(d), d - 7, 1, listing, [Promote(0, Daily)]);
    events, s := Perform(events, s, Sunday(d), d - 7, 1, [Promote(0, Daily)], 0, 0, Daily);
    assert Sunday(d)[0 := (Daily, d - 8)] + [(Hourly, d - 7)] == MondayOnce(d);
    events, s := Take(events, s, Sunday(d)[0 := (Daily, d - 8)], d - 7, d - 7);
    listing := SomeShown(MondayOnce(d));
    MondayActions(d, listing);
    events, s := Begin(events, s, MondayOnce(d), d - 7, 2, listing, [Promote(0, Weekly)]);
    events, s := Perform(events, s, MondayOnce(d), d - 7, 2, [Promote(0, Weekly)], 0, 0, Weekly);
    assert MondayOnce(d)[0 := (Weekly, d - 8)] == WeekMade(d);
  }

  // ─── Two monthly snapshots of one month ───────────────────────────────────

  function BeforeTurn(d: int): Board
    requires 9 <= d
  {
    [(Weekly, d - 8), (Hourly, d - 7), (Hourly, d - 7), (Hourly, d - 1), (Hourly, d)]
  }

  function TurnOnce(d: int): Board
    requires 9 <= d
  {
    [(Monthly, d - 8), (Hourly, d - 7), (Hourly, d - 7), (Daily, d - 1), (Hourly, d), (Hourly, d)]
  }

  function TurnTwice(d: int): Board
    requires 9 <= d
  {
    [(Monthly, d - 8), (Hourly, d - 7), (Hourly, d - 7), (Weekly, d - 1), (Hourly, d), (Hourly, d)]
  }

  lemma FirstTurnDaily(d: int, listing: seq<Snapshot>)
    requires IsTurn(d) && IsListing(Stored(BeforeTurn(d)), listing)
    ensures Promotion(listing, d, Daily) == [Promote(3, Daily)]
  {
    TurnDue(d);
    DailyPeriod(d - 8);
    DailyPeriod(d - 7);
    DailyPeriod(d - 1);
    DailyPeriod(d);
    hide Stored, IsListing, Promotion, KeepAll, Actions, Weekday, Day, Month, Period, Due, Ended, IsTurn;
    BoardPromotes(BeforeTurn(d), listing, d, Daily, 3);
  }

  lemma FirstTurnWeekly(d: int, listing: seq<Snapshot>)
    requires IsTurn(d) && IsListing(Stored(BeforeTurn(d)), listing)
    ensures Promotion(listing, d, Weekly) == []
  {
    TurnDue(d);
    hide Stored, IsListing, Promotion, KeepAll, Actions, Weekday, Day, Month, Period, Due, Ended, IsTurn;
    NothingRipe(BeforeTurn(d), listing, d, Weekly);
  }

  lemma FirstTurnMonthly(d: int, listing: seq<Snapshot>)
    requires IsTurn(d) && IsListing(Stored(BeforeTurn(d)), listing)
    ensures Promotion(listing, d, Monthly) == [Promote(0, Monthly)]
  {
    TurnDue(d);
    hide Stored, IsListing, Promotion, KeepAll, Actions, Weekday, Day, Month, Period, Due, Ended, IsTurn;
    BoardPromotes(BeforeTurn(d), listing, d, Monthly, 0);
  }

  /** On the turn the first tick makes yesterday's daily and last month's monthly. */
  lemma FirstTurnActions(d: int, listing: seq<Snapshot>)
    requires IsTurn(d) && IsListing(Stored(BeforeTurn(d)), listing)
    ensures Actions(listing, KeepAll(), d) == [Promote(3, Daily), Promote(0, Monthly)]
  {
    TurnDue(d);
    hide Stored, IsListing, Promotion, KeepAll, Actions, Weekday, Day, Month, Period, Due, Ended, IsTurn, BeforeTurn;
    FirstTurnDaily(d, listing);
    FirstTurnWeekly(d, listing);
    FirstTurnMonthly(d, listing);
    NothingDue(listing, d, Yearly);
    Decided(listing, d, [Promote(3, Daily)], [], [Promote(0, Monthly)], []);
  }

  lemma SecondTurnDaily(d: int, listing: seq<Snapshot>)
    requires IsTurn(d) && IsListing(Stored(TurnOnce(d)), listing)
    ensures Promotion(listing, d, Daily) == []
  {
    TurnDue(d);
    DailyPeriod(d - 1);
    DailyPeriod(d);
    hide Stored, IsListing, Promotion, KeepAll, Actions, Weekday, Day, Month, Period, Due, Ended, IsTurn;
    AlreadyThere(TurnOnce(d), listing, d, Daily, 3);
  }

  lemma SecondTurnWeekly(d: int, listing: seq<Snapshot>)
    requires IsTurn(d) && IsListing(Stored(TurnOnce(d)), listing)
    ensures Promotion(listing, d, Weekly) == [Promote(3, Weekly)]
  {
    TurnDue(d);
    hide Stored, IsListing, Promotion, KeepAll, Actions, Weekday, Day, Month, Period, Due, Ended, IsTurn;
    BoardPromotes(TurnOnce(d), listing, d, Weekly, 3);
  }

  lemma SecondTurnMonthly(d: int, listing: seq<Snapshot>)
    requires IsTurn(d) && IsListing(Stored(TurnOnce(d)), listing)
    ensures Promotion(listing, d, Monthly) == []
  {
    TurnDue(d);
    hide Stored, IsListing, Promotion, KeepAll, Actions, Weekday, Day, Month, Period, Due, Ended, IsTurn;
    AlreadyThere(TurnOnce(d), listing, d, Monthly, 0);
  }

  /** The second tick makes last week's weekly. */
  lemma SecondTurnActions(d: int, listing: seq<Snapshot>)
    requires IsTurn(d) && IsListing(Stored(TurnOnce(d)), listing)
    ensures Actions(listing, KeepAll(), d) == [Promote(3, Weekly)]
  {
    TurnDue(d);
    hide Stored, IsListing, Promotion, KeepAll, Actions, Weekday, Day, Month, Period, Due, Ended, IsTurn, TurnOnce;
    SecondTurnDaily(d, listing);
    SecondTurnWeekly(d, listing);
    SecondTurnMonthly(d, listing);
    NothingDue(listing, d, Yearly);
    Decided(listing, d, [], [Promote(3, Weekly)], [], []);
  }

  lemma MakeMonthly(d: int) returns (events: seq<Event>, s: State)
    requires IsTurn(d)
    ensures Scene(events, s, TurnTwice(d), d) && s.jobs.Keys == {1, 2, 3, 4}
  {
    hide Scene, JustTaken, IsListing, Actions, KeepAll, Under, Stored, Weekday, Day, Month;
    events, s := MakeWeekly(d);
    events, s := Take(events, s, WeekMade(d), d - 7, d - 1);
    var board := WeekMade(d) + [(Hourly, d - 1)];
    events, s := Take(events, s, board, d - 1, d);
    assert board + [(Hourly, d)] == BeforeTurn(d);
    var both := [Promote(3, Daily), Promote(0, Monthly)];
    var listing := SomeShown(BeforeTurn(d));
    FirstTurnActions(d, listing);
    events, s := Begin(events, s, BeforeTurn(d), d, 3, listing, both);
    events, s := Perform(events, s, BeforeTurn(d), d, 3, both, 0, 3, Daily);
    board := BeforeTurn(d)[3 := (Daily, d - 1)];
    events, s := Perform(events, s, board, d, 3, both, 1, 0, Monthly);
    board := board[0 := (Monthly, d - 8)];
    events, s := Take(events, s, board, d, d);
    assert board + [(Hourly, d)] == TurnOnce(d);
    listing := SomeShown(TurnOnce(d));
    SecondTurnActions(d, listing);
    events, s := Begin(events, s, TurnOnce(d), d, 4, listing, [Promote(3, Weekly)]);
    events, s := Perform(events, s, TurnOnce(d), d, 4, [Promote(3, Weekly)], 0, 3, Weekly);
    assert TurnOnce(d)[3 := (Weekly, d - 1)] == TurnTwice(d);
  }

  /** After 497 more snapshots of the day, the listing ends with the weekly one and hides those before it. */
  function Crowd(d: int): Board
    requires 9 <= d
  {
    TurnTwice(d) + Hours(497, d)
  }

  function CrowdListing(d: int): seq<Snapshot>
    requires 9 <= d
  {
    seq(499, i requires 0 <= i < 499 => Row(i + 4, (Hourly, d))) + [Row(3, (Weekly, d - 1))]
  }

  lemma CrowdCells(d: int)
    requires 9 <= d
    ensures |Crowd(d)| == 503 && Crowd(d)[3] == (Weekly, d - 1) && Crowd(d)[0] == (Monthly, d - 8)
    ensures Crowd(d)[1] == (Hourly, d - 7) && Crowd(d)[2] == (Hourly, d - 7)
    ensures forall k :: 4 <= k < 503 ==> Crowd(d)[k] == (Hourly, d)
  {
  }

  lemma CrowdIsListed(d: int)
    requires 9 <= d
    ensures IsListing(Stored(Crowd(d)), CrowdListing(d))
  {
    CrowdCells(d);
    StoredFacts(Crowd(d));
    CrowdShown(d);
    AtGrows(d - 8, d - 7);
    AtGrows(d - 7, d - 1);
    AtGrows(d - 1, d);
    hide At, Crowd, CrowdListing;
    var db := Stored(Crowd(d));
    assert forall id :: id in db && id !in IdSet(CrowdListing(d)) ==> db[id].createdAt <= At(d - 7);
  }

  lemma CrowdRow(d: int, i: nat)
    requires 9 <= d && i < 500
    ensures |CrowdListing(d)| == 500
    ensures CrowdListing(d)[i] == if i < 499 then Row(i + 4, (Hourly, d)) else Row(3, (Weekly, d - 1))
  {
  }

  lemma CrowdShown(d: int)
    requires 9 <= d
    ensures var db := Stored(Crowd(d)); var listing := CrowdListing(d);
      && |listing| == 500 && DistinctIds(listing) && Descending(listing)
      && (forall x :: x in listing ==> x.id in db && db[x.id] == x && At(d - 1) <= x.createdAt)
      && forall id :: 3 <= id < 503 ==> id in IdSet(listing)
  {
    var db, listing := Stored(Crowd(d)), CrowdListing(d);
    CrowdCells(d);
    AtGrows(d - 1, d);
    forall i: nat | i < 500 ensures listing[i] == if i < 499 then Row(i + 4, (Hourly, d)) else Row(3, (Weekly, d - 1)) { CrowdRow(d, i); }
    CrowdRow(d, 0);
    hide At, Crowd, CrowdListing;
    forall x | x in listing ensures x.id in db && db[x.id] == x && At(d - 1) <= x.createdAt {
      var i :| 0 <= i < |listing| && listing[i] == x;
      assert x.id == if i < 499 then i + 4 else 3;
      assert db[x.id] == Row(x.id, Crowd(d)[x.id]);
    }
    forall id | 3 <= id < 503 ensures id in IdSet(listing) {
      var i := if id == 3 then 499 else id - 4;
      assert listing[i].id == id && listing[i] in listing;
    }
  }

  lemma CrowdTiers(d: int)
    requires 9 <= d
    ensures Row(3, (Weekly, d - 1)) in CrowdListing(d)
    ensures forall x :: x in CrowdListing(d) && x != Row(3, (Weekly, d - 1)) ==> x.tier == Some(Hourly) && DayOf(x) == d
  {
    var listing := CrowdListing(d);
    CrowdRow(d, 499);
    assert listing[499] in listing;
    forall x | x in listing && x != Row(3, (Weekly, d - 1)) ensures x.tier == Some(Hourly) && DayOf(x) == d {
      var i :| 0 <= i < |listing| && listing[i] == x;
      CrowdRow(d, i);
      RowDay(i + 4, (Hourly, d));
      hide At, CrowdListing, DayOf;
    }
  }

  /** The weekly one it shows is of last month, and no monthly one is shown. */
  lemma CrowdActions(d: int)
    requires IsTurn(d)
    ensures Actions(CrowdListing(d), KeepAll(), d) == [Promote(3, Monthly)]
  {
    TurnDue(d);
    DailyPeriod(d);
    CrowdTiers(d);
    RowDay(3, (Weekly, d - 1));
    var listing := CrowdListing(d);
    hide At, DayOf, CrowdListing, Promotion, KeepAll, Actions, Weekday, Day, Month, Period, Due, Ended, IsTurn;
    NotPromoted(listing, d, Daily);
    NotPromoted(listing, d, Weekly);
    Promoted1(listing, d, Monthly, Row(3, (Weekly, d - 1)));
    NothingDue(listing, d, Yearly);
    Decided(listing, d, [], [], [Promote(3, Monthly)], []);
  }

  /** A run of ticks from an empty store that never deletes anything and makes two monthly snapshots of one month. */
  lemma TwoMonthliesOfOneMonth(d: int) returns (events: seq<Event>)
    requires IsTurn(d)
    ensures IsRun(EMPTY, events) && Ticks(events) && !OnePerPeriod(Run(EMPTY, events).db)
  {
    assert 9 <= d && Dated(TurnTwice(d));
    hide Scene, JustTaken, Crowd, TurnTwice, IsTurn, OnePerPeriod, Stored;
    var s;
    events, s := MakeMonthly(d);
    events, s := CrowdTaken(d, events, s);
    events, s := CrowdPromoted(d, events, s);
    TwoInMonth(d);
    SceneIsRun(events, s, Crowd(d)[3 := (Monthly, d - 1)], d);
  }

  lemma SceneIsRun(events: seq<Event>, s: State, board: Board, day: int)
    requires 1 <= day && Dated(board) && Scene(events, s, board, day)
    ensures IsRun(EMPTY, events) && Ticks(events) && Run(EMPTY, events).db == Stored(board)
  {
  }

  lemma TwoInMonth(d: int)
    requires IsTurn(d)
    ensures |Crowd(d)| > 3 && Dated(Crowd(d)[3 := (Monthly, d - 1)]) && !OnePerPeriod(Stored(Crowd(d)[3 := (Monthly, d - 1)]))
  {
    TurnDue(d);
    CrowdCells(d);
    hide Crowd, Stored, IsTurn, OnePerPeriod, Period;
    TwoOfOnePeriod(Crowd(d)[3 := (Monthly, d - 1)], 0, 3, Monthly);
  }

  lemma CrowdPromoted(d: int, events: seq<Event>, s: State) returns (longer: seq<Event>, next: State)
    requires IsTurn(d) && Dated(Crowd(d)) && Scene(events, s, Crowd(d), d) && JustTaken(events, d) && 5 !in s.jobs
    ensures |Crowd(d)| > 3 && Dated(Crowd(d)[3 := (Monthly, d - 1)]) && Scene(longer, next, Crowd(d)[3 := (Monthly, d - 1)], d)
  {
    CrowdCells(d);
    CrowdIsListed(d);
    CrowdActions(d);
    hide Scene, JustTaken, IsListing, Actions, KeepAll, Under, Stored, Crowd, CrowdListing;
    longer, next := Begin(events, s, Crowd(d), d, 5, CrowdListing(d), [Promote(3, Monthly)]);
    longer, next := Perform(longer, next, Crowd(d), d, 5, [Promote(3, Monthly)], 0, 3, Monthly);
  }

  lemma CrowdTaken(d: int, events: seq<Event>, s: State) returns (longer: seq<Event>, next: State)
    requires 9 <= d && Dated(TurnTwice(d)) && Scene(events, s, TurnTwice(d), d)
    ensures Dated(Crowd(d)) && Scene(longer, next, Crowd(d), d) && next.jobs == s.jobs && JustTaken(longer, d)
  {
    hide Scene, JustTaken;
    longer, next := TakeMany(events, s, TurnTwice(d), d, d, 497);
  }

  // ─── A candidate beyond the limit ─────────────────────────────────────────

  /**
    The limit matters. On the first of any month, when the listing shows hourly snapshots only and
    hides a weekly one of last month, no monthly snapshot of that month is made, although the store
    holds one to promote.
  */
  lemma HiddenCandidateIsMissed(db: Backups, listing: seq<Snapshot>, retention: Retention, today: int, candidate: int)
    requires WellFormed(db) && IsListing(db, listing) && Complete(retention) && 2 <= today && Day(today) == 1 && Settled(db, today)
    requires candidate in db && db[candidate].tier == Some(Weekly) && InPeriod(db[candidate], Monthly, Ended(Monthly, today))
    requires forall x :: x in listing ==> x.tier == Some(Hourly)
    requires forall id :: id in db ==> db[id].tier != Some(Monthly)
    ensures Due(Monthly, today) && InTierBefore(db, Weekly, Monthly, Ended(Monthly, today))
    ensures !Covered(db, Rotated(db, listing, retention, today), Monthly, Ended(Monthly, today))
  {
    hide Period;
    assert candidate in db.Keys;
    CoveredIff(db, listing, retention, today, Monthly);
  }

  /** The weekly snapshot of last month behind 500 of the turn. */
  function Behind(d: int): Board
    requires 9 <= d
  {
    WeekMade(d) + Hours(500, d)
  }

  function BehindListing(d: int): seq<Snapshot>
    requires 9 <= d
  {
    seq(500, i requires 0 <= i < 500 => Row(i + 3, (Hourly, d)))
  }

  lemma BehindCells(d: int)
    requires 9 <= d
    ensures |Behind(d)| == 503 && Behind(d)[0] == (Weekly, d - 8) && Behind(d)[1] == (Hourly, d - 7) && Behind(d)[2] == (Hourly, d - 7)
    ensures forall k :: 3 <= k < 503 ==> Behind(d)[k] == (Hourly, d)
  {
  }

  lemma BehindIsListed(d: int)
    requires 9 <= d
    ensures IsListing(Stored(Behind(d)), BehindListing(d))
    ensures forall x :: x in BehindListing(d) ==> x.tier == Some(Hourly)
  {
    var db, listing := Stored(Behind(d)), BehindListing(d);
    BehindCells(d);
    StoredFacts(Behind(d));
    AtGrows(d - 8, d);
    AtGrows(d - 7, d);
    assert forall i :: 0 <= i < 500 ==> listing[i] == Row(i + 3, (Hourly, d));
    hide At, Behind, BehindListing;
    forall x | x in listing ensures x.id in db && db[x.id] == x && x.createdAt == At(d) && x.tier == Some(Hourly) {
      var i :| 0 <= i < |listing| && listing[i] == x;
      assert db[x.id] == Row(x.id, Behind(d)[x.id]);
    }
    forall id | 3 <= id < 503 ensures id in IdSet(listing) {
      assert listing[id - 3].id == id && listing[id - 3] in listing;
    }
  }

  lemma BehindHides(d: int)
    requires IsTurn(d)
    ensures var db := Stored(Behind(d));
      && 0 in db && db[0].tier == Some(Weekly) && InPeriod(db[0], Monthly, Ended(Monthly, d))
      && forall id :: id in db ==> db[id].tier != Some(Monthly)
  {
    TurnDue(d);
    BehindCells(d);
    RowDay(0, (Weekly, d - 8));
    hide At, Behind, DayOf, Period, IsTurn;
    assert Stored(Behind(d))[0] == Row(0, (Weekly, d - 8));
  }

  /** A run of ticks from an empty store to such a store, in which the next rotation lists and misses the month. */
  lemma HiddenCandidateIsReached(d: int) returns (events: seq<Event>, listing: seq<Snapshot>)
    requires IsTurn(d)
    ensures IsRun(EMPTY, events) && Ticks(events) && JustTaken(events, d)
    ensures var s := Run(EMPTY, events);
      && Enabled(s, List(3, listing, KeepAll(), At(d))) && InTierBefore(s.db, Weekly, Monthly, Ended(Monthly, d))
      && !Covered(s.db, Rotated(s.db, listing, KeepAll(), d), Monthly, Ended(Monthly, d))
  {
    assert 9 <= d && Day(d) == 1 && Dated(WeekMade(d));
    hide Scene, JustTaken, IsListing, KeepAll, Stored, Behind, BehindListing, IsTurn, WeekMade, Run, IsRun, Covered, Rotated, InTierBefore;
    hide Enabled, Sound, Day, At, Ticks;
    var s;
    events, s := MakeWeekly(d);
    events, s := BehindTaken(d, events, s);
    listing := BehindListing(d);
    BehindIsListed(d);
    BehindHides(d);
    StoredFacts(Behind(d));
    SceneIsRun(events, s, Behind(d), d);
    MayList(events, s, Behind(d), d, listing);
    HiddenCandidateIsMissed(s.db, listing, KeepAll(), d, 0);
  }

  /** A rotation may list the board of a scene, whose promoted tiers hold ended periods only. */
  lemma MayList(events: seq<Event>, s: State, board: Board, day: int, listing: seq<Snapshot>)
    requires 2 <= day && Dated(board) && Scene(events, s, board, day) && 3 !in s.jobs && IsListing(Stored(board), listing)
    ensures Enabled(s, List(3, listing, KeepAll(), At(day))) && Settled(s.db, day) && Run(EMPTY, events) == s && s.db == Stored(board)
  {
    EmptyIsSound();
    TodayAt(day);
    hide KeepAll, Stored, Run, IsRun, At, IsListing, Ticks, JobSound;
    RunKeepsSound(EMPTY, events);
  }

  lemma BehindTaken(d: int, events: seq<Event>, s: State) returns (longer: seq<Event>, next: State)
    requires 9 <= d && Dated(WeekMade(d)) && Scene(events, s, WeekMade(d), d - 7)
    ensures Dated(Behind(d)) && Scene(longer, next, Behind(d), d) && next.jobs == s.jobs && JustTaken(longer, d)
  {
    hide Scene, JustTaken;
    longer, next := TakeMany(events, s, WeekMade(d), d - 7, d, 500);
  }
}
