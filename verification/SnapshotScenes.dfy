/**
  Runs of ticks told step by step. A board lists the tier and the day of every stored snapshot, in
  the order of their ids. The policy keeps everything, so that rotations only promote.
*/
module SnapshotScenes {
  import opened Options
  import opened GfsRotation
  import opened GfsBounds
  import opened SnapshotScheduler
  import opened SnapshotRuns
  import opened SnapshotTicks

  type Board = seq<(Tier, int)>

  predicate Dated(board: Board) {
    forall k :: 0 <= k < |board| ==> 1 <= board[k].1
  }

  function Row(k: int, cell: (Tier, int)): Snapshot
    requires 1 <= cell.1
  {
    Snapshot(k, Some(cell.0), At(cell.1))
  }

  function Stored(board: Board): Backups
    requires Dated(board)
  {
    map k | 0 <= k < |board| :: Row(k, board[k])
  }

  lemma RowDay(k: int, cell: (Tier, int))
    requires 1 <= cell.1
    ensures DayOf(Row(k, cell)) == cell.1
  {
    TodayAt(cell.1);
  }

  lemma StoredOfTaken(board: Board, day: int)
    requires Dated(board) && 1 <= day
    ensures Dated(board + [(Hourly, day)])
    ensures Stored(board + [(Hourly, day)]) == Stored(board)[|board| := Snapshot(|board|, Some(Hourly), At(day))]
  {
    hide At;
  }

  lemma StoredOfPromoted(board: Board, k: nat, t: Tier)
    requires Dated(board) && k < |board|
    ensures Dated(board[k := (t, board[k].1)])
    ensures Stored(board[k := (t, board[k].1)]) == ApplyAction(Stored(board), Promote(k, t))
  {
    hide At;
  }

  lemma {:induction false} StoredFacts(board: Board)
    requires Dated(board)
    ensures WellFormed(Stored(board)) && |Stored(board)| == |board|
    ensures forall k :: k in Stored(board) <==> 0 <= k < |board|
  {
    hide At;
    if board == [] {
      assert Stored(board) == map[];
    } else {
      var n := |board| - 1;
      StoredFacts(board[..n]);
      assert Stored(board) == Stored(board[..n])[n := Row(n, board[n])];
      OneMoreRow(Stored(board[..n]), n, Row(n, board[n]));
    }
  }

  lemma OneMoreRow(db: Backups, k: int, row: Snapshot)
    requires k !in db
    ensures |db[k := row]| == |db| + 1
  {
    assert db[k := row].Keys == db.Keys + {k};
  }

  // ─── What a rotation decides ──────────────────────────────────────────────

  /** The policy may keep any number of each tier: a retention of 0 deletes nothing. */
  function KeepAll(): (retention: Retention)
    ensures Complete(retention) && forall t: Tier :: retention[t] == 0
  {
    forall t: Tier ensures t in TIERS { AllTiers(t); }
    map t | t in TIERS :: 0
  }

  lemma {:induction false} NoDeletions(listing: seq<Snapshot>, spared: set<int>, tiers: seq<Tier>)
    ensures DeletionsOfTiers(listing, KeepAll(), spared, tiers) == []
  {
    hide KeepAll;
    if tiers != [] {
      NoDeletions(listing, spared, tiers[..|tiers| - 1]);
    }
  }

  /** With nothing to delete a rotation is its promotions. */
  lemma OnlyPromotions(listing: seq<Snapshot>, today: int)
    requires 2 <= today
    ensures Actions(listing, KeepAll(), today) == Promotion(listing, today, Daily) + Promotion(listing, today, Weekly)
      + Promotion(listing, today, Monthly) + Promotion(listing, today, Yearly)
  {
    hide Promotion;
    NoDeletions(listing, Ids(Promotions(listing, today)), TIERS);
    assert Promotions(listing, today) + [] == Promotions(listing, today);
  }

  /** The one newest candidate is promoted. */
  lemma Promoted1(listing: seq<Snapshot>, today: int, t: Tier, c: Snapshot)
    requires 2 <= today && t != Hourly && Due(t, today) && !HasMember(listing, t, t, Ended(t, today))
    requires c in listing && c.tier == Some(Source(t)) && InPeriod(c, t, Ended(t, today))
    requires forall x :: x in listing && x != c && x.tier == Some(Source(t)) && InPeriod(x, t, Ended(t, today)) ==> x.createdAt < c.createdAt
    ensures Promotion(listing, today, t) == [Promote(c.id, t)]
  {
    hide Period, Due, Promotion;
    PromotesExactlyWhen(listing, today, t);
    assert HasMember(listing, Source(t), t, Ended(t, today));
  }

  lemma NotPromoted(listing: seq<Snapshot>, today: int, t: Tier)
    requires 2 <= today && t != Hourly
    requires !Due(t, today) || !HasMember(listing, Source(t), t, Ended(t, today)) || HasMember(listing, t, t, Ended(t, today))
    ensures Promotion(listing, today, t) == []
  {
    hide Period, Due, Promotion;
    PromotesExactlyWhen(listing, today, t);
  }

  /** The board has a snapshot of the tier and period. */
  predicate Has(board: Board, u: Tier, t: Tier, period: int)
    requires Dated(board)
  {
    exists k :: 0 <= k < |board| && board[k].0 == u && Period(t, board[k].1) == period
  }

  lemma ShownRows(board: Board, listing: seq<Snapshot>)
    requires Dated(board) && |board| <= LISTING_LIMIT && IsListing(Stored(board), listing)
    ensures forall k :: 0 <= k < |board| ==> Row(k, board[k]) in listing
    ensures forall x :: x in listing ==> 0 <= x.id < |board| && x == Row(x.id, board[x.id])
  {
    hide At, DistinctIds, Descending;
    StoredFacts(board);
    SmallListingShowsAll(Stored(board), listing);
    forall k | 0 <= k < |board| ensures Row(k, board[k]) in listing {
      assert k in IdSet(listing);
    }
  }

  lemma HasIffMember(board: Board, listing: seq<Snapshot>, u: Tier, t: Tier, period: int)
    requires Dated(board) && |board| <= LISTING_LIMIT && IsListing(Stored(board), listing)
    ensures HasMember(listing, u, t, period) <==> Has(board, u, t, period)
  {
    ShownRows(board, listing);
    forall k | 0 <= k < |board| ensures IsRow(Row(k, board[k]), board[k].0, board[k].1) { RowDay(k, board[k]); }
    hide At, IsListing, Stored, DayOf, Row, Period, IsRow, Has, HasMember;
    if Has(board, u, t, period) { HasIsListed(board, listing, u, t, period); }
    if HasMember(listing, u, t, period) { ListedIsHad(board, listing, u, t, period); }
  }

  lemma HasIsListed(board: Board, listing: seq<Snapshot>, u: Tier, t: Tier, period: int)
    requires Dated(board) && Has(board, u, t, period)
    requires forall k :: 0 <= k < |board| ==> Row(k, board[k]) in listing && IsRow(Row(k, board[k]), board[k].0, board[k].1)
    ensures HasMember(listing, u, t, period)
  {
    hide Row, Period;
    var k :| 0 <= k < |board| && board[k].0 == u && Period(t, board[k].1) == period;
    assert Row(k, board[k]) in listing;
  }

  lemma ListedIsHad(board: Board, listing: seq<Snapshot>, u: Tier, t: Tier, period: int)
    requires Dated(board) && HasMember(listing, u, t, period)
    requires forall x :: x in listing ==> 0 <= x.id < |board| && x == Row(x.id, board[x.id])
    requires forall k :: 0 <= k < |board| ==> IsRow(Row(k, board[k]), board[k].0, board[k].1)
    ensures Has(board, u, t, period)
  {
    hide Row, Period;
    var x :| x in listing && x.tier == Some(u) && InPeriod(x, t, period);
    assert IsRow(Row(x.id, board[x.id]), board[x.id].0, board[x.id].1);
  }

  predicate IsRow(x: Snapshot, u: Tier, day: int) {
    x.tier == Some(u) && DayOf(x) == day
  }

  /** The snapshot of the cell is of the period that tier `t` looks at. */
  predicate Ripe(cell: (Tier, int), t: Tier, today: int)
    requires 1 <= cell.1 && 2 <= today
  {
    Period(t, cell.1) == Ended(t, today)
  }

  /** On a board shown whole: the newest candidate is promoted when the tier has none of the period. */
  lemma BoardPromotes(board: Board, listing: seq<Snapshot>, today: int, t: Tier, k: nat)
    requires Dated(board) && |board| <= LISTING_LIMIT && IsListing(Stored(board), listing)
    requires 2 <= today && t != Hourly && Due(t, today) && k < |board| && board[k].0 == Source(t) && Ripe(board[k], t, today)
    requires forall j :: 0 <= j < |board| && j != k && Ripe(board[j], t, today) ==>
      board[j].0 != t && (board[j].0 == Source(t) ==> board[j].1 < board[k].1)
    ensures Promotion(listing, today, t) == [Promote(k, t)]
  {
    HasIffMember(board, listing, t, t, Ended(t, today));
    ShownRows(board, listing);
    forall j | 0 <= j < |board| ensures DayOf(Row(j, board[j])) == board[j].1 { RowDay(j, board[j]); }
    forall j | 0 <= j < |board| && board[j].1 < board[k].1 ensures At(board[j].1) < At(board[k].1) {}
    SourceIsLower(t);
    hide At, IsListing, Stored, DayOf, Period, HasMember, Promotion, Due;
    Promoted1(listing, today, t, Row(k, board[k]));
  }

  lemma SourceIsLower(t: Tier)
    ensures t != Hourly ==> Source(t) != t
  {
  }

  lemma NothingDue(listing: seq<Snapshot>, today: int, t: Tier)
    requires 2 <= today && t != Hourly && !Due(t, today)
    ensures Promotion(listing, today, t) == []
  {
  }

  lemma NothingRipe(board: Board, listing: seq<Snapshot>, today: int, t: Tier)
    requires Dated(board) && |board| <= LISTING_LIMIT && IsListing(Stored(board), listing)
    requires 2 <= today && t != Hourly && forall j :: 0 <= j < |board| && board[j].0 == Source(t) ==> !Ripe(board[j], t, today)
    ensures Promotion(listing, today, t) == []
  {
    hide HasMember, Promotion, Due, Period;
    HasIffMember(board, listing, Source(t), t, Ended(t, today));
    NotPromoted(listing, today, t);
  }

  lemma AlreadyThere(board: Board, listing: seq<Snapshot>, today: int, t: Tier, k: nat)
    requires Dated(board) && |board| <= LISTING_LIMIT && IsListing(Stored(board), listing)
    requires 2 <= today && t != Hourly && k < |board| && board[k].0 == t && Ripe(board[k], t, today)
    ensures Promotion(listing, today, t) == []
  {
    hide HasMember, Promotion, Due, Period;
    HasIffMember(board, listing, t, t, Ended(t, today));
    NotPromoted(listing, today, t);
  }

  /** The decision, from those of the four tiers. */
  lemma Decided(listing: seq<Snapshot>, today: int, daily: seq<Action>, weekly: seq<Action>, monthly: seq<Action>, yearly: seq<Action>)
    requires 2 <= today
    requires Promotion(listing, today, Daily) == daily && Promotion(listing, today, Weekly) == weekly
    requires Promotion(listing, today, Monthly) == monthly && Promotion(listing, today, Yearly) == yearly
    ensures Actions(listing, KeepAll(), today) == daily + weekly + monthly + yearly
  {
    hide Promotion, Actions;
    OnlyPromotions(listing, today);
  }

  lemma DailyPeriod(day: int)
    requires 1 <= day
    ensures Period(Daily, day) == day && Due(Daily, day) && (2 <= day ==> Ended(Daily, day) == day - 1)
  {
  }

  // ─── The steps of a scene ─────────────────────────────────────────────────

  /** Each rotation lists right after the snapshot that its own tick has taken. */
  predicate Ticks(events: seq<Event>) {
    forall i :: 0 <= i < |events| && events[i].List? ==>
      0 < i && events[i - 1].Create? && events[i - 1].now == events[i].now
  }

  /** A run of ticks from an empty store to this state. */
  ghost predicate Scene(events: seq<Event>, s: State, board: Board, day: int)
    requires 1 <= day && Dated(board)
  {
    && IsRun(EMPTY, events) && Run(EMPTY, events) == s && Ticks(events)
    && s.db == Stored(board) && s.clock == At(day) && IdsBelow(s, |board|)
  }

  predicate JustTaken(events: seq<Event>, day: int)
    requires 1 <= day
  {
    events != [] && events[|events| - 1].Create? && events[|events| - 1].now == At(day)
  }

  /** The rotation has performed so many of these actions. */
  predicate Under(s: State, r: int, actions: seq<Action>, done: nat) {
    r in s.jobs && s.jobs[r].actions == actions && s.jobs[r].done == done
  }

  lemma Then(events: seq<Event>, s: State, e: Event)
    requires IsRun(EMPTY, events) && Run(EMPTY, events) == s && Enabled(s, e)
    ensures IsRun(EMPTY, events + [e]) && Run(EMPTY, events + [e]) == Step(s, e)
  {
    hide Enabled, Step, Run, IsRun;
    OneStep(s, e);
    RunOfConcat(EMPTY, events, [e]);
  }

  lemma TicksSnoc(events: seq<Event>, e: Event)
    requires Ticks(events)
    requires e.List? ==> events != [] && events[|events| - 1].Create? && events[|events| - 1].now == e.now
    ensures Ticks(events + [e])
  {
    var longer := events + [e];
    forall i | 0 <= i < |longer| && longer[i].List? ensures 0 < i && longer[i - 1].Create? && longer[i - 1].now == longer[i].now {
      assert longer[i] == if i < |events| then events[i] else e;
    }
  }

  /** The first snapshot. */
  lemma Opening(day: int) returns (events: seq<Event>, s: State)
    requires 1 <= day
    ensures Dated([(Hourly, day)]) && Scene(events, s, [(Hourly, day)], day) && s.jobs == map[] && JustTaken(events, day)
  {
    var e := Create(0, At(day));
    NoEvents(EMPTY);
    Then([], EMPTY, e);
    events, s := [e], Step(EMPTY, e);
    assert [] + [e] == [e];
    hide At;
    assert s.db == Stored([(Hourly, day)]);
  }

  lemma Take(events: seq<Event>, s: State, board: Board, last: int, day: int) returns (longer: seq<Event>, next: State)
    requires 1 <= last <= day && Dated(board) && Scene(events, s, board, last)
    ensures Dated(board + [(Hourly, day)]) && Scene(longer, next, board + [(Hourly, day)], day)
    ensures next.jobs == s.jobs && JustTaken(longer, day)
    ensures forall q, before, n :: Under(s, q, before, n) ==> Under(next, q, before, n)
  {
    var e := Create(|board|, At(day));
    AtGrows(last, day);
    hide At, Run, IsRun, Ticks, IdsBelow, Under;
    StoredOfTaken(board, day);
    StoredFacts(board);
    UnusedBelow(s, |board|);
    assert Enabled(s, e);
    Then(events, s, e);
    TicksSnoc(events, e);
    longer, next := events + [e], Step(s, e);
    assert next.db.Keys == s.db.Keys + {|board|};
    LargerIds(s, next, |board|);
    SameJobs(s, next);
  }

  lemma SameJobs(s: State, next: State)
    requires s.jobs == next.jobs
    ensures forall q, before, n :: Under(s, q, before, n) ==> Under(next, q, before, n)
  {
  }

  function Hours(n: nat, day: int): Board {
    seq(n, _ => (Hourly, day))
  }

  lemma {:induction false} TakeMany(events: seq<Event>, s: State, board: Board, last: int, day: int, n: nat) returns (longer: seq<Event>, next: State)
    requires 1 <= last <= day && Dated(board) && Scene(events, s, board, last) && 0 < n
    ensures Dated(board + Hours(n, day)) && Scene(longer, next, board + Hours(n, day), day)
    ensures next.jobs == s.jobs && JustTaken(longer, day)
  {
    hide Scene, JustTaken;
    if n == 1 {
      longer, next := Take(events, s, board, last, day);
      assert Hours(1, day) == [(Hourly, day)];
    } else {
      var before, middle := TakeMany(events, s, board, last, day, n - 1);
      longer, next := Take(before, middle, board + Hours(n - 1, day), day, day);
      assert board + Hours(n - 1, day) + [(Hourly, day)] == board + Hours(n, day);
    }
  }

  /** A tick's rotation lists. */
  lemma Begin(events: seq<Event>, s: State, board: Board, day: int, r: int, listing: seq<Snapshot>, actions: seq<Action>)
    returns (longer: seq<Event>, next: State)
    requires 2 <= day && Dated(board) && Scene(events, s, board, day) && JustTaken(events, day) && r !in s.jobs
    requires IsListing(Stored(board), listing) && Actions(listing, KeepAll(), day) == actions
    ensures Scene(longer, next, board, day) && next.jobs.Keys == s.jobs.Keys + {r} && Under(next, r, actions, 0)
    ensures forall q, before, n :: q != r && Under(s, q, before, n) ==> Under(next, q, before, n)
  {
    hide At, Run, IsRun, Ticks, IsListing, Actions, KeepAll, Stored, IdsBelow, Under;
    var e := List(r, listing, KeepAll(), At(day));
    ListStep(s, r, listing, day, actions);
    Then(events, s, e);
    TicksSnoc(events, e);
    longer, next := events + [e], Step(s, e);
    SeenIds(s, next, r, |board|);
  }

  lemma ListStep(s: State, r: int, listing: seq<Snapshot>, day: int, actions: seq<Action>)
    requires 2 <= day && r !in s.jobs && s.clock == At(day)
    requires IsListing(s.db, listing) && Actions(listing, KeepAll(), day) == actions
    ensures var e := List(r, listing, KeepAll(), At(day));
      && Enabled(s, e) && Step(s, e).db == s.db && Step(s, e).clock == At(day)
      && Step(s, e).jobs.Keys == s.jobs.Keys + {r} && Step(s, e).jobs[r].seen == s.db
      && (forall q :: q in s.jobs && q != r ==> Step(s, e).jobs[q] == s.jobs[q])
      && Under(Step(s, e), r, actions, 0)
      && forall q, before, n :: q != r && Under(s, q, before, n) ==> Under(Step(s, e), q, before, n)
  {
    TodayAt(day);
    hide At, IsListing, Actions, KeepAll;
  }

  lemma SeenIds(s: State, next: State, r: int, id: int)
    requires IdsBelow(s, id) && next.db == s.db && next.jobs.Keys == s.jobs.Keys + {r} && r in next.jobs && next.jobs[r].seen == s.db
    requires forall q :: q in s.jobs && q != r ==> next.jobs[q] == s.jobs[q]
    ensures IdsBelow(next, id)
  {
    forall q | q in next.jobs.Keys ensures SeenBelow(next.jobs[q], id) {
      if q != r { assert SeenBelow(s.jobs[q], id); }
    }
  }

  /** A rotation commits its next promotion. */
  lemma Perform(events: seq<Event>, s: State, board: Board, day: int, r: int, actions: seq<Action>, n: nat, k: nat, t: Tier)
    returns (longer: seq<Event>, next: State)
    requires 1 <= day && Dated(board) && Scene(events, s, board, day) && k < |board|
    requires Under(s, r, actions, n) && n < |actions| && actions[n] == Promote(k, t)
    ensures Dated(board[k := (t, board[k].1)]) && Scene(longer, next, board[k := (t, board[k].1)], day)
    ensures next.jobs.Keys == s.jobs.Keys && Under(next, r, actions, n + 1)
    ensures forall q, before, m :: q != r && Under(s, q, before, m) ==> Under(next, q, before, m)
  {
    var e := Commit(r);
    hide At, Run, IsRun, Ticks, Stored, ApplyAction;
    StoredOfPromoted(board, k, t);
    Then(events, s, e);
    TicksSnoc(events, e);
    longer, next := events + [e], Step(s, e);
    assert NextAction(s, r) == Promote(k, t);
    assert next.db.Keys == s.db.Keys by { PromoteKeepsKeys(s.db, k, t); }
    SameIds(s, next, |board|);
  }

  lemma PromoteKeepsKeys(db: Backups, k: int, t: Tier)
    ensures ApplyAction(db, Promote(k, t)).Keys == db.Keys
  {
  }

  /** Two snapshots of one period in a tier. */
  lemma TwoOfOnePeriod(board: Board, a: nat, b: nat, t: Tier)
    requires Dated(board) && a < |board| && b < |board| && a != b && t != Hourly
    requires board[a].0 == t && board[b].0 == t && Period(t, board[a].1) == Period(t, board[b].1)
    ensures !OnePerPeriod(Stored(board))
  {
    RowDay(a, board[a]);
    RowDay(b, board[b]);
    hide At, DayOf, Period;
    assert SamePeriod(Stored(board)[a], Stored(board)[b]);
  }
}
