/**
  Exactly which snapshots a rotation promotes and deletes, read off the list itself: tiers by name,
  days by number, months and years by the closed form, ties by the order of the list.
*/
module GfsDecisions {
  import opened Options
  import opened Sets
  import opened Calendar
  import opened GfsRotation
  import opened GfsBounds
  import opened GfsDays
  import opened SnapshotScheduler

  // ─── Newer, or as new and listed first ────────────────────────────────────

  predicate ListedBefore(list: seq<Snapshot>, x: Snapshot, y: Snapshot) {
    exists i, j :: 0 <= i < j < |list| && list[i] == x && list[j] == y
  }

  predicate Outranks(list: seq<Snapshot>, x: Snapshot, y: Snapshot) {
    y.createdAt < x.createdAt || (x.createdAt == y.createdAt && ListedBefore(list, x, y))
  }

  predicate Ordered(sorted: seq<Snapshot>, list: seq<Snapshot>) {
    forall a, b :: 0 <= a < b < |sorted| ==> Outranks(list, sorted[a], sorted[b])
  }

  lemma ListedAfterCons(first: Snapshot, rest: seq<Snapshot>, x: Snapshot, y: Snapshot)
    ensures ListedBefore([first] + rest, x, y) <==> (x == first && y in rest) || ListedBefore(rest, x, y)
  {
    var all := [first] + rest;
    if ListedBefore(all, x, y) {
      var i, j :| 0 <= i < j < |all| && all[i] == x && all[j] == y;
      assert rest[j - 1] == y;
      if i > 0 { assert rest[i - 1] == x; }
    }
    if x == first && y in rest {
      var j :| 0 <= j < |rest| && rest[j] == y;
      assert all[0] == x && all[j + 1] == y;
    }
    if ListedBefore(rest, x, y) {
      var i, j :| 0 <= i < j < |rest| && rest[i] == x && rest[j] == y;
      assert all[i + 1] == x && all[j + 1] == y;
    }
  }

  lemma OutranksAfterCons(s: Snapshot, list: seq<Snapshot>, x: Snapshot, y: Snapshot)
    ensures Outranks(list, x, y) ==> Outranks([s] + list, x, y)
    ensures x == s && y in list && y.createdAt <= s.createdAt ==> Outranks([s] + list, x, y)
  {
    ListedAfterCons(s, list, x, y);
    hide ListedBefore;
  }

  lemma OrderedTail(sorted: seq<Snapshot>, list: seq<Snapshot>)
    requires Ordered(sorted, list) && sorted != []
    ensures Ordered(sorted[1..], list)
    ensures forall y :: y in sorted[1..] ==> Outranks(list, sorted[0], y)
  {
    forall y | y in sorted[1..] ensures Outranks(list, sorted[0], y) {
      var j :| 0 <= j < |sorted[1..]| && sorted[1..][j] == y;
      assert sorted[j + 1] == y;
    }
    hide Outranks;
  }

  lemma OrderedCons(first: Snapshot, rest: seq<Snapshot>, list: seq<Snapshot>)
    requires Ordered(rest, list) && forall y :: y in rest ==> Outranks(list, first, y)
    ensures Ordered([first] + rest, list)
  {
    hide Outranks;
    var all := [first] + rest;
    forall a, b | 0 <= a < b < |all| ensures Outranks(list, all[a], all[b]) {
      assert all[b] == rest[b - 1] && rest[b - 1] in rest;
      if a > 0 { assert all[a] == rest[a - 1]; }
    }
  }

  lemma {:induction false} InsertOrdered(s: Snapshot, sorted: seq<Snapshot>, list: seq<Snapshot>)
    requires Ordered(sorted, list) && forall x :: x in sorted ==> x in list
    ensures Ordered(InsertNewest(s, sorted), [s] + list)
    ensures forall x :: x in InsertNewest(s, sorted) <==> x == s || x in sorted
  {
    if sorted == [] {
      return;
    }
    var first, rest := sorted[0], sorted[1..];
    assert sorted == [first] + rest && first in sorted;
    OrderedTail(sorted, list);
    assert forall x :: x in sorted ==> x == first || x in rest;
    hide Outranks, Ordered;
    if first.createdAt <= s.createdAt {
      StillOrdered(s, sorted, list);
      forall y | y in sorted ensures Outranks([s] + list, s, y) {
        NoNewer(sorted, list, y);
        OutranksAfterCons(s, list, s, y);
      }
      OrderedCons(s, sorted, [s] + list);
    } else {
      InsertOrdered(s, rest, list);
      forall y | y in InsertNewest(s, rest) ensures Outranks([s] + list, first, y) {
        if y in rest { OutranksAfterCons(s, list, first, y); } else { NewerOutranks([s] + list, first, y); }
      }
      OrderedCons(first, InsertNewest(s, rest), [s] + list);
    }
  }

  lemma NewerOutranks(list: seq<Snapshot>, x: Snapshot, y: Snapshot)
    requires y.createdAt < x.createdAt
    ensures Outranks(list, x, y)
  {
  }

  lemma StillOrdered(s: Snapshot, sorted: seq<Snapshot>, list: seq<Snapshot>)
    requires Ordered(sorted, list)
    ensures Ordered(sorted, [s] + list)
  {
    forall a, b | 0 <= a < b < |sorted| ensures Outranks([s] + list, sorted[a], sorted[b]) {
      OutranksAfterCons(s, list, sorted[a], sorted[b]);
    }
  }

  lemma NoNewer(sorted: seq<Snapshot>, list: seq<Snapshot>, y: Snapshot)
    requires Ordered(sorted, list) && y in sorted
    ensures y.createdAt <= sorted[0].createdAt
  {
    var j :| 0 <= j < |sorted| && sorted[j] == y;
    assert j > 0 ==> Outranks(list, sorted[0], sorted[j]);
  }

  /** The sort is stable. */
  lemma {:induction false} SortOrdered(list: seq<Snapshot>)
    ensures Ordered(NewestFirst(list), list)
  {
    if list != [] {
      SortOrdered(list[1..]);
      SortFacts(list[1..]);
      assert list == [list[0]] + list[1..];
      hide Ordered;
      InsertOrdered(list[0], NewestFirst(list[1..]), list[1..]);
    }
  }

  lemma {:induction false} TierKeepsOrder(list: seq<Snapshot>, t: Tier, x: Snapshot, y: Snapshot)
    requires ListedBefore(InTier(list, t), x, y)
    ensures ListedBefore(list, x, y)
  {
    if list != [] {
      var first, rest := list[0], list[1..];
      var members := InTier(rest, t);
      InTierFacts(rest, t);
      assert list == [first] + rest;
      assert InTier(list, t) == (if first.tier == Some(t) then [first] + members else members);
      ListedAfterCons(first, members, x, y);
      ListedAfterCons(first, rest, x, y);
      if ListedBefore(members, x, y) { TierKeepsOrder(rest, t, x, y); }
    }
  }

  lemma RankedOrdered(list: seq<Snapshot>, t: Tier)
    ensures Ordered(Ranked(list, t), list)
  {
    var ranked := Ranked(list, t);
    SortOrdered(InTier(list, t));
    forall a, b | 0 <= a < b < |ranked| ensures Outranks(list, ranked[a], ranked[b]) {
      assert Outranks(InTier(list, t), ranked[a], ranked[b]);
      if ListedBefore(InTier(list, t), ranked[a], ranked[b]) { TierKeepsOrder(list, t, ranked[a], ranked[b]); }
    }
  }

  lemma OutranksOneWay(list: seq<Snapshot>, x: Snapshot, y: Snapshot)
    requires DistinctIds(list) && Outranks(list, x, y)
    ensures !Outranks(list, y, x)
  {
  }

  // ─── Promotions ───────────────────────────────────────────────────────────

  /** The day number of creation, in days of 86,400,000,000 microseconds. */
  function TakenOn(s: Snapshot): int {
    s.createdAt / 86_400_000_000 + 1
  }

  /** Weeks start on the days 1, 8, 15, ... */
  ghost predicate SharePeriod(t: Tier, a: int, b: int) {
    match t
    case Hourly => a == b
    case Daily => a == b
    case Weekly => (a - 1) / 7 == (b - 1) / 7
    case Monthly => SameMonth(a, b)
    case Yearly => SameYear(a, b)
  }

  ghost predicate StartsPeriod(t: Tier, day: int) {
    match t
    case Hourly => false
    case Daily => true
    case Weekly => day % 7 == 1
    case Monthly => StartsMonth(day)
    case Yearly => StartsYear(day)
  }

  predicate Feeds(from: Tier, t: Tier) {
    (from, t) in {(Hourly, Daily), (Daily, Weekly), (Weekly, Monthly), (Monthly, Yearly)}
  }

  lemma PeriodIff(t: Tier, s: Snapshot, day: int)
    requires 1 <= day
    ensures InPeriod(s, t, Period(t, day)) <==> SharePeriod(t, TakenOn(s), day)
  {
    hide FromMarch, NextMonth;
    SamePeriodIff(TakenOn(s), day);
    hide WeekMonday, MonthIndex, Year;
  }

  lemma StartsIff(t: Tier, day: int)
    requires 1 <= day
    ensures Due(t, day) <==> StartsPeriod(t, day)
  {
    DueExactlyOn(day);
    hide Due, StartsMonth, StartsYear;
  }

  lemma {:induction false} FirstIndex(sorted: seq<Snapshot>, t: Tier, period: int) returns (k: nat)
    ensures match FirstInPeriod(sorted, t, period)
      case None => forall x :: x in sorted ==> !InPeriod(x, t, period)
      case Some(c) => k < |sorted| && sorted[k] == c && InPeriod(c, t, period) && forall j :: 0 <= j < k ==> !InPeriod(sorted[j], t, period)
  {
    k := 0;
    if sorted != [] && !InPeriod(sorted[0], t, period) {
      k := FirstIndex(sorted[1..], t, period);
      k := k + 1;
      assert sorted == [sorted[0]] + sorted[1..];
    }
  }

  /** The best candidate: of the tier that feeds `t`, from the period of `day`, outranking the others like it. */
  ghost predicate IsBest(list: seq<Snapshot>, c: Snapshot, t: Tier, day: int) {
    && c in list && c.tier.Some? && Feeds(c.tier.value, t) && SharePeriod(t, TakenOn(c), day)
    && forall x :: x in list && x.tier == c.tier && SharePeriod(t, TakenOn(x), day) && x != c ==> Outranks(list, c, x)
  }

  lemma BestIff(list: seq<Snapshot>, c: Snapshot, t: Tier, day: int)
    requires 1 <= day && t != Hourly
    ensures var ranked, period := Ranked(list, Source(t)), Period(t, day);
      IsBest(list, c, t, day) <==> (
        && c in ranked && InPeriod(c, t, period)
        && forall x :: x in ranked && InPeriod(x, t, period) && x != c ==> Outranks(list, c, x))
  {
    RankedFacts(list, Source(t));
    assert forall u: Tier :: Feeds(u, t) <==> u == Source(t);
    forall x ensures InPeriod(x, t, Period(t, day)) <==> SharePeriod(t, TakenOn(x), day) { PeriodIff(t, x, day); }
    hide InPeriod, SharePeriod, Period, Source, Feeds, Outranks, TakenOn, Ranked;
  }

  lemma FirstIsBest(list: seq<Snapshot>, t: Tier, day: int)
    requires 1 <= day && t != Hourly
    ensures match FirstInPeriod(Ranked(list, Source(t)), t, Period(t, day))
      case None => forall c :: !IsBest(list, c, t, day)
      case Some(c) => IsBest(list, c, t, day)
  {
    var ranked, period := Ranked(list, Source(t)), Period(t, day);
    RankedOrdered(list, Source(t));
    var k := FirstIndex(ranked, t, period);
    forall c ensures IsBest(list, c, t, day) ==> c in ranked && InPeriod(c, t, period) { BestIff(list, c, t, day); }
    if FirstInPeriod(ranked, t, period).Some? {
      var c := FirstInPeriod(ranked, t, period).value;
      BestIff(list, c, t, day);
      hide IsBest, InPeriod, Outranks, FirstInPeriod, Ranked, Period, Source;
      forall x | x in ranked && InPeriod(x, t, period) && x != c ensures Outranks(list, c, x) {
        var j :| 0 <= j < |ranked| && ranked[j] == x;
        assert j > k;
      }
    }
  }

  /**
    A snapshot is promoted to a tier if and only if a period of the tier begins today, the tier has
    no snapshot of the period that ended yesterday, and it is the best of that period in the tier below.
  */
  lemma PromotedIff(list: seq<Snapshot>, retention: Retention, today: int, id: int, t: Tier)
    requires DistinctIds(list) && Complete(retention) && 2 <= today
    ensures Promote(id, t) in Actions(list, retention, today) <==>
      && StartsPeriod(t, today)
      && (forall x :: x in list && x.tier == Some(t) ==> !SharePeriod(t, TakenOn(x), today - 1))
      && exists c: Snapshot :: c.id == id && IsBest(list, c, t, today - 1)
  {
    PromoteInActions(list, retention, today, id, t);
    hide Actions, StartsPeriod, IsBest, SharePeriod, Promotion, DistinctIds, TakenOn;
    if t != Hourly {
      PromotionIff(list, today, id, t);
    } else {
      assert !StartsPeriod(Hourly, today) by { HourlyNeverStarts(today); }
    }
  }

  lemma HourlyNeverStarts(day: int)
    ensures !StartsPeriod(Hourly, day)
  {
  }

  lemma PromotionIff(list: seq<Snapshot>, today: int, id: int, t: Tier)
    requires DistinctIds(list) && 2 <= today && t != Hourly
    ensures Promote(id, t) in Promotion(list, today, t) <==>
      && StartsPeriod(t, today)
      && (forall x :: x in list && x.tier == Some(t) ==> !SharePeriod(t, TakenOn(x), today - 1))
      && exists c: Snapshot :: c.id == id && IsBest(list, c, t, today - 1)
  {
    hide IsBest, SharePeriod, Period, AnyInPeriod, FirstInPeriod, Ranked, DistinctIds, Source, InTier, Due, StartsPeriod, Promotion, TakenOn;
    var day := today - 1;
    var best := FirstInPeriod(Ranked(list, Source(t)), t, Period(t, day));
    StartsIff(t, today);
    FirstIsBest(list, t, day);
    MembersIff(list, t, day);
    PromotionText(list, today, id, t);
    if best.Some? { BestIsOnly(list, best.value, t, day); }
    assert (exists c: Snapshot :: c.id == id && IsBest(list, c, t, day)) <==> best.Some? && best.value.id == id;
  }

  lemma PromotionText(list: seq<Snapshot>, today: int, id: int, t: Tier)
    requires 2 <= today
    ensures Promote(id, t) in Promotion(list, today, t) <==>
      var best := FirstInPeriod(Ranked(list, Source(t)), t, Period(t, today - 1));
      Due(t, today) && !AnyInPeriod(InTier(list, t), t, Period(t, today - 1)) && best.Some? && best.value.id == id
  {
    hide FirstInPeriod, AnyInPeriod, NewestFirst, InTier, Due, Period;
  }

  lemma MembersIff(list: seq<Snapshot>, t: Tier, day: int)
    requires 1 <= day
    ensures AnyInPeriod(InTier(list, t), t, Period(t, day))
      <==> exists x :: x in list && x.tier == Some(t) && SharePeriod(t, TakenOn(x), day)
  {
    InTierFacts(list, t);
    forall x ensures InPeriod(x, t, Period(t, day)) <==> SharePeriod(t, TakenOn(x), day) { PeriodIff(t, x, day); }
    hide InPeriod, SharePeriod, Period, TakenOn;
  }

  lemma BestUnique(list: seq<Snapshot>, c: Snapshot, d: Snapshot, t: Tier, day: int)
    requires DistinctIds(list) && IsBest(list, c, t, day) && IsBest(list, d, t, day)
    ensures c == d
  {
    if c != d {
      assert c.tier == d.tier;
      OutranksOneWay(list, c, d);
    }
  }

  lemma BestIsOnly(list: seq<Snapshot>, c: Snapshot, t: Tier, day: int)
    requires DistinctIds(list) && IsBest(list, c, t, day)
    ensures forall d :: IsBest(list, d, t, day) ==> d == c
  {
    forall d ensures IsBest(list, d, t, day) ==> d == c {
      if IsBest(list, d, t, day) { BestUnique(list, d, c, t, day); }
    }
  }

  // ─── Deletions ────────────────────────────────────────────────────────────

  /** The members of its tier that outrank a snapshot. */
  function Ahead(list: seq<Snapshot>, s: Snapshot): set<int> {
    set x | x in list && x.tier == s.tier && Outranks(list, x, s) :: x.id
  }

  lemma RankIsAhead(list: seq<Snapshot>, t: Tier, p: nat)
    requires DistinctIds(list) && p < |Ranked(list, t)|
    ensures |Ahead(list, Ranked(list, t)[p])| == p && Ranked(list, t)[p].tier == Some(t)
  {
    var ranked := Ranked(list, t);
    var s, front := ranked[p], ranked[..p];
    RankedFacts(list, t);
    RankedOrdered(list, t);
    assert s in ranked && DistinctIds(front) by { hide Outranks; }
    hide Outranks;
    forall x ensures x in front <==> x in list && x.tier == s.tier && Outranks(list, x, s) {
      if x in front {
        var j :| 0 <= j < p && ranked[j] == x;
        assert x in ranked;
      }
      if x in list && x.tier == s.tier && Outranks(list, x, s) {
        assert x in ranked;
        var j :| 0 <= j < |ranked| && ranked[j] == x;
        OutranksOneWay(list, x, s);
        assert forall q :: p < q < |ranked| ==> Outranks(list, s, ranked[q]);
        assert j != p;
        assert front[j] == x;
      }
    }
    assert Ahead(list, s) == IdSet(front);
    IdSetSize(front);
  }

  /**
    A snapshot is deleted if and only if its tier has a positive retention, at least that many
    members of its tier outrank it, and it is not being promoted.
  */
  lemma DeletedIff(list: seq<Snapshot>, retention: Retention, today: int, s: Snapshot)
    requires DistinctIds(list) && Complete(retention) && 2 <= today && s in list
    ensures Delete(s.id) in Actions(list, retention, today) <==>
      && s.tier.Some? && 0 < retention[s.tier.value] <= |Ahead(list, s)|
      && forall t: Tier :: Promote(s.id, t) !in Actions(list, retention, today)
  {
    var actions := Actions(list, retention, today);
    hide Actions, Ahead, DistinctIds, OncePerId, Promotions, DoomedIn;
    DeleteIsDoomed(list, retention, today, s.id);
    if s.tier.None? {
      AtMostOneAction(list, retention, today);
      assert Delete(s.id) in actions ==> Delete(s.id).id in Ids(actions);
    } else {
      DoomedByRank(list, retention, s);
    }
  }

  lemma DeleteIsDoomed(list: seq<Snapshot>, retention: Retention, today: int, id: int)
    requires DistinctIds(list) && Complete(retention) && 2 <= today
    ensures var actions := Actions(list, retention, today);
      Delete(id) in actions <==> id in DoomedIn(list, retention, TIERS) && forall t: Tier :: Promote(id, t) !in actions
  {
    var actions := Actions(list, retention, today);
    ActionsIds(list, retention, today);
    hide Actions, DistinctIds, DoomedIn;
    if Delete(id) in actions {
      assert Delete(id).id in Ids(actions);
      assert forall a :: a in Promotions(list, today) ==> a.id in Ids(Promotions(list, today));
      assert forall t: Tier :: Promote(id, t).Promote? && Promote(id, t).id == id;
    }
    if id in DoomedIn(list, retention, TIERS) && forall t: Tier :: Promote(id, t) !in actions {
      var a :| a in actions && a.id == id;
      DeleteOrPromote(a);
    }
  }

  lemma DeleteOrPromote(a: Action)
    ensures a == Delete(a.id) || exists t: Tier :: a == Promote(a.id, t)
  {
    if a.Promote? { assert a == Promote(a.id, a.newTier); }
  }

  lemma BeyondIff(ranked: seq<Snapshot>, r: int, p: nat)
    requires DistinctIds(ranked) && 0 < r && p < |ranked|
    ensures ranked[p].id in IdSet(Beyond(ranked, r)) <==> r <= p
  {
    if r <= p { assert Beyond(ranked, r)[p - r] == ranked[p]; }
    if ranked[p].id in IdSet(Beyond(ranked, r)) {
      var x :| x in Beyond(ranked, r) && x.id == ranked[p].id;
      var q :| 0 <= q < |Beyond(ranked, r)| && Beyond(ranked, r)[q] == x;
      assert ranked[q + r] == x;
    }
  }

  lemma DoomedByRank(list: seq<Snapshot>, retention: Retention, s: Snapshot)
    requires DistinctIds(list) && Complete(retention) && s in list && s.tier.Some?
    ensures s.id in DoomedIn(list, retention, TIERS) <==> 0 < retention[s.tier.value] <= |Ahead(list, s)|
  {
    var t := s.tier.value;
    var ranked, r := Ranked(list, t), retention[t];
    RankedFacts(list, t);
    InTierFacts(list, t);
    AllTiers(t);
    assert s in InTier(list, t);
    DoomedOfTier(list, retention, TIERS, t, s.id);
    var p :| 0 <= p < |ranked| && ranked[p] == s;
    RankIsAhead(list, t, p);
    hide DoomedIn, Ranked, Ahead, InTier, TierIds, DistinctIds;
    if 0 < r { BeyondIff(ranked, r, p); }
    hide Beyond, IdSet;
  }

  // ─── What a rotation sees ─────────────────────────────────────────────────

  lemma {:induction false} RowsOf(db: Backups) returns (rows: seq<Snapshot>)
    requires WellFormed(db)
    ensures DistinctIds(rows) && |rows| == |db|
    ensures forall x :: x in rows <==> x.id in db && db[x.id] == x
  {
    rows := [];
    if db != map[] {
      assert db.Keys != {};
      var id := Member(db.Keys);
      var rest := db - {id};
      assert rest.Keys == db.Keys - {id};
      var others := RowsOf(rest);
      rows := [db[id]] + others;
      forall x ensures x in rows <==> x.id in db && db[x.id] == x {
        assert x in rows <==> x == db[id] || x in others;
      }
    }
  }

  /**
    Of every store some listing is possible; any listing has at most 500 rows, and a row is missing
    from it only if it has 500 and none of them is older.
  */
  lemma ListingExists(db: Backups) returns (listing: seq<Snapshot>)
    requires WellFormed(db)
    ensures IsListing(db, listing)
  {
    var rows := RowsOf(db);
    SortFacts(rows);
    var sorted := NewestFirst(rows);
    var n := if |db| <= 500 then |sorted| else 500;
    listing := sorted[..n];
    assert DistinctIds(listing) && Descending(listing);
    assert forall x :: x in listing ==> x in sorted;
    hide DistinctIds, Descending, NewestFirst;
    forall id, x | id in db && id !in IdSet(listing) && x in listing ensures db[id].createdAt <= x.createdAt {
      assert db[id] in sorted && db[id] !in listing;
      TopOfSorted(sorted, n, x, db[id]);
    }
  }

  lemma TopOfSorted(sorted: seq<Snapshot>, n: nat, x: Snapshot, y: Snapshot)
    requires Descending(sorted) && n <= |sorted| && x in sorted[..n] && y in sorted && y !in sorted[..n]
    ensures y.createdAt <= x.createdAt
  {
    var i :| 0 <= i < n && sorted[i] == x;
    var j :| 0 <= j < |sorted| && sorted[j] == y;
    assert forall q :: 0 <= q < n ==> sorted[..n][q] == sorted[q];
  }

  lemma ListingIsTop(db: Backups, listing: seq<Snapshot>, id: int)
    requires IsListing(db, listing) && id in db
    ensures |listing| <= 500 && |listing| <= |db|
    ensures id !in IdSet(listing) ==> |listing| == 500 && forall x :: x in listing ==> db[id].createdAt <= x.createdAt
    ensures forall i, j :: 0 <= i < j < |listing| ==> listing[j].createdAt <= listing[i].createdAt
  {
    if |listing| < 500 { SmallListingShowsAll(db, listing); }
  }
}
