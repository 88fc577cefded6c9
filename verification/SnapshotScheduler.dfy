/**
  One rotation applied to the stored snapshots, with nothing happening between its commits.

  The rotation sees the newest 500 snapshots only, in the order of the query, which leaves the
  order of equal creation times open: a listing is any answer the query may give.
*/
module SnapshotScheduler {
  import opened Options
  import opened Calendar
  import opened GfsRotation
  import opened GfsBounds

  const LISTING_LIMIT := 500

  /** The snapshot rows by id. */
  type Backups = map<int, Snapshot>

  predicate WellFormed(db: Backups) {
    forall id :: id in db ==> db[id].id == id
  }

  /** `ORDER BY created_at DESC LIMIT 500`. */
  predicate IsListing(db: Backups, listing: seq<Snapshot>) {
    && DistinctIds(listing) && Descending(listing)
    && (forall x :: x in listing ==> x.id in db && db[x.id] == x)
    && |listing| == (if |db| <= LISTING_LIMIT then |db| else LISTING_LIMIT)
    && (forall id, x :: id in db && id !in IdSet(listing) && x in listing ==> db[id].createdAt <= x.createdAt)
  }

  function ApplyAction(db: Backups, a: Action): Backups {
    match a
    case Delete(id) => db - {id}
    case Promote(id, t) => if id in db then db[id := db[id].(tier := Some(t))] else db
  }

  function ApplyActions(db: Backups, actions: seq<Action>): Backups {
    if actions == [] then db
    else ApplyAction(ApplyActions(db, actions[..|actions| - 1]), actions[|actions| - 1])
  }

  function Rotated(db: Backups, listing: seq<Snapshot>, retention: Retention, today: int): Backups
    requires Complete(retention) && 2 <= today
  {
    ApplyActions(db, Actions(listing, retention, today))
  }

  /** The actions a rotation has performed after `commits` of them: each is a commit of its own. */
  function Performed(listing: seq<Snapshot>, retention: Retention, today: int, commits: nat): seq<Action>
    requires Complete(retention) && 2 <= today
  {
    var actions := Actions(listing, retention, today);
    if commits < |actions| then actions[..commits] else actions
  }

  /** The store a rotation leaves that is stopped after so many commits. */
  function Cut(db: Backups, listing: seq<Snapshot>, retention: Retention, today: int, commits: nat): Backups
    requires Complete(retention) && 2 <= today
  {
    ApplyActions(db, Performed(listing, retention, today, commits))
  }

  // ─── What becomes of one row ──────────────────────────────────────────────

  /** The row of one id after a list of actions that names each id at most once. */
  lemma {:induction false} RowAfter(db: Backups, actions: seq<Action>, id: int)
    requires OncePerId(actions)
    ensures var after := ApplyActions(db, actions);
      && (id !in db ==> id !in after)
      && (id in db && Delete(id) in actions ==> id !in after)
      && (forall t: Tier :: id in db && Promote(id, t) in actions ==> id in after && after[id] == db[id].(tier := Some(t)))
      && (id in db && id !in Ids(actions) ==> id in after && after[id] == db[id])
  {
    if actions != [] {
      var front, last := actions[..|actions| - 1], actions[|actions| - 1];
      assert actions == front + [last];
      RowAfter(db, front, id);
      IdsConcat(front, [last]);
      forall a | a in front ensures a.id != last.id { var i :| 0 <= i < |front| && front[i] == a; }
    }
  }

  lemma RotationActions(db: Backups, listing: seq<Snapshot>, retention: Retention, today: int)
    requires IsListing(db, listing) && Complete(retention) && 2 <= today
    ensures OncePerId(Actions(listing, retention, today))
    ensures Ids(Actions(listing, retention, today)) <= IdSet(listing)
  {
    hide Actions, Ids, InTier, Promotions, Doomed, DistinctIds, OncePerId;
    ActionsIds(listing, retention, today);
    forall id | id in Ids(Actions(listing, retention, today)) ensures id in IdSet(listing) {
      OnlyListedActedOn(listing, retention, today, id);
    }
  }

  lemma OnlyListedActedOn(listing: seq<Snapshot>, retention: Retention, today: int, id: int)
    requires Complete(retention) && 2 <= today && DistinctIds(listing)
    requires id in Ids(Actions(listing, retention, today))
    ensures id in IdSet(listing)
  {
    hide Actions, Ids, InTier, Promotions, Doomed, DistinctIds;
    if forall t: Tier :: id !in TierIds(listing, t) {
      NotActedOn(listing, retention, today, id);
    } else {
      var t: Tier :| id in TierIds(listing, t);
      TierIdsListed(listing, t, id);
    }
  }

  lemma TierIdsListed(listing: seq<Snapshot>, t: Tier, id: int)
    requires id in TierIds(listing, t)
    ensures id in IdSet(listing)
  {
    InTierFacts(listing, t);
  }

  /** The promotions among the actions are those of the four tiers. */
  lemma PromoteInActions(listing: seq<Snapshot>, retention: Retention, today: int, id: int, t: Tier)
    requires DistinctIds(listing) && Complete(retention) && 2 <= today
    ensures Promote(id, t) in Actions(listing, retention, today)
      <==> t != Hourly && Promote(id, t) in Promotion(listing, today, t)
  {
    hide Promotion, DistinctIds, DeletionsOfTiers, Doomed, OncePerId;
    ActionsIds(listing, retention, today);
    PromotionIds(listing, today, Daily);
    PromotionIds(listing, today, Weekly);
    PromotionIds(listing, today, Monthly);
    PromotionIds(listing, today, Yearly);
    assert Promote(id, t).Promote?;
  }

  lemma NotActedOn(listing: seq<Snapshot>, retention: Retention, today: int, id: int)
    requires Complete(retention) && 2 <= today && DistinctIds(listing)
    requires forall t: Tier :: id !in TierIds(listing, t)
    ensures id !in Ids(Actions(listing, retention, today))
  {
    hide Actions, Ids, Promotion, Promotions, Doomed, DistinctIds, TierIds, OncePerId;
    ActionsIds(listing, retention, today);
    PromotionsIds(listing, today);
    PromotionIds(listing, today, Daily);
    PromotionIds(listing, today, Weekly);
    PromotionIds(listing, today, Monthly);
    PromotionIds(listing, today, Yearly);
    DoomedHaveTier(listing, retention, TIERS, id);
  }

  /** A row of tier `t` after a rotation was in it before, or has just been promoted to it. */
  lemma TierAfter(db: Backups, listing: seq<Snapshot>, retention: Retention, today: int, id: int)
    requires WellFormed(db) && IsListing(db, listing) && Complete(retention) && 2 <= today
    requires id in Rotated(db, listing, retention, today)
    ensures var row := Rotated(db, listing, retention, today)[id];
      && id in db && row == db[id].(tier := row.tier)
      && (row.tier == db[id].tier ||
          (row.tier.Some? && row.tier.value != Hourly && Promote(id, row.tier.value) in Promotion(listing, today, row.tier.value)))
  {
    hide Actions, Promotion, IsListing, OncePerId;
    var actions := Actions(listing, retention, today);
    RotationActions(db, listing, retention, today);
    RowAfter(db, actions, id);
    if id in Ids(actions) {
      var a :| a in actions && a.id == id;
      assert a != Delete(id);
      ListingDistinct(db, listing);
      PromoteInActions(listing, retention, today, id, a.newTier);
    }
  }

  lemma ListingDistinct(db: Backups, listing: seq<Snapshot>)
    requires IsListing(db, listing)
    ensures DistinctIds(listing)
  {}

  lemma PromotedAfter(db: Backups, listing: seq<Snapshot>, retention: Retention, today: int, id: int, t: Tier)
    requires WellFormed(db) && IsListing(db, listing) && Complete(retention) && 2 <= today && t != Hourly
    requires Promote(id, t) in Promotion(listing, today, t)
    ensures var after := Rotated(db, listing, retention, today);
      id in db && id in after && after[id] == db[id].(tier := Some(t))
  {
    hide Actions, Promotion, OncePerId;
    var actions := Actions(listing, retention, today);
    RotationActions(db, listing, retention, today);
    PromoteInActions(listing, retention, today, id, t);
    assert Promote(id, t).id in Ids(actions);
    RowAfter(db, actions, id);
  }

  lemma UnlistedAfter(db: Backups, listing: seq<Snapshot>, retention: Retention, today: int, id: int)
    requires IsListing(db, listing) && Complete(retention) && 2 <= today
    requires id in db && id !in IdSet(listing)
    ensures var after := Rotated(db, listing, retention, today);
      id in after && after[id] == db[id]
  {
    hide Actions, OncePerId;
    RotationActions(db, listing, retention, today);
    RowAfter(db, Actions(listing, retention, today), id);
  }

  lemma ListedMember(db: Backups, listing: seq<Snapshot>, id: int, t: Tier, p: Tier, period: int)
    requires IsListing(db, listing) && id in db && id in IdSet(listing)
    requires db[id].tier == Some(t) && InPeriod(db[id], p, period)
    ensures HasMember(listing, t, p, period)
  {
    var x :| x in listing && x.id == id;
  }

  // ─── Periods ──────────────────────────────────────────────────────────────

  lemma PeriodMonotone(t: Tier, a: int, b: int)
    requires 1 <= a <= b
    ensures Period(t, a) <= Period(t, b)
  {
    Monotone(a, b);
  }

  /** On the first day of a period, the period of yesterday is over. */
  lemma EndedIsPast(t: Tier, today: int)
    requires 2 <= today && Due(t, today)
    ensures Ended(t, today) < Period(t, today)
  {
    if t == Monthly || t == Yearly { FirstOfMonth(today); }
  }

  /** No snapshot of a promoted tier dates from the current period of the tier or later. */
  predicate Settled(db: Backups, today: int)
    requires 1 <= today
  {
    forall id :: id in db ==> SettledRow(db[id], today)
  }

  predicate SamePeriod(x: Snapshot, y: Snapshot) {
    x.tier == y.tier && x.tier.Some? && x.tier.value != Hourly
    && Period(x.tier.value, DayOf(x)) == Period(x.tier.value, DayOf(y))
  }

  /** At most one daily per date, weekly per week, monthly per month and yearly per year. */
  predicate OnePerPeriod(db: Backups) {
    forall a, b :: a in db && b in db && a != b ==> !SamePeriod(db[a], db[b])
  }

  predicate SettledRow(row: Snapshot, today: int)
    requires 1 <= today
  {
    row.tier.Some? && row.tier.value != Hourly ==> Period(row.tier.value, DayOf(row)) < Period(row.tier.value, today)
  }

  lemma RotationKeepsSettled(db: Backups, listing: seq<Snapshot>, retention: Retention, today: int)
    requires WellFormed(db) && IsListing(db, listing) && Complete(retention) && 2 <= today && Settled(db, today)
    ensures WellFormed(Rotated(db, listing, retention, today)) && Settled(Rotated(db, listing, retention, today), today)
  {
    hide Rotated, IsListing, SettledRow;
    var after := Rotated(db, listing, retention, today);
    forall id | id in after ensures after[id].id == id && SettledRow(after[id], today) {
      RowStaysSettled(db, listing, retention, today, id);
    }
  }

  lemma RowStaysSettled(db: Backups, listing: seq<Snapshot>, retention: Retention, today: int, id: int)
    requires WellFormed(db) && IsListing(db, listing) && Complete(retention) && 2 <= today && Settled(db, today)
    requires id in Rotated(db, listing, retention, today)
    ensures var row := Rotated(db, listing, retention, today)[id]; row.id == id && SettledRow(row, today)
  {
    hide Rotated, IsListing, Period, Promotion, Due;
    var row := Rotated(db, listing, retention, today)[id];
    TierAfter(db, listing, retention, today, id);
    assert SettledRow(db[id], today);
    if row.tier != db[id].tier {
      PromotedRow(db, listing, today, id, row.tier.value);
      EndedIsPast(row.tier.value, today);
    }
  }

  /** What a promotion says about the row it names. */
  lemma PromotedRow(db: Backups, listing: seq<Snapshot>, today: int, id: int, t: Tier)
    requires WellFormed(db) && IsListing(db, listing) && 2 <= today && t != Hourly
    requires Promote(id, t) in Promotion(listing, today, t)
    ensures id in db && id in IdSet(listing) && db[id].tier == Some(Source(t)) && InPeriod(db[id], t, Ended(t, today))
    ensures Due(t, today) && !HasMember(listing, t, t, Ended(t, today))
    ensures forall other :: Promote(other, t) in Promotion(listing, today, t) ==> other == id
  {
    hide Period, Due;
    PromotesExactlyWhen(listing, today, t);
    var c: Snapshot :| Promotion(listing, today, t) == [Promote(c.id, t)] && IsCandidate(listing, t, Ended(t, today), c);
    assert c.id == id;
  }

  // ─── One per period ───────────────────────────────────────────────────────

  /** The tier holds a snapshot of the period that just ended which the listing does not show. */
  predicate HiddenMember(db: Backups, listing: seq<Snapshot>, t: Tier, period: int) {
    exists id <- db.Keys :: id !in IdSet(listing) && db[id].tier == Some(t) && InPeriod(db[id], t, period)
  }

  predicate PromotesBesideHidden(db: Backups, listing: seq<Snapshot>, today: int, t: Tier)
    requires 2 <= today
  {
    Promotion(listing, today, t) != [] && HiddenMember(db, listing, t, Ended(t, today))
  }

  /**
    A rotation keeps one snapshot per period exactly when it promotes nothing to a tier whose
    snapshot of that period is hidden beyond the listing.
  */
  lemma OnePerPeriodIff(db: Backups, listing: seq<Snapshot>, retention: Retention, today: int)
    requires WellFormed(db) && IsListing(db, listing) && Complete(retention) && 2 <= today && OnePerPeriod(db)
    ensures OnePerPeriod(Rotated(db, listing, retention, today))
      <==> forall t: Tier :: t != Hourly ==> !PromotesBesideHidden(db, listing, today, t)
  {
    var after := Rotated(db, listing, retention, today);
    if forall t: Tier :: t != Hourly ==> !PromotesBesideHidden(db, listing, today, t) {
      forall a, b | a in after && b in after && a != b ensures !SamePeriod(after[a], after[b]) {
        NoClash(db, listing, retention, today, a, b);
      }
    } else {
      var t: Tier :| t != Hourly && PromotesBesideHidden(db, listing, today, t);
      BesideHiddenClashes(db, listing, retention, today, t);
    }
  }

  lemma NoClash(db: Backups, listing: seq<Snapshot>, retention: Retention, today: int, a: int, b: int)
    requires WellFormed(db) && IsListing(db, listing) && Complete(retention) && 2 <= today && OnePerPeriod(db)
    requires forall t: Tier :: t != Hourly ==> !PromotesBesideHidden(db, listing, today, t)
    requires a != b && a in Rotated(db, listing, retention, today) && b in Rotated(db, listing, retention, today)
    ensures !SamePeriod(Rotated(db, listing, retention, today)[a], Rotated(db, listing, retention, today)[b])
  {
    hide Period, Due, Promotion, PromotesBesideHidden, ApplyActions, Actions;
    var x, y := Rotated(db, listing, retention, today)[a], Rotated(db, listing, retention, today)[b];
    TierAfter(db, listing, retention, today, a);
    TierAfter(db, listing, retention, today, b);
    if x.tier == y.tier && x.tier.Some? && x.tier.value != Hourly {
      var t := x.tier.value;
      if x.tier == db[a].tier && y.tier == db[b].tier {
        assert x == db[a] && y == db[b] && !SamePeriod(db[a], db[b]);
      } else if x.tier == db[a].tier {
        BesideListed(db, listing, today, t, b, a);
        PromotedRow(db, listing, today, b, t);
      } else if y.tier == db[b].tier {
        BesideListed(db, listing, today, t, a, b);
        PromotedRow(db, listing, today, a, t);
      } else {
        PromotedRow(db, listing, today, a, t);
      }
    }
  }

  lemma BesideListed(db: Backups, listing: seq<Snapshot>, today: int, t: Tier, promoted: int, other: int)
    requires WellFormed(db) && IsListing(db, listing) && 2 <= today && t != Hourly
    requires !PromotesBesideHidden(db, listing, today, t)
    requires Promote(promoted, t) in Promotion(listing, today, t)
    requires other in db && db[other].tier == Some(t)
    ensures !InPeriod(db[other], t, Ended(t, today))
  {
    if InPeriod(db[other], t, Ended(t, today)) && other in IdSet(listing) {
      ListedMember(db, listing, other, t, t, Ended(t, today));
    }
    PromotedRow(db, listing, today, promoted, t);
  }

  lemma BesideHiddenClashes(db: Backups, listing: seq<Snapshot>, retention: Retention, today: int, t: Tier)
    requires WellFormed(db) && IsListing(db, listing) && Complete(retention) && 2 <= today && t != Hourly
    requires PromotesBesideHidden(db, listing, today, t)
    ensures !OnePerPeriod(Rotated(db, listing, retention, today))
  {
    hide Period, Due;
    var promotion := Promotion(listing, today, t);
    PromotesExactlyWhen(listing, today, t);
    var id := promotion[0].id;
    var hidden :| hidden in db.Keys && hidden !in IdSet(listing) && db[hidden].tier == Some(t) && InPeriod(db[hidden], t, Ended(t, today));
    assert Promote(id, t) in promotion;
    PromotedRow(db, listing, today, id, t);
    BothOfPeriod(db, listing, retention, today, t, id, hidden);
  }

  lemma BothOfPeriod(db: Backups, listing: seq<Snapshot>, retention: Retention, today: int, t: Tier, promoted: int, hidden: int)
    requires WellFormed(db) && IsListing(db, listing) && Complete(retention) && 2 <= today && t != Hourly
    requires Promote(promoted, t) in Promotion(listing, today, t)
    requires hidden in db && hidden !in IdSet(listing) && db[hidden].tier == Some(t)
    requires InPeriod(db[hidden], t, Ended(t, today))
    ensures !OnePerPeriod(Rotated(db, listing, retention, today))
  {
    hide Period, Due, Promotion;
    var after := Rotated(db, listing, retention, today);
    PromotedRow(db, listing, today, promoted, t);
    PromotedAfter(db, listing, retention, today, promoted, t);
    UnlistedAfter(db, listing, retention, today, hidden);
    assert SamePeriod(after[promoted], after[hidden]);
  }

  /** With at most 500 snapshots nothing is hidden. */
  lemma SmallListingShowsAll(db: Backups, listing: seq<Snapshot>)
    requires IsListing(db, listing) && |db| <= LISTING_LIMIT
    ensures IdSet(listing) == db.Keys
  {
    IdSetSize(listing);
    assert IdSet(listing) <= db.Keys;
    assert |db.Keys - IdSet(listing)| == |db.Keys| - |IdSet(listing)|;
    assert db.Keys == IdSet(listing) + (db.Keys - IdSet(listing));
  }

  // ─── Coverage of the period that just ended ───────────────────────────────

  /** Some snapshot of the period is in tier `t`, or was until this rotation promoted it further. */
  predicate Covered(db: Backups, after: Backups, t: Tier, period: int) {
    exists id <- after.Keys :: id in db && InPeriod(after[id], t, period)
      && (after[id].tier == Some(t) || db[id].tier == Some(t))
  }

  predicate InTierBefore(db: Backups, t: Tier, p: Tier, period: int) {
    exists id <- db.Keys :: db[id].tier == Some(t) && InPeriod(db[id], p, period)
  }

  /**
    On the first day of a period of tier `t`, the period that just ended is covered after the
    rotation exactly when the tier held a snapshot of it or its source tier shows one.
  */
  lemma CoveredIff(db: Backups, listing: seq<Snapshot>, retention: Retention, today: int, t: Tier)
    requires WellFormed(db) && IsListing(db, listing) && Complete(retention) && 2 <= today && Settled(db, today)
    requires t != Hourly && Due(t, today)
    ensures Covered(db, Rotated(db, listing, retention, today), t, Ended(t, today))
      <==> InTierBefore(db, t, t, Ended(t, today)) || HasMember(listing, Source(t), t, Ended(t, today))
  {
    hide *;
    var period := Ended(t, today);
    var after := Rotated(db, listing, retention, today);
    if Covered(db, after, t, period) {
      CoveredOnlyIf(db, listing, retention, today, t);
    } else if HasMember(listing, t, t, period) {
      NewestOfTierStays(db, listing, retention, today, t);
    } else {
      if InTierBefore(db, t, t, period) {
        HiddenStays(db, listing, retention, today, t);
      }
      if HasMember(listing, Source(t), t, period) {
        SourceCovers(db, listing, retention, today, t);
      }
    }
  }

  /** Otherwise a candidate of the source tier is promoted. */
  lemma SourceCovers(db: Backups, listing: seq<Snapshot>, retention: Retention, today: int, t: Tier)
    requires WellFormed(db) && IsListing(db, listing) && Complete(retention) && 2 <= today
    requires t != Hourly && Due(t, today)
    requires !HasMember(listing, t, t, Ended(t, today)) && HasMember(listing, Source(t), t, Ended(t, today))
    ensures Covered(db, Rotated(db, listing, retention, today), t, Ended(t, today))
  {
    hide Period, Due;
    var promotion := Promotion(listing, today, t);
    PromotesExactlyWhen(listing, today, t);
    var id := promotion[0].id;
    assert Promote(id, t) in promotion;
    PromotedCovers(db, listing, retention, today, t, id);
  }

  lemma PromotedCovers(db: Backups, listing: seq<Snapshot>, retention: Retention, today: int, t: Tier, id: int)
    requires WellFormed(db) && IsListing(db, listing) && Complete(retention) && 2 <= today && t != Hourly
    requires Promote(id, t) in Promotion(listing, today, t)
    ensures Covered(db, Rotated(db, listing, retention, today), t, Ended(t, today))
  {
    hide Period, Due, Promotion;
    PromotedRow(db, listing, today, id, t);
    PromotedAfter(db, listing, retention, today, id, t);
    assert id in Rotated(db, listing, retention, today).Keys;
  }

  lemma CoveredOnlyIf(db: Backups, listing: seq<Snapshot>, retention: Retention, today: int, t: Tier)
    requires WellFormed(db) && IsListing(db, listing) && Complete(retention) && 2 <= today
    requires t != Hourly && Covered(db, Rotated(db, listing, retention, today), t, Ended(t, today))
    ensures InTierBefore(db, t, t, Ended(t, today)) || HasMember(listing, Source(t), t, Ended(t, today))
  {
    hide Period, Due, Promotion, Rotated, IsListing;
    var after := Rotated(db, listing, retention, today);
    var id :| id in after.Keys && id in db && InPeriod(after[id], t, Ended(t, today))
      && (after[id].tier == Some(t) || db[id].tier == Some(t));
    TierAfter(db, listing, retention, today, id);
    if db[id].tier == Some(t) {
      assert InTierBefore(db, t, t, Ended(t, today));
    } else {
      PromotesExactlyWhen(listing, today, t);
    }
  }

  /** A snapshot of the tier that the listing does not show is left alone. */
  lemma HiddenStays(db: Backups, listing: seq<Snapshot>, retention: Retention, today: int, t: Tier)
    requires WellFormed(db) && IsListing(db, listing) && Complete(retention) && 2 <= today
    requires InTierBefore(db, t, t, Ended(t, today)) && !HasMember(listing, t, t, Ended(t, today))
    ensures Covered(db, Rotated(db, listing, retention, today), t, Ended(t, today))
  {
    var id :| id in db.Keys && db[id].tier == Some(t) && InPeriod(db[id], t, Ended(t, today));
    if id in IdSet(listing) { ListedMember(db, listing, id, t, t, Ended(t, today)); }
    UnlistedAfter(db, listing, retention, today, id);
  }

  /** Among the listed snapshots of the tier, the newest is of the ended period if any is. */
  lemma NewestIsOfEndedPeriod(db: Backups, listing: seq<Snapshot>, today: int, t: Tier)
    requires IsListing(db, listing) && 2 <= today && Settled(db, today)
    requires t != Hourly && HasMember(listing, t, t, Ended(t, today))
    ensures Ranked(listing, t) != []
    ensures var first := Ranked(listing, t)[0];
      first in listing && first.tier == Some(t) && InPeriod(first, t, Ended(t, today))
  {
    hide Period, Ranked, InTier;
    var ranked := Ranked(listing, t);
    RankedFacts(listing, t);
    var m :| m in listing && m.tier == Some(t) && InPeriod(m, t, Ended(t, today));
    assert m in ranked;
    var i :| 0 <= i < |ranked| && ranked[i] == m;
    var first := ranked[0];
    assert first in ranked && db[first.id] == first;
    PeriodMonotone(t, DayOf(m), DayOf(first));
    if today <= DayOf(first) {
      PeriodMonotone(t, today, DayOf(first));
    } else {
      PeriodMonotone(t, DayOf(first), today - 1);
    }
  }

  /** So the tier stays covered: its newest snapshot outlives any retention. */
  lemma NewestOfTierStays(db: Backups, listing: seq<Snapshot>, retention: Retention, today: int, t: Tier)
    requires WellFormed(db) && IsListing(db, listing) && Complete(retention) && 2 <= today && Settled(db, today)
    requires t != Hourly && HasMember(listing, t, t, Ended(t, today))
    ensures Covered(db, Rotated(db, listing, retention, today), t, Ended(t, today))
  {
    hide Period, Due, Promotion, Rotated, Settled, Ranked, DistinctIds, Descending;
    var after := Rotated(db, listing, retention, today);
    NewestIsOfEndedPeriod(db, listing, today, t);
    var first := Ranked(listing, t)[0];
    FirstIsNotDeleted(listing, retention, today, t);
    NotDeletedStays(db, listing, retention, today, first.id);
    assert first.id in after.Keys && db[first.id] == first;
    assert InPeriod(after[first.id], t, Ended(t, today));
  }

  lemma NotDeletedStays(db: Backups, listing: seq<Snapshot>, retention: Retention, today: int, id: int)
    requires WellFormed(db) && IsListing(db, listing) && Complete(retention) && 2 <= today && id in db
    requires Delete(id) !in Actions(listing, retention, today)
    ensures id in Rotated(db, listing, retention, today)
    ensures Rotated(db, listing, retention, today)[id].createdAt == db[id].createdAt
  {
    hide Actions, OncePerId, IsListing;
    var actions := Actions(listing, retention, today);
    RotationActions(db, listing, retention, today);
    RowAfter(db, actions, id);
    if id in Ids(actions) {
      var a :| a in actions && a.id == id;
      assert a != Delete(id);
    }
  }

  lemma FirstIsNotDeleted(listing: seq<Snapshot>, retention: Retention, today: int, t: Tier)
    requires DistinctIds(listing) && Complete(retention) && 2 <= today && Ranked(listing, t) != []
    ensures Delete(Ranked(listing, t)[0].id) !in Actions(listing, retention, today)
  {
    hide Actions, Ranked, DoomedIn, Doomed, DistinctIds, OncePerId, Promotions;
    var first := Ranked(listing, t)[0];
    var actions := Actions(listing, retention, today);
    RankedFacts(listing, t);
    InTierFacts(listing, t);
    ActionsIds(listing, retention, today);
    assert first in Ranked(listing, t);
    assert first in WithinRetention(listing, retention[t], t);
    assert first.id in TierIds(listing, t);
    DoomedAndWithin(listing, retention[t], t);
    DoomedOfTier(listing, retention, TIERS, t, first.id);
    assert Delete(first.id) in actions ==> Delete(first.id).id in Ids(actions);
  }
}
