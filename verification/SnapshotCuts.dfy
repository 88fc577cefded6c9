/**
  A rotation that is cut short: each action is a commit of its own, so a crash leaves the store
  after any number of the first actions.
*/
module SnapshotCuts {
  import opened Options
  import opened GfsRotation
  import opened GfsBounds
  import opened SnapshotScheduler

  lemma PerformedFacts(db: Backups, listing: seq<Snapshot>, retention: Retention, today: int, commits: nat)
    requires IsListing(db, listing) && Complete(retention) && 2 <= today
    ensures var part := Performed(listing, retention, today, commits);
      && OncePerId(part) && (forall a :: a in part ==> a in Actions(listing, retention, today))
      && Ids(part) <= IdSet(listing)
  {
    hide Actions, IsListing;
    RotationActions(db, listing, retention, today);
    var actions, part := Actions(listing, retention, today), Performed(listing, retention, today, commits);
    forall a | a in part ensures a in actions && a.id in Ids(actions) {
      var i :| 0 <= i < |part| && part[i] == a;
      assert actions[i] == a;
    }
  }

  /** A row of tier `t` after some of the actions was in it before, or one of them promoted it. */
  lemma CutTier(db: Backups, listing: seq<Snapshot>, retention: Retention, today: int, commits: nat, id: int)
    requires WellFormed(db) && IsListing(db, listing) && Complete(retention) && 2 <= today
    requires id in Cut(db, listing, retention, today, commits)
    ensures var row := Cut(db, listing, retention, today, commits)[id];
      && id in db && row == db[id].(tier := row.tier)
      && (row.tier == db[id].tier ||
          (row.tier.Some? && row.tier.value != Hourly && Promote(id, row.tier.value) in Performed(listing, retention, today, commits)
           && Promote(id, row.tier.value) in Promotion(listing, today, row.tier.value)))
  {
    hide Actions, Promotion, IsListing, OncePerId, Performed;
    var part := Performed(listing, retention, today, commits);
    PerformedFacts(db, listing, retention, today, commits);
    RowAfter(db, part, id);
    if id in Ids(part) {
      var a :| a in part && a.id == id;
      assert a != Delete(id);
      ListingDistinct(db, listing);
      PromoteInActions(listing, retention, today, id, a.newTier);
    }
  }

  lemma CutPromoted(db: Backups, listing: seq<Snapshot>, retention: Retention, today: int, commits: nat, id: int, t: Tier)
    requires WellFormed(db) && IsListing(db, listing) && Complete(retention) && 2 <= today && t != Hourly && id in db
    requires Promote(id, t) in Performed(listing, retention, today, commits)
    ensures var after := Cut(db, listing, retention, today, commits); id in after && after[id] == db[id].(tier := Some(t))
  {
    hide Actions, IsListing, OncePerId, Performed;
    PerformedFacts(db, listing, retention, today, commits);
    RowAfter(db, Performed(listing, retention, today, commits), id);
  }

  lemma CutUnlisted(db: Backups, listing: seq<Snapshot>, retention: Retention, today: int, commits: nat, id: int)
    requires IsListing(db, listing) && Complete(retention) && 2 <= today && id in db && id !in IdSet(listing)
    ensures var after := Cut(db, listing, retention, today, commits); id in after && after[id] == db[id]
  {
    hide Actions, IsListing, OncePerId, Performed;
    PerformedFacts(db, listing, retention, today, commits);
    RowAfter(db, Performed(listing, retention, today, commits), id);
  }

  // ─── What every cut keeps ─────────────────────────────────────────────────

  lemma CutKeepsSettled(db: Backups, listing: seq<Snapshot>, retention: Retention, today: int, commits: nat)
    requires WellFormed(db) && IsListing(db, listing) && Complete(retention) && 2 <= today && Settled(db, today)
    ensures WellFormed(Cut(db, listing, retention, today, commits)) && Settled(Cut(db, listing, retention, today, commits), today)
  {
    hide Cut, IsListing, Period, Promotion, Due, Performed;
    var after := Cut(db, listing, retention, today, commits);
    forall id | id in after ensures after[id].id == id && SettledRow(after[id], today) {
      CutTier(db, listing, retention, today, commits, id);
      assert SettledRow(db[id], today);
      if after[id].tier != db[id].tier {
        PromotedRow(db, listing, today, id, after[id].tier.value);
        EndedIsPast(after[id].tier.value, today);
      }
    }
  }

  /** Among the performed actions is a promotion to a tier whose snapshot of that period is hidden. */
  ghost predicate CutPromotesBeside(db: Backups, listing: seq<Snapshot>, retention: Retention, today: int, commits: nat, t: Tier)
    requires Complete(retention) && 2 <= today
  {
    t != Hourly && PromotesBesideHidden(db, listing, today, t)
    && exists id :: Promote(id, t) in Performed(listing, retention, today, commits)
  }

  /** However far it got, a rotation keeps one snapshot per period exactly when it promoted nothing beside a hidden one. */
  lemma CutOnePerPeriodIff(db: Backups, listing: seq<Snapshot>, retention: Retention, today: int, commits: nat)
    requires WellFormed(db) && IsListing(db, listing) && Complete(retention) && 2 <= today && OnePerPeriod(db)
    ensures OnePerPeriod(Cut(db, listing, retention, today, commits))
      <==> forall t: Tier :: !CutPromotesBeside(db, listing, retention, today, commits, t)
  {
    hide Cut, IsListing, PromotesBesideHidden, Performed;
    var after := Cut(db, listing, retention, today, commits);
    if t: Tier :| CutPromotesBeside(db, listing, retention, today, commits, t) {
      CutBesideClashes(db, listing, retention, today, commits, t);
    } else {
      forall a, b | a in after && b in after && a != b ensures !SamePeriod(after[a], after[b]) {
        CutNoClash(db, listing, retention, today, commits, a, b);
      }
    }
  }

  lemma CutNoClash(db: Backups, listing: seq<Snapshot>, retention: Retention, today: int, commits: nat, a: int, b: int)
    requires WellFormed(db) && IsListing(db, listing) && Complete(retention) && 2 <= today && OnePerPeriod(db)
    requires forall t: Tier :: !CutPromotesBeside(db, listing, retention, today, commits, t)
    requires a != b && a in Cut(db, listing, retention, today, commits) && b in Cut(db, listing, retention, today, commits)
    ensures !SamePeriod(Cut(db, listing, retention, today, commits)[a], Cut(db, listing, retention, today, commits)[b])
  {
    hide Period, Due, Promotion, PromotesBesideHidden, Cut, Performed;
    var x, y := Cut(db, listing, retention, today, commits)[a], Cut(db, listing, retention, today, commits)[b];
    CutTier(db, listing, retention, today, commits, a);
    CutTier(db, listing, retention, today, commits, b);
    if x.tier == y.tier && x.tier.Some? && x.tier.value != Hourly {
      var t := x.tier.value;
      assert !CutPromotesBeside(db, listing, retention, today, commits, t);
      if x.tier == db[a].tier && y.tier == db[b].tier {
        assert x == db[a] && y == db[b] && !SamePeriod(db[a], db[b]);
      } else if x.tier == db[a].tier {
        BesideListed(db, listing, today, t, b, a);
        PromotedRow(db, listing, today, b, t);
      } else if y.tier == db[b].tier {
        BesideListed(db, listing, today, t, a, b);
        PromotedRow(db, listing, today, a, t);
      } else {
        PromotedRow(db, listing, today, a, t);
      }
    }
  }

  lemma CutBesideClashes(db: Backups, listing: seq<Snapshot>, retention: Retention, today: int, commits: nat, t: Tier)
    requires WellFormed(db) && IsListing(db, listing) && Complete(retention) && 2 <= today
    requires CutPromotesBeside(db, listing, retention, today, commits, t)
    ensures !OnePerPeriod(Cut(db, listing, retention, today, commits))
  {
    hide Period, Due, Promotion, Performed, Cut;
    var after := Cut(db, listing, retention, today, commits);
    var id :| Promote(id, t) in Performed(listing, retention, today, commits);
    PerformedFacts(db, listing, retention, today, commits);
    ListingDistinct(db, listing);
    PromoteInActions(listing, retention, today, id, t);
    PromotedRow(db, listing, today, id, t);
    CutPromoted(db, listing, retention, today, commits, id, t);
    HiddenClash(db, listing, today, t, id, after, retention, commits);
  }

  lemma HiddenClash(db: Backups, listing: seq<Snapshot>, today: int, t: Tier, id: int, after: Backups, retention: Retention, commits: nat)
    requires WellFormed(db) && IsListing(db, listing) && Complete(retention) && 2 <= today && t != Hourly
    requires HiddenMember(db, listing, t, Ended(t, today)) && after == Cut(db, listing, retention, today, commits)
    requires id in db && id in IdSet(listing) && InPeriod(db[id], t, Ended(t, today))
    requires id in after && after[id] == db[id].(tier := Some(t))
    ensures !OnePerPeriod(after)
  {
    hide Period, IsListing, Performed;
    var hidden :| hidden in db.Keys && hidden !in IdSet(listing) && db[hidden].tier == Some(t) && InPeriod(db[hidden], t, Ended(t, today));
    CutUnlisted(db, listing, retention, today, commits, hidden);
    hide Cut;
    assert SamePeriod(after[id], after[hidden]);
  }

  /**
    Promotions come first, so wherever it stops a rotation loses no coverage it would have given:
    the period is covered, or its candidate is still in the source tier.
  */
  lemma CutKeepsCandidate(db: Backups, listing: seq<Snapshot>, retention: Retention, today: int, commits: nat, t: Tier)
    requires WellFormed(db) && IsListing(db, listing) && Complete(retention) && 2 <= today && t != Hourly
    requires Covered(db, Rotated(db, listing, retention, today), t, Ended(t, today))
    ensures var cut := Cut(db, listing, retention, today, commits);
      Covered(db, cut, t, Ended(t, today)) || InTierBefore(cut, Source(t), t, Ended(t, today))
  {
    hide Period, Rotated, Cut, Performed, Promotion, IsListing;
    var full, cut := Rotated(db, listing, retention, today), Cut(db, listing, retention, today, commits);
    var id :| id in full.Keys && id in db && InPeriod(full[id], t, Ended(t, today)) && (full[id].tier == Some(t) || db[id].tier == Some(t));
    TierAfter(db, listing, retention, today, id);
    StillThere(db, listing, retention, today, commits, id);
    CutTier(db, listing, retention, today, commits, id);
    assert cut[id].createdAt == db[id].createdAt && full[id].createdAt == db[id].createdAt;
    assert InPeriod(cut[id], t, Ended(t, today)) && id in cut.Keys;
    if db[id].tier != Some(t) && cut[id].tier != Some(t) {
      PromotedRow(db, listing, today, id, t);
      NotYet(db, listing, retention, today, commits, id, t);
    }
  }

  /** What the whole rotation does not delete, none of its prefixes does. */
  lemma StillThere(db: Backups, listing: seq<Snapshot>, retention: Retention, today: int, commits: nat, id: int)
    requires IsListing(db, listing) && Complete(retention) && 2 <= today
    requires id in db && id in Rotated(db, listing, retention, today)
    ensures id in Cut(db, listing, retention, today, commits)
  {
    hide Actions, IsListing, OncePerId, Performed;
    var part := Performed(listing, retention, today, commits);
    PerformedFacts(db, listing, retention, today, commits);
    RotationActions(db, listing, retention, today);
    RowAfter(db, Actions(listing, retention, today), id);
    RowAfter(db, part, id);
    if id in Ids(part) {
      var a :| a in part && a.id == id;
      assert a in Actions(listing, retention, today) && a != Delete(id);
    }
  }

  /** A row the whole rotation promotes to `t` is in `t` or, before that, where it was. */
  lemma NotYet(db: Backups, listing: seq<Snapshot>, retention: Retention, today: int, commits: nat, id: int, t: Tier)
    requires WellFormed(db) && IsListing(db, listing) && Complete(retention) && 2 <= today && t != Hourly
    requires Promote(id, t) in Promotion(listing, today, t)
    requires id in db && id in Cut(db, listing, retention, today, commits) && Cut(db, listing, retention, today, commits)[id].tier != Some(t)
    ensures Cut(db, listing, retention, today, commits)[id] == db[id]
  {
    hide Actions, IsListing, Performed, Promotion;
    var part := Performed(listing, retention, today, commits);
    PerformedFacts(db, listing, retention, today, commits);
    RotationActions(db, listing, retention, today);
    ListingDistinct(db, listing);
    PromoteInActions(listing, retention, today, id, t);
    RowAfter(db, part, id);
    if id in Ids(part) {
      var a :| a in part && a.id == id;
      SameAction(Actions(listing, retention, today), a, Promote(id, t));
    }
  }

  lemma SameAction(actions: seq<Action>, a: Action, b: Action)
    requires OncePerId(actions) && a in actions && b in actions && a.id == b.id
    ensures a == b
  {
    var i :| 0 <= i < |actions| && actions[i] == a;
    var j :| 0 <= j < |actions| && actions[j] == b;
  }
}
