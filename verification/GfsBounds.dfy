/** What one rotation does to each tier, for any list of snapshots with distinct ids. */
module GfsBounds {
  import opened Options
  import opened GfsRotation

  predicate DistinctIds(s: seq<Snapshot>) {
    forall i, j :: 0 <= i < j < |s| ==> s[i].id != s[j].id
  }

  predicate Descending(s: seq<Snapshot>) {
    forall i, j :: 0 <= i < j < |s| ==> s[j].createdAt <= s[i].createdAt
  }

  function IdSet(s: seq<Snapshot>): set<int> {
    set x <- s :: x.id
  }

  /** A tier as the deletion step sees it: its members, newest first. */
  function Ranked(snapshots: seq<Snapshot>, t: Tier): seq<Snapshot> {
    NewestFirst(InTier(snapshots, t))
  }

  predicate Newest(first: Snapshot, rest: seq<Snapshot>) {
    forall x :: x in rest ==> x.createdAt <= first.createdAt
  }

  lemma DescendingCons(first: Snapshot, rest: seq<Snapshot>)
    ensures Descending([first] + rest) <==> Descending(rest) && Newest(first, rest)
  {
    var s := [first] + rest;
    if Descending(s) {
      forall i, j | 0 <= i < j < |rest| ensures rest[j].createdAt <= rest[i].createdAt {
        assert rest[i] == s[i + 1] && rest[j] == s[j + 1];
      }
      forall x | x in rest ensures x.createdAt <= first.createdAt {
        var i :| 0 <= i < |rest| && rest[i] == x;
        assert s[0] == first && s[i + 1] == x;
      }
    }
    if Descending(rest) && Newest(first, rest) {
      forall i, j | 0 <= i < j < |s| ensures s[j].createdAt <= s[i].createdAt {
        assert s[j] == rest[j - 1] && rest[j - 1] in rest;
        if i != 0 { assert s[i] == rest[i - 1]; }
      }
    }
  }

  predicate Fresh(id: int, rest: seq<Snapshot>) {
    forall x :: x in rest ==> x.id != id
  }

  lemma DistinctCons(first: Snapshot, rest: seq<Snapshot>)
    ensures DistinctIds([first] + rest) <==> DistinctIds(rest) && Fresh(first.id, rest)
  {
    var s := [first] + rest;
    if DistinctIds(s) {
      forall i, j | 0 <= i < j < |rest| ensures rest[i].id != rest[j].id {
        assert rest[i] == s[i + 1] && rest[j] == s[j + 1];
      }
      forall x | x in rest ensures x.id != first.id {
        var i :| 0 <= i < |rest| && rest[i] == x;
        assert s[0] == first && s[i + 1] == x;
      }
    }
    if DistinctIds(rest) && Fresh(first.id, rest) {
      forall i, j | 0 <= i < j < |s| ensures s[i].id != s[j].id {
        assert s[j] == rest[j - 1] && rest[j - 1] in rest;
        if i != 0 { assert s[i] == rest[i - 1]; }
      }
    }
  }

  lemma {:induction false} InsertFacts(s: Snapshot, sorted: seq<Snapshot>)
    requires Descending(sorted)
    ensures Descending(InsertNewest(s, sorted)) && |InsertNewest(s, sorted)| == |sorted| + 1
    ensures forall x :: x in InsertNewest(s, sorted) <==> x == s || x in sorted
    ensures DistinctIds(sorted) && Fresh(s.id, sorted) ==> DistinctIds(InsertNewest(s, sorted))
  {
    hide Descending, DistinctIds;
    if sorted != [] {
      var first, rest := sorted[0], sorted[1..];
      assert sorted == [first] + rest;
      DescendingCons(first, rest);
      DistinctCons(first, rest);
      if s.createdAt < first.createdAt {
        InsertFacts(s, rest);
        DescendingCons(first, InsertNewest(s, rest));
        DistinctCons(first, InsertNewest(s, rest));
      } else {
        DescendingCons(s, sorted);
        DistinctCons(s, sorted);
      }
    } else {
      DescendingCons(s, []);
      DistinctCons(s, []);
      assert [s] + [] == [s];
    }
  }

  lemma {:induction false} SortFacts(s: seq<Snapshot>)
    ensures Descending(NewestFirst(s)) && |NewestFirst(s)| == |s|
    ensures forall x :: x in NewestFirst(s) <==> x in s
    ensures DistinctIds(s) ==> DistinctIds(NewestFirst(s))
  {
    if s != [] {
      hide Descending, DistinctIds;
      SortFacts(s[1..]);
      InsertFacts(s[0], NewestFirst(s[1..]));
      assert s == [s[0]] + s[1..];
      DistinctCons(s[0], s[1..]);
    }
  }

  lemma {:induction false} InTierFacts(s: seq<Snapshot>, t: Tier)
    ensures forall x :: x in InTier(s, t) <==> x in s && x.tier == Some(t)
    ensures DistinctIds(s) ==> DistinctIds(InTier(s, t))
  {
    if s != [] {
      hide DistinctIds;
      InTierFacts(s[1..], t);
      assert s == [s[0]] + s[1..];
      DistinctCons(s[0], s[1..]);
      DistinctCons(s[0], InTier(s[1..], t));
      assert [] + InTier(s[1..], t) == InTier(s[1..], t);
    }
  }

  lemma RankedFacts(s: seq<Snapshot>, t: Tier)
    ensures Descending(Ranked(s, t)) && |Ranked(s, t)| == |InTier(s, t)|
    ensures forall x :: x in Ranked(s, t) <==> x in s && x.tier == Some(t)
    ensures DistinctIds(s) ==> DistinctIds(Ranked(s, t))
  {
    InTierFacts(s, t);
    SortFacts(InTier(s, t));
  }

  lemma {:induction false} IdSetSize(s: seq<Snapshot>)
    requires DistinctIds(s)
    ensures |IdSet(s)| == |s|
  {
    if s == [] {
      assert IdSet(s) == {};
    } else {
      var first, rest := s[0], s[1..];
      assert s == [first] + rest;
      DistinctCons(first, rest);
      hide DistinctIds;
      IdSetSize(rest);
      assert IdSet(s) == {first.id} + IdSet(rest);
    }
  }

  /** With distinct ids, an id stands for one snapshot. */
  lemma SameIdSameSnapshot(s: seq<Snapshot>, x: Snapshot, y: Snapshot)
    requires DistinctIds(s) && x in s && y in s && x.id == y.id
    ensures x == y
  {
    var i :| 0 <= i < |s| && s[i] == x;
    var j :| 0 <= j < |s| && s[j] == y;
    assert !(i < j) && !(j < i);
  }

  // ─── Promotions ───────────────────────────────────────────────────────────

  lemma {:induction false} FirstInPeriodFacts(sorted: seq<Snapshot>, t: Tier, period: int)
    requires Descending(sorted)
    ensures match FirstInPeriod(sorted, t, period)
      case None => forall x :: x in sorted ==> !InPeriod(x, t, period)
      case Some(c) =>
        && c in sorted && InPeriod(c, t, period)
        && forall x :: x in sorted && InPeriod(x, t, period) ==> x.createdAt <= c.createdAt
  {
    if sorted != [] {
      FirstInPeriodFacts(sorted[1..], t, period);
      assert sorted == [sorted[0]] + sorted[1..];
      forall x | x in sorted ensures x.createdAt <= sorted[0].createdAt {
        var i :| 0 <= i < |sorted| && sorted[i] == x;
      }
    }
  }

  predicate HasMember(snapshots: seq<Snapshot>, t: Tier, p: Tier, period: int) {
    exists x <- snapshots :: x.tier == Some(t) && InPeriod(x, p, period)
  }

  /** A newest member of the source tier dating from the period. */
  predicate IsCandidate(snapshots: seq<Snapshot>, t: Tier, period: int, c: Snapshot) {
    && c in snapshots && c.tier == Some(Source(t)) && InPeriod(c, t, period)
    && forall x <- snapshots :: x.tier == Some(Source(t)) && InPeriod(x, t, period) ==> x.createdAt <= c.createdAt
  }

  /**
    Something is promoted to `t` exactly when the first day of a period has come, the tier has no
    snapshot of the period that just ended and its source tier has one; it is then a newest one.
  */
  lemma PromotesExactlyWhen(snapshots: seq<Snapshot>, today: int, t: Tier)
    requires 2 <= today && t != Hourly
    ensures Promotion(snapshots, today, t) != [] <==>
      && Due(t, today)
      && !HasMember(snapshots, t, t, Ended(t, today))
      && HasMember(snapshots, Source(t), t, Ended(t, today))
    ensures Promotion(snapshots, today, t) != [] ==>
      exists c: Snapshot :: Promotion(snapshots, today, t) == [Promote(c.id, t)]
        && IsCandidate(snapshots, t, Ended(t, today), c)
  {
    var period := Ended(t, today);
    InTierFacts(snapshots, t);
    RankedFacts(snapshots, Source(t));
    FirstInPeriodFacts(Ranked(snapshots, Source(t)), t, period);
    assert AnyInPeriod(InTier(snapshots, t), t, period) <==> HasMember(snapshots, t, t, period);
    match FirstInPeriod(Ranked(snapshots, Source(t)), t, period)
    case None =>
    case Some(c) =>
      assert IsCandidate(snapshots, t, period, c);
      assert HasMember(snapshots, Source(t), t, period);
  }

  // ─── Each id gets at most one action ──────────────────────────────────────

  function TierIds(snapshots: seq<Snapshot>, t: Tier): set<int> {
    IdSet(InTier(snapshots, t))
  }

  lemma TierIdsDisjoint(snapshots: seq<Snapshot>, t: Tier, u: Tier)
    requires DistinctIds(snapshots) && t != u
    ensures TierIds(snapshots, t) !! TierIds(snapshots, u)
  {
    InTierFacts(snapshots, t);
    InTierFacts(snapshots, u);
    forall id | id in TierIds(snapshots, t) && id in TierIds(snapshots, u) ensures false {
      var x :| x in InTier(snapshots, t) && x.id == id;
      var y :| y in InTier(snapshots, u) && y.id == id;
      SameIdSameSnapshot(snapshots, x, y);
    }
  }

  predicate OncePerId(actions: seq<Action>) {
    forall i, j :: 0 <= i < j < |actions| ==> actions[i].id != actions[j].id
  }

  lemma OnceConcat(a: seq<Action>, b: seq<Action>)
    requires OncePerId(a) && OncePerId(b) && Ids(a) !! Ids(b)
    ensures OncePerId(a + b)
  {
    forall i, j | 0 <= i < j < |a + b| ensures (a + b)[i].id != (a + b)[j].id {
      if i < |a| <= j {
        assert a[i].id in Ids(a) && b[j - |a|].id in Ids(b);
      }
    }
  }

  lemma IdsConcat(a: seq<Action>, b: seq<Action>)
    ensures Ids(a + b) == Ids(a) + Ids(b)
  {}

  lemma PromotionIds(snapshots: seq<Snapshot>, today: int, t: Tier)
    requires 2 <= today && t != Hourly
    ensures Ids(Promotion(snapshots, today, t)) <= TierIds(snapshots, Source(t))
    ensures |Promotion(snapshots, today, t)| <= 1
    ensures forall a :: a in Promotion(snapshots, today, t) ==> a.Promote? && a.newTier == t
  {
    PromotesExactlyWhen(snapshots, today, t);
    InTierFacts(snapshots, Source(t));
  }

  lemma {:induction false} DeleteAllButIds(items: seq<Snapshot>, spared: set<int>)
    ensures Ids(DeleteAllBut(items, spared)) == IdSet(items) - spared
    ensures DistinctIds(items) ==> OncePerId(DeleteAllBut(items, spared))
    ensures forall a :: a in DeleteAllBut(items, spared) ==> a.Delete?
  {
    if items == [] {
      assert Ids([]) == {} == IdSet(items);
    } else {
      DeleteAllButIds(items[1..], spared);
      assert items == [items[0]] + items[1..];
      var head := if items[0].id in spared then [] else [Delete(items[0].id)];
      IdsConcat(head, DeleteAllBut(items[1..], spared));
      assert IdSet(items) == {items[0].id} + IdSet(items[1..]);
      if DistinctIds(items) {
        forall x | x in items[1..] ensures x.id != items[0].id { var i :| 0 <= i < |items[1..]| && items[1..][i] == x; }
        OnceConcat(head, DeleteAllBut(items[1..], spared));
      }
    }
  }

  /** The ids a tier loses to its retention: those ranked at or beyond it and not spared. */
  function Doomed(snapshots: seq<Snapshot>, retention: int, t: Tier): set<int> {
    if retention <= 0 then {} else IdSet(Beyond(Ranked(snapshots, t), retention))
  }

  function DoomedIn(snapshots: seq<Snapshot>, retention: Retention, tiers: seq<Tier>): set<int>
    requires Complete(retention)
  {
    if tiers == [] then {}
    else
      var last := tiers[|tiers| - 1];
      DoomedIn(snapshots, retention, tiers[..|tiers| - 1]) + Doomed(snapshots, retention[last], last)
  }

  lemma DeletionIds(snapshots: seq<Snapshot>, retention: int, spared: set<int>, t: Tier)
    ensures Ids(Deletions(snapshots, retention, spared, t)) == Doomed(snapshots, retention, t) - spared
    ensures Ids(Deletions(snapshots, retention, spared, t)) <= TierIds(snapshots, t)
    ensures DistinctIds(snapshots) ==> OncePerId(Deletions(snapshots, retention, spared, t))
    ensures forall a :: a in Deletions(snapshots, retention, spared, t) ==> a.Delete?
  {
    RankedFacts(snapshots, t);
    InTierFacts(snapshots, t);
    if 0 < retention {
      DeleteAllButIds(Beyond(Ranked(snapshots, t), retention), spared);
      forall x | x in Beyond(Ranked(snapshots, t), retention) ensures x in Ranked(snapshots, t) {}
    } else {
      assert Ids([]) == {};
    }
  }

  /** The ids deleted from the first `tiers`, tier by tier. */
  lemma {:induction false} DeletionsOfTiersIds(snapshots: seq<Snapshot>, retention: Retention, spared: set<int>, tiers: seq<Tier>)
    requires Complete(retention) && DistinctIds(snapshots)
    requires forall i, j :: 0 <= i < j < |tiers| ==> tiers[i] != tiers[j]
    ensures var actions := DeletionsOfTiers(snapshots, retention, spared, tiers);
      && OncePerId(actions)
      && (forall a :: a in actions ==> a.Delete?)
      && Ids(actions) == DoomedIn(snapshots, retention, tiers) - spared
      && (forall id :: id in Ids(actions) ==> exists t <- tiers :: id in TierIds(snapshots, t))
  {
    if tiers == [] {
      assert Ids([]) == {};
    } else {
      var front, last := tiers[..|tiers| - 1], tiers[|tiers| - 1];
      assert tiers == front + [last];
      var before := DeletionsOfTiers(snapshots, retention, spared, front);
      var ofLast := Deletions(snapshots, retention[last], spared, last);
      DeletionsOfTiersIds(snapshots, retention, spared, front);
      DeletionIds(snapshots, retention[last], spared, last);
      forall id | id in Ids(before) && id in Ids(ofLast) ensures false {
        var t :| t in front && id in TierIds(snapshots, t);
        TierIdsDisjoint(snapshots, t, last);
      }
      OnceConcat(before, ofLast);
      IdsConcat(before, ofLast);
    }
  }

  lemma PromotionsIds(snapshots: seq<Snapshot>, today: int)
    requires 2 <= today && DistinctIds(snapshots)
    ensures var actions := Promotions(snapshots, today);
      && OncePerId(actions)
      && (forall a :: a in actions ==> a.Promote?)
      && Ids(actions) == Ids(Promotion(snapshots, today, Daily)) + Ids(Promotion(snapshots, today, Weekly))
        + Ids(Promotion(snapshots, today, Monthly)) + Ids(Promotion(snapshots, today, Yearly))
  {
    var d, w := Promotion(snapshots, today, Daily), Promotion(snapshots, today, Weekly);
    var m, y := Promotion(snapshots, today, Monthly), Promotion(snapshots, today, Yearly);
    PromotionIds(snapshots, today, Daily);
    PromotionIds(snapshots, today, Weekly);
    PromotionIds(snapshots, today, Monthly);
    PromotionIds(snapshots, today, Yearly);
    TierIdsDisjoint(snapshots, Hourly, Daily);
    TierIdsDisjoint(snapshots, Hourly, Weekly);
    TierIdsDisjoint(snapshots, Hourly, Monthly);
    TierIdsDisjoint(snapshots, Daily, Weekly);
    TierIdsDisjoint(snapshots, Daily, Monthly);
    TierIdsDisjoint(snapshots, Weekly, Monthly);
    IdsConcat(d, w);
    IdsConcat(d + w, m);
    IdsConcat(d + w + m, y);
    OnceConcat(d, w);
    OnceConcat(d + w, m);
    OnceConcat(d + w + m, y);
  }

  /** The ids promoted out of a tier: at most the one promoted to the next tier. */
  function Next(t: Tier): Option<Tier> {
    match t
    case Hourly => Some(Daily)
    case Daily => Some(Weekly)
    case Weekly => Some(Monthly)
    case Monthly => Some(Yearly)
    case Yearly => None
  }

  function PromotedFrom(snapshots: seq<Snapshot>, today: int, t: Tier): set<int>
    requires 2 <= today
  {
    if Next(t).None? then {} else Ids(Promotion(snapshots, today, Next(t).value))
  }

  lemma PromotedFromOther(snapshots: seq<Snapshot>, today: int, t: Tier, u: Tier)
    requires 2 <= today && DistinctIds(snapshots) && u != Hourly && Source(u) != t
    ensures Ids(Promotion(snapshots, today, u)) !! TierIds(snapshots, t)
  {
    PromotionIds(snapshots, today, u);
    TierIdsDisjoint(snapshots, Source(u), t);
  }

  lemma PromotedFromTier(snapshots: seq<Snapshot>, today: int, t: Tier)
    requires 2 <= today && DistinctIds(snapshots)
    ensures Ids(Promotions(snapshots, today)) * TierIds(snapshots, t) == PromotedFrom(snapshots, today, t)
  {
    PromotionsIds(snapshots, today);
    if t != Hourly { PromotedFromOther(snapshots, today, t, Daily); } else { PromotionIds(snapshots, today, Daily); }
    if t != Daily { PromotedFromOther(snapshots, today, t, Weekly); } else { PromotionIds(snapshots, today, Weekly); }
    if t != Weekly { PromotedFromOther(snapshots, today, t, Monthly); } else { PromotionIds(snapshots, today, Monthly); }
    if t != Monthly { PromotedFromOther(snapshots, today, t, Yearly); } else { PromotionIds(snapshots, today, Yearly); }
  }

  lemma AtMostOnePromotedFrom(snapshots: seq<Snapshot>, today: int, t: Tier)
    requires 2 <= today
    ensures |PromotedFrom(snapshots, today, t)| <= 1
  {
    if Next(t).Some? {
      var actions := Promotion(snapshots, today, Next(t).value);
      PromotionIds(snapshots, today, Next(t).value);
      assert Ids(actions) == if actions == [] then {} else {actions[0].id};
    }
  }

  lemma ActionsIds(snapshots: seq<Snapshot>, retention: Retention, today: int)
    requires Complete(retention) && 2 <= today && DistinctIds(snapshots)
    ensures var actions := Actions(snapshots, retention, today); var promoted := Ids(Promotions(snapshots, today));
      && OncePerId(actions)
      && Ids(actions) == promoted + DoomedIn(snapshots, retention, TIERS)
      && (forall a :: a in actions && a.Promote? <==> a in Promotions(snapshots, today))
      && (forall a :: a in actions && a.Delete? ==> a.id !in promoted)
  {
    hide DistinctIds, OncePerId, Promotion, Doomed;
    var promotions := Promotions(snapshots, today);
    var deletions := DeletionsOfTiers(snapshots, retention, Ids(promotions), TIERS);
    PromotionsIds(snapshots, today);
    DeletionsOfTiersIds(snapshots, retention, Ids(promotions), TIERS);
    OnceConcat(promotions, deletions);
    IdsConcat(promotions, deletions);
    forall a | a in deletions ensures a.id !in Ids(promotions) { assert a.id in Ids(deletions); }
  }

  /** Each id gets at most one action, and a backup without a tier gets none. */
  lemma AtMostOneAction(snapshots: seq<Snapshot>, retention: Retention, today: int)
    requires Complete(retention) && 2 <= today && DistinctIds(snapshots)
    ensures OncePerId(Actions(snapshots, retention, today))
    ensures forall s :: s in snapshots && s.tier.None? ==> s.id !in Ids(Actions(snapshots, retention, today))
  {
    ActionsIds(snapshots, retention, today);
    forall s | s in snapshots && s.tier.None? ensures s.id !in Ids(Actions(snapshots, retention, today)) {
      UntieredUntouched(snapshots, retention, today, s);
    }
  }

  lemma UntieredUntouched(snapshots: seq<Snapshot>, retention: Retention, today: int, s: Snapshot)
    requires Complete(retention) && 2 <= today && DistinctIds(snapshots) && s in snapshots && s.tier.None?
    ensures s.id !in Ids(Promotions(snapshots, today))
    ensures s.id !in DoomedIn(snapshots, retention, TIERS)
  {
    forall t: Tier ensures s.id !in TierIds(snapshots, t) {
      InTierFacts(snapshots, t);
      if s.id in TierIds(snapshots, t) {
        var x :| x in InTier(snapshots, t) && x.id == s.id;
        SameIdSameSnapshot(snapshots, x, s);
      }
    }
    PromotionsIds(snapshots, today);
    forall t: Tier | t != Hourly ensures s.id !in Ids(Promotion(snapshots, today, t)) {
      PromotionIds(snapshots, today, t);
    }
    DoomedHaveTier(snapshots, retention, TIERS, s.id);
  }

  lemma {:induction false} DoomedHaveTier(snapshots: seq<Snapshot>, retention: Retention, tiers: seq<Tier>, id: int)
    requires Complete(retention) && DistinctIds(snapshots)
    requires forall t: Tier :: id !in TierIds(snapshots, t)
    ensures id !in DoomedIn(snapshots, retention, tiers)
  {
    if tiers != [] {
      DoomedHaveTier(snapshots, retention, tiers[..|tiers| - 1], id);
      var last := tiers[|tiers| - 1];
      DoomedAndWithin(snapshots, retention[last], last);
    }
  }

  /** The members of a tier that the rotation leaves where they are. */
  function Kept(snapshots: seq<Snapshot>, retention: Retention, today: int, t: Tier): set<int>
    requires Complete(retention) && 2 <= today
  {
    TierIds(snapshots, t) - Ids(Actions(snapshots, retention, today))
  }

  /** Without a positive retention everything is ranked within it. */
  function WithinRetention(snapshots: seq<Snapshot>, retention: int, t: Tier): seq<Snapshot> {
    var ranked := Ranked(snapshots, t);
    if retention <= 0 || |ranked| <= retention then ranked else ranked[..retention]
  }

  lemma DoomedAndWithin(snapshots: seq<Snapshot>, r: int, t: Tier)
    requires DistinctIds(snapshots)
    ensures Doomed(snapshots, r, t) == TierIds(snapshots, t) - IdSet(WithinRetention(snapshots, r, t))
    ensures IdSet(WithinRetention(snapshots, r, t)) <= TierIds(snapshots, t)
  {
    var ranked := Ranked(snapshots, t);
    RankedFacts(snapshots, t);
    InTierFacts(snapshots, t);
    assert IdSet(ranked) == TierIds(snapshots, t);
    if 0 < r < |ranked| { RankSplits(ranked, r); }
  }

  lemma DoomedOfOneTier(snapshots: seq<Snapshot>, retention: Retention, u: Tier, t: Tier, id: int)
    requires Complete(retention) && DistinctIds(snapshots) && id in TierIds(snapshots, t)
    ensures id in Doomed(snapshots, retention[u], u) ==> u == t
  {
    DoomedAndWithin(snapshots, retention[u], u);
    if u != t { TierIdsDisjoint(snapshots, u, t); }
  }

  lemma {:induction false} DoomedOfTier(snapshots: seq<Snapshot>, retention: Retention, tiers: seq<Tier>, t: Tier, id: int)
    requires Complete(retention) && DistinctIds(snapshots) && id in TierIds(snapshots, t)
    ensures id in DoomedIn(snapshots, retention, tiers) <==> t in tiers && id in Doomed(snapshots, retention[t], t)
  {
    hide Doomed, TierIds, DistinctIds;
    if tiers != [] {
      var front, last := tiers[..|tiers| - 1], tiers[|tiers| - 1];
      DoomedOfTier(snapshots, retention, front, t, id);
      DoomedOfOneTier(snapshots, retention, last, t, id);
      assert t in tiers <==> t in front || t == last by { assert tiers == front + [last]; }
    }
  }

  lemma KeptIds(snapshots: seq<Snapshot>, retention: Retention, today: int, t: Tier)
    requires Complete(retention) && 2 <= today && DistinctIds(snapshots)
    ensures Kept(snapshots, retention, today, t)
      == IdSet(WithinRetention(snapshots, retention[t], t)) - PromotedFrom(snapshots, today, t)
  {
    ActionsIds(snapshots, retention, today);
    PromotedFromTier(snapshots, today, t);
    AllTiers(t);
    DoomedAndWithin(snapshots, retention[t], t);
    forall id | id in TierIds(snapshots, t)
      ensures id in DoomedIn(snapshots, retention, TIERS) <==> id in Doomed(snapshots, retention[t], t)
    {
      DoomedOfTier(snapshots, retention, TIERS, t, id);
    }
  }

  lemma AllTiers(t: Tier)
    ensures t in TIERS
  {
    match t
    case Hourly => assert TIERS[0] == t;
    case Daily => assert TIERS[1] == t;
    case Weekly => assert TIERS[2] == t;
    case Monthly => assert TIERS[3] == t;
    case Yearly => assert TIERS[4] == t;
  }

  lemma RankSplits(ranked: seq<Snapshot>, k: nat)
    requires DistinctIds(ranked) && k <= |ranked|
    ensures IdSet(ranked[k..]) == IdSet(ranked) - IdSet(ranked[..k])
  {
    assert ranked == ranked[..k] + ranked[k..];
    forall x, y | x in ranked[..k] && y in ranked[k..] ensures x.id != y.id {
      var i :| 0 <= i < k && ranked[i] == x;
      var j :| k <= j < |ranked| && ranked[j] == y;
    }
  }

  /**
    Of a tier of n snapshots with a retention of r > 0, between min(n, r) - 1 and min(n, r) stay;
    with r <= 0 at most the promoted one leaves. At most one snapshot arrives by promotion.
  */
  lemma RetentionBounds(snapshots: seq<Snapshot>, retention: Retention, today: int, t: Tier)
    requires Complete(retention) && 2 <= today && DistinctIds(snapshots)
    ensures var n := |InTier(snapshots, t)|; var r := retention[t]; var kept := |Kept(snapshots, retention, today, t)|;
      var quota := if r <= 0 || n <= r then n else r;
      && quota - 1 <= kept <= quota
      && (kept < quota ==> PromotedFrom(snapshots, today, t) != {})
    ensures t != Hourly ==> |Promotion(snapshots, today, t)| <= 1
  {
    var within := WithinRetention(snapshots, retention[t], t);
    WithinSize(snapshots, retention[t], t);
    KeptIds(snapshots, retention, today, t);
    AtMostOnePromotedFrom(snapshots, today, t);
    if t != Hourly { PromotionIds(snapshots, today, t); }
    hide WithinRetention, Kept, PromotedFrom, InTier, Promotion, DistinctIds;
    MinusAtMostOne(IdSet(within), PromotedFrom(snapshots, today, t));
  }

  lemma WithinSize(snapshots: seq<Snapshot>, r: int, t: Tier)
    requires DistinctIds(snapshots)
    ensures var n := |InTier(snapshots, t)|;
      |IdSet(WithinRetention(snapshots, r, t))| == if r <= 0 || n <= r then n else r
  {
    RankedFacts(snapshots, t);
    IdSetSize(WithinRetention(snapshots, r, t));
  }

  lemma MinusAtMostOne(a: set<int>, gone: set<int>)
    requires |gone| <= 1
    ensures |a| - 1 <= |a - gone| <= |a|
    ensures |a - gone| < |a| ==> gone != {}
  {
    assert |a - gone| + |a * gone| == |a|;
    Subset(a * gone, gone);
    assert gone == {} ==> a * gone == {};
  }

  lemma Subset(a: set<int>, b: set<int>)
    requires a <= b
    ensures |a| <= |b|
  {
    assert b == a + (b - a);
  }

  /** The members of a tier, other than `s`, that are no older than it. */
  function NoOlder(snapshots: seq<Snapshot>, s: Snapshot): set<int> {
    set x <- snapshots | x != s && x.tier == s.tier && s.createdAt <= x.createdAt :: x.id
  }

  /** A deleted snapshot has at least as many others of its tier, no older than it, as the tier retains. */
  lemma DeletedIsOutranked(snapshots: seq<Snapshot>, retention: Retention, today: int, s: Snapshot)
    requires Complete(retention) && 2 <= today && DistinctIds(snapshots) && s in snapshots
    requires Delete(s.id) in Actions(snapshots, retention, today)
    ensures s.tier.Some? && 0 < retention[s.tier.value] <= |NoOlder(snapshots, s)|
  {
    AtMostOneAction(snapshots, retention, today);
    ActionsIds(snapshots, retention, today);
    assert Delete(s.id).id in Ids(Actions(snapshots, retention, today));
    assert s.tier.Some?;
    var t := s.tier.value;
    var ranked, r := Ranked(snapshots, t), retention[t];
    RankedFacts(snapshots, t);
    InTierFacts(snapshots, t);
    AllTiers(t);
    assert s.id in TierIds(snapshots, t);
    DoomedOfTier(snapshots, retention, TIERS, t, s.id);
    assert s.id in Doomed(snapshots, r, t);
    var x :| x in Beyond(ranked, r) && x.id == s.id;
    assert x in ranked;
    SameIdSameSnapshot(snapshots, x, s);
    Outranking(snapshots, ranked, r, s);
  }

  lemma Outranking(snapshots: seq<Snapshot>, ranked: seq<Snapshot>, r: nat, s: Snapshot)
    requires Descending(ranked) && DistinctIds(ranked) && r <= |ranked| && s in ranked[r..]
    requires forall x :: x in ranked ==> x in snapshots && x.tier == s.tier
    ensures r <= |NoOlder(snapshots, s)|
  {
    var k :| r <= k < |ranked| && ranked[k] == s;
    IdSetSize(ranked[..r]);
    forall id | id in IdSet(ranked[..r]) ensures id in NoOlder(snapshots, s) {
      var x :| x in ranked[..r] && x.id == id;
      var j :| 0 <= j < r && ranked[j] == x;
      assert x in ranked;
    }
    Subset(IdSet(ranked[..r]), NoOlder(snapshots, s));
  }
}
