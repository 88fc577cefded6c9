/**
  Grandfather-father-son rotation: which snapshots to promote to a longer-lived tier and which
  to delete. Promotions are decided first, and a promoted snapshot is spared.
*/
module GfsRotation {
  import opened Options
  import opened Calendar

  datatype Tier = Hourly | Daily | Weekly | Monthly | Yearly

  const TIERS: seq<Tier> := [Hourly, Daily, Weekly, Monthly, Yearly]

  /** `createdAt` counts microseconds since 0001-01-01 UTC; a manual backup has no tier. */
  datatype Snapshot = Snapshot(id: int, tier: Option<Tier>, createdAt: nat)

  datatype Action = Delete(id: int) | Promote(id: int, newTier: Tier)

  type Retention = map<Tier, int>

  predicate Complete(retention: Retention) {
    forall t: Tier :: t in retention
  }

  /** The day number of the creation date. */
  function DayOf(s: Snapshot): (n: int)
    ensures 1 <= n
  {
    s.createdAt / MICROSECONDS_PER_DAY + 1
  }

  /** The period a day belongs to, for the tier that keeps one snapshot per such period. */
  function Period(t: Tier, n: int): int
    requires 1 <= n
  {
    match t
    case Hourly => n
    case Daily => n
    case Weekly => WeekMonday(n)
    case Monthly => MonthIndex(n)
    case Yearly => Year(n)
  }

  /** The tier a promotion to `t` takes its candidate from. */
  function Source(t: Tier): Tier {
    match t
    case Hourly => Hourly
    case Daily => Hourly
    case Weekly => Daily
    case Monthly => Weekly
    case Yearly => Monthly
  }

  /** A promotion to `t` is looked at on the first day of a period. */
  predicate Due(t: Tier, today: int)
    requires 1 <= today
  {
    match t
    case Hourly => false
    case Daily => true
    case Weekly => Weekday(today) == 0
    case Monthly => Day(today) == 1
    case Yearly => Day(today) == 1 && Month(today) == 1
  }

  /** The period that ended with yesterday. */
  function Ended(t: Tier, today: int): int
    requires 2 <= today
  {
    Period(t, today - 1)
  }

  predicate InPeriod(s: Snapshot, t: Tier, period: int) {
    Period(t, DayOf(s)) == period
  }

  function InTier(snapshots: seq<Snapshot>, t: Tier): seq<Snapshot> {
    if snapshots == [] then []
    else (if snapshots[0].tier == Some(t) then [snapshots[0]] else []) + InTier(snapshots[1..], t)
  }

  /** A stable sort by creation time, newest first. */
  function NewestFirst(snapshots: seq<Snapshot>): seq<Snapshot> {
    if snapshots == [] then [] else InsertNewest(snapshots[0], NewestFirst(snapshots[1..]))
  }

  function InsertNewest(s: Snapshot, sorted: seq<Snapshot>): seq<Snapshot> {
    if sorted == [] then [s]
    else if sorted[0].createdAt <= s.createdAt then [s] + sorted
    else [sorted[0]] + InsertNewest(s, sorted[1..])
  }

  function FirstInPeriod(sorted: seq<Snapshot>, t: Tier, period: int): Option<Snapshot> {
    if sorted == [] then None
    else if InPeriod(sorted[0], t, period) then Some(sorted[0])
    else FirstInPeriod(sorted[1..], t, period)
  }

  predicate AnyInPeriod(snapshots: seq<Snapshot>, t: Tier, period: int) {
    exists s <- snapshots :: InPeriod(s, t, period)
  }

  /** Unless the tier has a snapshot of the period, its newest candidate is promoted. */
  function PromoteOne(members: seq<Snapshot>, candidates: seq<Snapshot>, t: Tier, period: int): seq<Action> {
    if AnyInPeriod(members, t, period) then []
    else
      match FirstInPeriod(NewestFirst(candidates), t, period)
      case None => []
      case Some(s) => [Promote(s.id, t)]
  }

  function Promotion(snapshots: seq<Snapshot>, today: int, t: Tier): seq<Action>
    requires 2 <= today
  {
    if Due(t, today) then PromoteOne(InTier(snapshots, t), InTier(snapshots, Source(t)), t, Ended(t, today)) else []
  }

  function Promotions(snapshots: seq<Snapshot>, today: int): seq<Action>
    requires 2 <= today
  {
    Promotion(snapshots, today, Daily) + Promotion(snapshots, today, Weekly)
    + Promotion(snapshots, today, Monthly) + Promotion(snapshots, today, Yearly)
  }

  function Ids(actions: seq<Action>): set<int> {
    set a <- actions :: a.id
  }

  function DeleteAllBut(items: seq<Snapshot>, spared: set<int>): seq<Action> {
    if items == [] then []
    else (if items[0].id in spared then [] else [Delete(items[0].id)]) + DeleteAllBut(items[1..], spared)
  }

  /** `items[retention:]`. */
  function Beyond(items: seq<Snapshot>, retention: int): seq<Snapshot>
    requires 0 < retention
  {
    if retention < |items| then items[retention..] else []
  }

  function Deletions(snapshots: seq<Snapshot>, retention: int, spared: set<int>, t: Tier): seq<Action> {
    if retention <= 0 then []
    else DeleteAllBut(Beyond(NewestFirst(InTier(snapshots, t)), retention), spared)
  }

  function DeletionsOfTiers(snapshots: seq<Snapshot>, retention: Retention, spared: set<int>, tiers: seq<Tier>): seq<Action>
    requires Complete(retention)
  {
    if tiers == [] then []
    else
      var last := tiers[|tiers| - 1];
      DeletionsOfTiers(snapshots, retention, spared, tiers[..|tiers| - 1])
      + Deletions(snapshots, retention[last], spared, last)
  }

  function Actions(snapshots: seq<Snapshot>, retention: Retention, today: int): seq<Action>
    requires Complete(retention) && 2 <= today
  {
    var promotions := Promotions(snapshots, today);
    promotions + DeletionsOfTiers(snapshots, retention, Ids(promotions), TIERS)
  }

  // ─── The rotation as the program computes it ──────────────────────────────

  lemma {:induction false} InTierOfSnoc(snapshots: seq<Snapshot>, s: Snapshot, t: Tier)
    ensures InTier(snapshots + [s], t) == InTier(snapshots, t) + (if s.tier == Some(t) then [s] else [])
  {
    var tail := if s.tier == Some(t) then [s] else [];
    if snapshots == [] {
      assert snapshots + [s] == [s] && [s][1..] == [];
      assert tail + [] == tail == [] + tail;
    } else {
      var rest := snapshots[1..];
      var head := if snapshots[0].tier == Some(t) then [snapshots[0]] else [];
      assert (snapshots + [s])[1..] == rest + [s] && (snapshots + [s])[0] == snapshots[0];
      InTierOfSnoc(rest, s, t);
      assert InTier(snapshots + [s], t) == head + (InTier(rest, t) + tail);
      assert head + (InTier(rest, t) + tail) == (head + InTier(rest, t)) + tail;
    }
  }

  method GroupByTier(snapshots: seq<Snapshot>) returns (byTier: map<Tier, seq<Snapshot>>)
    ensures forall t: Tier :: t in byTier && byTier[t] == InTier(snapshots, t)
  {
    byTier := map[Hourly := [], Daily := [], Weekly := [], Monthly := [], Yearly := []];
    forall t: Tier ensures t in byTier && byTier[t] == [] {
      match t case Hourly => case Daily => case Weekly => case Monthly => case Yearly =>
    }
    assert snapshots[..0] == [];
    for i := 0 to |snapshots|
      invariant forall t: Tier :: t in byTier && byTier[t] == InTier(snapshots[..i], t)
    {
      var s := snapshots[i];
      ghost var before := byTier;
      if s.tier.Some? {
        byTier := byTier[s.tier.value := byTier[s.tier.value] + [s]];
      }
      assert snapshots[..i + 1] == snapshots[..i] + [s];
      forall t: Tier ensures t in byTier && byTier[t] == InTier(snapshots[..i + 1], t) {
        assert t in before;
        InTierOfSnoc(snapshots[..i], s, t);
      }
    }
    assert snapshots[..|snapshots|] == snapshots;
  }

  /** The first day of last month, as `(today.replace(day=1) - 1 day).replace(day=1)`. */
  function LastMonth(today: int): int
    requires 2 <= today && Day(today) == 1
    ensures 1 <= LastMonth(today)
  {
    FirstDayOfMonth(FirstDay(today) - 1);
    FirstDay(FirstDay(today) - 1)
  }

  /** On the first of a month, year and month of that day pick out the period that ended. */
  lemma LastMonthIsEnded(today: int, n: int)
    requires 2 <= today && Day(today) == 1 && 1 <= n
    ensures FirstDay(today) == today
    ensures Year(n) == Year(LastMonth(today)) && Month(n) == Month(LastMonth(today))
      <==> Period(Monthly, n) == Ended(Monthly, today)
  {
    FirstDayOfMonth(today - 1);
    FirstOfMonth(today);
    assert 1 <= Month(n) <= 12 && 1 <= Month(today - 1) <= 12;
  }

  /** The candidate search of one promotion, as `next(... sorted(...) if ..., None)`. */
  method FindCandidate(items: seq<Snapshot>, t: Tier, period: int) returns (candidate: Option<Snapshot>)
    ensures candidate == FirstInPeriod(NewestFirst(items), t, period)
  {
    var sorted := NewestFirst(items);
    var i := 0;
    while i < |sorted|
      invariant 0 <= i <= |sorted|
      invariant FirstInPeriod(sorted, t, period) == FirstInPeriod(sorted[i..], t, period)
    {
      if InPeriod(sorted[i], t, period) { return Some(sorted[i]); }
      i := i + 1;
    }
    return None;
  }

  method PromoteTo(byTier: map<Tier, seq<Snapshot>>, t: Tier, period: int, actions: seq<Action>)
    returns (extended: seq<Action>)
    requires t in byTier && Source(t) in byTier
    ensures extended == actions + PromoteOne(byTier[t], byTier[Source(t)], t, period)
  {
    extended := actions;
    if !AnyInPeriod(byTier[t], t, period) {
      var candidate := FindCandidate(byTier[Source(t)], t, period);
      if candidate.Some? {
        extended := extended + [Promote(candidate.value.id, t)];
      }
    }
  }

  method Promote4(byTier: map<Tier, seq<Snapshot>>, ghost snapshots: seq<Snapshot>, today: int)
    returns (actions: seq<Action>)
    requires 2 <= today && forall t: Tier :: t in byTier && byTier[t] == InTier(snapshots, t)
    ensures actions == Promotions(snapshots, today)
  {
    hide PromoteOne, InTier, DateOf;
    actions := [];
    var yesterday := today - 1;
    actions := PromoteTo(byTier, Daily, yesterday, actions);
    assert actions == Promotion(snapshots, today, Daily);
    if Weekday(today) == 0 {
      actions := PromoteTo(byTier, Weekly, WeekMonday(yesterday), actions);
    }
    assert actions == Promotion(snapshots, today, Daily) + Promotion(snapshots, today, Weekly);
    if Day(today) == 1 {
      LastMonthIsEnded(today, LastMonth(today));
      actions := PromoteTo(byTier, Monthly, MonthIndex(LastMonth(today)), actions);
    }
    assert actions == Promotion(snapshots, today, Daily) + Promotion(snapshots, today, Weekly)
      + Promotion(snapshots, today, Monthly);
    if Day(today) == 1 && Month(today) == 1 {
      FirstOfMonth(today);
      actions := PromoteTo(byTier, Yearly, Year(today) - 1, actions);
    }
  }

  method DeleteBeyond(items: seq<Snapshot>, spared: set<int>) returns (actions: seq<Action>)
    ensures actions == DeleteAllBut(items, spared)
  {
    actions := [];
    var i := 0;
    while i < |items|
      invariant 0 <= i <= |items|
      invariant actions + DeleteAllBut(items[i..], spared) == DeleteAllBut(items, spared)
    {
      if items[i].id !in spared {
        actions := actions + [Delete(items[i].id)];
      }
      assert items[i..][1..] == items[i + 1..];
      i := i + 1;
    }
  }

  method DeleteExceeding(byTier: map<Tier, seq<Snapshot>>, ghost snapshots: seq<Snapshot>,
      retention: Retention, spared: set<int>, tiers: seq<Tier>)
    returns (actions: seq<Action>)
    requires Complete(retention)
    requires forall t: Tier :: t in byTier && byTier[t] == InTier(snapshots, t)
    ensures actions == DeletionsOfTiers(snapshots, retention, spared, tiers)
  {
    actions := [];
    for k := 0 to |tiers|
      invariant actions == DeletionsOfTiers(snapshots, retention, spared, tiers[..k])
    {
      var t := tiers[k];
      assert tiers[..k + 1][..k] == tiers[..k];
      if 0 < retention[t] {
        var deletions := DeleteBeyond(Beyond(NewestFirst(byTier[t]), retention[t]), spared);
        actions := actions + deletions;
      }
    }
    assert tiers[..|tiers|] == tiers;
  }

  method Rotate(snapshots: seq<Snapshot>, retention: Retention, today: int) returns (actions: seq<Action>)
    requires Complete(retention) && 2 <= today
    ensures actions == Actions(snapshots, retention, today)
  {
    var byTier := GroupByTier(snapshots);
    actions := Promote4(byTier, snapshots, today);
    var deletions := DeleteExceeding(byTier, snapshots, retention, Ids(actions), TIERS);
    actions := actions + deletions;
  }
}
