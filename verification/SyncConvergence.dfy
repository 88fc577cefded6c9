/** Where deliveries that are not cut short lead, and when they reach the whole log. */
module SyncConvergence {
  import opened Options
  import opened SyncSchema
  import opened SyncProtocol
  import opened SyncApply
  import opened SyncConsumer
  import opened SyncRuns
  import opened SyncRegions

  /** The length of the longest run 1..k of supported transactions that each commit after those before. */
  function GoodPrefix(base: Rows, log: Log): (k: nat)
    ensures CommitsUpTo(base, log, k) && !CommitsAt(base, log, k + 1)
  {
    GoodPrefixFrom(base, log, log.Keys, 0)
  }

  function GoodPrefixFrom(base: Rows, log: Log, unseen: set<int>, k: nat): (r: nat)
    requires CommitsUpTo(base, log, k)
    requires forall i :: i in log && k < i ==> i in unseen
    ensures CommitsUpTo(base, log, r) && !CommitsAt(base, log, r + 1)
    decreases |unseen|
  {
    if CommitsAt(base, log, k + 1) then
      assert |unseen - {k + 1}| < |unseen|;
      GoodPrefixFrom(base, log, unseen - {k + 1}, k + 1)
    else k
  }

  lemma AtMostGoodPrefix(base: Rows, log: Log, n: int)
    requires CommitsUpTo(base, log, n)
    ensures n <= GoodPrefix(base, log)
  {
    hide CommitsAt;
    var next: nat := GoodPrefix(base, log) + 1;
    assert !CommitsAt(base, log, next);
  }

  /** With closed ownership, whatever state the others are in, a peer's next transaction commits up to its good prefix. */
  lemma GoodPrefixApplies(own: Ownership, logs: Logs, base: Rows, p: string)
    requires ClosedRows(own, base) && ClosedLogs(own, logs) && p in logs
    ensures AppliesUpTo(logs, base, p, GoodPrefix(Region(own, base, p), LogOf(logs, p)))
  {
    var region, log := Region(own, base, p), LogOf(logs, p);
    var good := GoodPrefix(region, log);
    hide GoodPrefix, Consistent, Write, Region, ClosedRows, OwnsWrite;
    forall store: Store | Consistent(logs, base, store) && LastApplied(store, p) < good ensures NextApplies(logs, store, p) {
      RegionFollowsCursor(own, logs, base, store, p);
      var next: nat := LastApplied(store, p) + 1;
      assert CommitsAt(region, log, next);
      assert IsTransaction(logs, p, next);
      WriteIsLocal(own, store.table, p, log[next].tx);
    }
  }

  lemma {:induction false} CleanRunDelivers(self: string, logs: Logs, base: Rows, store: Store, run: seq<Delivery>,
      peer: string, seqNo: int, good: int)
    requires Consistent(logs, base, store) && AllGenuine(logs, run) && Uncut(self, store, run) && peer != self
    requires IsTransaction(logs, peer, seqNo) && AppliesUpTo(logs, base, peer, good) && seqNo <= good
    requires AppliedOrWaiting(store, peer, seqNo) || DeliveredIn(run, logs, peer, seqNo)
    ensures AppliedOrWaiting(Run(self, store, run), peer, seqNo)
    decreases |run|
  {
    hide Consistent, AppliesUpTo, Handle;
    if run != [] {
      var next := Handle(self, store, run[0].commits, run[0].message).store;
      assert Genuine(logs, run[0].message);
      HandleStaysConsistent(self, logs, base, store, run[0]);
      if AppliedOrWaiting(store, peer, seqNo) {
        HandleKeepsDelivered(self, logs, base, store, run[0], peer, seqNo, good);
      } else if run[0].message == MessageOf(peer, seqNo, logs[peer][seqNo]) {
        HandleDelivers(self, logs, base, store, run[0], good);
      } else {
        var i :| 0 <= i < |run| && run[i].message == MessageOf(peer, seqNo, logs[peer][seqNo]);
        assert run[1..][i - 1] == run[i];
      }
      CleanRunDelivers(self, logs, base, next, run[1..], peer, seqNo, good);
    }
  }

  /** Every transaction row of the emitter's log is delivered at least once in the run. */
  predicate DeliversAll(run: seq<Delivery>, logs: Logs, peer: string) {
    forall q :: q in LogOf(logs, peer) && IsTransaction(logs, peer, q) ==> DeliveredIn(run, logs, peer, q)
  }

  /**
    After any run at all (failures, crashes, duplicates, stale shelf rows), a run that is not cut
    short and delivers each transaction of a peer at least once, in any order, applies exactly the
    longest initial run of its log in which each transaction commits after those before it.
  */
  lemma Convergence(self: string, own: Ownership, logs: Logs, base: Rows, past: seq<Delivery>, clean: seq<Delivery>, peer: string)
    requires ClosedRows(own, base) && ClosedLogs(own, logs)
    requires peer != self && peer in logs && AllGenuine(logs, past) && AllGenuine(logs, clean)
    requires Uncut(self, Run(self, Empty(base), past), clean) && DeliversAll(clean, logs, peer)
    ensures LastApplied(Run(self, Empty(base), past + clean), peer) == GoodPrefix(Region(own, base, peer), LogOf(logs, peer))
  {
    var region, log := Region(own, base, peer), LogOf(logs, peer);
    var good := GoodPrefix(region, log);
    var middle := Run(self, Empty(base), past);
    var end := Run(self, middle, clean);
    GoodPrefixApplies(own, logs, base, peer);
    hide Consistent, ClosedRows, ClosedLogs, AppliesUpTo;
    RunOfConcat(self, Empty(base), past, clean);
    EmptyIsConsistent(logs, base);
    RunStaysConsistent(self, logs, base, Empty(base), past);
    RunStaysConsistent(self, logs, base, middle, clean);
    RegionFollowsCursor(own, logs, base, end, peer);
    AtMostGoodPrefix(region, log, LastApplied(end, peer));
    hide GoodPrefix;
    var next: nat := LastApplied(end, peer) + 1;
    if next <= good {
      assert CommitsAt(region, log, next);
      CleanRunDelivers(self, logs, base, middle, clean, peer, next, good);
    }
  }

  predicate DenseUpTo(log: Log, n: int) {
    forall i :: 1 <= i <= n ==> SupportedAt(log, i)
  }

  /** The transactions of the log are numbered 1..n without a gap, and all are supported. */
  predicate DenselyNumbered(log: Log) {
    forall q :: q in log && log[q].TransactionRow? ==> 1 <= q && DenseUpTo(log, q)
  }

  predicate ApplicableAt(base: Rows, log: Log, q: int)
    requires q in log && log[q].TransactionRow?
  {
    1 <= q ==> Write(Fold(base, log, q - 1), log[q].tx).Done?
  }

  /** Each transaction is applicable to the fold of those before it: no constraint of the schema refuses it. */
  predicate EachApplicable(base: Rows, log: Log) {
    forall q :: q in log && log[q].TransactionRow? ==> ApplicableAt(base, log, q)
  }

  predicate AllWithin(log: Log, n: int) {
    forall q :: q in log && log[q].TransactionRow? ==> 1 <= q <= n
  }

  predicate AllApplied(log: Log, store: Store, peer: string) {
    AllWithin(log, LastApplied(store, peer))
  }

  lemma WithinGoodPrefix(base: Rows, log: Log, q: int)
    requires q in log && log[q].TransactionRow? && 1 <= q && CommitsUpTo(base, log, q)
    ensures DenseUpTo(log, q) && ApplicableAt(base, log, q)
  {
    hide Write, Fold;
    assert CommitsAt(base, log, q);
    forall i | 1 <= i <= q ensures SupportedAt(log, i) { assert CommitsAt(base, log, i); }
  }

  lemma NotBeyondGoodPrefix(base: Rows, log: Log, q: int)
    requires q in log && log[q].TransactionRow? && DenseUpTo(log, q) && EachApplicable(base, log)
    ensures q <= GoodPrefix(base, log)
  {
    var next: nat := GoodPrefix(base, log) + 1;
    assert !CommitsAt(base, log, next);
    hide Write, Fold, GoodPrefix;
  }

  lemma AllGoodIff(base: Rows, log: Log)
    ensures AllWithin(log, GoodPrefix(base, log)) <==> DenselyNumbered(log) && EachApplicable(base, log)
  {
    var good := GoodPrefix(base, log);
    assert CommitsUpTo(base, log, good);
    hide GoodPrefix, CommitsAt, DenseUpTo, ApplicableAt;
    if DenselyNumbered(log) && EachApplicable(base, log) {
      forall q | q in log && log[q].TransactionRow? ensures q <= good { NotBeyondGoodPrefix(base, log, q); }
    }
    if AllWithin(log, good) {
      forall q | q in log && log[q].TransactionRow? ensures DenseUpTo(log, q) && ApplicableAt(base, log, q) {
        WithinGoodPrefix(base, log, q);
      }
    }
  }

  /**
    Exactly when everything is applied: the transactions are numbered without a gap, all are
    supported, and each is applicable to the fold of those before it.
  */
  lemma AllAppliedIff(self: string, own: Ownership, logs: Logs, base: Rows, past: seq<Delivery>, clean: seq<Delivery>, peer: string)
    requires ClosedRows(own, base) && ClosedLogs(own, logs)
    requires peer != self && peer in logs && AllGenuine(logs, past) && AllGenuine(logs, clean)
    requires Uncut(self, Run(self, Empty(base), past), clean) && DeliversAll(clean, logs, peer)
    ensures AllApplied(LogOf(logs, peer), Run(self, Empty(base), past + clean), peer)
      <==> DenselyNumbered(LogOf(logs, peer)) && EachApplicable(Region(own, base, peer), LogOf(logs, peer))
  {
    Convergence(self, own, logs, base, past, clean, peer);
    AllGoodIff(Region(own, base, peer), LogOf(logs, peer));
    hide DenselyNumbered, EachApplicable, GoodPrefix, ClosedRows, ClosedLogs, Region;
  }

  // ─── What stops a peer for good ───────────────────────────────────────────

  /**
    A row that is not a supported transaction, such as an ack of the emitter's own or a number
    lost to a rollback, stops its peer for good: in no run is any later transaction applied.
  */
  lemma StalledForever(self: string, logs: Logs, base: Rows, run: seq<Delivery>, peer: string, hole: nat)
    requires AllGenuine(logs, run)
    requires 1 <= hole && !SupportedAt(LogOf(logs, peer), hole)
    ensures LastApplied(Run(self, Empty(base), run), peer) < hole
  {
    AppliedExactlyOnceInOrder(self, logs, base, run, peer);
  }

  /** So does a transaction that a constraint refuses after those before it, at every delivery of every run. */
  lemma RefusedForever(self: string, own: Ownership, logs: Logs, base: Rows, run: seq<Delivery>, peer: string, q: nat)
    requires ClosedRows(own, base) && ClosedLogs(own, logs) && AllGenuine(logs, run)
    requires 1 <= q && !CommitsAt(Region(own, base, peer), LogOf(logs, peer), q)
    ensures LastApplied(Run(self, Empty(base), run), peer) < q
  {
    hide CommitsAt, Region, ClosedRows, ClosedLogs;
    EmptyIsConsistent(logs, base);
    RunStaysConsistent(self, logs, base, Empty(base), run);
    RegionFollowsCursor(own, logs, base, Run(self, Empty(base), run), peer);
  }

  /**
    Two nodes that both write: the ack node B records for A's transaction takes number 2 of B's
    log, so B's second transaction reaches A and is shelved there whatever is delivered.
  */
  lemma AckStallsItsEmitter(base: Rows, run: seq<Delivery>, t1: Transaction, t3: Transaction)
    requires AllGenuine(map["B" := map[1 := TransactionRow(t1), 2 := AckRow("A", 1), 3 := TransactionRow(t3)]], run)
    ensures LastApplied(Run("A", Empty(base), run), "B") <= 1
  {
    var log: Log := map[1 := TransactionRow(t1), 2 := AckRow("A", 1), 3 := TransactionRow(t3)];
    StalledForever("A", map["B" := log], base, run, "B", 2);
  }

  // ─── Independence of the interleaving ─────────────────────────────────────

  /**
    The table is a function of the cursors: with closed ownership, two consistent stores that
    applied as much of each log hold the same table, however their peers interleaved.
  */
  lemma TableFollowsCursors(own: Ownership, logs: Logs, base: Rows, s: Store, t: Store)
    requires ClosedRows(own, base) && ClosedLogs(own, logs)
    requires Consistent(logs, base, s) && Consistent(logs, base, t)
    requires forall peer :: LastApplied(s, peer) == LastApplied(t, peer)
    ensures s.table == t.table
  {
    hide Consistent, ClosedRows, ClosedLogs, CommitsUpTo;
    forall key: Key ensures SameRow(s.table, t.table, key) {
      var peer := if own.ofKey(key).Some? then own.ofKey(key).value else "";
      RegionFollowsCursor(own, logs, base, s, peer);
      RegionFollowsCursor(own, logs, base, t, peer);
      hide Fold;
      assert key in s.table <==> key in Region(own, s.table, peer);
      assert key in t.table <==> key in Region(own, t.table, peer);
    }
    assert forall key :: key in s.table <==> key in t.table by {
      forall key: Key ensures key in s.table <==> key in t.table { assert SameRow(s.table, t.table, key); }
    }
    forall key | key in s.table ensures s.table[key] == t.table[key] { assert SameRow(s.table, t.table, key); }
  }

  /**
    Confluence: two nodes that went through any two pasts and then each received everything
    without being cut short hold the same table, if ownership is closed under foreign keys.
  */
  lemma Confluence(self1: string, self2: string, own: Ownership, logs: Logs, base: Rows,
      past1: seq<Delivery>, clean1: seq<Delivery>, past2: seq<Delivery>, clean2: seq<Delivery>)
    requires self1 !in logs && self2 !in logs && ClosedRows(own, base) && ClosedLogs(own, logs)
    requires AllGenuine(logs, past1) && AllGenuine(logs, clean1) && AllGenuine(logs, past2) && AllGenuine(logs, clean2)
    requires Uncut(self1, Run(self1, Empty(base), past1), clean1)
    requires Uncut(self2, Run(self2, Empty(base), past2), clean2)
    requires forall peer :: peer in logs ==> DeliversAll(clean1, logs, peer) && DeliversAll(clean2, logs, peer)
    ensures Run(self1, Empty(base), past1 + clean1).table == Run(self2, Empty(base), past2 + clean2).table
  {
    hide ClosedRows, ClosedLogs, GoodPrefix, Region, Handle;
    var s, t := Run(self1, Empty(base), past1 + clean1), Run(self2, Empty(base), past2 + clean2);
    EmptyIsConsistent(logs, base);
    AllGenuineConcat(logs, past1, clean1);
    AllGenuineConcat(logs, past2, clean2);
    RunStaysConsistent(self1, logs, base, Empty(base), past1 + clean1);
    RunStaysConsistent(self2, logs, base, Empty(base), past2 + clean2);
    forall peer ensures LastApplied(s, peer) == LastApplied(t, peer) {
      if peer in logs {
        Convergence(self1, own, logs, base, past1, clean1, peer);
        Convergence(self2, own, logs, base, past2, clean2, peer);
      } else {
        assert AppliedInOrder(logs, s, peer) && AppliedInOrder(logs, t, peer);
        assert !SupportedAt(LogOf(logs, peer), 1);
      }
    }
    TableFollowsCursors(own, logs, base, s, t);
  }

  lemma AllGenuineConcat(logs: Logs, a: seq<Delivery>, b: seq<Delivery>)
    requires AllGenuine(logs, a) && AllGenuine(logs, b)
    ensures AllGenuine(logs, a + b)
  {
    forall i | 0 <= i < |a + b| ensures Genuine(logs, (a + b)[i].message) {
      assert (a + b)[i] == if i < |a| then a[i] else b[i - |a|];
    }
  }

  /** With one emitter nobody else owns anything. */
  function Sole(peer: string): Ownership {
    Ownership(_ => Some(peer), _ => Some(peer))
  }

  lemma SoleOwnership(peer: string, log: Log, base: Rows)
    ensures ClosedRows(Sole(peer), base) && ClosedLogs(Sole(peer), map[peer := log]) && Region(Sole(peer), base, peer) == base
  {
  }

  /** With one emitter the final table is the fold of its log's good prefix, in log order. */
  lemma SingleWriterTable(self: string, log: Log, base: Rows, peer: string, past: seq<Delivery>, clean: seq<Delivery>)
    requires peer != self && AllGenuine(map[peer := log], past) && AllGenuine(map[peer := log], clean)
    requires Uncut(self, Run(self, Empty(base), past), clean) && DeliversAll(clean, map[peer := log], peer)
    ensures var end := Run(self, Empty(base), past + clean);
      LastApplied(end, peer) == GoodPrefix(base, log) && end.table == Fold(base, log, GoodPrefix(base, log))
  {
    var logs: Logs, own := map[peer := log], Sole(peer);
    var end := Run(self, Empty(base), past + clean);
    SoleOwnership(peer, log, base);
    SoleOwnership(peer, log, end.table);
    hide ClosedRows, ClosedLogs, Region, Sole, GoodPrefix, CommitsUpTo, Handle;
    Convergence(self, own, logs, base, past, clean, peer);
    EmptyIsConsistent(logs, base);
    AllGenuineConcat(logs, past, clean);
    RunStaysConsistent(self, logs, base, Empty(base), past + clean);
    RegionFollowsCursor(own, logs, base, end, peer);
  }
}
