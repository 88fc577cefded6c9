/**
  Whole runs of the consumer. A run is any sequence of deliveries in any order, with any
  duplicates and losses, where each delivery may be cut short after any number of commits.
*/
module SyncRuns {
  import opened SyncSchema
  import opened SyncProtocol
  import opened SyncApply
  import opened SyncConsumer

  datatype Delivery = Delivery(message: Message, commits: nat)

  /** The log of each emitter: every row it ever publishes. */
  type Logs = map<string, Log>

  function Empty(base: Rows): Store {
    Store(map[], map[], base, [])
  }

  function Run(self: string, store: Store, run: seq<Delivery>): Store
    decreases |run|
  {
    if run == [] then store
    else Run(self, Handle(self, store, run[0].commits, run[0].message).store, run[1..])
  }

  /** No delivery of the run was cut short; the database may still refuse transactions. */
  predicate Uncut(self: string, store: Store, run: seq<Delivery>)
    decreases |run|
  {
    run == [] ||
    var o := Handle(self, store, run[0].commits, run[0].message);
    !o.end.Cut? && Uncut(self, o.store, run[1..])
  }

  predicate IsTransaction(logs: Logs, peer: string, seqNo: int) {
    peer in logs && seqNo in logs[peer] && logs[peer][seqNo].TransactionRow?
  }

  predicate SupportedAt(log: Log, seqNo: int) {
    seqNo in log && log[seqNo].TransactionRow? && Supported(log[seqNo].tx)
  }

  function LogOf(logs: Logs, peer: string): Log {
    if peer in logs then logs[peer] else map[]
  }

  /** A delivered transaction is a row of its emitter's log; other messages are unconstrained. */
  predicate Genuine(logs: Logs, message: Message) {
    message.TransactionMessage? ==>
      && IsTransaction(logs, message.emitter, message.seqNo)
      && logs[message.emitter][message.seqNo].tx == message.tx
  }

  predicate AllGenuine(logs: Logs, run: seq<Delivery>) {
    forall i :: 0 <= i < |run| ==> Genuine(logs, run[i].message)
  }

  /** 1, 2, ..., n. */
  function UpTo(n: nat): seq<int> {
    if n == 0 then [] else UpTo(n - 1) + [n]
  }

  /** The numbers acknowledged for one peer, in the order of the acks. */
  function AckedFor(acks: seq<Ack>, peer: string): seq<int> {
    if acks == [] then []
    else
      var last := acks[|acks| - 1];
      AckedFor(acks[..|acks| - 1], peer) + (if last.source == peer then [last.sourceSeq] else [])
  }

  /** The table after a transaction, which is rolled back when it raises. */
  function After(rows: Rows, tx: Transaction): Rows {
    match Write(rows, tx)
    case Done(after) => after
    case Raised => rows
  }

  function AfterRow(rows: Rows, logs: Logs, peer: string, seqNo: int): Rows {
    if IsTransaction(logs, peer, seqNo) then After(rows, logs[peer][seqNo].tx) else rows
  }

  /** Replaying, from the base table, exactly the transactions that were acknowledged. */
  function Replay(base: Rows, logs: Logs, acks: seq<Ack>): Rows {
    if acks == [] then base
    else
      var last := acks[|acks| - 1];
      AfterRow(Replay(base, logs, acks[..|acks| - 1]), logs, last.source, last.sourceSeq)
  }

  /** Each acknowledged transaction commits where it stands in the replay. */
  predicate ReplayCommits(base: Rows, logs: Logs, acks: seq<Ack>) {
    acks == [] ||
    var last := acks[|acks| - 1];
    && ReplayCommits(base, logs, acks[..|acks| - 1])
    && IsTransaction(logs, last.source, last.sourceSeq) && Supported(logs[last.source][last.sourceSeq].tx)
    && Write(Replay(base, logs, acks[..|acks| - 1]), logs[last.source][last.sourceSeq].tx).Done?
  }

  /** What holds of the store after every run, for every peer. */
  ghost predicate Consistent(logs: Logs, base: Rows, store: Store) {
    && (forall peer :: AppliedInOrder(logs, store, peer))
    && (forall row :: row in store.shelf ==> ShelvedFromLog(logs, store.shelf, row))
    && store.table == Replay(base, logs, store.acks) && ReplayCommits(base, logs, store.acks)
  }

  /** The applied transactions are 1..lastApplied of the log, acknowledged once each, in order. */
  predicate AppliedInOrder(logs: Logs, store: Store, peer: string) {
    && 0 <= LastApplied(store, peer)
    && (peer in store.states ==> store.states[peer].lastApplied <= store.states[peer].lastReceived)
    && AckedFor(store.acks, peer) == UpTo(LastApplied(store, peer))
    && GoodUpTo(LogOf(logs, peer), LastApplied(store, peer))
  }

  predicate GoodUpTo(log: Log, n: int) {
    forall i :: 1 <= i <= n ==> SupportedAt(log, i)
  }

  predicate ShelvedFromLog(logs: Logs, shelf: map<(string, int), ShelfRow>, row: (string, int))
    requires row in shelf
  {
    && IsTransaction(logs, row.0, row.1)
    && shelf[row] == Decodable(logs[row.0][row.1].tx)
  }

  // ─── Safety over every run ────────────────────────────────────────────────

  lemma CommittedStaysConsistent(logs: Logs, base: Rows, store: Store, peer: string, tx: Transaction)
    requires Consistent(logs, base, store)
    requires Genuine(logs, TransactionMessage(peer, LastApplied(store, peer) + 1, tx))
    requires Supported(tx) && Write(store.table, tx).Done?
    ensures Consistent(logs, base, Committed(store, peer, LastApplied(store, peer) + 1, Write(store.table, tx).rows))
  {
    hide Write;
    var next := LastApplied(store, peer) + 1;
    var after := Committed(store, peer, next, Write(store.table, tx).rows);
    assert after.acks[..|after.acks| - 1] == store.acks;
    forall p ensures AppliedInOrder(logs, after, p) {
      assert AppliedInOrder(logs, store, p);
    }
  }

  lemma ApplyStaysConsistent(logs: Logs, base: Rows, store: Store, left: nat, peer: string, tx: Transaction)
    requires Consistent(logs, base, store)
    requires Genuine(logs, TransactionMessage(peer, LastApplied(store, peer) + 1, tx))
    ensures Consistent(logs, base, Apply(store, left, peer, LastApplied(store, peer) + 1, tx).store)
  {
    hide Consistent, Write, Committed, Genuine;
    if Supported(tx) && Write(store.table, tx).Done? {
      CommittedStaysConsistent(logs, base, store, peer, tx);
    }
  }

  lemma ShelfRowIsGenuine(logs: Logs, base: Rows, store: Store, peer: string, seqNo: int)
    requires Consistent(logs, base, store) && (peer, seqNo) in store.shelf
    ensures store.shelf[(peer, seqNo)].Decodable?
    ensures Genuine(logs, TransactionMessage(peer, seqNo, store.shelf[(peer, seqNo)].tx))
  {
    assert ShelvedFromLog(logs, store.shelf, (peer, seqNo));
  }

  lemma {:induction false} DrainStaysConsistent(logs: Logs, base: Rows, store: Store, left: nat, peer: string)
    requires Consistent(logs, base, store)
    ensures Consistent(logs, base, Drain(store, left, peer).store)
    decreases |store.shelf|
  {
    hide Consistent, Apply, BumpApplied, Genuine;
    var next := LastApplied(store, peer) + 1;
    if peer !in store.states || (peer, next) !in store.shelf {
      assert Drain(store, left, peer).store == store;
    } else {
      ShelfRowIsGenuine(logs, base, store, peer, next);
      var tx := store.shelf[(peer, next)].tx;
      var applied := Apply(store, left, peer, next, tx);
      ApplyStaysConsistent(logs, base, store, left, peer, tx);
      if !applied.end.Finished? || applied.left == 0 {
        assert Drain(store, left, peer).store == applied.store;
      } else {
        var rest := Unshelve(applied.store, peer, next);
        ApplyKeepsShelf(store, left, peer, next, tx);
        UnshelveShrinks(applied.store, peer, next);
        UnshelveStaysConsistent(logs, base, applied.store, peer, next);
        DrainStaysConsistent(logs, base, rest, applied.left - 1, peer);
        assert Drain(store, left, peer) == Drain(rest, applied.left - 1, peer);
      }
    }
  }

  lemma UnshelveShrinks(store: Store, peer: string, seqNo: int)
    requires (peer, seqNo) in store.shelf
    ensures |Unshelve(store, peer, seqNo).shelf| < |store.shelf|
  {
    assert Unshelve(store, peer, seqNo).shelf.Keys == store.shelf.Keys - {(peer, seqNo)};
  }

  lemma UnshelveStaysConsistent(logs: Logs, base: Rows, store: Store, peer: string, seqNo: int)
    requires Consistent(logs, base, store)
    ensures Consistent(logs, base, Unshelve(store, peer, seqNo))
  {
    var after := Unshelve(store, peer, seqNo);
    forall p ensures AppliedInOrder(logs, after, p) { assert AppliedInOrder(logs, store, p); }
    forall row | row in after.shelf ensures ShelvedFromLog(logs, after.shelf, row) {
      assert ShelvedFromLog(logs, store.shelf, row);
    }
  }

  lemma ShelvingStaysConsistent(logs: Logs, base: Rows, store: Store, left: nat, peer: string, seqNo: int, tx: Transaction)
    requires Consistent(logs, base, store) && Genuine(logs, TransactionMessage(peer, seqNo, tx))
    requires seqNo != LastApplied(store, peer) + 1
    ensures Consistent(logs, base, HandleTransaction(store, left, peer, seqNo, tx).store)
  {
    hide Replay, AckedFor, GoodUpTo, UpTo, Apply, Drain;
    var after := HandleTransaction(store, left, peer, seqNo, tx).store;
    assert after.acks == store.acks && after.table == store.table;
    forall p ensures AppliedInOrder(logs, after, p) { assert AppliedInOrder(logs, store, p); }
    forall row | row in after.shelf ensures ShelvedFromLog(logs, after.shelf, row) {
      if row in store.shelf { assert ShelvedFromLog(logs, store.shelf, row); }
    }
  }

  /** Whatever commit a delivery is cut at, what it leaves behind is consistent. */
  lemma HandleStaysConsistent(self: string, logs: Logs, base: Rows, store: Store, d: Delivery)
    requires Consistent(logs, base, store) && Genuine(logs, d.message)
    ensures Consistent(logs, base, Handle(self, store, d.commits, d.message).store)
  {
    hide Consistent, Genuine, Drain, Apply, Shelve, BumpReceived;
    match d.message
    case TransactionMessage(peer, seqNo, tx) =>
      if seqNo == LastApplied(store, peer) + 1 {
        var applied := Apply(store, d.commits, peer, seqNo, tx);
        ApplyStaysConsistent(logs, base, store, d.commits, peer, tx);
        DrainStaysConsistent(logs, base, applied.store, applied.left, peer);
      } else {
        ShelvingStaysConsistent(logs, base, store, d.commits, peer, seqNo, tx);
      }
    case _ =>
  }

  lemma {:induction false} RunStaysConsistent(self: string, logs: Logs, base: Rows, store: Store, run: seq<Delivery>)
    requires Consistent(logs, base, store) && AllGenuine(logs, run)
    ensures Consistent(logs, base, Run(self, store, run))
    decreases |run|
  {
    if run != [] {
      assert Genuine(logs, run[0].message);
      HandleStaysConsistent(self, logs, base, store, run[0]);
      RunStaysConsistent(self, logs, base, Handle(self, store, run[0].commits, run[0].message).store, run[1..]);
    }
  }

  /**
    Safety: after every run from an empty node, each peer's applied transactions are exactly
    1..lastApplied of its log, each acknowledged once and in order, and the table is the replay
    of the acknowledged transactions, every one of which commits there.
  */
  lemma AppliedExactlyOnceInOrder(self: string, logs: Logs, base: Rows, run: seq<Delivery>, peer: string)
    requires AllGenuine(logs, run)
    ensures var store := Run(self, Empty(base), run);
      && 0 <= LastApplied(store, peer)
      && AckedFor(store.acks, peer) == UpTo(LastApplied(store, peer))
      && GoodUpTo(LogOf(logs, peer), LastApplied(store, peer))
      && store.table == Replay(base, logs, store.acks) && ReplayCommits(base, logs, store.acks)
  {
    EmptyIsConsistent(logs, base);
    RunStaysConsistent(self, logs, base, Empty(base), run);
    assert AppliedInOrder(logs, Run(self, Empty(base), run), peer);
  }

  lemma {:induction false} ReplayKeepsIntegrity(base: Rows, logs: Logs, acks: seq<Ack>)
    requires Integral(base) && ReplayCommits(base, logs, acks)
    ensures Integral(Replay(base, logs, acks))
  {
    hide Integral, Write;
    if acks != [] {
      var last, front := acks[|acks| - 1], acks[..|acks| - 1];
      ReplayKeepsIntegrity(base, logs, front);
      WriteKeepsIntegrity(Replay(base, logs, front), logs[last.source][last.sourceSeq].tx);
    }
  }

  /** Over every run the tables keep their foreign keys and unique columns, whoever the peers are. */
  lemma TablesStayIntegral(self: string, logs: Logs, base: Rows, run: seq<Delivery>)
    requires AllGenuine(logs, run) && Integral(base)
    ensures Integral(Run(self, Empty(base), run).table)
  {
    hide Integral;
    AppliedExactlyOnceInOrder(self, logs, base, run, "");
    ReplayKeepsIntegrity(base, logs, Run(self, Empty(base), run).acks);
  }

  lemma EmptyIsConsistent(logs: Logs, base: Rows)
    ensures Consistent(logs, base, Empty(base))
  {
    forall p ensures AppliedInOrder(logs, Empty(base), p) {}
  }

  lemma RunOfConcat(self: string, store: Store, first: seq<Delivery>, second: seq<Delivery>)
    ensures Run(self, store, first + second) == Run(self, Run(self, store, first), second)
    decreases |first|
  {
    if first == [] {
      assert first + second == second;
    } else {
      assert (first + second)[1..] == first[1..] + second;
      RunOfConcat(self, Handle(self, store, first[0].commits, first[0].message).store, first[1..], second);
    }
  }

  // ─── Progress of deliveries that are not cut short ────────────────────────

  /** Enough commits for every row on the shelf are enough for any delivery. */
  lemma AmpleCommitsSuffice(self: string, store: Store, message: Message, commits: nat)
    requires 2 * |store.shelf| + 2 <= commits
    ensures !Handle(self, store, commits, message).end.Cut?
  {
    match message
    case TransactionMessage(peer, seqNo, tx) =>
      if peer != self && seqNo == LastApplied(store, peer) + 1 {
        var applied := Apply(store, commits, peer, seqNo, tx);
        ApplyCosts(store, commits, peer, seqNo, tx);
        hide Apply;
        if applied.end.Finished? { DrainIsNotCut(applied.store, applied.left, peer); }
      }
    case _ =>
  }

  lemma ApplyCosts(store: Store, left: nat, peer: string, seqNo: int, tx: Transaction)
    ensures var o := Apply(store, left, peer, seqNo, tx);
      && o.store.shelf == store.shelf && (o.end.Cut? ==> left == 0) && left <= o.left + 1
  {
  }

  lemma {:induction false} DrainIsNotCut(store: Store, left: nat, peer: string)
    requires 2 * |store.shelf| <= left
    ensures !Drain(store, left, peer).end.Cut?
    decreases |store.shelf|
  {
    hide Apply;
    var next := LastApplied(store, peer) + 1;
    if peer in store.states && (peer, next) in store.shelf {
      UnshelveShrinks(store, peer, next);
      match store.shelf[(peer, next)]
      case Undecodable => DrainIsNotCut(Unshelve(store, peer, next), left - 1, peer);
      case Decodable(tx) =>
        var applied := Apply(store, left, peer, next, tx);
        ApplyCosts(store, left, peer, next, tx);
        if applied.end.Finished? { DrainIsNotCut(Unshelve(applied.store, peer, next), applied.left - 1, peer); }
    }
  }

  /** In every reachable store the peer's next transaction, up to number `good`, is supported and commits. */
  ghost predicate AppliesUpTo(logs: Logs, base: Rows, peer: string, good: int) {
    forall store: Store :: Consistent(logs, base, store) && LastApplied(store, peer) < good ==>
      NextApplies(logs, store, peer)
  }

  predicate NextApplies(logs: Logs, store: Store, peer: string) {
    var next := LastApplied(store, peer) + 1;
    && SupportedAt(LogOf(logs, peer), next)
    && Write(store.table, LogOf(logs, peer)[next].tx).Done?
  }

  /** A transaction that was delivered is applied, or waits on the shelf behind a gap. */
  predicate AppliedOrWaiting(store: Store, peer: string, seqNo: int) {
    || seqNo <= LastApplied(store, peer)
    || (LastApplied(store, peer) + 1 < seqNo && (peer, seqNo) in store.shelf)
  }

  /** Weaker: it may also be the very next one, still on the shelf. */
  predicate AppliedOrShelved(store: Store, peer: string, seqNo: int) {
    seqNo <= LastApplied(store, peer) || (peer, seqNo) in store.shelf
  }

  predicate SameFor(before: Store, after: Store, peer: string, seqNo: int) {
    && LastApplied(before, peer) == LastApplied(after, peer)
    && ((peer, seqNo) in before.shelf <==> (peer, seqNo) in after.shelf)
  }

  lemma ApplyTouchesOnlyItsPeer(store: Store, left: nat, peer: string, q: int, tx: Transaction, other: string, seqNo: int)
    requires other != peer
    ensures SameFor(store, Apply(store, left, peer, q, tx).store, other, seqNo)
  {
  }

  lemma {:induction false} DrainTouchesOnlyItsPeer(store: Store, left: nat, peer: string, other: string, seqNo: int)
    requires other != peer
    ensures SameFor(store, Drain(store, left, peer).store, other, seqNo)
    decreases |store.shelf|
  {
    hide Apply;
    var next := LastApplied(store, peer) + 1;
    if peer in store.states && (peer, next) in store.shelf {
      UnshelveShrinks(store, peer, next);
      match store.shelf[(peer, next)]
      case Undecodable =>
        if left != 0 { DrainTouchesOnlyItsPeer(Unshelve(store, peer, next), left - 1, peer, other, seqNo); }
      case Decodable(tx) =>
        var applied := Apply(store, left, peer, next, tx);
        ApplyCosts(store, left, peer, next, tx);
        ApplyTouchesOnlyItsPeer(store, left, peer, next, tx, other, seqNo);
        if applied.end.Finished? && applied.left != 0 {
          DrainTouchesOnlyItsPeer(Unshelve(applied.store, peer, next), applied.left - 1, peer, other, seqNo);
        }
    }
  }

  /** What applying the expected transaction did, unless it was cut short: below `good` it always moves the cursor. */
  lemma ApplyAdvances(logs: Logs, base: Rows, store: Store, left: nat, peer: string, tx: Transaction, good: int)
    requires Consistent(logs, base, store) && AppliesUpTo(logs, base, peer, good)
    requires Genuine(logs, TransactionMessage(peer, LastApplied(store, peer) + 1, tx))
    requires !Apply(store, left, peer, LastApplied(store, peer) + 1, tx).end.Cut?
    ensures var o := Apply(store, left, peer, LastApplied(store, peer) + 1, tx);
      && o.store.shelf == store.shelf
      && (LastApplied(store, peer) < good ==>
        o.end.Finished? && peer in o.store.states && LastApplied(o.store, peer) == LastApplied(store, peer) + 1)
      && LastApplied(store, peer) <= LastApplied(o.store, peer)
  {
    hide Write;
    assert AppliedInOrder(logs, store, peer);
    hide AppliedInOrder;
    if LastApplied(store, peer) < good { assert NextApplies(logs, store, peer); }
  }

  /** After a drain that was not cut short, no transaction up to `good` that it could apply is left behind. */
  lemma {:induction false} DrainLeavesNoApplicable(logs: Logs, base: Rows, store: Store, left: nat, peer: string, seqNo: int, good: int)
    requires Consistent(logs, base, store) && AppliesUpTo(logs, base, peer, good) && seqNo <= good
    requires AppliedOrShelved(store, peer, seqNo)
    requires peer in store.states || seqNo <= LastApplied(store, peer)
    requires !Drain(store, left, peer).end.Cut?
    ensures AppliedOrWaiting(Drain(store, left, peer).store, peer, seqNo)
    decreases |store.shelf|
  {
    hide Consistent, Apply, AppliesUpTo, Genuine;
    var next := LastApplied(store, peer) + 1;
    if peer in store.states && (peer, next) in store.shelf {
      ShelfRowIsGenuine(logs, base, store, peer, next);
      var tx := store.shelf[(peer, next)].tx;
      var applied := Apply(store, left, peer, next, tx);
      ApplyAdvances(logs, base, store, left, peer, tx, good);
      if applied.end.Finished? {
        var rest := Unshelve(applied.store, peer, next);
        ApplyStaysConsistent(logs, base, store, left, peer, tx);
        UnshelveShrinks(applied.store, peer, next);
        UnshelveStaysConsistent(logs, base, applied.store, peer, next);
        DrainLeavesNoApplicable(logs, base, rest, applied.left - 1, peer, seqNo, good);
        assert Drain(store, left, peer) == Drain(rest, applied.left - 1, peer);
      }
    }
  }

  /** The expected transaction arrives: every transaction of its peer that can be applied now is. */
  lemma ExpectedArrives(logs: Logs, base: Rows, store: Store, left: nat, peer: string, tx: Transaction, seqNo: int, good: int)
    requires Consistent(logs, base, store) && AppliesUpTo(logs, base, peer, good) && seqNo <= good
    requires var next := LastApplied(store, peer) + 1;
      && Genuine(logs, TransactionMessage(peer, next, tx))
      && !HandleTransaction(store, left, peer, next, tx).end.Cut?
      && (seqNo == next || AppliedOrWaiting(store, peer, seqNo))
    ensures AppliedOrWaiting(HandleTransaction(store, left, peer, LastApplied(store, peer) + 1, tx).store, peer, seqNo)
  {
    hide Consistent, Apply, Drain, AppliesUpTo, Genuine;
    var next := LastApplied(store, peer) + 1;
    var applied := Apply(store, left, peer, next, tx);
    ApplyStaysConsistent(logs, base, store, left, peer, tx);
    ApplyAdvances(logs, base, store, left, peer, tx, good);
    if applied.end.Finished? {
      DrainLeavesNoApplicable(logs, base, applied.store, applied.left, peer, seqNo, good);
    }
  }

  /** A transaction handled without being cut short is applied or waits behind a gap. */
  lemma HandleDelivers(self: string, logs: Logs, base: Rows, store: Store, d: Delivery, good: int)
    requires Consistent(logs, base, store) && Genuine(logs, d.message) && !Handle(self, store, d.commits, d.message).end.Cut?
    requires d.message.TransactionMessage? && d.message.emitter != self
    requires AppliesUpTo(logs, base, d.message.emitter, good) && d.message.seqNo <= good
    ensures AppliedOrWaiting(Handle(self, store, d.commits, d.message).store, d.message.emitter, d.message.seqNo)
  {
    hide Consistent, Drain, Apply, AppliesUpTo;
    var peer, seqNo, tx := d.message.emitter, d.message.seqNo, d.message.tx;
    if seqNo == LastApplied(store, peer) + 1 {
      ExpectedArrives(logs, base, store, d.commits, peer, tx, seqNo, good);
    }
  }

  lemma HandleKeepsDelivered(self: string, logs: Logs, base: Rows, store: Store, d: Delivery, peer: string, seqNo: int, good: int)
    requires Consistent(logs, base, store) && Genuine(logs, d.message) && !Handle(self, store, d.commits, d.message).end.Cut?
    requires AppliesUpTo(logs, base, peer, good) && seqNo <= good
    requires AppliedOrWaiting(store, peer, seqNo)
    ensures AppliedOrWaiting(Handle(self, store, d.commits, d.message).store, peer, seqNo)
  {
    hide Consistent, Drain, Apply, AppliesUpTo;
    if d.message.TransactionMessage? && d.message.emitter != self {
      var from, q, tx := d.message.emitter, d.message.seqNo, d.message.tx;
      if q == LastApplied(store, from) + 1 {
        if from == peer {
          ExpectedArrives(logs, base, store, d.commits, peer, tx, seqNo, good);
        } else {
          OthersUnaffected(store, d.commits, from, q, tx, peer, seqNo);
        }
      }
    }
  }

  lemma OthersUnaffected(store: Store, left: nat, from: string, q: int, tx: Transaction, peer: string, seqNo: int)
    requires from != peer && q == LastApplied(store, from) + 1
    ensures SameFor(store, HandleTransaction(store, left, from, q, tx).store, peer, seqNo)
  {
    hide Drain, Apply;
    var applied := Apply(store, left, from, q, tx);
    ApplyTouchesOnlyItsPeer(store, left, from, q, tx, peer, seqNo);
    DrainTouchesOnlyItsPeer(applied.store, applied.left, from, peer, seqNo);
  }

  predicate DeliveredIn(run: seq<Delivery>, logs: Logs, peer: string, seqNo: int) {
    seqNo in LogOf(logs, peer) &&
    exists i :: 0 <= i < |run| && run[i].message == MessageOf(peer, seqNo, LogOf(logs, peer)[seqNo])
  }
}
