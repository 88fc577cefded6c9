/**
  Nodes that both write and receive: between deliveries a node changes its own rows, one log number
  after the other, and everything it changes is in its log. Ownership is closed under foreign keys.
*/
module SyncNodes {
  import opened Options
  import opened SyncSchema
  import opened SyncProtocol
  import opened SyncApply
  import opened SyncConsumer
  import opened SyncRuns
  import opened SyncRegions
  import opened SyncConvergence
  import opened SyncMirror

  /** A delivery, or the node's own changes up to a number of its log. */
  datatype Move = Receive(d: Delivery) | Change(upto: nat)

  /** The stored rows and how far into its own log the node has changed them. */
  datatype Node = Node(store: Store, written: nat)

  /** The changes of the log between two numbers, as their author makes them. */
  function OwnChanges(rows: Rows, log: Log, from: nat, upto: nat): Rows {
    if upto <= from then rows
    else
      var before := OwnChanges(rows, log, from, upto - 1);
      if SupportedAt(log, upto) then SyncMirror.Change(before, log[upto].tx) else before
  }

  function Moved(self: string, logs: Logs, node: Node, m: Move): Node {
    match m
    case Receive(d) => node.(store := Handle(self, node.store, d.commits, d.message).store)
    case Change(upto) =>
      if upto <= node.written then node
      else Node(node.store.(table := OwnChanges(node.store.table, LogOf(logs, self), node.written, upto)), upto)
  }

  function Live(self: string, logs: Logs, node: Node, moves: seq<Move>): Node
    decreases |moves|
  {
    if moves == [] then node else Live(self, logs, Moved(self, logs, node, moves[0]), moves[1..])
  }

  predicate UncutMoves(self: string, logs: Logs, node: Node, moves: seq<Move>)
    decreases |moves|
  {
    moves == [] ||
    ((moves[0].Receive? ==> !Handle(self, node.store, moves[0].d.commits, moves[0].d.message).end.Cut?)
      && UncutMoves(self, logs, Moved(self, logs, node, moves[0]), moves[1..]))
  }

  /** What the node receives, without its own changes. */
  function Received(moves: seq<Move>): seq<Delivery> {
    if moves == [] then []
    else (if moves[0].Receive? then [moves[0].d] else []) + Received(moves[1..])
  }

  // ─── A node as it would be without its own changes ────────────────────────

  /** The stores differ at most in the rows of `self`. */
  ghost predicate Agree(own: Ownership, self: string, s: Store, t: Store) {
    && s.states == t.states && s.shelf == t.shelf && s.acks == t.acks
    && ClosedRows(own, s.table) && ClosedRows(own, t.table)
    && forall k :: own.ofKey(k) != Some(self) ==> SameRow(s.table, t.table, k)
  }

  ghost predicate SameOutcome(own: Ownership, self: string, a: Outcome, b: Outcome) {
    a.left == b.left && a.end == b.end && Agree(own, self, a.store, b.store)
  }

  /** The store's own rows. */
  predicate SameOwn(own: Ownership, self: string, a: Rows, b: Rows) {
    Region(own, a, self) == Region(own, b, self)
  }

  lemma AgreeOnRegion(own: Ownership, self: string, s: Store, t: Store, p: string)
    requires Agree(own, self, s, t) && p != self
    ensures Region(own, s.table, p) == Region(own, t.table, p)
  {
    forall k | Mine(own, Some(p), k) ensures SameRow(s.table, t.table, k) {}
    hide ClosedRows;
  }

  /** One row of two tables that agree on a region. */
  lemma RegionRow(own: Ownership, a: Rows, b: Rows, p: string, k: Key)
    requires Region(own, a, p) == Region(own, b, p) && Mine(own, Some(p), k)
    ensures SameRow(a, b, k)
  {
    assert k in a <==> k in Region(own, a, p);
    assert k in b <==> k in Region(own, b, p);
    if k in a { assert Region(own, a, p)[k] == a[k] && Region(own, b, p)[k] == b[k]; }
  }

  lemma WritesAgree(own: Ownership, self: string, s: Store, t: Store, p: string, tx: Transaction)
    requires Agree(own, self, s, t) && p != self && OwnsWrite(own, p, tx)
    ensures Write(s.table, tx).Done? <==> Write(t.table, tx).Done?
    ensures Write(s.table, tx).Done? ==>
      var a := Write(s.table, tx).rows; var b := Write(t.table, tx).rows;
        && ClosedRows(own, a) && ClosedRows(own, b) && SameOwn(own, self, a, s.table)
        && forall k :: own.ofKey(k) != Some(self) ==> SameRow(a, b, k)
  {
    AgreeOnRegion(own, self, s, t, p);
    WriteIsLocal(own, s.table, p, tx);
    WriteIsLocal(own, t.table, p, tx);
    hide Write, ClosedRows, OwnsWrite;
    if Write(s.table, tx).Done? {
      var a, b := Write(s.table, tx).rows, Write(t.table, tx).rows;
      OtherRegionsStay(own, s.table, a, p, self);
      hide Region;
      forall k | own.ofKey(k) != Some(self) ensures SameRow(a, b, k) {
        if own.ofKey(k) == Some(p) {
          RegionRow(own, a, b, p, k);
        } else {
          assert SameRow(s.table, a, k) && SameRow(t.table, b, k) && SameRow(s.table, t.table, k);
        }
      }
    }
  }

  lemma ApplyAgrees(own: Ownership, self: string, s: Store, t: Store, left: nat, p: string, q: int, tx: Transaction)
    requires Agree(own, self, s, t) && p != self && (Supported(tx) ==> OwnsWrite(own, p, tx))
    ensures SameOutcome(own, self, Apply(s, left, p, q, tx), Apply(t, left, p, q, tx))
    ensures SameOwn(own, self, Apply(s, left, p, q, tx).store.table, s.table)
  {
    if Supported(tx) { WritesAgree(own, self, s, t, p, tx); }
    hide Write, ClosedRows, Region, OwnsWrite, BumpApplied;
  }

  /** Every shelved row is of its peer's log. */
  predicate ShelfOk(logs: Logs, shelf: map<(string, int), ShelfRow>) {
    forall row <- shelf.Keys :: ShelvedFromLog(logs, shelf, row)
  }

  lemma {:induction false} DrainAgrees(own: Ownership, self: string, logs: Logs, s: Store, t: Store, left: nat, p: string)
    requires Agree(own, self, s, t) && p != self && ClosedLogs(own, logs) && ShelfOk(logs, s.shelf)
    ensures SameOutcome(own, self, Drain(s, left, p), Drain(t, left, p))
    ensures SameOwn(own, self, Drain(s, left, p).store.table, s.table)
    decreases |s.shelf|
  {
    hide ClosedRows, Apply, Region, OwnsWrite, ClosedLogs, Unshelve;
    var next := LastApplied(s, p) + 1;
    assert LastApplied(t, p) + 1 == next;
    if p in s.states && (p, next) in s.shelf {
      assert ShelvedFromLog(logs, s.shelf, (p, next));
      var tx := s.shelf[(p, next)].tx;
      if Supported(tx) { LoggedIsOwned(own, logs, p, next); }
      ApplyAgrees(own, self, s, t, left, p, next, tx);
      var a, b := Apply(s, left, p, next, tx), Apply(t, left, p, next, tx);
      if a.end.Finished? && a.left > 0 {
        ApplyKeepsShelf(s, left, p, next, tx);
        var u, v := Unshelve(a.store, p, next), Unshelve(b.store, p, next);
        UnshelveShrinks(a.store, p, next);
        UnshelveAgrees(own, self, logs, a.store, b.store, p, next);
        DrainAgrees(own, self, logs, u, v, a.left - 1, p);
        assert Drain(s, left, p) == Drain(u, a.left - 1, p);
        assert Drain(t, left, p) == Drain(v, b.left - 1, p);
      }
    }
  }

  lemma LoggedIsOwned(own: Ownership, logs: Logs, p: string, q: int)
    requires ClosedLogs(own, logs) && IsTransaction(logs, p, q) && Supported(logs[p][q].tx)
    ensures OwnsWrite(own, p, logs[p][q].tx)
  {
  }

  lemma UnshelveAgrees(own: Ownership, self: string, logs: Logs, s: Store, t: Store, p: string, q: int)
    requires Agree(own, self, s, t) && ShelfOk(logs, s.shelf)
    ensures Agree(own, self, Unshelve(s, p, q), Unshelve(t, p, q)) && ShelfOk(logs, Unshelve(s, p, q).shelf)
    ensures Unshelve(s, p, q).table == s.table
  {
    hide ClosedRows;
    forall row | row in Unshelve(s, p, q).shelf ensures ShelvedFromLog(logs, Unshelve(s, p, q).shelf, row) {
      assert ShelvedFromLog(logs, s.shelf, row);
    }
  }

  lemma HandleAgrees(own: Ownership, self: string, logs: Logs, s: Store, t: Store, d: Delivery)
    requires Agree(own, self, s, t) && ClosedLogs(own, logs) && ShelfOk(logs, s.shelf) && Genuine(logs, d.message)
    ensures SameOutcome(own, self, Handle(self, s, d.commits, d.message), Handle(self, t, d.commits, d.message))
    ensures SameOwn(own, self, Handle(self, s, d.commits, d.message).store.table, s.table)
  {
    hide ClosedRows, Apply, Region, OwnsWrite, ClosedLogs, Drain, BumpReceived;
    if d.message.TransactionMessage? && d.message.emitter != self {
      var p, q, tx := d.message.emitter, d.message.seqNo, d.message.tx;
      assert LastApplied(t, p) == LastApplied(s, p);
      if q == LastApplied(s, p) + 1 {
        if Supported(tx) { LoggedIsOwned(own, logs, p, q); }
        ApplyAgrees(own, self, s, t, d.commits, p, q, tx);
        ApplyKeepsShelf(s, d.commits, p, q, tx);
        var a, b := Apply(s, d.commits, p, q, tx), Apply(t, d.commits, p, q, tx);
        if a.end.Finished? { DrainAgrees(own, self, logs, a.store, b.store, a.left, p); }
      }
    }
  }

  // ─── Its own changes ──────────────────────────────────────────────────────

  lemma ChangeIsLocal(own: Ownership, self: string, rows: Rows, tx: Transaction)
    requires ClosedRows(own, rows) && OwnsWrite(own, self, tx)
    ensures ClosedRows(own, SyncMirror.Change(rows, tx))
    ensures Region(own, SyncMirror.Change(rows, tx), self) == SyncMirror.Change(Region(own, rows, self), tx)
    ensures forall k :: own.ofKey(k) != Some(self) ==> SameRow(rows, SyncMirror.Change(rows, tx), k)
  {
    hide OwnsRow;
    var after := SyncMirror.Change(rows, tx);
    assert Region(own, after, self) == SyncMirror.Change(Region(own, rows, self), tx);
  }

  lemma {:induction false} OwnChangesAreLocal(own: Ownership, self: string, rows: Rows, base: Rows, logs: Logs, from: nat, upto: nat)
    requires ClosedRows(own, rows) && ClosedLogs(own, logs) && from <= upto
    requires Region(own, rows, self) == Own(base, LogOf(logs, self), from)
    ensures var after := OwnChanges(rows, LogOf(logs, self), from, upto);
      && ClosedRows(own, after) && Region(own, after, self) == Own(base, LogOf(logs, self), upto)
      && forall k :: own.ofKey(k) != Some(self) ==> SameRow(rows, after, k)
  {
    hide ClosedRows, Region, ClosedLogs, OwnsWrite, SyncMirror.Change;
    if from < upto {
      var log := LogOf(logs, self);
      OwnChangesAreLocal(own, self, rows, base, logs, from, upto - 1);
      var before := OwnChanges(rows, log, from, upto - 1);
      if SupportedAt(log, upto) {
        LoggedIsOwned(own, logs, self, upto);
        ChangeIsLocal(own, self, before, log[upto].tx);
      }
    }
  }

  // ─── Whole runs of a node ─────────────────────────────────────────────────

  /** Beside `t`, which received the same and changed nothing: the own rows are those of the log so far. */
  ghost predicate Beside(own: Ownership, self: string, logs: Logs, base: Rows, node: Node, t: Store) {
    && Agree(own, self, node.store, t)
    && Region(own, node.store.table, self) == Own(Region(own, base, self), LogOf(logs, self), node.written)
  }

  lemma MoveStaysBeside(own: Ownership, self: string, logs: Logs, base: Rows, node: Node, t: Store, m: Move)
    requires Beside(own, self, logs, base, node, t) && ClosedLogs(own, logs) && ShelfOk(logs, t.shelf)
    requires m.Receive? ==> Genuine(logs, m.d.message)
    ensures Beside(own, self, logs, base, Moved(self, logs, node, m), if m.Receive? then Handle(self, t, m.d.commits, m.d.message).store else t)
    ensures m.Receive? ==>
      Handle(self, node.store, m.d.commits, m.d.message).end == Handle(self, t, m.d.commits, m.d.message).end
  {
    hide ClosedRows, Region, ClosedLogs, Handle, OwnChanges, Own;
    if m.Receive? {
      HandleAgrees(own, self, logs, node.store, t, m.d);
    } else if node.written < m.upto {
      OwnChangesAreLocal(own, self, node.store.table, Region(own, base, self), logs, node.written, m.upto);
      var after := OwnChanges(node.store.table, LogOf(logs, self), node.written, m.upto);
      forall k | own.ofKey(k) != Some(self) ensures SameRow(after, t.table, k) {
        assert SameRow(node.store.table, after, k) && SameRow(node.store.table, t.table, k);
      }
    }
  }

  lemma ConsistentShelf(logs: Logs, base: Rows, t: Store)
    requires Consistent(logs, base, t)
    ensures ShelfOk(logs, t.shelf)
  {
  }

  /** A node's run beside what it would be without its own changes. */
  lemma {:induction false} LiveStaysBeside(own: Ownership, self: string, logs: Logs, base: Rows, node: Node, t: Store, moves: seq<Move>)
    requires Beside(own, self, logs, base, node, t) && ClosedLogs(own, logs) && Consistent(logs, base, t)
    requires AllGenuine(logs, Received(moves))
    ensures Beside(own, self, logs, base, Live(self, logs, node, moves), Run(self, t, Received(moves)))
    ensures UncutMoves(self, logs, node, moves) <==> Uncut(self, t, Received(moves))
    decreases |moves|
  {
    hide Beside, ClosedLogs, Consistent, Genuine, Handle;
    if moves != [] {
      ConsistentShelf(logs, base, t);
      var received := Received(moves);
      if moves[0].Receive? {
        assert received[0] == moves[0].d && received[1..] == Received(moves[1..]);
        MoveStaysBeside(own, self, logs, base, node, t, moves[0]);
        HandleStaysConsistent(self, logs, base, t, moves[0].d);
        LiveStaysBeside(own, self, logs, base, Moved(self, logs, node, moves[0]),
          Handle(self, t, moves[0].d.commits, moves[0].d.message).store, moves[1..]);
      } else {
        assert received == Received(moves[1..]);
        MoveStaysBeside(own, self, logs, base, node, t, moves[0]);
        LiveStaysBeside(own, self, logs, base, Moved(self, logs, node, moves[0]), t, moves[1..]);
      }
    }
  }

  /** A node starts with the base table, its own log untouched. */
  function Start(base: Rows): Node {
    Node(Empty(base), 0)
  }

  lemma StartsBeside(own: Ownership, self: string, logs: Logs, base: Rows)
    requires ClosedRows(own, base)
    ensures Beside(own, self, logs, base, Start(base), Empty(base))
  {
  }

  /** Any past, then moves that are not cut short, deliver every other peer's log, and make all of its own changes. */
  ghost predicate Completes(own: Ownership, self: string, logs: Logs, base: Rows, past: seq<Move>, clean: seq<Move>) {
    var middle := Live(self, logs, Start(base), past);
    && AllGenuine(logs, Received(past)) && AllGenuine(logs, Received(clean))
    && UncutMoves(self, logs, middle, clean)
    && (forall peer :: peer in logs && peer != self ==> DeliversAll(Received(clean), logs, peer))
  }

  function End(self: string, logs: Logs, base: Rows, past: seq<Move>, clean: seq<Move>): Node {
    Live(self, logs, Live(self, logs, Start(base), past), clean)
  }

  /** What a complete node holds: of itself its own changes, of every other peer the fold of its good prefix. */
  lemma CompleteNode(own: Ownership, self: string, logs: Logs, base: Rows, past: seq<Move>, clean: seq<Move>, p: string)
    requires ClosedRows(own, base) && ClosedLogs(own, logs) && Completes(own, self, logs, base, past, clean)
    ensures var end := End(self, logs, base, past, clean); var region := Region(own, base, p); var log := LogOf(logs, p);
      Region(own, end.store.table, p) == if p == self then Own(region, log, end.written) else Fold(region, log, GoodPrefix(region, log))
  {
    hide ClosedLogs, Handle, Region, ClosedRows, GoodPrefix, DeliversAll;
    var middle := Live(self, logs, Start(base), past);
    var end := Live(self, logs, middle, clean);
    var t := Run(self, Empty(base), Received(past));
    var u := Run(self, t, Received(clean));
    StartsBeside(own, self, logs, base);
    EmptyIsConsistent(logs, base);
    LiveStaysBeside(own, self, logs, base, Start(base), Empty(base), past);
    RunStaysConsistent(self, logs, base, Empty(base), Received(past));
    LiveStaysBeside(own, self, logs, base, middle, t, clean);
    RunStaysConsistent(self, logs, base, t, Received(clean));
    hide Consistent, Live, Run, Fold, Own;
    if p != self {
      AgreeOnRegion(own, self, end.store, u, p);
      PeerRegion(own, self, logs, base, Received(past), Received(clean), p);
    }
  }

  /** The same of a node that only receives. */
  lemma PeerRegion(own: Ownership, self: string, logs: Logs, base: Rows, past: seq<Delivery>, clean: seq<Delivery>, p: string)
    requires ClosedRows(own, base) && ClosedLogs(own, logs) && p != self
    requires AllGenuine(logs, past) && AllGenuine(logs, clean)
    requires Uncut(self, Run(self, Empty(base), past), clean) && (p in logs ==> DeliversAll(clean, logs, p))
    ensures var region := Region(own, base, p); var log := LogOf(logs, p);
      Region(own, Run(self, Run(self, Empty(base), past), clean).table, p) == Fold(region, log, GoodPrefix(region, log))
  {
    hide ClosedLogs, Handle, Region, ClosedRows, GoodPrefix, DeliversAll, Uncut;
    var u := Run(self, Run(self, Empty(base), past), clean);
    EmptyIsConsistent(logs, base);
    RunStaysConsistent(self, logs, base, Empty(base), past);
    RunStaysConsistent(self, logs, base, Run(self, Empty(base), past), clean);
    RunOfConcat(self, Empty(base), past, clean);
    RegionFollowsCursor(own, logs, base, u, p);
    if p in logs {
      Convergence(self, own, logs, base, past, clean, p);
    } else {
      assert AppliedInOrder(logs, u, p);
      EmptyLog(Region(own, base, p));
    }
    hide Run, Consistent;
  }

  lemma NeverCommits(base: Rows, i: nat)
    requires 0 < i
    ensures !CommitsAt(base, map[], i)
  {
  }

  lemma EmptyLog(base: Rows)
    ensures GoodPrefix(base, map[]) == 0
  {
    hide CommitsAt;
    if 0 < GoodPrefix(base, map[]) { NeverCommits(base, 1); }
  }

  // ─── Two nodes that both write ────────────────────────────────────────────

  /** What the others make of a peer's log is what the peer made of it. */
  predicate Mirrored(own: Ownership, logs: Logs, base: Rows, p: string, written: nat) {
    var region, log := Region(own, base, p), LogOf(logs, p);
    Fold(region, log, GoodPrefix(region, log)) == Own(region, log, written)
  }

  lemma SameByRegions(own: Ownership, a: Rows, b: Rows)
    requires forall p :: Region(own, a, p) == Region(own, b, p)
    ensures a == b
  {
    forall k: Key ensures SameRow(a, b, k) {
      var p := if own.ofKey(k).Some? then own.ofKey(k).value else "";
      RegionRow(own, a, b, p, k);
    }
    assert forall k :: k in a <==> k in b by {
      forall k: Key ensures k in a <==> k in b { assert SameRow(a, b, k); }
    }
    forall k | k in a ensures a[k] == b[k] { assert SameRow(a, b, k); }
  }

  /**
    Two nodes that both write and receive, whatever they went through, hold the same table after
    complete moves if and only if what the others make of each one's log is what it made itself.
  */
  lemma NodesAgreeIff(own: Ownership, logs: Logs, base: Rows, a: string, b: string,
      past1: seq<Move>, clean1: seq<Move>, past2: seq<Move>, clean2: seq<Move>)
    requires ClosedRows(own, base) && ClosedLogs(own, logs) && a != b
    requires Completes(own, a, logs, base, past1, clean1) && Completes(own, b, logs, base, past2, clean2)
    ensures var x := End(a, logs, base, past1, clean1); var y := End(b, logs, base, past2, clean2);
      x.store.table == y.store.table <==>
        Mirrored(own, logs, base, a, x.written) && Mirrored(own, logs, base, b, y.written)
  {
    hide ClosedRows, ClosedLogs, Completes, End, Region, Fold, Own, GoodPrefix;
    var x, y := End(a, logs, base, past1, clean1), End(b, logs, base, past2, clean2);
    forall p ensures p != a && p != b ==> Region(own, x.store.table, p) == Region(own, y.store.table, p) {
      CompleteNode(own, a, logs, base, past1, clean1, p);
      CompleteNode(own, b, logs, base, past2, clean2, p);
    }
    CompleteNode(own, a, logs, base, past1, clean1, a);
    CompleteNode(own, b, logs, base, past2, clean2, a);
    CompleteNode(own, a, logs, base, past1, clean1, b);
    CompleteNode(own, b, logs, base, past2, clean2, b);
    if Mirrored(own, logs, base, a, x.written) && Mirrored(own, logs, base, b, y.written) {
      SameByRegions(own, x.store.table, y.store.table);
    }
  }

  /** Beyond the last transaction a log changes nothing. */
  lemma {:induction false} OwnStable(base: Rows, log: Log, n: nat, m: nat)
    requires n <= m && forall i :: n < i <= m ==> !SupportedAt(log, i)
    ensures Own(base, log, m) == Own(base, log, n)
  {
    if n < m { OwnStable(base, log, n, m - 1); }
  }

  /** A peer that wrote all of its log, which is applicable throughout and whose changes are all harmless. */
  ghost predicate Faithful(own: Ownership, logs: Logs, base: Rows, p: string, written: nat) {
    var region, log := Region(own, base, p), LogOf(logs, p);
    && Integral(region) && WellFormed(log) && DenselyNumbered(log) && EachApplicable(region, log)
    && GoodPrefix(region, log) <= written
    && forall i :: 1 <= i <= GoodPrefix(region, log) ==> HarmlessAt(region, log, i)
  }

  lemma FaithfulIsMirrored(own: Ownership, logs: Logs, base: Rows, p: string, written: nat)
    requires Faithful(own, logs, base, p, written)
    ensures Mirrored(own, logs, base, p, written)
  {
    var region, log := Region(own, base, p), LogOf(logs, p);
    var good := GoodPrefix(region, log);
    hide GoodPrefix, Region, HarmlessAt, DenselyNumbered, EachApplicable, WellFormed, Integral;
    AllGoodIff(region, log);
    MirroredIffHarmless(region, log, good);
    MirroredTables(region, log, good);
    OwnStable(region, log, good, written);
  }

  /**
    So they agree when each one's transactions are numbered without a gap, which its own acks must
    not interrupt, are applicable, and never change a row that others reference.
  */
  lemma FaithfulNodesAgree(own: Ownership, logs: Logs, base: Rows, a: string, b: string,
      past1: seq<Move>, clean1: seq<Move>, past2: seq<Move>, clean2: seq<Move>)
    requires ClosedRows(own, base) && ClosedLogs(own, logs) && a != b
    requires Completes(own, a, logs, base, past1, clean1) && Completes(own, b, logs, base, past2, clean2)
    requires Faithful(own, logs, base, a, End(a, logs, base, past1, clean1).written)
    requires Faithful(own, logs, base, b, End(b, logs, base, past2, clean2).written)
    ensures End(a, logs, base, past1, clean1).store.table == End(b, logs, base, past2, clean2).store.table
  {
    hide ClosedRows, ClosedLogs, Completes, End, Faithful, Mirrored;
    NodesAgreeIff(own, logs, base, a, b, past1, clean1, past2, clean2);
    FaithfulIsMirrored(own, logs, base, a, End(a, logs, base, past1, clean1).written);
    FaithfulIsMirrored(own, logs, base, b, End(b, logs, base, past2, clean2).written);
  }
}
