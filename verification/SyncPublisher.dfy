/**
  The sending side: rows of the local log beyond the cursor go to the topic in batches. The
  cursor lives in memory and is persisted once a whole batch is out, so a crash republishes.
*/
module SyncPublisher {
  import opened Sets
  import opened SyncProtocol

  const BATCH_SIZE := 100

  /**
    `log` holds the visible rows of this emitter, `stored` the persisted cursor and `cursor` the
    one in memory. `broker` lists the numbers the broker received, `published` those whose
    publication completed since the process started.
  */
  datatype State = State(log: Log, stored: int, cursor: int, broker: seq<int>, published: seq<int>)

  /** How one batch ends: a publication may fail although the broker got the message. */
  datatype Fault = Clean | FetchFails | PublishFails(after: nat, reached: bool) | PersistFails

  function Ahead(numbers: set<int>, cursor: int): set<int> {
    set q | q in numbers && cursor < q
  }

  /** SELECT ... WHERE seq > cursor ORDER BY seq LIMIT limit. */
  function NextRows(numbers: set<int>, cursor: int, limit: nat): seq<int>
    decreases limit
  {
    var ahead := Ahead(numbers, cursor);
    if limit == 0 || ahead == {} then []
    else [Least(ahead)] + NextRows(numbers, Least(ahead), limit - 1)
  }

  function PublishOne(s: State, q: int): State {
    s.(broker := s.broker + [q], cursor := q, published := s.published + [q])
  }

  function PublishRows(s: State, rows: seq<int>): State {
    if rows == [] then s else PublishOne(PublishRows(s, rows[..|rows| - 1]), rows[|rows| - 1])
  }

  function Batch(s: State, fault: Fault): State {
    var rows := NextRows(s.log.Keys, s.cursor, BATCH_SIZE);
    if fault.FetchFails? || rows == [] then s
    else if fault.PublishFails? && fault.after < |rows| then
      var sent := PublishRows(s, rows[..fault.after]);
      if fault.reached then sent.(broker := sent.broker + [rows[fault.after]]) else sent
    else
      var sent := PublishRows(s, rows);
      if fault.PersistFails? then sent else sent.(stored := sent.cursor)
  }

  /** A row becomes visible; a process starts (again) from the stored cursor; a batch runs. */
  datatype Event = Commit(q: int, row: LogRow) | Start | RunBatch(fault: Fault)

  function Step(s: State, e: Event): State {
    match e
    case Commit(q, row) => if q in s.log then s else s.(log := s.log[q := row])
    case Start => s.(cursor := s.stored, published := [])
    case RunBatch(fault) => Batch(s, fault)
  }

  function Run(s: State, events: seq<Event>): State
    decreases |events|
  {
    if events == [] then s else Run(Step(s, events[0]), events[1..])
  }

  const INITIAL := State(map[], 0, 0, [], [])

  /** Rows become visible in the order of their numbers, which start at 1. */
  predicate InOrder(s: State, e: Event) {
    e.Commit? ==> 1 <= e.q && forall k :: k in s.log ==> k < e.q
  }

  predicate AllInOrder(s: State, events: seq<Event>)
    decreases |events|
  {
    events == [] || (InOrder(s, events[0]) && AllInOrder(Step(s, events[0]), events[1..]))
  }

  predicate Ascending(numbers: seq<int>) {
    forall i, j :: 0 <= i < j < |numbers| ==> numbers[i] < numbers[j]
  }

  /** Nothing at or below the cursor in memory is missing at the broker. */
  predicate NoLoss(s: State) {
    && s.stored <= s.cursor
    && (s.cursor in s.log || s.cursor == 0)
    && (s.stored in s.log || s.stored == 0)
    && (forall q :: q in s.log && q <= s.cursor ==> q in s.broker)
    && (forall q :: q in s.broker ==> q in s.log)
    && Ascending(s.published)
    && (forall q :: q in s.published ==> q <= s.cursor)
  }

  /** A batch is the next rows in order: ascending, beyond the cursor, and none is skipped. */
  predicate IsNextRows(numbers: set<int>, cursor: int, limit: nat, rows: seq<int>) {
    && Ascending(rows) && |rows| <= limit
    && (forall r :: r in rows ==> r in numbers && cursor < r)
    && (forall q :: q in numbers && cursor < q && q !in rows ==> |rows| == limit && Beyond(rows, q))
  }

  predicate Beyond(rows: seq<int>, q: int) {
    forall r :: r in rows ==> r < q
  }

  lemma {:induction false} NextRowsAreNext(numbers: set<int>, cursor: int, limit: nat)
    ensures IsNextRows(numbers, cursor, limit, NextRows(numbers, cursor, limit))
    decreases limit
  {
    var ahead := Ahead(numbers, cursor);
    if limit != 0 && ahead != {} {
      var first := Least(ahead);
      var rest := NextRows(numbers, first, limit - 1);
      NextRowsAreNext(numbers, first, limit - 1);
      ConsIsNext(numbers, cursor, limit, first, rest);
    } else {
      forall q | q in numbers && cursor < q ensures q in ahead {}
    }
  }

  lemma ConsIsNext(numbers: set<int>, cursor: int, limit: nat, first: int, rest: seq<int>)
    requires limit != 0 && IsNextRows(numbers, first, limit - 1, rest)
    requires IsLeast(Ahead(numbers, cursor), first)
    ensures IsNextRows(numbers, cursor, limit, [first] + rest)
  {
    var ahead := Ahead(numbers, cursor);
    var rows := [first] + rest;
    forall i, j | 0 <= i < j < |rows| ensures rows[i] < rows[j] {
      assert rows[j] == rest[j - 1] && rest[j - 1] in rest;
      if i != 0 { assert rows[i] == rest[i - 1]; }
    }
    forall r | r in rows ensures r in numbers && cursor < r {
      assert r == first || r in rest;
    }
    forall q | q in numbers && cursor < q && q !in rows ensures |rows| == limit && Beyond(rows, q) {
      assert q in ahead && rows[0] == first;
      forall r | r in rest ensures r in rows { var i :| 0 <= i < |rest| && rest[i] == r; assert rows[i + 1] == r; }
      assert q !in rest;
    }
  }

  lemma {:induction false} PrefixOfNextRows(numbers: set<int>, cursor: int, limit: nat, n: nat)
    requires n <= |NextRows(numbers, cursor, limit)|
    ensures n <= limit && NextRows(numbers, cursor, limit)[..n] == NextRows(numbers, cursor, n)
    decreases limit
  {
    if n != 0 {
      var first := Least(Ahead(numbers, cursor));
      PrefixOfNextRows(numbers, first, limit - 1, n - 1);
      assert NextRows(numbers, cursor, limit)[..n] == [first] + NextRows(numbers, first, limit - 1)[..n - 1];
    }
  }

  lemma {:induction false} PublishedRows(s: State, rows: seq<int>)
    ensures var after := PublishRows(s, rows);
      && after.broker == s.broker + rows && after.published == s.published + rows
      && after.stored == s.stored && after.log == s.log
      && after.cursor == (if rows == [] then s.cursor else rows[|rows| - 1])
  {
    if rows != [] {
      PublishedRows(s, rows[..|rows| - 1]);
      assert rows == rows[..|rows| - 1] + [rows[|rows| - 1]];
    }
  }

  /**
    How far a batch of at most 100 rows gets: a failed publication leaves the cursor in memory at the
    last row that is out, whether or not the broker got the next one, and the stored cursor moves
    only when all rows are out and it can be written.
  */
  lemma BatchEffect(s: State, fault: Fault)
    ensures var after, rows := Batch(s, fault), NextRows(s.log.Keys, s.cursor, 100);
      var sent := if fault.FetchFails? then 0 else if fault.PublishFails? && fault.after < |rows| then fault.after else |rows|;
      var unsure := fault.PublishFails? && fault.reached && sent < |rows|;
      && after.log == s.log && after.published == s.published + rows[..sent]
      && after.broker == s.broker + (if unsure then rows[..sent + 1] else rows[..sent])
      && after.cursor == (if sent == 0 then s.cursor else rows[sent - 1])
      && after.stored == (if 0 < sent == |rows| && !fault.PersistFails? then after.cursor else s.stored)
  {
    hide NextRows, PublishRows;
    var rows := NextRows(s.log.Keys, s.cursor, 100);
    if fault.PublishFails? && fault.after < |rows| {
      PublishedRows(s, rows[..fault.after]);
      assert rows[..fault.after + 1] == rows[..fault.after] + [rows[fault.after]];
    } else if rows != [] {
      PublishedRows(s, rows);
      assert rows[..|rows|] == rows;
    } else {
      assert rows[..0] == [];
    }
  }

  /** Publishing next rows, up to any one of them, keeps the invariant. */
  lemma PublishKeepsNoLoss(s: State, rows: seq<int>, n: nat)
    requires NoLoss(s) && IsNextRows(s.log.Keys, s.cursor, n, rows)
    ensures NoLoss(PublishRows(s, rows))
  {
    PublishedRows(s, rows);
    var after := PublishRows(s, rows);
    if rows != [] {
      var last := rows[|rows| - 1];
      assert last in rows;
      forall q | q in after.log && q <= after.cursor ensures q in after.broker {
        assert s.cursor < q && q !in rows ==> Beyond(rows, q);
      }
      AscendingConcat(s.published, rows, s.cursor);
      forall q | q in after.published ensures q <= after.cursor {
        if q in rows { var i :| 0 <= i < |rows| && rows[i] == q; }
      }
    }
  }

  lemma AscendingConcat(a: seq<int>, b: seq<int>, middle: int)
    requires Ascending(a) && Ascending(b)
    requires forall x :: x in a ==> x <= middle
    requires forall x :: x in b ==> middle < x
    ensures Ascending(a + b)
  {
    forall i, j | 0 <= i < j < |a + b| ensures (a + b)[i] < (a + b)[j] {
      if i < |a| <= j {
        assert (a + b)[i] == a[i] && a[i] in a && (a + b)[j] == b[j - |a|] && b[j - |a|] in b;
      }
    }
  }

  lemma StepKeepsNoLoss(s: State, e: Event)
    requires NoLoss(s) && InOrder(s, e)
    ensures NoLoss(Step(s, e))
  {
    match e
    case RunBatch(fault) =>
      BatchKeepsNoLoss(s, fault);
    case Commit(q, row) =>
    case Start =>
  }

  lemma BatchKeepsNoLoss(s: State, fault: Fault)
    requires NoLoss(s)
    ensures NoLoss(Batch(s, fault))
  {
    var rows := NextRows(s.log.Keys, s.cursor, BATCH_SIZE);
    NextRowsAreNext(s.log.Keys, s.cursor, BATCH_SIZE);
    if fault.PublishFails? && fault.after < |rows| {
      var k := fault.after;
      PrefixOfNextRows(s.log.Keys, s.cursor, BATCH_SIZE, k);
      NextRowsAreNext(s.log.Keys, s.cursor, k);
      PublishKeepsNoLoss(s, rows[..k], k);
      PublishedRows(s, rows[..k]);
      assert rows[k] in rows;
    } else {
      PublishKeepsNoLoss(s, rows, BATCH_SIZE);
      PublishedRows(s, rows);
    }
  }

  lemma {:induction false} RunKeepsNoLoss(s: State, events: seq<Event>)
    requires NoLoss(s) && AllInOrder(s, events)
    ensures NoLoss(Run(s, events))
    decreases |events|
  {
    if events != [] {
      StepKeepsNoLoss(s, events[0]);
      RunKeepsNoLoss(Step(s, events[0]), events[1..]);
    }
  }

  /**
    In every run with failed publications, reconnects and crashes anywhere, the stored cursor
    never passes the one in memory, every visible row the cursor has passed is at the broker,
    only rows of the log are there, and one process publishes in strictly ascending order.
  */
  lemma NothingLost(events: seq<Event>)
    requires AllInOrder(INITIAL, events)
    ensures var s := Run(INITIAL, events);
      && s.stored <= s.cursor
      && (forall q :: q in s.log && q <= s.cursor ==> q in s.broker)
      && (forall q :: q in s.broker ==> q in s.log)
      && Ascending(s.published)
  {
    RunKeepsNoLoss(INITIAL, events);
  }

  /** A batch without failure catches up: it publishes everything when less than a batch is due. */
  lemma CleanBatchCatchesUp(s: State)
    requires NoLoss(s) && |NextRows(s.log.Keys, s.cursor, BATCH_SIZE)| < BATCH_SIZE
    ensures var after := Batch(s, Clean);
      && (forall q :: q in s.log ==> q in after.broker)
      && (NextRows(s.log.Keys, s.cursor, BATCH_SIZE) != [] ==> after.stored == after.cursor)
  {
    var rows := NextRows(s.log.Keys, s.cursor, BATCH_SIZE);
    NextRowsAreNext(s.log.Keys, s.cursor, BATCH_SIZE);
    PublishedRows(s, rows);
  }

  // ─── Rows that become visible late ────────────────────────────────────────

  /**
    The order of visibility is what the guarantee rests on: a new row keeps it exactly when its
    number is beyond the cursor in memory.
  */
  lemma CommitKeepsNoLossIffAhead(s: State, q: int, row: LogRow)
    requires NoLoss(s) && q !in s.log
    ensures NoLoss(Step(s, Commit(q, row))) <==> s.cursor < q
  {
    var after := Step(s, Commit(q, row));
    assert q in after.log && q !in s.broker;
  }

  /** A row that becomes visible at or below the stored cursor is never published. */
  lemma {:induction false} LateRowNeverPublished(s: State, q: int, events: seq<Event>)
    requires s.stored <= s.cursor && q <= s.stored && q !in s.broker
    ensures q !in Run(s, events).broker
    decreases |events|
  {
    if events != [] {
      if events[0].RunBatch? { LateRowNotInBatch(s, q, events[0].fault); }
      LateRowNeverPublished(Step(s, events[0]), q, events[1..]);
    }
  }

  lemma LateRowNotInBatch(s: State, q: int, fault: Fault)
    requires s.stored <= s.cursor && q <= s.stored && q !in s.broker
    ensures q !in Batch(s, fault).broker
    ensures s.stored <= Batch(s, fault).stored <= Batch(s, fault).cursor
  {
    var rows := NextRows(s.log.Keys, s.cursor, BATCH_SIZE);
    NextRowsAreNext(s.log.Keys, s.cursor, BATCH_SIZE);
    assert q !in rows;
    PublishedRows(s, rows);
    assert rows != [] ==> rows[|rows| - 1] in rows;
    if fault.PublishFails? && fault.after < |rows| {
      var sent := rows[..fault.after];
      PublishedRows(s, sent);
      assert rows[fault.after] in rows && (forall r :: r in sent ==> r in rows);
      assert sent != [] ==> sent[|sent| - 1] in sent;
    }
  }

  lemma OneBatchCloser(s: State, q: int)
    requires q in s.log && s.cursor < q
    ensures var after := Batch(s, Clean);
      q in after.broker || (after.log == s.log && s.cursor < after.cursor < q && |Ahead(after.log.Keys, after.cursor)| < |Ahead(s.log.Keys, s.cursor)|)
  {
    var rows := NextRows(s.log.Keys, s.cursor, BATCH_SIZE);
    NextRowsAreNext(s.log.Keys, s.cursor, BATCH_SIZE);
    PublishedRows(s, rows);
    if q !in rows {
      var last := rows[|rows| - 1];
      assert last in rows && Beyond(rows, q);
      AheadShrinks(s.log.Keys, s.cursor, last, last);
    }
  }

  lemma AheadShrinks(numbers: set<int>, cursor: int, later: int, r: int)
    requires cursor <= later && r in numbers && cursor < r <= later
    ensures |Ahead(numbers, later)| < |Ahead(numbers, cursor)|
  {
    assert r in Ahead(numbers, cursor) && Ahead(numbers, later) <= Ahead(numbers, cursor) - {r};
    FewerOrEqual(Ahead(numbers, later), Ahead(numbers, cursor) - {r});
  }

  lemma FewerOrEqual(a: set<int>, b: set<int>)
    requires a <= b
    ensures |a| <= |b|
  {
    assert b == a + (b - a);
  }

  /** Batches without failure reach every visible row beyond the cursor. */
  lemma {:induction false} BatchesReach(s: State, q: int) returns (events: seq<Event>)
    requires q in s.log && s.cursor < q
    ensures q in Run(s, events).broker
    decreases |Ahead(s.log.Keys, s.cursor)|
  {
    OneBatchCloser(s, q);
    var next := Batch(s, Clean);
    hide Batch;
    assert Step(s, RunBatch(Clean)) == next;
    if q in next.broker {
      events := [RunBatch(Clean)];
      assert Run(next, events[1..]) == next;
    } else {
      var rest := BatchesReach(next, q);
      events := [RunBatch(Clean)] + rest;
      assert events[1..] == rest;
    }
  }

  /**
    A visible row that is not at the broker is published in some continuation if and only if it is
    beyond the stored cursor: the next process starts from there.
  */
  lemma PublishedInSomeRunIff(s: State, q: int)
    requires s.stored <= s.cursor && q in s.log && q !in s.broker
    ensures (exists events :: q in Run(s, events).broker) <==> s.stored < q
  {
    if s.stored < q {
      var started := Step(s, Start);
      var rest := BatchesReach(started, q);
      assert ([Start] + rest)[1..] == rest;
      assert q in Run(s, [Start] + rest).broker;
    } else {
      forall events ensures q !in Run(s, events).broker { LateRowNeverPublished(s, q, events); }
    }
  }

  // ─── The publisher itself ─────────────────────────────────────────────────

  class Publisher {
    var log: Log
    var stored: int
    var cursor: int
    var broker: seq<int>
    var published: seq<int>

    function Snapshot(): State
      reads this
    {
      State(log, stored, cursor, broker, published)
    }

    constructor ()
      ensures Snapshot() == INITIAL
    {
      log, stored, cursor, broker, published := map[], 0, 0, [], [];
    }

    method StartProcess()
      modifies this`cursor, this`published
      ensures Snapshot() == Step(old(Snapshot()), Start)
    {
      cursor := stored;
      published := [];
    }

    /** Returns the number of rows published; reports false when it raises. */
    method PublishBatch(fault: Fault) returns (count: nat, ok: bool)
      modifies this`cursor, this`stored, this`broker, this`published
      ensures Snapshot() == Batch(old(Snapshot()), fault)
      ensures ok && count == 0 ==> NextRows(log.Keys, cursor, BATCH_SIZE) == []
    {
      if fault.FetchFails? { return 0, false; }
      var rows := NextRows(log.Keys, cursor, BATCH_SIZE);
      if rows == [] { return 0, true; }
      var i := 0;
      while i < |rows|
        invariant 0 <= i <= |rows|
        invariant fault.PublishFails? ==> i <= fault.after
        invariant Snapshot() == PublishRows(old(Snapshot()), rows[..i])
      {
        if fault.PublishFails? && fault.after == i {
          if fault.reached { broker := broker + [rows[i]]; }
          return 0, false;
        }
        broker := broker + [rows[i]];
        cursor := rows[i];
        published := published + [rows[i]];
        i := i + 1;
        assert rows[..i][..i - 1] == rows[..i - 1];
      }
      assert rows[..i] == rows;
      if fault.PersistFails? { return 0, false; }
      stored := cursor;
      return |rows|, true;
    }
  }
}
