/**
  Keyset pagination in descending (time, id) order, in its two forms: the audit log reads one row
  more than the page to know whether to go on, the secrets list goes on whenever the page is full.
*/
module KeysetPaging {
  import opened Options

  datatype Row = Row(at: int, id: int)

  /** `(a.at, a.id) < (b.at, b.id)`. */
  predicate Below(a: Row, b: Row) {
    a.at < b.at || (a.at == b.at && a.id < b.id)
  }

  predicate AtMost(a: Row, b: Row) {
    a == b || Below(a, b)
  }

  predicate Descending(rows: seq<Row>) {
    forall i, j :: 0 <= i < j < |rows| ==> Below(rows[j], rows[i])
  }

  /** Of two different rows exactly one is below the other: the earlier one, or at the same time the one of smaller id. */
  lemma BelowIsTotal(a: Row, b: Row)
    ensures a != b ==> (Below(a, b) <==> !Below(b, a))
    ensures !Below(a, a)
    ensures a.at < b.at ==> Below(a, b)
    ensures a.at == b.at && a.id < b.id ==> Below(a, b)
  {
  }

  lemma {:induction false} TopExists(rows: set<Row>)
    requires rows != {}
    ensures exists top :: top in rows && forall r :: r in rows ==> AtMost(r, top)
  {
    var x :| x in rows;
    if rows - {x} == {} {
      assert forall r :: r in rows ==> r == x by { forall r | r in rows ensures r == x { assert r !in rows - {x}; } }
    } else {
      TopExists(rows - {x});
      var rest :| rest in rows - {x} && forall r :: r in rows - {x} ==> AtMost(r, rest);
      BelowIsTotal(x, rest);
      var top := if Below(x, rest) then rest else x;
      forall r | r in rows ensures AtMost(r, top) { assert r == x || r in rows - {x}; }
    }
  }

  /** Every set of rows is that of one table in descending order, and of no other by `DescendingUnique`. */
  lemma {:induction false} TableOf(rows: set<Row>) returns (table: seq<Row>)
    ensures Descending(table) && forall r :: r in table <==> r in rows
  {
    table := [];
    if rows != {} {
      TopExists(rows);
      var top :| top in rows && forall r :: r in rows ==> AtMost(r, top);
      var rest := TableOf(rows - {top});
      table := [top] + rest;
      forall j | 0 < j < |table| ensures Below(table[j], top) { assert table[j] == rest[j - 1] && rest[j - 1] in rest; }
      forall i, j | 0 <= i < j < |table| ensures Below(table[j], table[i]) {
        if i > 0 { assert table[i] == rest[i - 1] && table[j] == rest[j - 1]; }
      }
    }
  }

  /** The rows the WHERE clause keeps, in order: all of them, or those below the cursor. */
  function Matching(table: seq<Row>, cursor: Option<Row>): seq<Row> {
    if table == [] then []
    else if cursor.None? || Below(table[0], cursor.value) then [table[0]] + Matching(table[1..], cursor)
    else Matching(table[1..], cursor)
  }

  function Limited(rows: seq<Row>, n: nat): seq<Row> {
    if |rows| <= n then rows else rows[..n]
  }

  datatype Page = Page(rows: seq<Row>, next: Option<Row>)

  /** `_build_response` on limit + 1 rows. */
  function AuditPage(table: seq<Row>, cursor: Option<Row>, limit: nat): Page {
    var rows := Limited(Matching(table, cursor), limit + 1);
    var page := Limited(rows, limit);
    Page(page, if |rows| > limit && page != [] then Some(page[|page| - 1]) else None)
  }

  /** `list_secrets`: a full page has a next one, even when it was the last. */
  function SecretsPage(table: seq<Row>, cursor: Option<Row>, limit: nat): Page
    requires limit > 0
  {
    var rows := Limited(Matching(table, cursor), limit);
    Page(rows, if |rows| == limit then Some(rows[|rows| - 1]) else None)
  }

  datatype Form = Audit | Secrets

  function ReadPage(form: Form, table: seq<Row>, cursor: Option<Row>, limit: nat): Page
    requires limit > 0
  {
    if form.Audit? then AuditPage(table, cursor, limit) else SecretsPage(table, cursor, limit)
  }

  /** tables[i] is the table as the i-th request finds it. */
  function Follow(form: Form, tables: nat -> seq<Row>, i: nat, cursor: Option<Row>, limit: nat, requests: nat): (pages: seq<Page>)
    requires limit > 0
    decreases requests
  {
    if requests == 0 then []
    else
      var page := ReadPage(form, tables(i), cursor, limit);
      [page] + if page.next.None? then [] else Follow(form, tables, i + 1, page.next, limit, requests - 1)
  }

  function AllRows(pages: seq<Page>): seq<Row> {
    if pages == [] then [] else pages[0].rows + AllRows(pages[1..])
  }

  /** The walk has ended: its last page names no next one. */
  predicate Ended(pages: seq<Page>) {
    pages != [] && pages[|pages| - 1].next.None?
  }

  lemma {:induction false} MatchingDescends(table: seq<Row>, cursor: Option<Row>)
    requires Descending(table)
    ensures Descending(Matching(table, cursor))
    ensures forall r :: r in Matching(table, cursor) <==> r in table && (cursor.None? || Below(r, cursor.value))
  {
    if table != [] {
      MatchingDescends(table[1..], cursor);
      assert forall r :: r in table <==> r == table[0] || r in table[1..];
      forall r | r in Matching(table[1..], cursor) ensures Below(r, table[0]) {
        var k :| 0 <= k < |table[1..]| && table[1..][k] == r;
        assert table[k + 1] == r;
      }
      var rest := Matching(table[1..], cursor);
      var all := [table[0]] + rest;
      forall i, j | 0 <= i < j < |all| ensures Below(all[j], all[i]) {
        assert all[j] == rest[j - 1] && rest[j - 1] in rest;
        if i > 0 { assert all[i] == rest[i - 1]; }
      }
    }
  }

  lemma FirstIsTop(a: seq<Row>, r: Row)
    requires Descending(a) && r in a
    ensures AtMost(r, a[0])
  {
    var i :| 0 <= i < |a| && a[i] == r;
    assert i > 0 ==> Below(a[i], a[0]);
  }

  /** Sorted rows with the same elements are the same rows. */
  lemma {:induction false} DescendingUnique(a: seq<Row>, b: seq<Row>)
    requires Descending(a) && Descending(b) && forall r :: r in a <==> r in b
    ensures a == b
  {
    assert a != [] ==> a[0] in b;
    assert b != [] ==> b[0] in a;
    if a != [] {
      FirstIsTop(b, a[0]);
      FirstIsTop(a, b[0]);
      forall r ensures r in a[1..] <==> r in b[1..] {
        TailElements(a, r);
        TailElements(b, r);
      }
      DescendingUnique(a[1..], b[1..]);
      assert a == [a[0]] + a[1..] && b == [b[0]] + b[1..];
    }
  }

  lemma TailElements(a: seq<Row>, r: Row)
    requires Descending(a) && a != []
    ensures r in a[1..] <==> r in a && r != a[0]
  {
    if r in a[1..] {
      var k :| 0 <= k < |a[1..]| && a[1..][k] == r;
      assert a[k + 1] == r && Below(a[k + 1], a[0]);
    }
    assert r in a <==> r == a[0] || r in a[1..] by { assert a == [a[0]] + a[1..]; }
  }

  /** Below the k-th row of a list stand exactly the rows after it. */
  lemma AfterCursor(rows: seq<Row>, k: nat, r: Row)
    requires Descending(rows) && k < |rows|
    ensures r in rows && Below(r, rows[k]) <==> r in rows[k + 1..]
  {
    if r in rows && Below(r, rows[k]) {
      var i :| 0 <= i < |rows| && rows[i] == r;
      assert i > k;
      assert rows[k + 1..][i - k - 1] == r;
    }
  }

  // ─── Walking the pages ────────────────────────────────────────────────────

  /** From one request to the next, rows are only inserted above `top`. */
  ghost predicate OnlyInsertedAbove(tables: nat -> seq<Row>, top: Row) {
    && (forall i :: Descending(tables(i)))
    && forall i, r :: AtMost(r, top) ==> (r in tables(i) <==> r in tables(0))
  }

  /** It holds of a table that only grows in front. */
  lemma GrowsInFront(tables: nat -> seq<Row>, added: nat -> seq<Row>, table: seq<Row>)
    requires table != [] && forall i :: Descending(tables(i)) && tables(i) == added(i) + table
    ensures OnlyInsertedAbove(tables, table[0])
  {
    forall i, r | AtMost(r, table[0]) ensures r in tables(i) <==> r in table {
      if r in added(i) {
        var k :| 0 <= k < |added(i)| && added(i)[k] == r;
        assert tables(i)[k] == r && tables(i)[|added(i)|] == table[0];
        BelowIsTotal(r, table[0]);
        assert r in table;
      }
      assert r in tables(i) <==> r in added(i) || r in table;
    }
  }

  /** What the cursor of a page leaves for the next request is what the page left. */
  lemma NextRequestContinues(tables: nat -> seq<Row>, i: nat, cursor: Option<Row>, top: Row, k: nat)
    requires OnlyInsertedAbove(tables, top)
    requires k < |Matching(tables(i), cursor)| && AtMost(Matching(tables(i), cursor)[k], top)
    ensures Matching(tables(i + 1), Some(Matching(tables(i), cursor)[k])) == Matching(tables(i), cursor)[k + 1..]
  {
    var rest := Matching(tables(i), cursor);
    var last := rest[k];
    var next := Matching(tables(i + 1), Some(last));
    MatchingDescends(tables(i), cursor);
    MatchingDescends(tables(i + 1), Some(last));
    assert last in rest;
    forall r ensures r in next <==> r in rest[k + 1..] {
      AfterCursor(rest, k, r);
      if Below(r, last) {
        assert AtMost(r, top);
        assert r in tables(i + 1) <==> r in tables(0);
        assert r in tables(i) <==> r in tables(0);
      }
    }
    hide Matching;
    DescendingUnique(next, rest[k + 1..]);
  }

  lemma PageShape(form: Form, table: seq<Row>, cursor: Option<Row>, limit: nat)
    requires limit > 0
    ensures var page := ReadPage(form, table, cursor, limit); var rest := Matching(table, cursor);
      if page.next.None? then page.rows == rest && |rest| <= limit && (form.Secrets? ==> |rest| < limit)
      else |rest| >= limit && page.rows == rest[..limit] && page.next == Some(rest[limit - 1]) && (form.Audit? ==> |rest| > limit)
  {
    hide Matching;
  }

  /** Every page but the last is full; the last is short, and for the audit log not empty after a full one. */
  predicate WellFilled(form: Form, pages: seq<Page>, limit: nat) {
    && pages != []
    && (forall i :: 0 <= i < |pages| - 1 ==> |pages[i].rows| == limit)
    && (form.Audit? ==> |pages[|pages| - 1].rows| <= limit && (|pages| > 1 ==> pages[|pages| - 1].rows != []))
    && (form.Secrets? ==> |pages[|pages| - 1].rows| < limit)
  }

  predicate AllAtMost(rows: seq<Row>, top: Row) {
    forall r :: r in rows ==> AtMost(r, top)
  }

  lemma TailAtMost(rows: seq<Row>, k: nat, top: Row)
    requires AllAtMost(rows, top) && k < |rows|
    ensures AtMost(rows[k], top) && AllAtMost(rows[k + 1..], top)
  {
    assert rows[k] in rows;
    assert forall r :: r in rows[k + 1..] ==> r in rows;
  }

  lemma {:induction false} WalkFrom(form: Form, tables: nat -> seq<Row>, i: nat, cursor: Option<Row>, top: Row, limit: nat, requests: nat)
    requires limit > 0 && OnlyInsertedAbove(tables, top) && requests > |Matching(tables(i), cursor)|
    requires AllAtMost(Matching(tables(i), cursor), top)
    ensures var pages := Follow(form, tables, i, cursor, limit, requests);
      && Ended(pages) && AllRows(pages) == Matching(tables(i), cursor) && WellFilled(form, pages, limit)
    decreases requests
  {
    hide Matching, ReadPage, OnlyInsertedAbove, AllAtMost, AtMost, WellFilled, Below, Ended, AllRows;
    var rest := Matching(tables(i), cursor);
    var page := ReadPage(form, tables(i), cursor, limit);
    PageShape(form, tables(i), cursor, limit);
    var pages := Follow(form, tables, i, cursor, limit, requests);
    if page.next.None? {
      LastPage(form, page, limit);
    } else {
      TailAtMost(rest, limit - 1, top);
      NextRequestContinues(tables, i, cursor, top, limit - 1);
      WalkFrom(form, tables, i + 1, page.next, top, limit, requests - 1);
      var more := Follow(form, tables, i + 1, page.next, limit, requests - 1);
      PagesAfterFull(form, page, more, rest, limit);
    }
  }

  lemma LastPage(form: Form, page: Page, limit: nat)
    requires page.next.None? && |page.rows| <= limit && (form.Secrets? ==> |page.rows| < limit)
    ensures Ended([page]) && AllRows([page]) == page.rows && WellFilled(form, [page], limit)
    ensures [page] + [] == [page]
  {
    assert [page][1..] == [] && page.rows + [] == page.rows;
  }

  lemma PagesAfterFull(form: Form, page: Page, more: seq<Page>, rest: seq<Row>, limit: nat)
    requires |rest| >= limit && page.rows == rest[..limit] && AllRows(more) == rest[limit..]
    requires Ended(more) && WellFilled(form, more, limit) && (form.Audit? ==> |rest| > limit)
    ensures Ended([page] + more) && AllRows([page] + more) == rest && WellFilled(form, [page] + more, limit)
  {
    var pages := [page] + more;
    assert pages[1..] == more && rest[..limit] + rest[limit..] == rest;
    forall i | 0 <= i < |pages| - 1 ensures |pages[i].rows| == limit {
      if i > 0 { assert pages[i] == more[i - 1]; }
    }
    assert pages[|pages| - 1] == more[|more| - 1];
    if form.Audit? && |more| == 1 { assert more[1..] == [] && AllRows(more) == more[0].rows + []; }
  }

  /**
    Following next_cursor from the start ends, and visits every row of the table exactly once in
    order, in both forms, even if rows that sort before all visited ones are inserted meanwhile.
  */
  lemma WalkVisitsEachRowOnce(form: Form, tables: nat -> seq<Row>, limit: nat, requests: nat)
    requires limit > 0 && requests > |tables(0)|
    requires tables(0) == [] || OnlyInsertedAbove(tables, tables(0)[0])
    ensures var pages := Follow(form, tables, 0, None, limit, requests);
      Ended(pages) && AllRows(pages) == tables(0) && WellFilled(form, pages, limit)
  {
    var table := tables(0);
    if table == [] {
      LastPage(form, ReadPage(form, table, None, limit), limit);
      return;
    }
    MatchingDescends(table, None);
    DescendingUnique(Matching(table, None), table);
    forall r | r in table ensures AtMost(r, table[0]) { FirstIsTop(table, r); }
    assert AllAtMost(table, table[0]);
    hide Matching, AllAtMost;
    WalkFrom(form, tables, 0, None, table[0], limit, requests);
  }
}
