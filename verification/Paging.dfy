/**
 Keyset pagination of the metrics table (storage/db.go, storage/bounded_reads.go):
 one page, and what a reader gets who follows the cursors while rows come and go.
 */
module Paging {
  import opened Common
  import opened ReadPage

  datatype Row = Row(id: int, ts: int, tenant: string, server: string, data: string)

  /** The table by row id. */
  type Table = map<int, Row>

  ghost predicate Sound(t: Table) { forall i :: i in t ==> t[i].id == i && i >= 1 }

  /** Fixed bounds of a reading; tenant None is the privileged read over all tenants. */
  datatype Query = Query(since: int, until: Option<int>, tenant: Option<string>, server: string)

  predicate Matches(q: Query, r: Row) {
    && r.ts >= q.since && (q.until.Some? ==> r.ts <= q.until.value)
    && (q.tenant.Some? ==> r.tenant == q.tenant.value) && (q.server != "" ==> r.server == q.server)
  }

  predicate Past(unix: int, id: int, r: Row) {
    id > 0 ==> r.ts > unix || (r.ts == unix && r.id > id)
  }

  predicate Before(a: Row, b: Row) { a.ts < b.ts || (a.ts == b.ts && a.id < b.id) }

  function Candidates(t: Table, q: Query, unix: int, id: int): set<Row> {
    set i | i in t && Matches(q, t[i]) && Past(unix, id, t[i]) :: t[i]
  }

  function BoundedLimit(limit: int): nat { if limit < 1 || limit > DEFAULT_LIMIT then DEFAULT_LIMIT else limit }

  ghost predicate Increasing(rows: seq<Row>) {
    forall i, j :: 0 <= i < j < |rows| ==> Before(rows[i], rows[j])
  }

  /** The first `limit` candidates in (timestamp, id) order. */
  ghost predicate IsPage(cand: set<Row>, limit: nat, page: seq<Row>) {
    && Increasing(page) && |page| <= limit && (forall r :: r in page ==> r in cand)
    && forall r :: r in cand && r !in page ==> |page| == limit && forall p :: p in page ==> Before(p, r)
  }

  /** Rows that differ have different positions. */
  ghost predicate Ordered(rows: set<Row>) {
    forall a, b :: a in rows && b in rows && a != b ==> Before(a, b) || Before(b, a)
  }

  lemma CandidatesOrdered(t: Table, q: Query, unix: int, id: int)
    requires Sound(t)
    ensures Ordered(Candidates(t, q, unix, id))
  {
  }

  /** There is only one such page. */
  lemma PageUnique(cand: set<Row>, limit: nat, p: seq<Row>, p': seq<Row>)
    requires Ordered(cand) && IsPage(cand, limit, p) && IsPage(cand, limit, p')
    ensures p == p'
  {
    if |p| < |p'| {
      PrefixIsNoPage(cand, limit, p', |p|);
    } else if |p'| < |p| {
      PrefixIsNoPage(cand, limit, p, |p'|);
    }
    PrefixSame(cand, limit, p, p', if |p| < |p'| then |p| else |p'|);
  }

  lemma PrefixIsNoPage(cand: set<Row>, limit: nat, p: seq<Row>, m: nat)
    requires IsPage(cand, limit, p) && m < |p|
    ensures !IsPage(cand, limit, p[..m])
  {
    assert p[m] in p && p[m] !in p[..m];
  }

  lemma {:induction false} PrefixSame(cand: set<Row>, limit: nat, p: seq<Row>, p': seq<Row>, n: nat)
    requires Ordered(cand) && IsPage(cand, limit, p) && IsPage(cand, limit, p') && n <= |p| && n <= |p'|
    ensures p[..n] == p'[..n]
  {
    if n > 0 {
      PrefixSame(cand, limit, p, p', n - 1);
      NotEarlier(cand, limit, p, p', n - 1);
      NotEarlier(cand, limit, p', p, n - 1);
      assert p[n - 1] in cand && p'[n - 1] in cand by {
        assert p[n - 1] in p && p'[n - 1] in p';
      }
      assert p[..n] == p[..n - 1] + [p[n - 1]] && p'[..n] == p'[..n - 1] + [p'[n - 1]];
    }
  }

  lemma NotEarlier(cand: set<Row>, limit: nat, p: seq<Row>, p': seq<Row>, i: nat)
    requires IsPage(cand, limit, p) && IsPage(cand, limit, p') && i < |p| && i < |p'| && p[..i] == p'[..i]
    ensures !Before(p[i], p'[i])
  {
    assert p[i] in p && p'[i] in p';
    assert forall j :: 0 <= j < i ==> p'[j] == p'[..i][j] == p[j];
    assert p[i] in p' ==> !Before(p[i], p'[i]);
    assert p[i] !in p' ==> Before(p'[i], p[i]);
  }

  // ---- Reading one page ----------------------------------------------------

  method Earliest(rows: set<Row>) returns (m: Row)
    requires rows != {} && Ordered(rows)
    ensures m in rows && forall r :: r in rows && r != m ==> Before(m, r)
  {
    ghost var x := Member(rows);
    m :| m in rows;
    var rest := rows - {m};
    while rest != {}
      invariant rest <= rows && m in rows && m !in rest
      invariant forall r :: r in rows && r !in rest && r != m ==> Before(m, r)
      decreases |rest|
    {
      ghost var y := Member(rest);
      var r :| r in rest;
      rest := rest - {r};
      if Before(r, m) {
        m := r;
      }
    }
  }

  /** queryMetrics: filter, order, limit. */
  method QueryMetrics(t: Table, q: Query, limit: int, afterUnix: int, afterID: int) returns (page: seq<Row>)
    requires Sound(t)
    ensures IsPage(Candidates(t, q, afterUnix, afterID), BoundedLimit(limit), page)
    ensures |page| <= if 1 <= limit <= 100_000 then limit else 100_000
    ensures forall r :: r in page ==>
      && r in t.Values && (q.tenant.Some? ==> r.tenant == q.tenant.value) && (q.server != "" ==> r.server == q.server)
      && q.since <= r.ts && (q.until.Some? ==> r.ts <= q.until.value)
      && (afterID > 0 ==> r.ts > afterUnix || (r.ts == afterUnix && r.id > afterID))
  {
    var cand := Candidates(t, q, afterUnix, afterID);
    CandidatesOrdered(t, q, afterUnix, afterID);
    var bound := BoundedLimit(limit);
    var rest := cand;
    page := [];
    while rest != {} && |page| < bound
      invariant rest <= cand && |page| <= bound && Increasing(page)
      invariant forall r :: r in page <==> r in cand && r !in rest
      invariant forall p, r :: p in page && r in rest ==> Before(p, r)
      decreases |rest|
    {
      var m := Earliest(rest);
      rest := rest - {m};
      page := page + [m];
    }
  }

  // ---- Following the cursors -----------------------------------------------

  /** Where page `i` starts: after the last row of the page before. */
  function StartUnix(pages: seq<seq<Row>>): int {
    if pages == [] || pages[|pages| - 1] == [] then 0 else
      var last := pages[|pages| - 1]; last[|last| - 1].ts
  }

  function StartID(pages: seq<seq<Row>>): int {
    if pages == [] || pages[|pages| - 1] == [] then 0 else
      var last := pages[|pages| - 1]; last[|last| - 1].id
  }

  /** A reader follows the cursors, page after page; `tables[i]` is the table page `i` meets. */
  ghost predicate Reading(tables: seq<Table>, pages: seq<seq<Row>>, q: Query, limit: nat) {
    && |tables| == |pages|
    && (pages != [] ==>
      var n := |pages| - 1;
      && Reading(tables[..n], pages[..n], q, limit) && Sound(tables[n])
      && (n > 0 ==> |pages[n - 1]| == limit)
      && IsPage(Candidates(tables[n], q, StartUnix(pages[..n]), StartID(pages[..n])), limit, pages[n]))
  }

  ghost predicate Complete(pages: seq<seq<Row>>, limit: nat) { pages != [] && |pages[|pages| - 1]| < limit }

  function All(pages: seq<seq<Row>>): seq<Row> {
    if pages == [] then [] else All(pages[..|pages| - 1]) + pages[|pages| - 1]
  }

  ghost predicate PresentThroughout(tables: seq<Table>, q: Query, r: Row) {
    forall i :: 0 <= i < |tables| ==> r in Candidates(tables[i], q, 0, 0)
  }

  lemma IncreasingConcat(a: seq<Row>, b: seq<Row>)
    requires Increasing(a) && Increasing(b) && forall x, y :: x in a && y in b ==> Before(x, y)
    ensures Increasing(a + b)
  {
    var s := a + b;
    forall i, j | 0 <= i < j < |s| ensures Before(s[i], s[j]) {
      assert i < |a| ==> s[i] in a;
      assert j >= |a| ==> s[j] in b;
    }
  }

  /** What has been read lies before where the next page starts. */
  ghost predicate UpTo(rows: seq<Row>, unix: int, id: int) {
    forall r :: r in rows ==> r.ts < unix || (r.ts == unix && r.id <= id)
  }

  lemma EndsPage(page: seq<Row>)
    requires Increasing(page) && page != []
    ensures UpTo(page, page[|page| - 1].ts, page[|page| - 1].id)
  {
    forall r | r in page
      ensures r.ts < page[|page| - 1].ts || (r.ts == page[|page| - 1].ts && r.id <= page[|page| - 1].id)
    {
      var i :| 0 <= i < |page| && page[i] == r;
      assert i < |page| - 1 ==> Before(page[i], page[|page| - 1]);
    }
  }

  /** Read so far: in order, up to the cursor, every row from the table its page met. */
  lemma {:induction false} ReadInOrder(tables: seq<Table>, pages: seq<seq<Row>>, q: Query, limit: nat)
    requires Reading(tables, pages, q, limit) && limit >= 1
    ensures Increasing(All(pages))
    ensures pages != [] && pages[|pages| - 1] != [] ==> StartID(pages) >= 1 && UpTo(All(pages), StartUnix(pages), StartID(pages))
    ensures forall r :: r in All(pages) ==> Matches(q, r) && exists i :: 0 <= i < |tables| && r in tables[i].Values
  {
    if pages != [] {
      var n := |pages| - 1;
      var init, page := pages[..n], pages[n];
      ReadInOrder(tables[..n], init, q, limit);
      var unix, id := StartUnix(init), StartID(init);
      assert n > 0 ==> init[n - 1] == pages[n - 1] && init[n - 1] != [];
      var cand := Candidates(tables[n], q, unix, id);
      assert forall r :: r in page ==> r in cand;
      IncreasingConcat(All(init), page);
      if page != [] {
        EndsPage(page);
        assert page[|page| - 1] in page;
      }
      forall r | r in All(pages)
        ensures Matches(q, r) && exists i :: 0 <= i < |tables| && r in tables[i].Values
      {
        if r in page {
          assert r in tables[n].Values;
        } else {
          assert r in All(init);
          var i :| 0 <= i < |tables[..n]| && r in tables[..n][i].Values;
          assert r in tables[i].Values;
        }
      }
    }
  }

  /** A row that is there throughout is read, or lies after the cursor. */
  lemma {:induction false} NotSkipped(tables: seq<Table>, pages: seq<seq<Row>>, q: Query, limit: nat, r: Row)
    requires Reading(tables, pages, q, limit) && limit >= 1 && PresentThroughout(tables, q, r)
    ensures r in All(pages) || (pages != [] && |pages[|pages| - 1]| < limit ==> false)
    ensures r in All(pages) || Past(StartUnix(pages), StartID(pages), r)
  {
    if pages != [] {
      var n := |pages| - 1;
      var init, page := pages[..n], pages[n];
      assert forall i :: 0 <= i < n ==> tables[..n][i] == tables[i];
      NotSkipped(tables[..n], init, q, limit, r);
      if r !in All(init) {
        assert r in Candidates(tables[n], q, 0, 0);
        assert r in Candidates(tables[n], q, StartUnix(init), StartID(init));
        if r !in page && page != [] {
          assert page[|page| - 1] in page;
          assert Before(page[|page| - 1], r);
        }
      }
    }
  }

  /**
   Following cursors to the end, while rows are inserted and deleted in between,
   returns rows in strictly increasing (timestamp, id) order, so none twice, and
   every matching row that was there throughout exactly once.
   */
  lemma CompleteReading(tables: seq<Table>, pages: seq<seq<Row>>, q: Query, limit: nat, r: Row)
    requires Reading(tables, pages, q, limit) && limit >= 1 && Complete(pages, limit)
    ensures Increasing(All(pages)) && Distinct(All(pages))
    ensures PresentThroughout(tables, q, r) ==> multiset(All(pages))[r] == 1
    ensures multiset(All(pages))[r] <= 1
  {
    ReadInOrder(tables, pages, q, limit);
    assert Distinct(All(pages));
    DistinctMultiplicity(All(pages), r);
    if PresentThroughout(tables, q, r) {
      NotSkipped(tables, pages, q, limit, r);
    }
  }

  /** The row is the reader's: of its tenant and server, if named, and inside its bounds. */
  ghost predicate Wanted(q: Query, r: Row) {
    && (q.tenant == None || q.tenant == Some(r.tenant)) && (q.server == "" || q.server == r.server)
    && q.since <= r.ts && (q.until == None || r.ts <= q.until.value)
  }

  /**
   A reader gets its own rows, in order, and all of them: every row of a reading is
   of the tenant and the server asked for and inside the bounds, rows come by time
   and then by id, and each such row that is in the table whenever a page is read is
   returned exactly once by the end.
   */
  lemma ReadsOwnRows(tables: seq<Table>, pages: seq<seq<Row>>, q: Query, limit: nat, r: Row)
    requires Reading(tables, pages, q, limit) && limit >= 1
    ensures r in All(pages) ==> Wanted(q, r) && exists i :: 0 <= i < |tables| && r in tables[i].Values
    ensures forall i, j :: 0 <= i < j < |All(pages)| ==>
      var a, b := All(pages)[i], All(pages)[j]; a.ts < b.ts || (a.ts == b.ts && a.id < b.id)
    ensures Complete(pages, limit) && Wanted(q, r) && (forall i :: 0 <= i < |tables| ==> r.id in tables[i] && tables[i][r.id] == r) ==>
      multiset(All(pages))[r] == 1
  {
    ReadInOrder(tables, pages, q, limit);
    if Complete(pages, limit) && Wanted(q, r) && (forall i :: 0 <= i < |tables| ==> r.id in tables[i] && tables[i][r.id] == r) {
      forall i | 0 <= i < |tables| ensures r in Candidates(tables[i], q, 0, 0) {
        assert Matches(q, tables[i][r.id]) && Past(0, 0, tables[i][r.id]);
      }
      CompleteReading(tables, pages, q, limit, r);
    }
  }

  lemma {:induction false} DistinctFits<T>(s: seq<T>, u: set<T>)
    requires Distinct(s) && forall x :: x in s ==> x in u
    ensures |s| <= |u|
  {
    if s != [] {
      var n := |s| - 1;
      assert s[n] !in s[..n];
      DistinctFits(s[..n], u - {s[n]});
    }
  }

  lemma {:induction false} FullPages(tables: seq<Table>, pages: seq<seq<Row>>, q: Query, limit: nat)
    requires Reading(tables, pages, q, limit) && pages != []
    ensures |All(pages)| == (|pages| - 1) * limit + |pages[|pages| - 1]|
  {
    var n := |pages| - 1;
    if n > 0 {
      FullPages(tables[..n], pages[..n], q, limit);
      assert (n - 1) * limit + limit == n * limit;
    } else {
      assert All(pages[..0]) == [];
    }
  }

  /**
   Following the cursors ends: if the rows that match at any time all lie in `u`,
   the full pages of a reading hold no more rows than `u` does.
   */
  lemma ReadingEnds(tables: seq<Table>, pages: seq<seq<Row>>, q: Query, limit: nat, u: set<Row>)
    requires Reading(tables, pages, q, limit) && limit >= 1 && pages != []
    requires forall i, r :: 0 <= i < |tables| && r in tables[i].Values && Matches(q, r) ==> r in u
    ensures (|pages| - 1) * limit + |pages[|pages| - 1]| <= |u|
  {
    ReadInOrder(tables, pages, q, limit);
    FullPages(tables, pages, q, limit);
    DistinctFits(All(pages), u);
  }

  /** The cursor text sent with a page leads to the page that continues the reading; a short page says it is complete. */
  lemma CursorContinues(pages: seq<seq<Row>>, limit: nat)
    requires pages != [] && pages[|pages| - 1] != [] && |pages[|pages| - 1]| <= limit && 1 <= limit <= DEFAULT_LIMIT
    requires StartID(pages) >= 1 && InRange(StartUnix(pages)) && InRange(StartID(pages))
    ensures var (text, complete) := NextCursor(StartUnix(pages), StartID(pages), |pages[|pages| - 1]|, limit);
      && complete == Complete(pages, limit)
      && (!complete ==> ParsePage(PrintInt(limit), text) == Ok(Page(limit, StartUnix(pages), StartID(pages))))
  {
    if |pages[|pages| - 1]| == limit {
      CursorRoundTrip(StartUnix(pages), StartID(pages), limit, limit);
    }
  }
}
