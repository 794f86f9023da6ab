/** Keyset paging over a fixed set of rows: the conversation list, newest first with a probe row, and
    the turns of a branch by their numbers. */
module Paging {
  import opened Wrappers
  import opened Utf16

  // ---------------------------------------------------------------------------------------
  // The conversation list
  // ---------------------------------------------------------------------------------------

  /** A listed row: its instant in microseconds, its id in canonical form. */
  datatype Row = Row(at: int, id: Text)

  /** `(a.updated_at, a.id) < (b.updated_at, b.id)`. */
  predicate Older(a: Row, b: Row)
  {
    a.at < b.at || (a.at == b.at && Lt(a.id, b.id))
  }

  /** Newest first, no row twice. */
  predicate Descending(rows: seq<Row>)
  {
    forall i, j | 0 <= i < j < |rows| :: Older(rows[j], rows[i])
  }

  /** Later instants come first, and of one instant the greater ids. */
  lemma NewestFirst(rows: seq<Row>)
    ensures Descending(rows) <==> forall i, j | 0 <= i < j < |rows| ::
              rows[i].at > rows[j].at || (rows[i].at == rows[j].at && Lt(rows[j].id, rows[i].id))
  {
    hide Lt;
  }

  lemma OlderOrder(a: Row, b: Row, c: Row)
    ensures Older(a, b) || Older(b, a) || a == b
    ensures !(Older(a, b) && Older(b, a)) && !Older(a, a)
    ensures Older(a, b) && Older(b, c) ==> Older(a, c)
  {
    LeTotal(a.id, b.id);
    if Le(a.id, b.id) && Le(b.id, a.id) { LeAntisymmetric(a.id, b.id); }
    if a.at == b.at == c.at && Lt(a.id, b.id) && Lt(b.id, c.id) { LtTransitive(a.id, b.id, c.id); }
  }

  /** `r` lists exactly the rows of `s`, newest first. */
  predicate Lists(s: set<Row>, r: seq<Row>)
  {
    Descending(r) && (forall x :: x in r ==> x in s) && (forall x | x in s :: x in r)
  }

  predicate Newest(s: set<Row>, x: Row)
  {
    x in s && forall y | y in s :: y == x || Older(y, x)
  }

  lemma {:induction false} HasNewest(s: set<Row>)
    requires s != {}
    ensures exists x :: Newest(s, x)
    decreases |s|
  {
    hide Older;
    var x :| x in s;
    if s == {x} {
      assert Newest(s, x);
    } else {
      var t := s - {x};
      assert t != {};
      HasNewest(t);
      var m :| Newest(t, m);
      OlderOrder(x, m, m);
      if Older(m, x) {
        forall y | y in t ensures Older(y, x) { OlderOrder(y, m, x); }
        assert Newest(s, x);
      } else {
        assert Newest(s, m);
      }
    }
  }

  /** The rows older than a cursor; all of them when there is none. */
  function Below(s: set<Row>, cursor: Option<Row>): set<Row>
  {
    set x | x in s && (cursor.None? || Older(x, cursor.value))
  }

  datatype Page = Page(rows: seq<Row>, hasMore: bool)

  /** What one page must be: the first `limit` of the rows below the cursor, and whether one is left. */
  ghost predicate IsPage(s: set<Row>, cursor: Option<Row>, limit: nat, p: Page)
  {
    && Descending(p.rows) && (forall x | x in p.rows :: x in Below(s, cursor))
    && (p.hasMore ==> |p.rows| == limit)
    && (p.hasMore <==> exists y :: y in Below(s, cursor) && y !in p.rows)
    && (forall x, y | x in p.rows && y in Below(s, cursor) && y !in p.rows :: Older(y, x))
    && |p.rows| <= limit
  }

  /** `store.listConversations`: ask for one row more than the page holds, and drop it again. */
  method ListConversations(s: set<Row>, cursor: Option<Row>, limit: nat) returns (p: Page)
    ensures IsPage(s, cursor, limit, p)
  {
    hide Older;
    var found: seq<Row> := [];
    var rest := Below(s, cursor);
    while rest != {} && |found| < limit + 1
      invariant |found| <= limit + 1 && Descending(found) && rest <= Below(s, cursor)
      invariant forall x :: x in Below(s, cursor) <==> x in rest || x in found
      invariant forall x | x in rest :: x !in found
      invariant forall i, y | 0 <= i < |found| && y in rest :: Older(y, found[i])
      decreases |rest|
    {
      HasNewest(rest);
      var x :| x in rest && Newest(rest, x);
      rest := rest - {x};
      found := found + [x];
    }
    var hasMore := |found| > limit;
    var rows := if hasMore then found[..limit] else found;
    Probe(s, cursor, limit, found, rest);
    return Page(rows, hasMore);
  }

  lemma Probe(s: set<Row>, cursor: Option<Row>, limit: nat, found: seq<Row>, rest: set<Row>)
    requires |found| <= limit + 1 && Descending(found) && (rest == {} || |found| == limit + 1)
    requires forall x :: x in Below(s, cursor) <==> x in rest || x in found
    requires forall x | x in rest :: x !in found
    requires forall i, y | 0 <= i < |found| && y in rest :: Older(y, found[i])
    ensures IsPage(s, cursor, limit, Page(if |found| > limit then found[..limit] else found, |found| > limit))
  {
    hide Below;
    OlderOrder(Row(0, []), Row(0, []), Row(0, []));
    if |found| > limit {
      var rows := found[..limit];
      var y := found[limit];
      assert y in found;
      forall i | 0 <= i < limit ensures rows[i] != y { OlderOrder(y, rows[i], y); }
      assert y in Below(s, cursor) && y !in rows;
      assert forall j | 0 <= j < limit :: found[j] == rows[j] && rows[j] in rows;
      forall x, z | x in rows && z in Below(s, cursor) && z !in rows ensures Older(z, x) {
        var i :| 0 <= i < |rows| && rows[i] == x;
        assert x == found[i];
        if z in found {
          var j :| 0 <= j < |found| && found[j] == z;
          assert j >= limit;
        }
      }
    }
  }

  /** The position the next page starts after; null on the last page. */
  function NextCursor(p: Page): Option<Row>
  {
    if p.hasMore && |p.rows| > 0 then Some(p.rows[|p.rows| - 1]) else None
  }

  /** The pages a client gets by following the cursors. */
  ghost predicate Follows(s: set<Row>, cursor: Option<Row>, limit: nat, pages: seq<Page>)
    decreases |pages|
  {
    && |pages| > 0 && IsPage(s, cursor, limit, pages[0])
    && (if NextCursor(pages[0]).None? then |pages| == 1 else Follows(s, NextCursor(pages[0]), limit, pages[1..]))
  }

  function AllRows(pages: seq<Page>): seq<Row>
  {
    if |pages| == 0 then [] else pages[0].rows + AllRows(pages[1..])
  }

  lemma PageRest(s: set<Row>, cursor: Option<Row>, limit: nat, p: Page)
    requires IsPage(s, cursor, limit, p) && NextCursor(p).Some?
    ensures forall y :: y in Below(s, NextCursor(p)) <==> y in Below(s, cursor) && y !in p.rows
    ensures forall x, y | x in p.rows && y in Below(s, NextCursor(p)) :: Older(y, x)
  {
    hide Older;
    var last := p.rows[|p.rows| - 1];
    assert last in p.rows;
    forall y | y in s && Older(y, last) ensures y in Below(s, cursor) && y !in p.rows {
      if cursor.Some? { assert last in Below(s, cursor); OlderOrder(y, last, cursor.value); }
      forall i | 0 <= i < |p.rows| ensures p.rows[i] != y {
        OlderOrder(y, last, p.rows[i]);
        assert i < |p.rows| - 1 ==> Older(last, p.rows[i]);
      }
    }
  }

  /** Over a fixed set of rows, following the cursors returns every matching row exactly once, newest
      first, in as many pages as hold them, and there is no cursor exactly on the last page, which is
      never empty unless it is the only one. */
  lemma {:induction false} PagesCoverAll(s: set<Row>, cursor: Option<Row>, limit: nat, pages: seq<Page>)
    requires limit >= 1 && Follows(s, cursor, limit, pages)
    ensures Lists(Below(s, cursor), AllRows(pages))
    ensures forall i | 0 <= i < |pages| :: NextCursor(pages[i]).None? <==> i == |pages| - 1
    ensures |pages| > 1 ==> |pages[|pages| - 1].rows| > 0
    ensures |pages| == PageCount(|Below(s, cursor)|, limit)
    decreases |pages|
  {
    hide Older, PageCount;
    var p := pages[0];
    PageTakes(s, cursor, limit, p);
    PageCountStep(|Below(s, cursor)|, limit);
    if NextCursor(p).None? {
      assert AllRows(pages) == p.rows + AllRows(pages[1..]) && AllRows(pages[1..]) == [];
    } else {
      PagesCoverAll(s, NextCursor(p), limit, pages[1..]);
      PageRest(s, cursor, limit, p);
      var rest := AllRows(pages[1..]);
      Joined(s, cursor, limit, p, rest);
      forall i | 0 <= i < |pages| ensures NextCursor(pages[i]).None? <==> i == |pages| - 1 {
        if i > 0 { assert pages[i] == pages[1..][i - 1]; }
      }
      if |pages| == 2 { LastPageFull(s, cursor, limit, p, pages[1]); }
    }
  }

  /** How many pages n rows make: one when there are none. */
  function PageCount(n: nat, limit: nat): nat
    requires limit >= 1
  {
    if n == 0 then 1 else (n - 1) / limit + 1
  }

  lemma PageCountStep(n: nat, limit: nat)
    requires limit >= 1
    ensures if n <= limit then PageCount(n, limit) == 1 else PageCount(n, limit) == 1 + PageCount(n - limit, limit)
  {
    if n > limit { PagesOf(n - 1, limit); } else if n > 0 { NoMorePages(n - 1, limit); }
  }

  lemma {:induction false} DescendingCount(rows: seq<Row>)
    requires Descending(rows)
    ensures |set x | x in rows| == |rows|
  {
    hide Older;
    if |rows| == 0 {
      assert (set x | x in rows) == {};
    } else {
      var n := |rows| - 1;
      var t := rows[..n];
      DescendingCount(t);
      assert (set x | x in rows) == (set x | x in t) + {rows[n]};
      if rows[n] in t {
        var i :| 0 <= i < n && rows[i] == rows[n];
        OlderOrder(rows[n], rows[i], rows[i]);
      }
    }
  }

  /** A page takes its rows away from those below its cursor. */
  lemma PageTakes(s: set<Row>, cursor: Option<Row>, limit: nat, p: Page)
    requires limit >= 1 && IsPage(s, cursor, limit, p)
    ensures NextCursor(p).Some? ==>
              |Below(s, cursor)| > limit && |Below(s, NextCursor(p))| == |Below(s, cursor)| - limit
    ensures NextCursor(p).None? ==> |Below(s, cursor)| <= limit
  {
    hide Older, Below;
    DescendingCount(p.rows);
    var taken := set x | x in p.rows;
    if NextCursor(p).Some? {
      PageRest(s, cursor, limit, p);
      assert Below(s, cursor) == taken + Below(s, NextCursor(p));
      var y :| y in Below(s, cursor) && y !in p.rows;
      assert y in Below(s, NextCursor(p));
    } else {
      assert Below(s, cursor) == taken;
    }
  }

  lemma LastPageFull(s: set<Row>, cursor: Option<Row>, limit: nat, p: Page, q: Page)
    requires limit >= 1 && IsPage(s, cursor, limit, p) && NextCursor(p).Some? && IsPage(s, NextCursor(p), limit, q)
    ensures |q.rows| > 0
  {
    hide Older, Below;
    PageRest(s, cursor, limit, p);
    var y :| y in Below(s, cursor) && y !in p.rows;
    assert y in Below(s, NextCursor(p));
    assert q.hasMore || y in q.rows;
  }

  lemma Joined(s: set<Row>, cursor: Option<Row>, limit: nat, p: Page, rest: seq<Row>)
    requires IsPage(s, cursor, limit, p) && NextCursor(p).Some? && Lists(Below(s, NextCursor(p)), rest)
    ensures Lists(Below(s, cursor), p.rows + rest)
  {
    hide Older, Below;
    PageRest(s, cursor, limit, p);
    var r := p.rows + rest;
    forall i, j | 0 <= i < j < |r| ensures Older(r[j], r[i]) {
      if i < |p.rows| <= j {
        assert r[i] in p.rows && r[j] in rest;
      }
    }
  }

  // ---------------------------------------------------------------------------------------
  // The turns of a branch
  // ---------------------------------------------------------------------------------------

  predicate Ascending(ns: seq<nat>)
  {
    forall i, j | 0 <= i < j < |ns| :: ns[i] < ns[j]
  }

  /** How many turns come at or before a number. */
  function Upto(ns: seq<nat>, after: Option<nat>): (k: nat)
    ensures k <= |ns|
  {
    if |ns| == 0 then 0
    else if after.Some? && ns[|ns| - 1] <= after.value then |ns|
    else Upto(ns[..|ns| - 1], after)
  }

  lemma {:induction false} UptoCounts(ns: seq<nat>, after: Option<nat>, i: nat)
    requires Ascending(ns) && i < |ns|
    ensures i < Upto(ns, after) <==> after.Some? && ns[i] <= after.value
    decreases |ns|
  {
    if after.Some? && ns[|ns| - 1] <= after.value {
    } else if i < |ns| - 1 {
      UptoCounts(ns[..|ns| - 1], after, i);
    }
  }

  /** `listBranchTurns`: the first `limit` turns after a number, in order. */
  function TurnPage(ns: seq<nat>, after: Option<nat>, limit: nat): seq<nat>
    requires Ascending(ns)
  {
    var k := Upto(ns, after);
    ns[k..if k + limit <= |ns| then k + limit else |ns|]
  }

  /** `next_after_turn_seq`: only a full page has one. */
  function NextAfter(page: seq<nat>, limit: nat): Option<nat>
    requires limit >= 1
  {
    if |page| == limit then Some(page[|page| - 1]) else None
  }

  /** The pages a client gets by following `next_after_turn_seq`. */
  function TurnPages(ns: seq<nat>, after: Option<nat>, limit: nat): seq<seq<nat>>
    requires Ascending(ns) && limit >= 1
    decreases |ns| - Upto(ns, after)
  {
    var page := TurnPage(ns, after, limit);
    var next := NextAfter(page, limit);
    if next.None? then [page]
    else
      UptoNext(ns, after, limit);
      [page] + TurnPages(ns, next, limit)
  }

  lemma UptoNext(ns: seq<nat>, after: Option<nat>, limit: nat)
    requires Ascending(ns) && limit >= 1 && NextAfter(TurnPage(ns, after, limit), limit).Some?
    ensures Upto(ns, NextAfter(TurnPage(ns, after, limit), limit)) == Upto(ns, after) + limit <= |ns|
  {
    var k := Upto(ns, after);
    var last := ns[k + limit - 1];
    assert TurnPage(ns, after, limit)[limit - 1] == last;
    UptoCounts(ns, Some(last), k + limit - 1);
    if k + limit < |ns| { UptoCounts(ns, Some(last), k + limit); }
  }

  function Flat(pages: seq<seq<nat>>): seq<nat>
  {
    if |pages| == 0 then [] else pages[0] + Flat(pages[1..])
  }

  lemma PagesOf(d: nat, limit: nat)
    requires limit >= 1 && d >= limit
    ensures (d - limit) / limit + 1 == d / limit
  {
    var q, r := (d - limit) / limit, (d - limit) % limit;
    var p, t := d / limit, d % limit;
    assert d - limit == q * limit + r && d == p * limit + t;
    assert (q + 1) * limit == q * limit + limit;
    Times(p, q + 1, limit);
    Times(q + 1, p, limit);
  }

  lemma Times(a: int, b: int, limit: nat)
    requires limit >= 1
    ensures a < b ==> a * limit + limit <= b * limit
  {
    if a < b {
      var c := b - a - 1;
      assert b == a + 1 + c;
      assert b * limit == a * limit + limit + c * limit;
      assert c * limit >= 0;
    }
  }

  lemma NoMorePages(d: nat, limit: nat)
    requires d < limit
    ensures d / limit == 0
  {
  }

  /** Paging by turn number visits each remaining turn once, in order, in floor(n / limit) + 1 pages. */
  lemma {:induction false} TurnPagesCoverAll(ns: seq<nat>, after: Option<nat>, limit: nat)
    requires Ascending(ns) && limit >= 1
    ensures Flat(TurnPages(ns, after, limit)) == ns[Upto(ns, after)..]
    ensures |TurnPages(ns, after, limit)| == (|ns| - Upto(ns, after)) / limit + 1
    decreases |ns| - Upto(ns, after)
  {
    var page := TurnPage(ns, after, limit);
    var next := NextAfter(page, limit);
    if next.None? {
      LastTurnPage(ns, after, limit);
    } else {
      hide Flat, Ascending;
      UptoNext(ns, after, limit);
      TurnPagesCoverAll(ns, next, limit);
      FlatCons(page, TurnPages(ns, next, limit));
      FullTurnPage(ns, after, limit);
      PagesOf(|ns| - Upto(ns, after), limit);
    }
  }

  lemma FlatCons(page: seq<nat>, rest: seq<seq<nat>>)
    ensures Flat([page] + rest) == page + Flat(rest)
  {
    assert ([page] + rest)[1..] == rest;
  }

  lemma FullTurnPage(ns: seq<nat>, after: Option<nat>, limit: nat)
    requires Ascending(ns) && limit >= 1 && Upto(ns, after) + limit <= |ns|
    ensures TurnPage(ns, after, limit) + ns[Upto(ns, after) + limit..] == ns[Upto(ns, after)..]
  {
    hide Ascending;
  }

  lemma LastTurnPage(ns: seq<nat>, after: Option<nat>, limit: nat)
    requires Ascending(ns) && limit >= 1 && NextAfter(TurnPage(ns, after, limit), limit).None?
    ensures Flat([TurnPage(ns, after, limit)]) == ns[Upto(ns, after)..]
    ensures (|ns| - Upto(ns, after)) / limit == 0
  {
    hide Ascending;
    var page := TurnPage(ns, after, limit);
    assert Upto(ns, after) + limit > |ns| && page == ns[Upto(ns, after)..];
    var none: seq<seq<nat>> := [];
    FlatCons(page, none);
    assert [page] + none == [page];
    assert page + Flat(none) == page;
    NoMorePages(|ns| - Upto(ns, after), limit);
  }

  lemma UptoNone(ns: seq<nat>)
    requires Ascending(ns)
    ensures Upto(ns, None) == 0
  {
    if |ns| > 0 { UptoCounts(ns, None, 0); }
  }

  /** From the start: every turn of the branch once, in floor(n / limit) + 1 pages. */
  lemma TurnPagingFromStart(ns: seq<nat>, limit: nat)
    requires Ascending(ns) && limit >= 1
    ensures Flat(TurnPages(ns, None, limit)) == ns
    ensures |TurnPages(ns, None, limit)| == |ns| / limit + 1
  {
    TurnPagesCoverAll(ns, None, limit);
    UptoNone(ns);
  }
}
