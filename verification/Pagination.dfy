/** Cursor pagination over (time desc, id desc), as ListJobs, the asset listing and ListViewers do it: the page
    token is the id of the last row returned, and the next page starts just past that row. */
module Pagination {
  import opened Wrappers
  import opened Ordering

  datatype Row = Row(id: string, time: int, orgId: string, assetId: string)

  // A table in no particular order; ids are its primary key.
  type Table = seq<Row>

  type Where = Row -> bool

  predicate TableOk(t: Table) {
    && (forall i | 0 <= i < |t| :: t[i].id != "")
    && (forall i, j | 0 <= i < j < |t| :: t[i].id != t[j].id)
  }

  // orderBy: [{ time: "desc" }, { id: "desc" }]
  predicate Before(a: Row, b: Row) {
    a.time > b.time || (a.time == b.time && LexLe(b.id, a.id))
  }

  function Select(t: Table, keep: Where): (r: seq<Row>)
    ensures forall x :: x in r <==> x in t && keep(x)
    ensures |r| <= |t|
  {
    if t == [] then []
    else (if keep(t[0]) then [t[0]] else []) + Select(t[1..], keep)
  }

  // The full listing.
  function Listing(t: Table, keep: Where): seq<Row> {
    Sort(Select(t, keep), Before)
  }

  function FindRow(t: Table, id: string): (r: Option<Row>)
    ensures r.Some? ==> r.value in t && r.value.id == id
    ensures r.None? ==> forall x | x in t :: x.id != id
  {
    if t == [] then None else if t[0].id == id then Some(t[0]) else FindRow(t[1..], id)
  }

  // take: a negative count takes from the end.
  function Take(s: seq<Row>, n: int): seq<Row> {
    if n >= 0 then (if |s| <= n then s else s[..n])
    else if |s| <= -n then s
    else s[|s| + n..]
  }

  // The rows from the cursor row on, without it (`skip: 1`); nothing when the cursor row does not exist.
  function PastCursor(t: Table, keep: Where, token: string): seq<Row> {
    if token == "" then Listing(t, keep)
    else
      match FindRow(t, token)
      case None => []
      case Some(c) =>
        var from := Select(Listing(t, keep), r => Before(c, r));
        if from == [] then [] else from[1..]
  }

  // findMany with orderBy, take and an optional cursor. A walk only ever passes a token with a positive size.
  function Page(t: Table, keep: Where, size: int, token: string): seq<Row> {
    Take(PastCursor(t, keep, token), size)
  }

  function NextToken(rows: seq<Row>, size: int): string {
    if |rows| == size && |rows| > 0 then rows[|rows| - 1].id else ""
  }

  // ---- Page sizes --------------------------------------------------------------------------------

  // Math.min(pageSize || 20, 100)
  function JobsPageSize(requested: int): (size: int)
    ensures requested == 0 ==> size == 20
    ensures requested != 0 ==> size <= requested && size <= 100 && (size == requested || size == 100)
  {
    var size := if requested == 0 then 20 else requested;
    if size < 100 then size else 100
  }

  // Math.min(Math.max(pageSize || 50, 1), 100), for assets and viewers
  function ClampedPageSize(requested: int): (size: int)
    ensures 1 <= size <= 100
    ensures requested == 0 ==> size == 50
    ensures 1 <= requested <= 100 ==> size == requested
    ensures (requested < 0 ==> size == 1) && (requested > 100 ==> size == 100)
  {
    var size := if requested == 0 then 50 else requested;
    var atLeastOne := if size > 1 then size else 1;
    if atLeastOne < 100 then atLeastOne else 100
  }

  // floor(rows / size) + 1
  function PageCount(rows: nat, size: int): (pages: nat)
    requires size > 0
    ensures pages >= 1
  {
    if rows < size then 1 else 1 + PageCount(rows - size, size)
  }

  lemma {:induction false} PageCountIsFloorPlusOne(rows: nat, size: int)
    requires size > 0
    ensures (PageCount(rows, size) - 1) * size <= rows < PageCount(rows, size) * size
  {
    if rows >= size {
      PageCountIsFloorPlusOne(rows - size, size);
      var p := PageCount(rows - size, size);
      assert (p + 1) * size == p * size + size && (p - 1) * size + size == p * size;
    }
  }

  // ---- A client following tokens -------------------------------------------------------------------

  // Fetch k sees table tables[k]: the rows collected from `token` on ...
  function Collected(tables: seq<Table>, keep: Where, size: int, token: string): seq<Row>
    decreases |tables|
  {
    if tables == [] then []
    else
      var rows := Page(tables[0], keep, size, token);
      var next := NextToken(rows, size);
      if next == "" then rows else rows + Collected(tables[1..], keep, size, next)
  }

  // ... and whether an empty token ended the walk within these fetches.
  predicate Finished(tables: seq<Table>, keep: Where, size: int, token: string)
    decreases |tables|
  {
    tables != [] &&
    (var next := NextToken(Page(tables[0], keep, size, token), size);
     next == "" || Finished(tables[1..], keep, size, next))
  }

  // ---- The order -----------------------------------------------------------------------------------------

  // b comes strictly later in the listing than a.
  predicate Later(a: Row, b: Row) {
    a.time > b.time || (a.time == b.time && a.id != b.id && LexLe(b.id, a.id))
  }

  predicate Descending(s: seq<Row>) { forall i, j | 0 <= i < j < |s| :: Later(s[i], s[j]) }

  lemma {:induction false} LaterTransitive(a: Row, b: Row, c: Row)
    requires Later(a, b) && Later(b, c)
    ensures Later(a, c)
  {
    if a.time == b.time == c.time {
      LexTransitive(c.id, b.id, a.id);
      if a.id == c.id {
        LexAntisymmetric(a.id, b.id);
      }
    }
  }

  lemma {:induction false} LaterAsymmetric(a: Row, b: Row)
    ensures !(Before(a, b) && Later(b, a))
    ensures Later(a, b) ==> Before(a, b)
  {
    if Before(a, b) && Later(b, a) {
      LexAntisymmetric(a.id, b.id);
    }
  }

  lemma {:induction false} LexReflexive(s: string)
    ensures LexLe(s, s)
  {
    LexTotal(s, s);
  }

  lemma {:induction false} SameIdSameRow(t: Table, x: Row, y: Row)
    requires TableOk(t) && x in t && y in t && x.id == y.id
    ensures x == y
  {
    var i :| 0 <= i < |t| && t[i] == x;
    var j :| 0 <= j < |t| && t[j] == y;
  }

  // Two descending sequences of the same rows are the same sequence.
  lemma {:induction false} DescendingUnique(a: seq<Row>, b: seq<Row>)
    requires Descending(a) && Descending(b)
    requires forall r :: r in a <==> r in b
    ensures a == b
  {
    assert b != [] ==> b[0] in b;
    if a != [] {
      DescendingHead(a, b);
      DescendingTail(a);
      DescendingTail(b);
      DescendingUnique(a[1..], b[1..]);
      assert a == [a[0]] + a[1..] && b == [b[0]] + b[1..];
    }
  }

  lemma {:induction false} DescendingHead(a: seq<Row>, b: seq<Row>)
    requires Descending(a) && Descending(b) && a != []
    requires forall r :: r in a <==> r in b
    ensures b != [] && a[0] == b[0]
  {
    assert a[0] in b;
    var i :| 0 <= i < |b| && b[i] == a[0];
    assert b[0] in a;
    var j :| 0 <= j < |a| && a[j] == b[0];
    LaterAsymmetric(a[0], b[0]);
  }

  lemma {:induction false} DescendingTail(a: seq<Row>)
    requires Descending(a) && a != []
    ensures Descending(a[1..]) && forall r :: r in a[1..] <==> r in a && r != a[0]
  {
    forall r | r in a && r != a[0] ensures r in a[1..] {
      var i :| 0 <= i < |a| && a[i] == r;
      assert a[1..][i - 1] == r;
    }
    forall r | r in a[1..] ensures r in a && r != a[0] {
      var i :| 0 <= i < |a| - 1 && a[1..][i] == r;
      assert Later(a[0], a[i + 1]);
    }
  }

  // ---- Listings descend ----------------------------------------------------------------------------------

  lemma {:induction false} SelectDescends(s: seq<Row>, keep: Where)
    requires Descending(s)
    ensures Descending(Select(s, keep))
  {
    if s != [] {
      SelectDescends(s[1..], keep);
      var rest := Select(s[1..], keep);
      forall j | 0 <= j < |rest| ensures Later(s[0], rest[j]) {
        assert rest[j] in s[1..];
      }
    }
  }

  predicate Distinct(s: seq<Row>) { forall i, j | 0 <= i < j < |s| :: s[i].id != s[j].id }

  lemma {:induction false} SelectDistinct(t: Table, keep: Where)
    requires Distinct(t)
    ensures Distinct(Select(t, keep))
  {
    if t != [] {
      SelectDistinct(t[1..], keep);
      var rest := Select(t[1..], keep);
      forall j | 0 <= j < |rest| ensures rest[j].id != t[0].id {
        assert rest[j] in t[1..];
      }
    }
  }

  lemma {:induction false} PrependDescends(x: Row, s: seq<Row>)
    requires Descending(s) && forall r | r in s :: Later(x, r)
    ensures Descending([x] + s)
  {
    forall j | 0 <= j < |s| ensures Later(x, s[j]) {
      assert s[j] in s;
    }
  }

  lemma {:induction false} InsertAdds(x: Row, s: seq<Row>)
    ensures forall r :: r in Insert(x, s, Before) <==> r == x || r in s
  {
    SameElements(Insert(x, s, Before), [x] + s);
  }

  lemma {:induction false} LaterThanAll(x: Row, s: seq<Row>)
    requires Descending(s) && s != [] && Later(x, s[0])
    ensures forall r | r in s :: Later(x, r)
  {
    forall r | r in s ensures Later(x, r) {
      var j :| 0 <= j < |s| && s[j] == r;
      if j > 0 { LaterTransitive(x, s[0], s[j]); }
    }
  }

  lemma {:induction false} InsertDescends(x: Row, s: seq<Row>)
    requires Descending(s) && forall r | r in s :: r.id != x.id
    ensures Descending(Insert(x, s, Before))
  {
    if s == [] {
    } else if Before(x, s[0]) {
      assert s[0] in s;
      LaterThanAll(x, s);
      PrependDescends(x, s);
    } else {
      assert s[0] in s;
      LexTotal(x.id, s[0].id);
      DescendingTail(s);
      InsertDescends(x, s[1..]);
      InsertAdds(x, s[1..]);
      hide Descending;
      forall r | r in s[1..] ensures Later(s[0], r) {
        HeadIsFirst(s, r);
      }
      PrependDescends(s[0], Insert(x, s[1..], Before));
    }
  }

  lemma {:induction false} HeadIsFirst(s: seq<Row>, r: Row)
    requires Descending(s) && s != [] && r in s[1..]
    ensures Later(s[0], r)
  {
    var i :| 0 <= i < |s| - 1 && s[1..][i] == r;
    assert s[i + 1] == r;
  }

  lemma {:induction false} SortDescends(s: seq<Row>)
    requires Distinct(s)
    ensures Descending(Sort(s, Before))
    ensures forall r :: r in Sort(s, Before) <==> r in s
  {
    if s != [] {
      SortDescends(s[1..]);
      forall r | r in s[1..] ensures r.id != s[0].id {
        var i :| 0 <= i < |s| - 1 && s[1..][i] == r;
        assert s[i + 1] == r;
      }
      InsertDescends(s[0], Sort(s[1..], Before));
      InsertAdds(s[0], Sort(s[1..], Before));
    }
  }

  // The listing is exactly the selected rows, in strictly descending order.
  lemma {:induction false} ListingIsOrdered(t: Table, keep: Where)
    requires TableOk(t)
    ensures Descending(Listing(t, keep))
    ensures forall r :: r in Listing(t, keep) <==> r in t && keep(r)
  {
    SelectDistinct(t, keep);
    SortDescends(Select(t, keep));
  }

  // The rows past a cursor are exactly the selected rows later than it, in order.
  lemma {:induction false} PastCursorIsOrdered(t: Table, keep: Where, c: Row)
    requires TableOk(t) && c in t && keep(c)
    ensures Descending(PastCursor(t, keep, c.id))
    ensures forall r :: r in PastCursor(t, keep, c.id) <==> r in t && keep(r) && Later(c, r)
  {
    assert c.id != "" && FindRow(t, c.id) == Some(c) by {
      var found := FindRow(t, c.id);
      SameIdSameRow(t, c, found.value);
    }
    ListingIsOrdered(t, keep);
    var from := Select(Listing(t, keep), r => Before(c, r));
    SelectDescends(Listing(t, keep), r => Before(c, r));
    LexReflexive(c.id);
    assert c in from;
    var i :| 0 <= i < |from| && from[i] == c;
    assert from[0] in from && (i > 0 ==> Later(from[0], from[i]));
    LaterAsymmetric(c, from[0]);
    DescendingTail(from);
    forall r ensures r in from[1..] <==> r in t && keep(r) && Later(c, r) {
      if r in t && Before(c, r) && r.id == c.id {
        SameIdSameRow(t, r, c);
      }
    }
  }

  // ---- Walking a changing table ----------------------------------------------------------------------------

  // A row's sort key never changes, whatever is inserted or deleted between fetches.
  predicate Immutable(tables: seq<Table>) {
    forall i, j, x, y | 0 <= i < |tables| && 0 <= j < |tables| && x in tables[i] && y in tables[j] ::
      x.id == y.id ==> x == y
  }

  predicate TablesOk(tables: seq<Table>) {
    Immutable(tables) && forall i | 0 <= i < |tables| :: TableOk(tables[i])
  }

  // Each token's row is still there when the token is used.
  predicate CursorsSurvive(tables: seq<Table>, keep: Where, size: int, token: string)
    decreases |tables|
  {
    tables == [] ||
    (&& (token == "" || FindRow(tables[0], token).Some?)
     && (var next := NextToken(Page(tables[0], keep, size, token), size);
         next == "" || CursorsSurvive(tables[1..], keep, size, next)))
  }

  predicate Past(c: Option<Row>, r: Row) { c.None? || Later(c.value, r) }

  // c is the row a token stands for.
  predicate TokenRow(tables: seq<Table>, keep: Where, token: string, c: Option<Row>) {
    && (token == "" <==> c.None?)
    && (c.Some? ==> c.value.id == token && keep(c.value)
                    && forall i, x | 0 <= i < |tables| && x in tables[i] && x.id == token :: x == c.value)
  }

  lemma {:induction false} PageIsOrdered(t: Table, keep: Where, token: string, c: Option<Row>)
    requires TableOk(t) && TokenRow([t], keep, token, c)
    requires c.Some? ==> FindRow(t, token).Some?
    ensures Descending(PastCursor(t, keep, token))
    ensures forall r :: r in PastCursor(t, keep, token) <==> r in t && keep(r) && Past(c, r)
  {
    if c.None? {
      ListingIsOrdered(t, keep);
    } else {
      assert [t][0] == t;
      PastCursorIsOrdered(t, keep, c.value);
    }
  }

  lemma {:induction false} PastBoth(c: Option<Row>, last: Row, r: Row)
    requires Past(c, last) && Later(last, r)
    ensures Past(c, r)
  {
    if c.Some? { LaterTransitive(c.value, last, r); }
  }

  lemma {:induction false} Splice(page: seq<Row>, more: seq<Row>)
    requires Descending(page) && Descending(more) && page != []
    requires forall r | r in more :: Later(page[|page| - 1], r)
    ensures Descending(page + more)
  {
    var last := page[|page| - 1];
    forall i, j | 0 <= i < |page| && 0 <= j < |more| ensures Later(page[i], more[j]) {
      assert more[j] in more;
      if i < |page| - 1 {
        LaterTransitive(page[i], last, more[j]);
      }
    }
  }

  predicate AllPast(keep: Where, c: Option<Row>, rows: seq<Row>) { forall r | r in rows :: keep(r) && Past(c, r) }

  lemma {:induction false} TakeOrdered(rest: seq<Row>, size: int)
    requires size > 0 && Descending(rest)
    ensures var page := Take(rest, size);
            && |page| <= size && Descending(page)
            && (forall r | r in page :: r in rest)
            && (|page| < size ==> page == rest)
            && (|page| == size ==> forall r | r in rest :: r in page || Later(page[size - 1], r))
  {
    var page := Take(rest, size);
    forall r | r in rest && |page| == size ensures r in page || Later(page[size - 1], r) {
      var k :| 0 <= k < |rest| && rest[k] == r;
      assert k < size ==> page[k] == r;
    }
  }

  // What page and token say about the rows past the old cursor.
  lemma {:induction false} PageSplits(t: Table, keep: Where, size: int, token: string, c: Option<Row>)
    requires size > 0 && TableOk(t) && TokenRow([t], keep, token, c) && (c.Some? ==> FindRow(t, token).Some?)
    ensures var page := Page(t, keep, size, token);
            var next := NextToken(page, size);
            && Descending(page)
            && (forall r | r in page :: r in t && keep(r) && Past(c, r))
            && (next == "" ==> forall r | r in t && keep(r) && Past(c, r) :: r in page)
            && (next != "" ==>
                  && page != [] && page[|page| - 1].id == next
                  && forall r | r in t && keep(r) && Past(c, r) :: r in page || Later(page[|page| - 1], r))
  {
    PageIsOrdered(t, keep, token, c);
    var rest := PastCursor(t, keep, token);
    hide PastCursor, Past, Later;
    TakeOrdered(rest, size);
    hide Take, Descending, Listing;
    var page := Page(t, keep, size, token);
    assert |page| == size ==> page[size - 1] in page && page[size - 1].id != "";
  }

  lemma FirstTable(tables: seq<Table>, keep: Where, token: string, c: Option<Row>)
    requires tables != [] && TablesOk(tables) && TokenRow(tables, keep, token, c)
    ensures TableOk(tables[0]) && TokenRow([tables[0]], keep, token, c) && TablesOk(tables[1..])
    ensures c.None? <==> token == ""
  {
  }

  lemma {:induction false} TokenOfRow(tables: seq<Table>, keep: Where, last: Row)
    requires tables != [] && TablesOk(tables) && last in tables[0] && keep(last)
    ensures last.id != "" && TokenRow(tables[1..], keep, last.id, Some(last))
  {
    var i :| 0 <= i < |tables[0]| && tables[0][i] == last;
    assert TableOk(tables[0]);
  }

  // A page and what was collected past its last row.
  lemma {:induction false} JoinPages(keep: Where, c: Option<Row>, page: seq<Row>, more: seq<Row>)
    requires page != [] && Descending(page) && Descending(more)
    requires AllPast(keep, c, page) && AllPast(keep, Some(page[|page| - 1]), more)
    ensures Descending(page + more) && AllPast(keep, c, page + more)
  {
    var last := page[|page| - 1];
    assert last in page;
    forall r | r in more ensures Past(c, r) && Later(last, r) {
      PastBoth(c, last, r);
    }
    Splice(page, more);
  }

  lemma {:induction false} FirstPage(tables: seq<Table>, keep: Where, size: int, token: string, c: Option<Row>)
    requires size > 0 && tables != [] && TablesOk(tables) && TokenRow(tables, keep, token, c)
    requires token == "" || FindRow(tables[0], token).Some?
    ensures var page := Page(tables[0], keep, size, token); Descending(page) && AllPast(keep, c, page)
  {
    FirstTable(tables, keep, token, c);
    PageSplits(tables[0], keep, size, token, c);
  }

  lemma {:induction false} LastOfPage(t: Table, keep: Where, size: int, token: string, c: Option<Row>)
    requires size > 0 && TableOk(t) && TokenRow([t], keep, token, c) && (c.Some? ==> FindRow(t, token).Some?)
    requires NextToken(Page(t, keep, size, token), size) != ""
    ensures var page := Page(t, keep, size, token);
            && page != [] && page[|page| - 1].id == NextToken(page, size)
            && page[|page| - 1] in t && keep(page[|page| - 1])
  {
    hide TableOk, TokenRow, FindRow, Page, Descending, Past, Later;
    PageSplits(t, keep, size, token, c);
    var page := Page(t, keep, size, token);
    assert page[|page| - 1] in page;
  }

  // The row the next token stands for.
  lemma {:induction false} LastRow(tables: seq<Table>, keep: Where, size: int, token: string, c: Option<Row>)
    returns (last: Row)
    requires size > 0 && tables != [] && TablesOk(tables) && TokenRow(tables, keep, token, c)
    requires token == "" || FindRow(tables[0], token).Some?
    requires NextToken(Page(tables[0], keep, size, token), size) != ""
    ensures var page := Page(tables[0], keep, size, token);
            && page != [] && last == page[|page| - 1] && last in tables[0]
            && TablesOk(tables[1..]) && TokenRow(tables[1..], keep, NextToken(page, size), Some(last))
  {
    hide Page, TablesOk, TokenRow, TableOk, NextToken, FindRow;
    FirstTable(tables, keep, token, c);
    LastOfPage(tables[0], keep, size, token, c);
    var page := Page(tables[0], keep, size, token);
    last := page[|page| - 1];
    TokenOfRow(tables, keep, last);
  }

  // Whatever is inserted or deleted between fetches, a walk returns no row twice, and selected rows only.
  lemma {:induction false} WalkDescends(tables: seq<Table>, keep: Where, size: int, token: string, c: Option<Row>)
    requires size > 0 && TablesOk(tables) && TokenRow(tables, keep, token, c)
    ensures Descending(Collected(tables, keep, size, token)) && AllPast(keep, c, Collected(tables, keep, size, token))
    decreases |tables|
  {
    hide Page, NextToken, TablesOk, TokenRow, Descending, AllPast;
    NoRows(keep, c);
    if tables != [] {
      if token != "" && FindRow(tables[0], token).None? {
        DeletedCursorEndsWalk(tables, keep, size, token);
      } else {
        FirstPage(tables, keep, size, token, c);
        var page := Page(tables[0], keep, size, token);
        var next := NextToken(page, size);
        if next != "" {
          var last := LastRow(tables, keep, size, token, c);
          WalkDescends(tables[1..], keep, size, next, Some(last));
          JoinPages(keep, c, page, Collected(tables[1..], keep, size, next));
        }
      }
    }
  }

  lemma NoRows(keep: Where, c: Option<Row>)
    ensures Descending([]) && AllPast(keep, c, [])
  {
  }

  predicate InEvery(tables: seq<Table>, r: Row) { forall i | 0 <= i < |tables| :: r in tables[i] }

  lemma {:induction false} InPageOrLater(tables: seq<Table>, keep: Where, size: int, token: string, c: Option<Row>,
                                         r: Row)
    requires size > 0 && tables != [] && TablesOk(tables) && TokenRow(tables, keep, token, c)
    requires token == "" || FindRow(tables[0], token).Some?
    requires r in tables[0] && keep(r) && Past(c, r)
    ensures var page := Page(tables[0], keep, size, token);
            || r in page
            || (NextToken(page, size) != "" && page != [] && Past(Some(page[|page| - 1]), r))
  {
    FirstTable(tables, keep, token, c);
    PageSplits(tables[0], keep, size, token, c);
  }

  // A finished walk returns every selected row that was there throughout.
  lemma {:induction false} WalkCovers(tables: seq<Table>, keep: Where, size: int, token: string, c: Option<Row>, r: Row)
    requires size > 0 && TablesOk(tables) && TokenRow(tables, keep, token, c)
    requires CursorsSurvive(tables, keep, size, token) && Finished(tables, keep, size, token)
    requires InEvery(tables, r) && keep(r) && Past(c, r)
    ensures r in Collected(tables, keep, size, token)
    decreases |tables|
  {
    hide Page, NextToken, TablesOk, TokenRow, Past;
    var page := Page(tables[0], keep, size, token);
    InPageOrLater(tables, keep, size, token, c, r);
    if r !in page {
      var last := LastRow(tables, keep, size, token, c);
      assert InEvery(tables[1..], r);
      WalkCovers(tables[1..], keep, size, NextToken(page, size), Some(last), r);
    }
  }

  // Inserts only: every table extends the earlier ones.
  predicate Growing(tables: seq<Table>) {
    forall i, j, r | 0 <= i <= j < |tables| && r in tables[i] :: r in tables[j]
  }

  lemma {:induction false} FindRowFinds(t: Table, r: Row)
    requires r in t
    ensures FindRow(t, r.id).Some?
  {
    var found := FindRow(t, r.id);
  }

  lemma {:induction false} GrowingTail(tables: seq<Table>, r: Row)
    requires Growing(tables) && tables != [] && r in tables[0]
    ensures Growing(tables[1..]) && (|tables| > 1 ==> r in tables[1])
  {
    assert forall i | 0 <= i < |tables[1..]| :: tables[1..][i] == tables[i + 1];
  }

  lemma {:induction false} GrowingKeepsCursors(tables: seq<Table>, keep: Where, size: int, token: string,
                                               c: Option<Row>)
    requires size > 0 && TablesOk(tables) && TokenRow(tables, keep, token, c) && Growing(tables)
    requires c.Some? && tables != [] ==> c.value in tables[0] && c.value.id == token
    requires c.None? ==> token == ""
    ensures CursorsSurvive(tables, keep, size, token)
    decreases |tables|
  {
    if tables != [] {
      hide Page, NextToken, TablesOk, TokenRow, Growing, FindRow;
      if c.Some? { FindRowFinds(tables[0], c.value); }
      var page := Page(tables[0], keep, size, token);
      if NextToken(page, size) != "" {
        var last := LastRow(tables, keep, size, token, c);
        TokenIsLastId(page, size);
        GrowingTail(tables, last);
        GrowingKeepsCursors(tables[1..], keep, size, NextToken(page, size), Some(last));
      }
    }
  }

  lemma TokenIsLastId(page: seq<Row>, size: int)
    requires NextToken(page, size) != ""
    ensures page != [] && page[|page| - 1].id == NextToken(page, size)
  {
  }

  // Rows inserted between fetches never make a walk skip or repeat a row that was there from the start.
  lemma {:induction false} InsertsKeepWalkExact(tables: seq<Table>, keep: Where, size: int)
    requires size > 0 && TablesOk(tables) && Growing(tables) && tables != []
    ensures Descending(Collected(tables, keep, size, ""))
    ensures forall r | r in Collected(tables, keep, size, "") :: keep(r)
    ensures Finished(tables, keep, size, "") ==>
              forall r | r in tables[0] && keep(r) :: r in Collected(tables, keep, size, "")
  {
    GrowingKeepsCursors(tables, keep, size, "", None);
    WalkDescends(tables, keep, size, "", None);
    forall r | r in tables[0] && keep(r) && Finished(tables, keep, size, "")
      ensures r in Collected(tables, keep, size, "")
    {
      WalkCovers(tables, keep, size, "", None, r);
    }
  }

  // A cursor row deleted before its token is used ends the walk there: the rows after it are never returned.
  lemma {:induction false} DeletedCursorEndsWalk(tables: seq<Table>, keep: Where, size: int, token: string)
    requires tables != [] && token != "" && size > 0 && FindRow(tables[0], token).None?
    ensures Collected(tables, keep, size, token) == [] && Finished(tables, keep, size, token)
  {
    assert Page(tables[0], keep, size, token) == [];
  }

  // Some token is used after its row is gone, and no page before that one has the row r.
  predicate LostBefore(tables: seq<Table>, keep: Where, size: int, token: string, r: Row)
    decreases |tables|
  {
    tables != [] &&
    (|| (token != "" && FindRow(tables[0], token).None?)
     || (var page := Page(tables[0], keep, size, token);
         var next := NextToken(page, size);
         r !in page && next != "" && LostBefore(tables[1..], keep, size, next, r)))
  }

  // A finished walk misses a row that was there throughout exactly when the row of a token it used had been
  // deleted before it came to that row.
  lemma {:induction false} MissedIff(tables: seq<Table>, keep: Where, size: int, token: string, c: Option<Row>, r: Row)
    requires size > 0 && TablesOk(tables) && TokenRow(tables, keep, token, c)
    requires Finished(tables, keep, size, token)
    requires InEvery(tables, r) && keep(r) && Past(c, r)
    ensures r !in Collected(tables, keep, size, token) <==> LostBefore(tables, keep, size, token, r)
    decreases |tables|
  {
    hide Page, NextToken, TablesOk, TokenRow, Past;
    if token != "" && FindRow(tables[0], token).None? {
      DeletedCursorEndsWalk(tables, keep, size, token);
    } else {
      var page := Page(tables[0], keep, size, token);
      InPageOrLater(tables, keep, size, token, c, r);
      if r !in page {
        var last := LastRow(tables, keep, size, token, c);
        assert InEvery(tables[1..], r);
        MissedIff(tables[1..], keep, size, NextToken(page, size), Some(last), r);
      }
    }
  }

  lemma {:induction false} OnePage(a: Row, b: Row)
    requires a.id != "" && b.id != "" && a.time > b.time
    ensures Page([a, b], _ => true, 1, "") == [a]
  {
    var all: Where := _ => true;
    assert [a, b][1..] == [b] && [b][1..] == [];
    assert Select([b], all) == [b] + Select([], all) == [b];
    assert Select([a, b], all) == [a] + Select([b], all) == [a, b];
    assert Sort([b], Before) == Insert(b, [], Before) == [b];
    assert Sort([a, b], Before) == Insert(a, Sort([b], Before), Before) == [a] + [b];
  }

  // The first row of two is deleted after the first page of one: the second is in every table and not returned.
  lemma {:induction false} DeletionLosesARow()
    ensures var a, b := Row("a", 2, "org", "x"), Row("b", 1, "org", "x");
            var tables := [[a, b], [b]];
            && TablesOk(tables) && Finished(tables, _ => true, 1, "") && InEvery(tables, b)
            && Collected(tables, _ => true, 1, "") == [a]
  {
    var a, b := Row("a", 2, "org", "x"), Row("b", 1, "org", "x");
    var tables := [[a, b], [b]];
    assert TablesOk(tables) && InEvery(tables, b);
    hide TablesOk, InEvery;
    OnePage(a, b);
    hide Page, Listing;
    assert tables[1..] == [[b]] && [b][1..] == [];
    assert FindRow([b], "a").None?;
    DeletedCursorEndsWalk(tables[1..], _ => true, 1, "a");
  }

  // ---- Walking a table at rest ---------------------------------------------------------------------------

  function Copies(t: Table, k: nat): seq<Table> { seq(k, _ => t) }

  // What comes after position k of a descending sequence is what is later than the row before it.
  lemma {:induction false} DescendingDrop(s: seq<Row>, k: nat)
    requires Descending(s) && 0 < k <= |s|
    ensures Descending(s[k..])
    ensures forall r :: r in s[k..] <==> r in s && Later(s[k - 1], r)
  {
    forall r | r in s && Later(s[k - 1], r) ensures r in s[k..] {
      var i :| 0 <= i < |s| && s[i] == r;
      LaterAsymmetric(r, s[k - 1]);
      LaterAsymmetric(s[k - 1], r);
      assert i >= k;
      assert s[k..][i - k] == r;
    }
    forall r | r in s[k..] ensures r in s && Later(s[k - 1], r) {
      var i :| 0 <= i < |s| - k && s[k..][i] == r;
      assert s[k + i] == r;
    }
  }

  lemma {:induction false} FullPageToken(t: Table, keep: Where, size: int, token: string)
    requires size > 0 && |PastCursor(t, keep, token)| >= size
    ensures NextToken(Page(t, keep, size, token), size) == PastCursor(t, keep, token)[size - 1].id
    ensures Page(t, keep, size, token) == PastCursor(t, keep, token)[..size]
  {
    hide PastCursor;
  }

  // The rows past a cursor row further down are the same rows without those up to it.
  lemma {:induction false} RestAfterPage(t: Table, keep: Where, size: int, token: string, c: Option<Row>)
    requires size > 0 && TableOk(t) && TokenRow([t], keep, token, c) && (c.Some? ==> FindRow(t, token).Some?)
    requires |PastCursor(t, keep, token)| >= size
    ensures var rest := PastCursor(t, keep, token);
            && rest[size - 1] in t && keep(rest[size - 1])
            && PastCursor(t, keep, rest[size - 1].id) == rest[size..]
  {
    var rest := PastCursor(t, keep, token);
    PageIsOrdered(t, keep, token, c);
    var last := rest[size - 1];
    assert last in rest;
    PastCursorIsOrdered(t, keep, last);
    DescendingDrop(rest, size);
    hide *;
    forall r | r in t && keep(r) && Later(last, r) ensures Past(c, r) {
      PastBoth(c, last, r);
    }
    DescendingUnique(rest[size..], PastCursor(t, keep, last.id));
  }

  lemma {:induction false} FollowEnds(t: Table, keep: Where, size: int, token: string, c: Option<Row>, k: nat)
    requires size > 0 && TableOk(t) && TokenRow([t], keep, token, c) && (c.Some? ==> FindRow(t, token).Some?)
    requires k >= PageCount(|PastCursor(t, keep, token)|, size)
    ensures Finished(Copies(t, k), keep, size, token)
    ensures Collected(Copies(t, k), keep, size, token) == PastCursor(t, keep, token)
    decreases k
  {
    hide PastCursor, FindRow;
    var rest := PastCursor(t, keep, token);
    assert Copies(t, k)[1..] == Copies(t, k - 1) && Copies(t, k)[0] == t;
    if |rest| >= size {
      RestAfterPage(t, keep, size, token, c);
      FullPageToken(t, keep, size, token);
      var last := rest[size - 1];
      assert TableOk(t) && last.id != "";
      FindRowFinds(t, last);
      forall x | x in t && x.id == last.id ensures x == last { SameIdSameRow(t, x, last); }
      FollowEnds(t, keep, size, last.id, Some(last), k - 1);
      assert rest[..size] + rest[size..] == rest;
    }
  }

  // Following tokens from "" ends within `pages` fetches and collects the ordered listing.
  predicate WalksListing(t: Table, keep: Where, size: int, pages: nat) {
    Finished(Copies(t, pages), keep, size, "") && Collected(Copies(t, pages), keep, size, "") == Listing(t, keep)
  }

  // Following tokens from "" until an empty one returns exactly the ordered listing, within n / size + 1 pages.
  lemma {:induction false} WalkIsListing(t: Table, keep: Where, size: int)
    requires size > 0 && TableOk(t)
    ensures WalksListing(t, keep, size, PageCount(|Listing(t, keep)|, size))
  {
    FollowEnds(t, keep, size, "", None, PageCount(|Listing(t, keep)|, size));
  }

  // ListJobs takes a negative page size as it comes, and then serves the end of the listing as its only page:
  // the walk is the listing exactly when the size is positive or the listing fits that one page.
  lemma {:induction false} JobsWalkIsListingIff(t: Table, keep: Where, requested: int)
    requires TableOk(t)
    ensures var size := JobsPageSize(requested);
            var pages := if size > 0 then PageCount(|Listing(t, keep)|, size) else 1;
            WalksListing(t, keep, size, pages) <==> requested >= 0 || |Listing(t, keep)| <= -requested
  {
    var size := JobsPageSize(requested);
    if size > 0 {
      WalkIsListing(t, keep, size);
    }
  }

  // With page size -1 a walk is never the listing of two rows or more.
  lemma {:induction false} LastRowOnly(t: Table, keep: Where, a: Row, b: Row)
    requires TableOk(t) && a in t && b in t && keep(a) && keep(b) && a != b
    ensures !WalksListing(t, keep, JobsPageSize(-1), 1)
  {
    ListingIsOrdered(t, keep);
    JobsWalkIsListingIff(t, keep, -1);
    hide Listing, WalksListing, Descending;
    var listing := Listing(t, keep);
    assert a in listing && b in listing;
    assert |listing| > 1;
  }

  // Two jobs listed with page size -1: the second is served and the first never is.
  lemma {:induction false} NegativeSizeLosesARow()
    ensures var t := [Row("a", 2, "org", "x"), Row("b", 1, "org", "x")];
            TableOk(t) && !WalksListing(t, _ => true, JobsPageSize(-1), 1)
  {
    hide WalksListing;
    var a, b := Row("a", 2, "org", "x"), Row("b", 1, "org", "x");
    LastRowOnly([a, b], _ => true, a, b);
  }

  // Assets and viewers clamp the size, so every request walks the listing.
  lemma {:induction false} ClampedWalkIsListing(t: Table, keep: Where, requested: int)
    requires TableOk(t)
    ensures var size := ClampedPageSize(requested);
            WalksListing(t, keep, size, PageCount(|Listing(t, keep)|, size))
  {
    WalkIsListing(t, keep, ClampedPageSize(requested));
  }
}
