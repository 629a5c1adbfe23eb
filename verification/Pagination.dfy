/**
  Cursor pagination (apps/api/src/common/pagination.ts) and what a client sees that walks the
  pages by `nextCursor` while other requests insert, delete and hide rows.

  A state of the table is its stored rows in listing order, which is what `findMany` with the
  given `orderBy` works on, and the rows that the `where` filter shows. The services never remove
  a listed row: they set `deletedAt`, and `where: { deletedAt: null }` hides it.

  Main results: `WalkReturnsIff` (which rows a walk over a changing table misses, and that it
  returns none twice), `WalkIsComplete`, `StillWalkIsTheListing` (a table at rest) and
  `FetchFollowsCursorIff` (exactly when a fetch continues where the last page ended).
 */
module Pagination {
  import opened Options

  datatype Row = Row(id: string, createdAt: int)

  datatype Args = Args(take: nat, cursor: Option<string>, skip: nat)

  datatype CursorPage = CursorPage(data: seq<Row>, nextCursor: Option<string>)

  /** An absent and an empty cursor both ask for the first page. */
  function BuildCursorArgs(cursor: Option<string>, limit: nat): Args {
    if cursor.Some? && cursor.value != "" then Args(limit + 1, cursor, 1) else Args(limit + 1, None, 0)
  }

  function MakeCursorPage(items: seq<Row>, limit: nat): CursorPage
    requires limit >= 1
  {
    if |items| > limit then
      var data := items[..limit];
      CursorPage(data, Some(data[|data| - 1].id))
    else CursorPage(items, None)
  }

  /** No cursor, or the empty one. */
  predicate AsksFirstPage(cursor: Option<string>) {
    cursor.Some? ==> cursor.value == ""
  }

  // ---------- the query ----------

  function Take(rows: seq<Row>, n: nat): seq<Row> {
    if n <= |rows| then rows[..n] else rows
  }

  /** The position of the first row with this id, or the number of rows. */
  function IndexOf(rows: seq<Row>, id: string): (k: nat)
    ensures k <= |rows|
    ensures k < |rows| ==> rows[k].id == id
  {
    if rows == [] || rows[0].id == id then 0 else 1 + IndexOf(rows[1..], id)
  }

  /** The stored rows in listing order, and the ids that `where` lets through. */
  datatype Table = Table(rows: seq<Row>, shown: set<string>)

  function Shown(rows: seq<Row>, shown: set<string>): seq<Row> {
    if rows == [] then [] else (if rows[0].id in shown then [rows[0]] else []) + Shown(rows[1..], shown)
  }

  /** The rows a client can see. */
  function Listing(table: Table): seq<Row> {
    Shown(table.rows, table.shown)
  }

  /**
    findMany: start at the place of the cursor row among the stored rows, drop what `where`
    hides, skip, take. A cursor row that is not stored gives no start, and nothing is found.
   */
  function FindMany(table: Table, args: Args): seq<Row> {
    var start := if args.cursor.Some? then IndexOf(table.rows, args.cursor.value) else 0;
    var found := Shown(table.rows[start..], table.shown);
    if args.skip <= |found| then Take(found[args.skip..], args.take) else []
  }

  /** One page request. */
  function Fetch(table: Table, cursor: Option<string>, limit: nat): CursorPage
    requires limit >= 1
  {
    MakeCursorPage(FindMany(table, BuildCursorArgs(cursor, limit)), limit)
  }

  lemma FirstPage(table: Table, first: Option<string>, limit: nat)
    requires limit >= 1 && AsksFirstPage(first)
    ensures Fetch(table, first, limit) == Fetch(table, None, limit)
  {
  }

  /** The page that fills from a run of rows. */
  function PageOf(rows: seq<Row>, limit: nat): CursorPage
    requires limit >= 1
  {
    MakeCursorPage(Take(rows, limit + 1), limit)
  }

  ghost predicate UniqueIds(table: seq<Row>) {
    && (forall i, j :: 0 <= i < j < |table| ==> table[i].id != table[j].id)
    && (forall i :: 0 <= i < |table| ==> table[i].id != "")
  }

  lemma {:induction false} IndexOfRow(table: seq<Row>, p: nat)
    requires UniqueIds(table) && p < |table|
    ensures IndexOf(table, table[p].id) == p
    decreases p
  {
    if p > 0 { IndexOfRow(table[1..], p - 1); }
  }

  lemma {:induction false} IndexOfAbsent(table: seq<Row>, id: string)
    requires forall i :: 0 <= i < |table| ==> table[i].id != id
    ensures IndexOf(table, id) == |table|
    decreases |table|
  {
    if table != [] { IndexOfAbsent(table[1..], id); }
  }

  // ---------- positions ----------

  /** `p` is where the listing goes on after `c`; `None` stands for the start of a walk. */
  predicate GoesOnAt(table: seq<Row>, c: Option<Row>, p: nat) {
    if c.None? then p == 0 else 0 < p <= |table| && table[p - 1] == c.value
  }

  function CursorOf(c: Option<Row>): Option<string> {
    if c.Some? then Some(c.value.id) else None
  }

  /** The page at position `p` of a listing. */
  ghost function PageAt(table: seq<Row>, p: nat, limit: nat): CursorPage
    requires limit >= 1 && p <= |table|
  {
    if |table| <= p + limit then CursorPage(table[p..], None)
    else CursorPage(table[p..p + limit], Some(table[p + limit - 1].id))
  }

  lemma PageOfSuffix(table: seq<Row>, p: nat, limit: nat)
    requires limit >= 1 && p <= |table|
    ensures PageOf(table[p..], limit) == PageAt(table, p, limit)
  {
    if p + limit < |table| {
      assert Take(table[p..], limit + 1)[..limit] == table[p..p + limit];
    }
  }

  lemma {:induction false} ShownSplits(rows: seq<Row>, shown: set<string>, k: nat)
    requires k <= |rows|
    ensures Shown(rows, shown) == Shown(rows[..k], shown) + Shown(rows[k..], shown)
    decreases k
  {
    if k > 0 {
      ShownSplits(rows[1..], shown, k - 1);
      assert rows[..k][1..] == rows[1..][..k - 1] && rows[1..][k - 1..] == rows[k..];
    }
  }

  lemma {:induction false} ShownAreRows(rows: seq<Row>, shown: set<string>)
    ensures forall r :: r in Shown(rows, shown) <==> r in rows && r.id in shown
    decreases |rows|
  {
    if rows != [] {
      ShownAreRows(rows[1..], shown);
      assert rows == [rows[0]] + rows[1..];
    }
  }

  lemma {:induction false} ShownAreUnique(rows: seq<Row>, shown: set<string>)
    requires UniqueIds(rows)
    ensures UniqueIds(Shown(rows, shown))
    decreases |rows|
  {
    if rows != [] {
      ShownAreUnique(rows[1..], shown);
      ShownAreRows(rows[1..], shown);
    }
  }

  /** A shown row stands in the listing behind the shown rows before it. */
  lemma ShownPosition(rows: seq<Row>, shown: set<string>, k: nat, p: nat)
    requires UniqueIds(rows) && k < |rows| && p < |Shown(rows, shown)| && Shown(rows, shown)[p] == rows[k]
    ensures Shown(rows[k..], shown) == Shown(rows, shown)[p..]
  {
    ShownSplits(rows, shown, k);
    ShownAreRows(rows, shown);
    ShownAreUnique(rows, shown);
    var q := |Shown(rows[..k], shown)|;
    assert Shown(rows[k..], shown)[0] == rows[k];
    assert Shown(rows, shown)[q] == rows[k];
    assert q == p;
  }

  /** With its cursor row in the listing, a fetch yields the page of the rows that follow. */
  lemma FetchFollowsCursor(table: Table, c: Option<Row>, p: nat, limit: nat)
    requires limit >= 1 && UniqueIds(table.rows) && GoesOnAt(Listing(table), c, p)
    ensures Fetch(table, CursorOf(c), limit) == PageAt(Listing(table), p, limit)
  {
    hide FindMany, UniqueIds, Listing;
    PageOfSuffix(Listing(table), p, limit);
    if c.Some? {
      FoundBehind(table, c.value, p, limit + 1);
    } else {
      FoundAtStart(table, limit + 1);
    }
  }

  lemma FoundAtStart(table: Table, take: nat)
    ensures FindMany(table, Args(take, None, 0)) == Take(Listing(table)[0..], take)
  {
    assert table.rows[0..] == table.rows && Listing(table)[0..] == Listing(table);
  }

  lemma FoundBehind(table: Table, c: Row, p: nat, take: nat)
    requires UniqueIds(table.rows) && GoesOnAt(Listing(table), Some(c), p)
    ensures c.id != "" && FindMany(table, Args(take, Some(c.id), 1)) == Take(Listing(table)[p..], take)
  {
    ShownAreRows(table.rows, table.shown);
    assert c in table.rows;
    var k :| 0 <= k < |table.rows| && table.rows[k] == c;
    IndexOfRow(table.rows, k);
    ShownPosition(table.rows, table.shown, k, p - 1);
    hide Shown;
    assert Listing(table)[p - 1..][1..] == Listing(table)[p..];
  }

  // ---------- the listing order ----------

  /**
    The database's collation, as the position it gives each id on a line: any strict total
    order on strings can be drawn that way, with distinct positions for distinct ids.
   */
  type Collation = string -> real

  /** orderBy: [{ createdAt: 'desc' }, { id: 'desc' }] */
  predicate Before(rank: Collation, a: Row, b: Row) {
    a.createdAt > b.createdAt || (a.createdAt == b.createdAt && rank(a.id) > rank(b.id))
  }

  ghost predicate Sorted(rank: Collation, rows: seq<Row>) {
    forall i, j :: 0 <= i < j < |rows| ==> Before(rank, rows[i], rows[j])
  }

  ghost predicate IsAfter(rank: Collation, c: Option<Row>, r: Row) {
    c.Some? ==> Before(rank, c.value, r)
  }

  /** The rows of a listing that come after `c`. */
  function RowsAfter(rank: Collation, table: seq<Row>, c: Row): seq<Row> {
    if table == [] then []
    else (if Before(rank, c, table[0]) then [table[0]] else []) + RowsAfter(rank, table[1..], c)
  }

  lemma {:induction false} RowsAfterAll(rank: Collation, table: seq<Row>, c: Row)
    requires forall i :: 0 <= i < |table| ==> Before(rank, c, table[i])
    ensures RowsAfter(rank, table, c) == table
    decreases |table|
  {
    if table != [] { RowsAfterAll(rank, table[1..], c); }
  }

  lemma NotBefore(rank: Collation, rows: seq<Row>, k: nat)
    requires Sorted(rank, rows) && k < |rows|
    ensures forall i :: 0 <= i < |rows| ==> (Before(rank, rows[k], rows[i]) <==> k < i)
  {
    forall i | 0 <= i < |rows| ensures Before(rank, rows[k], rows[i]) <==> k < i {
      if i < k { assert Before(rank, rows[i], rows[k]); }
    }
  }

  /** The shown rows that come after a stored row are those behind it. */
  lemma {:induction false} ShownBehind(rank: Collation, rows: seq<Row>, shown: set<string>, k: nat)
    requires Sorted(rank, rows) && k < |rows|
    ensures RowsAfter(rank, Shown(rows, shown), rows[k]) == Shown(rows[k + 1..], shown)
    decreases k
  {
    NotBefore(rank, rows, k);
    var rest := Shown(rows[1..], shown);
    assert RowsAfter(rank, [rows[0]] + rest, rows[k]) == RowsAfter(rank, rest, rows[k]) by {
      assert ([rows[0]] + rest)[1..] == rest;
    }
    assert [] + rest == rest;
    if k > 0 {
      ShownBehind(rank, rows[1..], shown, k - 1);
      assert rows[1..][k..] == rows[k + 1..];
    } else {
      ShownAreRows(rows[1..], shown);
      RowsAfterAll(rank, Shown(rows[1..], shown), rows[0]);
    }
  }

  /** The rows of a listing that come after `c`; all of them for `None`. */
  function Remaining(rank: Collation, table: Table, c: Option<Row>): seq<Row> {
    if c.None? then Listing(table) else RowsAfter(rank, Listing(table), c.value)
  }

  /**
    What a fetch leaves out of what remains after the cursor row: nothing if that row is shown;
    one row if it is still stored but hidden, because `skip` then drops a row that was never
    returned; and everything if it is gone.
   */
  function Lost(rank: Collation, table: Table, c: Option<Row>): seq<Row> {
    if c.None? || c.value in Listing(table) then []
    else if c.value in table.rows then Take(Remaining(rank, table, c), 1)
    else Remaining(rank, table, c)
  }

  /** A stored row with the cursor's id is the cursor row: ids are keys, and a row keeps its place. */
  ghost predicate KeepsRow(table: Table, c: Option<Row>) {
    c.Some? ==> c.value.id != "" && forall i :: 0 <= i < |table.rows| && table.rows[i].id == c.value.id ==>
                                      table.rows[i] == c.value
  }

  /** What the query finds from a stored cursor row on. */
  lemma FoundFrom(rank: Collation, table: Table, k: nat, take: nat)
    requires Sorted(rank, table.rows) && UniqueIds(table.rows) && k < |table.rows|
    ensures var (c, rest) := (table.rows[k], Remaining(rank, table, Some(table.rows[k])));
            FindMany(table, Args(take, Some(c.id), 1)) ==
            if c.id in table.shown then Take(rest, take) else if rest == [] then [] else Take(rest[1..], take)
  {
    IndexOfRow(table.rows, k);
    ShownBehind(rank, table.rows, table.shown, k);
    assert table.rows[k..][1..] == table.rows[k + 1..];
    var rest := Shown(table.rows[k + 1..], table.shown);
    assert ([table.rows[k]] + rest)[1..] == rest && [] + rest == rest;
  }

  /** A fetch is the page of what remains, less what is lost. */
  lemma FetchLoses(rank: Collation, table: Table, c: Option<Row>, limit: nat)
    requires limit >= 1 && Sorted(rank, table.rows) && UniqueIds(table.rows) && KeepsRow(table, c)
    ensures Lost(rank, table, c) <= Remaining(rank, table, c)
    ensures Fetch(table, CursorOf(c), limit) == PageOf(Remaining(rank, table, c)[|Lost(rank, table, c)|..], limit)
  {
    hide Fetch, Remaining, Lost, PageOf;
    if c.None? {
      FetchLosesNothing(rank, table, limit);
    } else if c.value in table.rows {
      var k :| 0 <= k < |table.rows| && table.rows[k] == c.value;
      FetchLosesAtMostOne(rank, table, k, limit);
    } else {
      FetchLosesAll(rank, table, c.value, limit);
    }
  }

  lemma FetchLosesNothing(rank: Collation, table: Table, limit: nat)
    requires limit >= 1
    ensures Lost(rank, table, None) == []
    ensures Fetch(table, None, limit) == PageOf(Remaining(rank, table, None)[0..], limit)
  {
    hide Shown;
    assert table.rows[0..] == table.rows && Listing(table)[0..] == Listing(table);
  }

  lemma FetchLosesAll(rank: Collation, table: Table, c: Row, limit: nat)
    requires limit >= 1 && c !in table.rows && KeepsRow(table, Some(c))
    ensures var rest := Remaining(rank, table, Some(c));
            Lost(rank, table, Some(c)) == rest && Fetch(table, Some(c.id), limit) == PageOf(rest[|rest|..], limit)
  {
    ShownAreRows(table.rows, table.shown);
    LostCursorEndsWalk(table, c.id, limit);
    hide Remaining, Fetch, Listing;
    assert Remaining(rank, table, Some(c))[|Remaining(rank, table, Some(c))|..] == [];
  }

  lemma StoredIsListed(table: Table, k: nat)
    requires k < |table.rows|
    ensures table.rows[k] in Listing(table) <==> table.rows[k].id in table.shown
  {
    ShownAreRows(table.rows, table.shown);
  }

  lemma FetchLosesAtMostOne(rank: Collation, table: Table, k: nat, limit: nat)
    requires limit >= 1 && Sorted(rank, table.rows) && UniqueIds(table.rows) && k < |table.rows|
    ensures var c := Some(table.rows[k]);
            && Lost(rank, table, c) <= Remaining(rank, table, c)
            && Fetch(table, CursorOf(c), limit) == PageOf(Remaining(rank, table, c)[|Lost(rank, table, c)|..], limit)
  {
    var c := Some(table.rows[k]);
    assert c.value.id != "" && c.value in table.rows;
    hide FindMany, Remaining, Sorted, UniqueIds, Listing;
    StoredIsListed(table, k);
    FoundFrom(rank, table, k, limit + 1);
    var rest := Remaining(rank, table, c);
    assert rest[0..] == rest;
  }

  lemma SortedCons(rank: Collation, r: Row, rest: seq<Row>)
    requires Sorted(rank, rest) && forall x :: x in rest ==> Before(rank, r, x)
    ensures Sorted(rank, [r] + rest)
  {
    var all := [r] + rest;
    forall i, j | 0 <= i < j < |all| ensures Before(rank, all[i], all[j]) {
      assert all[j] == rest[j - 1] && rest[j - 1] in rest;
    }
  }

  lemma SortedHead(rank: Collation, rows: seq<Row>)
    requires rows != [] && Sorted(rank, rows)
    ensures Sorted(rank, rows[1..]) && forall x :: x in rows[1..] ==> Before(rank, rows[0], x)
  {
  }

  lemma {:induction false} RowsAfterAre(rank: Collation, rows: seq<Row>, c: Row)
    requires Sorted(rank, rows)
    ensures Sorted(rank, RowsAfter(rank, rows, c))
    ensures forall r :: r in RowsAfter(rank, rows, c) <==> r in rows && Before(rank, c, r)
    decreases |rows|
  {
    if rows != [] {
      RowsAfterAre(rank, rows[1..], c);
      SortedHead(rank, rows);
      SortedCons(rank, rows[0], RowsAfter(rank, rows[1..], c));
      assert rows == [rows[0]] + rows[1..];
    }
  }

  lemma {:induction false} ShownAreSorted(rank: Collation, rows: seq<Row>, shown: set<string>)
    requires Sorted(rank, rows)
    ensures Sorted(rank, Shown(rows, shown))
    decreases |rows|
  {
    if rows != [] {
      ShownAreSorted(rank, rows[1..], shown);
      ShownAreRows(rows[1..], shown);
      SortedHead(rank, rows);
      SortedCons(rank, rows[0], Shown(rows[1..], shown));
    }
  }

  lemma RemainingAre(rank: Collation, table: Table, c: Option<Row>)
    requires Sorted(rank, table.rows)
    ensures Sorted(rank, Remaining(rank, table, c))
    ensures forall r :: r in Remaining(rank, table, c) <==> r in Listing(table) && IsAfter(rank, c, r)
  {
    ShownAreSorted(rank, table.rows, table.shown);
    if c.Some? { RowsAfterAre(rank, Listing(table), c.value); }
  }

  lemma ShorterPage(rank: Collation, rows: seq<Row>, n: nat, limit: nat)
    requires limit >= 1 && Sorted(rank, rows) && 0 < n <= |rows|
    ensures PageOf(rows[n..], limit) != PageOf(rows, limit)
  {
    assert PageOf(rows, limit).data[0] == rows[0];
    if n < |rows| {
      assert PageOf(rows[n..], limit).data[0] == rows[n];
      assert Before(rank, rows[0], rows[n]);
    }
  }

  /**
    A fetch continues right after the row `c` it was told to continue from if and only if that
    row is still shown (or nothing is left to return).
   */
  lemma FetchFollowsCursorIff(rank: Collation, table: Table, c: Row, limit: nat)
    requires limit >= 1 && Sorted(rank, table.rows) && UniqueIds(table.rows) && KeepsRow(table, Some(c))
    ensures Fetch(table, Some(c.id), limit) == PageOf(Remaining(rank, table, Some(c)), limit)
            <==> c in Listing(table) || Remaining(rank, table, Some(c)) == []
  {
    hide Fetch, PageOf, Remaining;
    FetchLoses(rank, table, Some(c), limit);
    RemainingAre(rank, table, Some(c));
    var rows, lost := Remaining(rank, table, Some(c)), Lost(rank, table, Some(c));
    if lost == [] {
      assert rows[0..] == rows;
    } else {
      ShorterPage(rank, rows, |lost|, limit);
    }
  }

  /** A cursor row hidden since the last page costs the client exactly the next row of the listing. */
  lemma HiddenCursorLosesOne(rank: Collation, table: Table, c: Row, limit: nat)
    requires limit >= 1 && Sorted(rank, table.rows) && UniqueIds(table.rows) && c in table.rows && c.id !in table.shown
    requires Remaining(rank, table, Some(c)) != []
    ensures Fetch(table, Some(c.id), limit) == PageOf(Remaining(rank, table, Some(c))[1..], limit)
    ensures Lost(rank, table, Some(c)) == [Remaining(rank, table, Some(c))[0]]
  {
    ShownAreRows(table.rows, table.shown);
    FetchLoses(rank, table, Some(c), limit);
  }

  /** Without its cursor row a fetch returns the empty last page, whatever rows are left. */
  lemma LostCursorEndsWalk(table: Table, id: string, limit: nat)
    requires limit >= 1 && id != "" && forall i :: 0 <= i < |table.rows| ==> table.rows[i].id != id
    ensures Fetch(table, Some(id), limit) == CursorPage([], None)
  {
    IndexOfAbsent(table.rows, id);
  }

  /** Three rows, one a page: after "c" is returned and then hidden, the next page is "a", and "b" is never seen. */
  lemma HiddenCursorExample()
    ensures var rows := [Row("c", 3), Row("b", 2), Row("a", 1)];
            && Fetch(Table(rows, {"a", "b", "c"}), None, 1) == CursorPage([Row("c", 3)], Some("c"))
            && Fetch(Table(rows, {"a", "b"}), Some("c"), 1) == CursorPage([Row("a", 1)], None)
  {
    var c, b, a := Row("c", 3), Row("b", 2), Row("a", 1);
    var rows, all, two := [c, b, a], {"a", "b", "c"}, {"a", "b"};
    assert a.id in all && b.id in all && c.id in all && a.id in two && b.id in two && c.id !in two;
    ShownOfThree(c, b, a, all);
    ShownOfThree(c, b, a, two);
    hide Shown;
    assert rows[0..] == rows && IndexOf(rows, "c") == 0;
    FetchOfThree(Table(rows, all), None, [c, b]);
    FetchOfThree(Table(rows, two), Some("c"), [a]);
  }

  /** A page of one from what the query found. */
  lemma FetchOfThree(table: Table, cursor: Option<string>, found: seq<Row>)
    requires FindMany(table, BuildCursorArgs(cursor, 1)) == found && 1 <= |found| <= 2
    ensures Fetch(table, cursor, 1) == CursorPage([found[0]], if |found| == 2 then Some(found[0].id) else None)
  {
    hide FindMany;
    assert |found| == 2 ==> found[..1] == [found[0]];
    assert |found| == 1 ==> found == [found[0]];
  }

  lemma ShownOfThree(c: Row, b: Row, a: Row, shown: set<string>)
    requires b.id in shown && a.id in shown
    ensures Shown([c, b, a], shown) == if c.id in shown then [c, b, a] else [b, a]
  {
    assert [c, b, a][1..] == [b, a] && [b, a][1..] == [a] && [a][1..] == [];
    assert Shown([a], shown) == [a];
    assert Shown([b, a], shown) == [b, a];
  }

  // ---------- walking pages over a changing table ----------

  /**
    A client's walk: page k is fetched from the k-th state of the table with the cursor of the
    page before, and the walk ends with the first page that has no cursor.
   */
  ghost predicate Walk(limit: nat, cursor: Option<string>, tables: seq<Table>, pages: seq<CursorPage>)
    requires limit >= 1
    decreases |pages|
  {
    && |tables| == |pages| >= 1
    && pages[0] == Fetch(tables[0], cursor, limit)
    && (if pages[0].nextCursor.None? then |pages| == 1
        else Walk(limit, pages[0].nextCursor, tables[1..], pages[1..]))
  }

  /** Every state lists its rows in order under unique, non-empty ids, and an id stands for the same row in all. */
  ghost predicate Coherent(rank: Collation, tables: seq<Table>) {
    && (forall k :: 0 <= k < |tables| ==> Sorted(rank, tables[k].rows) && UniqueIds(tables[k].rows))
    && (forall j, k, r :: 0 <= j < |tables| && 0 <= k < |tables| && r in tables[j].rows ==>
          KeepsRow(tables[k], Some(r)))
  }

  /** The last row of each page is still shown when the next page is fetched. */
  ghost predicate CursorsKept(tables: seq<Table>, pages: seq<CursorPage>) {
    forall k :: 1 <= k < |pages| && k < |tables| && CursorRow(pages, k).Some? ==>
      CursorRow(pages, k).value in Listing(tables[k])
  }

  /** The row that page k continues from; `None` for the first. */
  function CursorRow(pages: seq<CursorPage>, k: nat): Option<Row> {
    if 1 <= k <= |pages| && |pages[k - 1].data| > 0 then Some(pages[k - 1].data[|pages[k - 1].data| - 1]) else None
  }

  ghost function Flatten(pages: seq<CursorPage>): seq<Row> {
    if pages == [] then [] else pages[0].data + Flatten(pages[1..])
  }

  ghost predicate AllAfter(rank: Collation, c: Option<Row>, rows: seq<Row>) {
    forall k :: 0 <= k < |rows| ==> IsAfter(rank, c, rows[k])
  }

  /** The row is shown in every state. */
  ghost predicate InAll(tables: seq<Table>, r: Row) {
    forall k :: 0 <= k < |tables| ==> r in Listing(tables[k])
  }

  /** The row is lost at one of the fetches, the first of which continues from `c`. */
  ghost predicate LostOnWay(rank: Collation, c: Option<Row>, tables: seq<Table>, pages: seq<CursorPage>, r: Row)
    decreases |tables|
  {
    |tables| > 0 && |pages| > 0 &&
    (r in Lost(rank, tables[0], c) || LostOnWay(rank, CursorRow(pages, 1), tables[1..], pages[1..], r))
  }

  lemma SortedAppend(rank: Collation, c: Option<Row>, page: seq<Row>, rest: seq<Row>)
    requires |page| > 0 && Sorted(rank, page) && AllAfter(rank, c, page)
    requires Sorted(rank, rest) && AllAfter(rank, Some(page[|page| - 1]), rest)
    ensures Sorted(rank, page + rest) && AllAfter(rank, c, page + rest)
  {
    var all, last := page + rest, page[|page| - 1];
    forall i, j | 0 <= i < j < |all| ensures Before(rank, all[i], all[j]) {
      if i < |page| <= j {
        assert page[i] == last || Before(rank, page[i], last);
        assert IsAfter(rank, Some(last), rest[j - |page|]);
      }
    }
    forall k | 0 <= k < |all| ensures IsAfter(rank, c, all[k]) {
      if k >= |page| {
        assert IsAfter(rank, c, last) && IsAfter(rank, Some(last), rest[k - |page|]);
      }
    }
  }

  /** A sorted run of rows cut in three. */
  lemma CutInThree(rank: Collation, rows: seq<Row>, n: nat, m: nat)
    requires Sorted(rank, rows) && n <= m <= |rows|
    ensures Sorted(rank, rows[n..m])
    ensures forall r, x :: r in rows[..n] && x in rows[n..m] ==> Before(rank, r, x)
    ensures forall r :: r in rows ==>
              r in rows[..n] || r in rows[n..m] || (m < |rows| && (n < m ==> Before(rank, rows[m - 1], r)))
  {
    forall r | r in rows && !(m < |rows| && (n < m ==> Before(rank, rows[m - 1], r)))
      ensures r in rows[..n] || r in rows[n..m]
    {
      var i :| 0 <= i < |rows| && rows[i] == r;
      if i < n { assert rows[..n][i] == r; } else { assert rows[n..m][i - n] == r; }
    }
  }

  lemma PageOfIs(rows: seq<Row>, limit: nat)
    requires limit >= 1
    ensures var page := PageOf(rows, limit);
            && |page.data| <= |rows| && page.data == rows[..|page.data|]
            && (page.nextCursor.None? <==> |page.data| == |rows|)
            && (page.nextCursor.Some? ==> |page.data| > 0 && page.nextCursor.value == page.data[|page.data| - 1].id)
  {
  }

  /** What one fetch shows, loses and leaves of the rows after `c`. */
  ghost predicate Splits(rank: Collation, table: Table, c: Option<Row>, page: CursorPage, lost: seq<Row>) {
    && Sorted(rank, page.data)
    && (page.nextCursor.Some? ==> |page.data| > 0 && page.nextCursor == Some(page.data[|page.data| - 1].id))
    && forall r :: RowSplits(rank, table, c, page, lost, r)
  }

  /** For one row: where it goes, and that what is lost comes before what is shown. */
  ghost predicate RowSplits(rank: Collation, table: Table, c: Option<Row>, page: CursorPage, lost: seq<Row>, r: Row) {
    && (r in page.data || r in lost ==> r in Listing(table) && IsAfter(rank, c, r))
    && (r in Listing(table) && IsAfter(rank, c, r) ==>
          r in page.data || r in lost
          || (page.nextCursor.Some? && |page.data| > 0 && Before(rank, page.data[|page.data| - 1], r)))
    && (r in lost ==> forall x :: x in page.data ==> Before(rank, r, x))
  }

  /** What remains after `c`: first what the fetch loses, then its page, then what comes after the page. */
  lemma PageSplits(rank: Collation, table: Table, c: Option<Row>, limit: nat)
    requires limit >= 1 && Sorted(rank, table.rows) && UniqueIds(table.rows) && KeepsRow(table, c)
    ensures Splits(rank, table, c, Fetch(table, CursorOf(c), limit), Lost(rank, table, c))
  {
    hide Fetch, Remaining, Lost, PageOf, Listing, Sorted, UniqueIds, KeepsRow, IsAfter, Splits;
    var rows, lost := Remaining(rank, table, c), Lost(rank, table, c);
    FetchLoses(rank, table, c, limit);
    RemainingAre(rank, table, c);
    PageOfIs(rows[|lost|..], limit);
    RowsSplit(rank, table, c, rows, |lost|, Fetch(table, CursorOf(c), limit));
    assert rows[..|lost|] == lost;
  }

  lemma RowsSplit(rank: Collation, table: Table, c: Option<Row>, rows: seq<Row>, n: nat, page: CursorPage)
    requires Sorted(rank, rows) && n + |page.data| <= |rows| && page.data == rows[n..][..|page.data|]
    requires forall r :: r in rows <==> r in Listing(table) && IsAfter(rank, c, r)
    requires page.nextCursor.None? <==> n + |page.data| == |rows|
    requires page.nextCursor.Some? ==> |page.data| > 0 && page.nextCursor.value == page.data[|page.data| - 1].id
    ensures Splits(rank, table, c, page, rows[..n])
  {
    hide Listing;
    var m := n + |page.data|;
    assert page.data == rows[n..m];
    CutInThree(rank, rows, n, m);
    hide Sorted, IsAfter, Before;
    forall r ensures RowSplits(rank, table, c, page, rows[..n], r) {
      assert r in page.data || r in rows[..n] ==> r in rows;
    }
  }

  lemma CoherentTail(rank: Collation, tables: seq<Table>, r: Row)
    requires Coherent(rank, tables) && |tables| >= 2 && r in tables[0].rows
    ensures Coherent(rank, tables[1..]) && KeepsRow(tables[1], Some(r))
  {
    assert forall k :: 0 <= k < |tables[1..]| ==> tables[1..][k] == tables[k + 1];
  }

  lemma InAllTail(tables: seq<Table>, r: Row)
    requires |tables| >= 1 && InAll(tables, r)
    ensures r in Listing(tables[0]) && InAll(tables[1..], r)
  {
    forall k | 0 <= k < |tables[1..]| ensures r in Listing(tables[1..][k]) { assert tables[1..][k] == tables[k + 1]; }
  }

  /** What a walk from `c` on returns, and what it loses; the induction behind `WalkReturnsIff`. */
  lemma {:induction false} WalkFrom(
    rank: Collation, limit: nat, c: Option<Row>, tables: seq<Table>, pages: seq<CursorPage>)
    requires limit >= 1 && Coherent(rank, tables) && Walk(limit, CursorOf(c), tables, pages) && KeepsRow(tables[0], c)
    ensures Sorted(rank, Flatten(pages)) && AllAfter(rank, c, Flatten(pages))
    ensures forall r :: AsReturned(rank, c, tables, pages, r)
    decreases |pages|, 1
  {
    PageSplits(rank, tables[0], c, limit);
    hide Fetch, Lost, Listing, Before, Coherent, KeepsRow;
    var data := pages[0].data;
    if pages[0].nextCursor.None? {
      WalkEnds(rank, c, tables, pages);
    } else {
      WalkOn(rank, limit, c, tables, pages);
    }
  }

  /** A row shown throughout is returned or lost, and what is lost comes after `c`. */
  ghost predicate AsReturned(rank: Collation, c: Option<Row>, tables: seq<Table>, pages: seq<CursorPage>, r: Row) {
    && (LostOnWay(rank, c, tables, pages, r) ==> IsAfter(rank, c, r))
    && (InAll(tables, r) && IsAfter(rank, c, r) ==> (r in Flatten(pages) <==> !LostOnWay(rank, c, tables, pages, r)))
  }

  lemma WalkEnds(rank: Collation, c: Option<Row>, tables: seq<Table>, pages: seq<CursorPage>)
    requires |tables| == |pages| == 1 && pages[0].nextCursor.None?
    requires Splits(rank, tables[0], c, pages[0], Lost(rank, tables[0], c))
    ensures Sorted(rank, Flatten(pages)) && AllAfter(rank, c, Flatten(pages))
    ensures forall r :: AsReturned(rank, c, tables, pages, r)
  {
    hide Lost, Listing, Before, IsAfter, Sorted;
    var data, lost := pages[0].data, Lost(rank, tables[0], c);
    assert pages[1..] == [] && tables[1..] == [] && Flatten(pages) == data;
    forall k | 0 <= k < |data| ensures IsAfter(rank, c, data[k]) {
      assert data[k] in data && RowSplits(rank, tables[0], c, pages[0], lost, data[k]);
    }
    forall r ensures AsReturned(rank, c, tables, pages, r) {
      assert RowSplits(rank, tables[0], c, pages[0], lost, r);
      BeforeIsIrreflexive(rank, r);
      assert !LostOnWay(rank, CursorRow(pages, 1), tables[1..], pages[1..], r);
      if InAll(tables, r) { InAllTail(tables, r); }
    }
  }

  lemma {:induction false} WalkOn(
    rank: Collation, limit: nat, c: Option<Row>, tables: seq<Table>, pages: seq<CursorPage>)
    requires limit >= 1 && Coherent(rank, tables) && |tables| == |pages| >= 1 && pages[0].nextCursor.Some?
    requires Walk(limit, pages[0].nextCursor, tables[1..], pages[1..])
    requires Splits(rank, tables[0], c, pages[0], Lost(rank, tables[0], c))
    ensures Sorted(rank, Flatten(pages)) && AllAfter(rank, c, Flatten(pages))
    ensures forall r :: AsReturned(rank, c, tables, pages, r)
    decreases |pages|, 0
  {
    hide Fetch, Lost, Listing, Before, IsAfter, KeepsRow;
    var data, rest, later, lost := pages[0].data, pages[1..], tables[1..], Lost(rank, tables[0], c);
    var last := data[|data| - 1];
    forall k | 0 <= k < |data| ensures IsAfter(rank, c, data[k]) && data[k] in Listing(tables[0]) {
      assert data[k] in data && RowSplits(rank, tables[0], c, pages[0], lost, data[k]);
    }
    ListedIsStored(tables[0], last);
    CoherentTail(rank, tables, last);
    WalkFrom(rank, limit, Some(last), later, rest);
    hide Walk, Coherent;
    SortedAppend(rank, c, data, Flatten(rest));
    assert CursorRow(pages, 1) == Some(last);
    forall r ensures AsReturned(rank, c, tables, pages, r) {
      assert RowSplits(rank, tables[0], c, pages[0], lost, r) && AsReturned(rank, Some(last), later, rest, r);
      AfterIsTransitive(rank, c, last, r);
      if InAll(tables, r) && IsAfter(rank, c, r) {
        InAllTail(tables, r);
        ReturnedOrLost(rank, data, Flatten(rest), r, r in lost, LostOnWay(rank, Some(last), later, rest, r));
      }
    }
  }

  lemma BeforeIsIrreflexive(rank: Collation, r: Row)
    ensures !Before(rank, r, r)
  {
  }

  lemma ListedIsStored(table: Table, r: Row)
    requires r in Listing(table)
    ensures r in table.rows
  {
    ShownAreRows(table.rows, table.shown);
  }

  lemma AfterIsTransitive(rank: Collation, c: Option<Row>, a: Row, b: Row)
    ensures IsAfter(rank, Some(a), b) <==> Before(rank, a, b)
    ensures IsAfter(rank, c, a) && Before(rank, a, b) ==> IsAfter(rank, c, b)
  {
  }

  /** One step of a walk: a row is on the page or returned later, or else it is lost now or later. */
  lemma ReturnedOrLost(rank: Collation, data: seq<Row>, rest: seq<Row>, r: Row, lostNow: bool, lostLater: bool)
    requires |data| > 0 && Sorted(rank, data) && AllAfter(rank, Some(data[|data| - 1]), rest)
    requires r in data || lostNow || Before(rank, data[|data| - 1], r)
    requires lostNow ==> forall x :: x in data ==> Before(rank, r, x)
    requires lostLater ==> Before(rank, data[|data| - 1], r)
    requires Before(rank, data[|data| - 1], r) ==> (r in rest <==> !lostLater)
    ensures r in data + rest <==> !(lostNow || lostLater)
  {
    var last := data[|data| - 1];
    assert last in data;
    if r in data {
      var i :| 0 <= i < |data| && data[i] == r;
      assert i < |data| - 1 ==> Before(rank, data[i], last);
    } else if r in rest {
      var i :| 0 <= i < |rest| && rest[i] == r;
      assert IsAfter(rank, Some(last), rest[i]);
    }
  }

  /** The row is lost at the fetch of page k. */
  ghost predicate LostAt(rank: Collation, tables: seq<Table>, pages: seq<CursorPage>, k: nat, r: Row) {
    1 <= k < |pages| && k < |tables| && r in Lost(rank, tables[k], CursorRow(pages, k))
  }

  lemma {:induction false} LostSomewhere(
    rank: Collation, c: Option<Row>, tables: seq<Table>, pages: seq<CursorPage>, r: Row)
    requires |tables| == |pages| >= 1
    ensures LostOnWay(rank, c, tables, pages, r)
            <==> r in Lost(rank, tables[0], c) || exists k :: LostAt(rank, tables, pages, k, r)
    decreases |tables|
  {
    if |tables| > 1 {
      LostSomewhere(rank, CursorRow(pages, 1), tables[1..], pages[1..], r);
      forall k: nat | 1 <= k
        ensures LostAt(rank, tables[1..], pages[1..], k, r) <==> LostAt(rank, tables, pages, k + 1, r)
      {
        if k < |pages| - 1 { assert CursorRow(pages[1..], k) == CursorRow(pages, k + 1); }
      }
      if k: nat :| LostAt(rank, tables, pages, k, r) {
        assert k > 1 ==> LostAt(rank, tables[1..], pages[1..], k - 1, r);
      }
      if r in Lost(rank, tables[1], CursorRow(pages, 1)) { assert LostAt(rank, tables, pages, 1, r); }
    }
  }

  /**
    While rows are inserted, deleted, hidden and shown again between the fetches of a walk: the
    pages come in listing order, so no row comes twice; every row returned was shown when its
    page was fetched; and a row that is shown throughout is returned if and only if no fetch
    loses it.
   */
  lemma WalkReturnsIff(
    rank: Collation, limit: nat, first: Option<string>, tables: seq<Table>, pages: seq<CursorPage>)
    requires limit >= 1 && Coherent(rank, tables) && AsksFirstPage(first) && Walk(limit, first, tables, pages)
    ensures Sorted(rank, Flatten(pages))
    ensures forall i, j :: 0 <= i < j < |Flatten(pages)| ==> Flatten(pages)[i] != Flatten(pages)[j]
    ensures forall k, r :: 0 <= k < |pages| && r in pages[k].data ==> r in Listing(tables[k])
    ensures forall r :: InAll(tables, r) ==>
              (r in Flatten(pages) <==> !exists k :: LostAt(rank, tables, pages, k, r))
  {
    FirstPage(tables[0], first, limit);
    WalkFrom(rank, limit, None, tables, pages);
    PagesComeFromTables(limit, None, tables, pages);
    SortedIsDistinct(rank, Flatten(pages));
    hide Fetch, Coherent, Sorted, AllAfter, Flatten, InAll, LostAt, Listing;
    forall r | InAll(tables, r) ensures r in Flatten(pages) <==> !exists k :: LostAt(rank, tables, pages, k, r) {
      LostSomewhere(rank, None, tables, pages, r);
      assert AsReturned(rank, None, tables, pages, r);
    }
  }

  lemma SortedIsDistinct(rank: Collation, rows: seq<Row>)
    requires Sorted(rank, rows)
    ensures forall i, j :: 0 <= i < j < |rows| ==> rows[i] != rows[j]
  {
    forall i, j | 0 <= i < j < |rows| ensures rows[i] != rows[j] {
      assert Before(rank, rows[i], rows[j]);
    }
  }

  /** As long as every cursor row is still shown when it is used, every row shown throughout is returned. */
  lemma WalkIsComplete(
    rank: Collation, limit: nat, first: Option<string>, tables: seq<Table>, pages: seq<CursorPage>)
    requires limit >= 1 && Coherent(rank, tables) && AsksFirstPage(first)
    requires Walk(limit, first, tables, pages) && CursorsKept(tables, pages)
    ensures Sorted(rank, Flatten(pages))
    ensures forall i, j :: 0 <= i < j < |Flatten(pages)| ==> Flatten(pages)[i] != Flatten(pages)[j]
    ensures forall r :: InAll(tables, r) ==> r in Flatten(pages)
    ensures forall k, r :: 0 <= k < |pages| && r in pages[k].data ==> r in Listing(tables[k])
  {
    WalkReturnsIff(rank, limit, first, tables, pages);
    forall k: nat, r ensures !LostAt(rank, tables, pages, k, r) {}
  }

  lemma FetchComesFromListing(table: Table, cursor: Option<string>, limit: nat)
    requires limit >= 1
    ensures forall r :: r in Fetch(table, cursor, limit).data ==> r in Listing(table)
  {
    var args := BuildCursorArgs(cursor, limit);
    var start := if args.cursor.Some? then IndexOf(table.rows, args.cursor.value) else 0;
    ShownSplits(table.rows, table.shown, start);
    assert forall r :: r in FindMany(table, args) ==> r in Shown(table.rows[start..], table.shown);
  }

  lemma {:induction false} PagesComeFromTables(
    limit: nat, cursor: Option<string>, tables: seq<Table>, pages: seq<CursorPage>)
    requires limit >= 1 && Walk(limit, cursor, tables, pages)
    ensures forall k, r :: 0 <= k < |pages| && r in pages[k].data ==> r in Listing(tables[k])
    decreases |pages|
  {
    FetchComesFromListing(tables[0], cursor, limit);
    hide Fetch;
    if pages[0].nextCursor.Some? {
      PagesComeFromTables(limit, pages[0].nextCursor, tables[1..], pages[1..]);
      forall k, r | 0 <= k < |pages| && r in pages[k].data ensures r in Listing(tables[k]) {
        if k > 0 { assert pages[k] == pages[1..][k - 1] && tables[k] == tables[1..][k - 1]; }
      }
    }
  }

  // ---------- a table at rest ----------

  ghost function Copies(table: Table, n: nat): seq<Table> {
    seq(n, _ => table)
  }

  /** The number of pages for n rows: max(1, ceil(n / limit)). */
  ghost predicate IsPageCount(k: nat, n: nat, limit: nat) {
    if n == 0 then k == 1 else k >= 1 && (k - 1) * limit < n <= k * limit
  }

  lemma OneMorePage(k: nat, n: nat, limit: nat)
    requires limit >= 1 && n > limit && IsPageCount(k, n - limit, limit)
    ensures IsPageCount(k + 1, n, limit)
  {
    assert (k + 1) * limit == k * limit + limit;
    assert (k - 1) * limit == k * limit - limit;
  }

  /** The pages of a listing from position `p` on. */
  ghost function PagesFrom(table: seq<Row>, p: nat, limit: nat): seq<CursorPage>
    requires limit >= 1 && p <= |table|
    decreases |table| - p
  {
    [PageAt(table, p, limit)] + if |table| <= p + limit then [] else PagesFrom(table, p + limit, limit)
  }

  lemma FlattenCons(page: CursorPage, pages: seq<CursorPage>)
    ensures Flatten([page] + pages) == page.data + Flatten(pages) && Flatten([]) == []
  {
    assert ([page] + pages)[1..] == pages;
  }

  lemma SliceSplit(table: seq<Row>, p: nat, q: nat)
    requires p <= q <= |table|
    ensures table[p..] == table[p..q] + table[q..]
  {
  }

  lemma {:induction false} PagesCoverListing(table: seq<Row>, p: nat, limit: nat)
    requires limit >= 1 && p <= |table|
    ensures Flatten(PagesFrom(table, p, limit)) == table[p..]
    decreases |table| - p
  {
    hide Flatten;
    var page := PageAt(table, p, limit);
    if p + limit < |table| {
      FlattenCons(page, PagesFrom(table, p + limit, limit));
      PagesCoverListing(table, p + limit, limit);
      SliceSplit(table, p, p + limit);
    } else {
      FlattenCons(page, []);
      assert page.data + [] == page.data;
    }
  }

  lemma {:induction false} PagesAreCounted(table: seq<Row>, p: nat, limit: nat)
    requires limit >= 1 && p <= |table|
    ensures IsPageCount(|PagesFrom(table, p, limit)|, |table| - p, limit)
    decreases |table| - p
  {
    if p + limit < |table| {
      PagesAreCounted(table, p + limit, limit);
      OneMorePage(|PagesFrom(table, p + limit, limit)|, |table| - p, limit);
    }
  }

  /** On a table at rest these pages are a walk, and the only one. */
  lemma {:induction false} StillWalk(limit: nat, table: Table, c: Option<Row>, p: nat, pages: seq<CursorPage>)
    requires limit >= 1 && UniqueIds(table.rows) && GoesOnAt(Listing(table), c, p) && p <= |Listing(table)|
    ensures Walk(limit, CursorOf(c), Copies(table, |pages|), pages) <==> pages == PagesFrom(Listing(table), p, limit)
    decreases |Listing(table)| - p
  {
    hide Fetch, Listing;
    FetchFollowsCursor(table, c, p, limit);
    if pages != [] {
      var rest := pages[1..];
      assert pages == [pages[0]] + rest;
      assert Copies(table, |pages|)[1..] == Copies(table, |rest|);
      if p + limit < |Listing(table)| {
        StillWalk(limit, table, Some(Listing(table)[p + limit - 1]), p + limit, rest);
      }
    }
  }

  /**
    On a table at rest there is exactly one walk: its pages put together are the whole listing,
    there are max(1, ceil(n / limit)) of them, and only the last has no cursor.
   */
  lemma StillWalkIsTheListing(limit: nat, first: Option<string>, table: Table) returns (walk: seq<CursorPage>)
    requires limit >= 1 && UniqueIds(table.rows) && AsksFirstPage(first)
    ensures forall pages :: Walk(limit, first, Copies(table, |pages|), pages) <==> pages == walk
    ensures Flatten(walk) == Listing(table) && IsPageCount(|walk|, |Listing(table)|, limit) && OnlyLastEnds(walk)
  {
    walk := PagesFrom(Listing(table), 0, limit);
    PagesCoverListing(Listing(table), 0, limit);
    PagesAreCounted(Listing(table), 0, limit);
    FirstPage(table, first, limit);
    forall pages ensures Walk(limit, first, Copies(table, |pages|), pages) <==> pages == walk {
      hide Fetch;
      StillWalk(limit, table, None, 0, pages);
    }
    OnlyLastHasNoCursor(limit, None, Copies(table, |walk|), walk);
  }

  ghost predicate OnlyLastEnds(pages: seq<CursorPage>) {
    forall k :: 0 <= k < |pages| ==> (pages[k].nextCursor.None? <==> k == |pages| - 1)
  }

  lemma {:induction false} OnlyLastHasNoCursor(
    limit: nat, cursor: Option<string>, tables: seq<Table>, pages: seq<CursorPage>)
    requires limit >= 1 && Walk(limit, cursor, tables, pages)
    ensures OnlyLastEnds(pages)
    decreases |pages|
  {
    hide Fetch;
    if pages[0].nextCursor.Some? {
      OnlyLastHasNoCursor(limit, pages[0].nextCursor, tables[1..], pages[1..]);
      forall k | 1 <= k < |pages| ensures pages[k].nextCursor.None? <==> k == |pages| - 1 {
        assert pages[k] == pages[1..][k - 1];
      }
    }
  }
}
