/** Keyset pagination (backend/app/domains/conversations/service.py and the two repositories):
    pages cut out of one descending listing, chained by opaque cursors. */
module Pagination {
  import opened Common
  import opened Cursors

  /** A row together with its sort key. */
  datatype Entry<T> = Entry(timestamp: int, id: nat, row: T)

  function Position<T>(e: Entry<T>): CursorPosition {
    CursorPosition(e.timestamp, e.id)
  }

  /** `ORDER BY timestamp DESC, id DESC` puts `a` before `b`. */
  predicate Newer<T>(a: Entry<T>, b: Entry<T>) {
    a.timestamp > b.timestamp || (a.timestamp == b.timestamp && a.id > b.id)
  }

  /** The keyset condition of the `WHERE` clause; no cursor admits every row. */
  predicate Admits<T>(cursor: Option<CursorPosition>, e: Entry<T>) {
    cursor.Some? ==>
      || e.timestamp < cursor.value.timestamp
      || (e.timestamp == cursor.value.timestamp && e.id < cursor.value.entityId)
  }

  /** Primary keys are unique. */
  ghost predicate UniqueIds<T>(table: seq<Entry<T>>) {
    forall i, j :: 0 <= i < j < |table| ==> table[i].id != table[j].id
  }

  function Below<T>(s: seq<Entry<T>>, cursor: Option<CursorPosition>): seq<Entry<T>> {
    if s == [] then []
    else (if Admits(cursor, s[0]) then [s[0]] else []) + Below(s[1..], cursor)
  }

  function Insert<T>(e: Entry<T>, s: seq<Entry<T>>): seq<Entry<T>> {
    if s == [] then [e]
    else if Newer(e, s[0]) then [e] + s
    else [s[0]] + Insert(e, s[1..])
  }

  function SortDescending<T>(table: seq<Entry<T>>): seq<Entry<T>> {
    if table == [] then [] else Insert(table[0], SortDescending(table[1..]))
  }

  /** The rows a query sees, in order: everything below the cursor, newest first. */
  function Listing<T>(table: seq<Entry<T>>, cursor: Option<CursorPosition>): seq<Entry<T>> {
    SortDescending(Below(table, cursor))
  }

  function Take<T>(s: seq<T>, limit: nat): seq<T> {
    if |s| <= limit then s else s[..limit]
  }

  // ---------------------------------------------------------------- sorted listings

  ghost predicate Descending<T>(s: seq<Entry<T>>) {
    forall i, j :: 0 <= i < j < |s| ==> Newer(s[i], s[j])
  }

  lemma {:induction false} InsertElements<T>(e: Entry<T>, s: seq<Entry<T>>)
    ensures multiset(Insert(e, s)) == multiset{e} + multiset(s)
  {
    if s == [] {
    } else if Newer(e, s[0]) {
    } else {
      InsertElements(e, s[1..]);
      assert s == [s[0]] + s[1..];
    }
  }

  lemma {:induction false} InsertDescending<T>(e: Entry<T>, s: seq<Entry<T>>)
    requires Descending(s) && forall x :: x in s ==> x.id != e.id
    ensures Descending(Insert(e, s))
  {
    if s == [] {
    } else if Newer(e, s[0]) {
      var r := [e] + s;
      forall j | 0 < j < |r| ensures Newer(e, r[j]) {
        assert r[j] == s[j - 1];
      }
    } else {
      assert s[0] in s;
      InsertDescending(e, s[1..]);
      InsertElements(e, s[1..]);
      var tail := Insert(e, s[1..]);
      forall j | 0 <= j < |tail| ensures Newer(s[0], tail[j]) {
        assert tail[j] in multiset(tail);
        if tail[j] != e {
          assert tail[j] in s[1..];
        }
      }
    }
  }

  /** The listing is the table in strictly descending order. */
  lemma {:induction false} SortIsDescendingPermutation<T>(table: seq<Entry<T>>)
    requires UniqueIds(table)
    ensures Descending(SortDescending(table))
    ensures forall i, j :: 0 <= i < j < |SortDescending(table)| ==>
              var (a, b) := (SortDescending(table)[i], SortDescending(table)[j]);
              a.timestamp > b.timestamp || (a.timestamp == b.timestamp && a.id > b.id)
    ensures multiset(SortDescending(table)) == multiset(table)
  {
    if table != [] {
      SortIsDescendingPermutation(table[1..]);
      var rest := SortDescending(table[1..]);
      forall x | x in rest ensures x.id != table[0].id {
        assert x in multiset(table[1..]);
      }
      InsertDescending(table[0], rest);
      InsertElements(table[0], rest);
      assert table == [table[0]] + table[1..];
    }
  }

  lemma {:induction false} BelowAll<T>(s: seq<Entry<T>>, cursor: Option<CursorPosition>)
    requires forall i :: 0 <= i < |s| ==> Admits(cursor, s[i])
    ensures Below(s, cursor) == s
  {
    if s != [] {
      BelowAll(s[1..], cursor);
    }
  }

  lemma {:induction false} BelowNone<T>(s: seq<Entry<T>>, cursor: Option<CursorPosition>)
    requires forall i :: 0 <= i < |s| ==> !Admits(cursor, s[i])
    ensures Below(s, cursor) == []
  {
    if s != [] {
      BelowNone(s[1..], cursor);
    }
  }

  lemma {:induction false} BelowConcat<T>(a: seq<Entry<T>>, b: seq<Entry<T>>, cursor: Option<CursorPosition>)
    ensures Below(a + b, cursor) == Below(a, cursor) + Below(b, cursor)
  {
    if a == [] {
      assert a + b == b;
    } else {
      assert (a + b)[0] == a[0] && (a + b)[1..] == a[1..] + b;
      BelowConcat(a[1..], b, cursor);
      var head := if Admits(cursor, a[0]) then [a[0]] else [];
      assert head + (Below(a[1..], cursor) + Below(b, cursor)) == (head + Below(a[1..], cursor)) + Below(b, cursor);
    }
  }

  lemma {:induction false} BelowInsert<T>(e: Entry<T>, s: seq<Entry<T>>, cursor: Option<CursorPosition>)
    requires Descending(s) && forall x :: x in s ==> x.id != e.id
    ensures Below(Insert(e, s), cursor) ==
            if Admits(cursor, e) then Insert(e, Below(s, cursor)) else Below(s, cursor)
  {
    if s == [] {
    } else if Newer(e, s[0]) {
      assert ([e] + s)[1..] == s;
      if Admits(cursor, e) {
        BelowAll(s, cursor);
      }
    } else {
      assert s[0] in s;
      BelowInsert(e, s[1..], cursor);
      var r, older := Insert(e, s), Below(s[1..], cursor);
      assert r[0] == s[0] && r[1..] == Insert(e, s[1..]);
      if Admits(cursor, s[0]) {
        assert Newer(s[0], e) && Admits(cursor, e);
        assert Below(r, cursor) == [s[0]] + Insert(e, older);
        var kept := [s[0]] + older;
        assert kept[1..] == older;
        assert Insert(e, kept) == [s[0]] + Insert(e, older);
      } else {
        assert Below(r, cursor) == Below(r[1..], cursor) && Below(s, cursor) == older;
      }
    }
  }

  /** Filtering before sorting and sorting before filtering give the same listing. */
  lemma {:induction false} ListingIsFilteredSort<T>(table: seq<Entry<T>>, cursor: Option<CursorPosition>)
    requires UniqueIds(table)
    ensures Listing(table, cursor) == Below(SortDescending(table), cursor)
  {
    if table != [] {
      var e, rest := table[0], SortDescending(table[1..]);
      ListingIsFilteredSort(table[1..], cursor);
      SortIsDescendingPermutation(table[1..]);
      forall x | x in rest ensures x.id != e.id {
        assert x in multiset(table[1..]);
      }
      BelowInsert(e, rest, cursor);
      hide Newer, Insert, Admits;
      var older := Below(table[1..], cursor);
      if Admits(cursor, e) {
        assert ([e] + older)[1..] == older;
        assert SortDescending([e] + older) == Insert(e, SortDescending(older));
        assert Below(table, cursor) == [e] + older;
      } else {
        assert Below(table, cursor) == older;
      }
    }
  }

  lemma TakeDrop<T>(s: seq<T>, n: nat)
    requires n <= |s|
    ensures s[..n] + s[n..] == s
  {
  }

  lemma BelowSplit<T>(newer: seq<Entry<T>>, older: seq<Entry<T>>, cursor: Option<CursorPosition>)
    requires forall i :: 0 <= i < |newer| ==> !Admits(cursor, newer[i])
    requires forall i :: 0 <= i < |older| ==> Admits(cursor, older[i])
    ensures Below(newer + older, cursor) == older
  {
    BelowConcat(newer, older, cursor);
    BelowNone(newer, cursor);
    BelowAll(older, cursor);
  }

  /** Below the position of its k-th entry, a descending listing continues with entry k + 1. */
  lemma BelowPosition<T>(s: seq<Entry<T>>, k: nat)
    requires Descending(s) && k < |s|
    ensures Below(s, Some(Position(s[k]))) == s[k + 1..]
  {
    var cursor := Some(Position(s[k]));
    var head, tail := s[..k + 1], s[k + 1..];
    forall i | 0 <= i < |head| ensures !Admits(cursor, head[i]) {
      assert head[i] == s[i] && (i < k ==> Newer(s[i], s[k]));
    }
    forall i | 0 <= i < |tail| ensures Admits(cursor, tail[i]) {
      assert tail[i] == s[k + 1 + i] && Newer(s[k], s[k + 1 + i]);
    }
    BelowSplit(head, tail, cursor);
    TakeDrop(s, k + 1);
  }

  /** A cursor selects a suffix of a descending listing. */
  lemma {:induction false} BelowDescending<T>(s: seq<Entry<T>>, cursor: Option<CursorPosition>)
    returns (k: nat)
    requires Descending(s)
    ensures k <= |s| && Below(s, cursor) == s[k..]
  {
    if s == [] {
      k := 0;
    } else if Admits(cursor, s[0]) {
      k := 0;
      BelowAll(s, cursor);
    } else {
      k := BelowDescending(s[1..], cursor);
      k := k + 1;
    }
  }

  /** What the cursor of the k-th listed row selects is the rest of the listing. */
  lemma ListingAfter<T>(table: seq<Entry<T>>, cursor: Option<CursorPosition>, k: nat)
    requires UniqueIds(table) && k < |Listing(table, cursor)|
    ensures Listing(table, Some(Position(Listing(table, cursor)[k]))) == Listing(table, cursor)[k + 1..]
  {
    hide Listing, Below, SortDescending, Newer;
    var all := SortDescending(table);
    SortIsDescendingPermutation(table);
    ListingIsFilteredSort(table, cursor);
    var from := BelowDescending(all, cursor);
    var next := Some(Position(all[from + k]));
    ListingIsFilteredSort(table, next);
    BelowPosition(all, from + k);
    assert all[from..][k + 1..] == all[from + k + 1..];
  }

  // ---------------------------------------------------------------- pages

  datatype Page<T> = Page(items: seq<Entry<T>>, nextCursor: Option<string>)

  /** Cut a query result that was fetched with one row more than the page holds. */
  function CutPage<T>(codec: Codec, rows: seq<Entry<T>>, size: nat): Page<T> {
    var items := Take(rows, size);
    if |rows| > size && |items| > 0 then
      Page(items, Some(EncodeCursor(codec, Position(items[|items| - 1]))))
    else Page(items, None)
  }

  /** An absent or empty cursor text means the first page. */
  function ParseCursor(codec: Codec, cursor: Option<string>)
    : Result<Option<CursorPosition>, CursorError>
  {
    if cursor.None? || cursor.value == "" then Ok(None)
    else
      match DecodeCursor(codec, cursor.value)
      case Err(e) => Err(e)
      case Ok(p) => Ok(Some(p))
  }

  function FetchPage<T>(codec: Codec, table: seq<Entry<T>>, cursor: Option<string>, size: nat)
    : Result<Page<T>, CursorError>
  {
    match ParseCursor(codec, cursor)
    case Err(e) => Err(e)
    case Ok(position) => Ok(CutPage(codec, Take(Listing(table, position), size + 1), size))
  }

  /** One page: the next `size` rows, and a cursor exactly when rows remain, which then
      stands for everything after the page. */
  lemma PageStep<T>(codec: Codec, table: seq<Entry<T>>, cursor: Option<string>, size: nat)
    requires Faithful(codec) && UniqueIds(table) && size > 0
    requires ParseCursor(codec, cursor).Ok?
    ensures var rest := Listing(table, ParseCursor(codec, cursor).value);
            var r := FetchPage(codec, table, cursor, size);
            && r.Ok?
            && r.value.items == Take(rest, size)
            && (r.value.nextCursor.Some? <==> |rest| > size)
            && (|rest| > size ==>
                  var next := ParseCursor(codec, r.value.nextCursor);
                  next.Ok? && Listing(table, next.value) == rest[size..])
  {
    hide Listing, EncodeCursor, DecodeCursor;
    var rest := Listing(table, ParseCursor(codec, cursor).value);
    if |rest| > size {
      ListingAfter(table, ParseCursor(codec, cursor).value, size - 1);
      CursorRoundTrip(codec, Position(rest[size - 1]));
      assert Take(rest, size + 1)[..size] == rest[..size];
    }
  }

  /** Exactly when a page is refused: when a cursor text is given that does not decode. Without a
      cursor text, or with an empty one, the page is the top of the whole listing. */
  lemma BadCursorIsRefused<T>(codec: Codec, table: seq<Entry<T>>, cursor: Option<string>, size: nat)
    ensures FetchPage(codec, table, cursor, size).Err? <==>
              cursor.Some? && cursor.value != "" && DecodeCursor(codec, cursor.value).Err?
    ensures cursor == None || cursor == Some("") ==>
              && FetchPage(codec, table, cursor, size).Ok?
              && FetchPage(codec, table, cursor, size).value.items == Take(SortDescending(table), size)
  {
    if cursor == None || cursor == Some("") {
      BelowAll(table, None);
    }
  }

  // ---------------------------------------------------------------- walks

  /** Between two pages the table may change, but not below the cursor in use. */
  ghost predicate StableBelow<T>(
    codec: Codec, before: seq<Entry<T>>, after: seq<Entry<T>>, cursor: Option<string>)
  {
    ParseCursor(codec, cursor).Ok? ==>
      Listing(after, ParseCursor(codec, cursor).value) == Listing(before, ParseCursor(codec, cursor).value)
  }

  /** The cursor that page `i` is fetched with: the first one, or the one the page before it returned. */
  function CursorOf<T>(cursor: Option<string>, pages: seq<Page<T>>, i: nat): Option<string>
    requires i <= |pages|
  {
    if i == 0 then cursor else pages[i - 1].nextCursor
  }

  ghost predicate IsPage<T>(
    codec: Codec, table: seq<Entry<T>>, size: nat, cursor: Option<string>, page: Page<T>)
  {
    UniqueIds(table) && size > 0 && FetchPage(codec, table, cursor, size) == Ok(page)
  }

  /** `pages` were fetched one after the other, each with the cursor the one before it
      returned; page i saw `tables[i]` and had size `sizes[i]`. */
  ghost predicate IsPaging<T>(
    codec: Codec, tables: seq<seq<Entry<T>>>, sizes: seq<nat>, cursor: Option<string>,
    pages: seq<Page<T>>)
  {
    && |pages| == |tables| == |sizes|
    && |pages| > 0
    && (forall i :: 0 <= i < |pages| ==> IsPage(codec, tables[i], sizes[i], CursorOf(cursor, pages, i), pages[i]))
    && (forall i :: 0 < i < |pages| ==> CursorOf(cursor, pages, i).Some?)
  }

  /** The same, over tables that did not change below the cursors. */
  ghost predicate IsWalk<T>(
    codec: Codec, tables: seq<seq<Entry<T>>>, sizes: seq<nat>, cursor: Option<string>,
    pages: seq<Page<T>>)
  {
    && IsPaging(codec, tables, sizes, cursor, pages)
    && forall i :: 0 < i < |pages| ==> StableBelow(codec, tables[i - 1], tables[i], CursorOf(cursor, pages, i))
  }

  lemma PagingTail<T>(
      codec: Codec, tables: seq<seq<Entry<T>>>, sizes: seq<nat>, cursor: Option<string>,
      pages: seq<Page<T>>)
    requires IsPaging(codec, tables, sizes, cursor, pages) && |pages| > 1
    ensures IsPaging(codec, tables[1..], sizes[1..], pages[0].nextCursor, pages[1..])
  {
    hide IsPage;
    var next := pages[0].nextCursor;
    forall i | 0 <= i < |pages| - 1
      ensures IsPage(codec, tables[1..][i], sizes[1..][i], CursorOf(next, pages[1..], i), pages[1..][i])
      ensures i > 0 ==> CursorOf(next, pages[1..], i).Some?
    {
      assert CursorOf(next, pages[1..], i) == CursorOf(cursor, pages, i + 1);
      assert IsPage(codec, tables[i + 1], sizes[i + 1], CursorOf(cursor, pages, i + 1), pages[i + 1]);
    }
  }

  lemma WalkTail<T>(
      codec: Codec, tables: seq<seq<Entry<T>>>, sizes: seq<nat>, cursor: Option<string>,
      pages: seq<Page<T>>)
    requires IsWalk(codec, tables, sizes, cursor, pages) && |pages| > 1
    ensures IsWalk(codec, tables[1..], sizes[1..], pages[0].nextCursor, pages[1..])
    ensures StableBelow(codec, tables[0], tables[1], pages[0].nextCursor)
    ensures var next := ParseCursor(codec, pages[0].nextCursor);
            next.Ok? ==> Listing(tables[1], next.value) == Listing(tables[0], next.value)
  {
    PagingTail(codec, tables, sizes, cursor, pages);
    hide IsPaging;
    var next := pages[0].nextCursor;
    forall i | 0 < i < |pages| - 1
      ensures StableBelow(codec, tables[1..][i - 1], tables[1..][i], CursorOf(next, pages[1..], i))
    {
      assert CursorOf(next, pages[1..], i) == CursorOf(cursor, pages, i + 1);
      assert StableBelow(codec, tables[i], tables[i + 1], CursorOf(cursor, pages, i + 1));
    }
    assert CursorOf(cursor, pages, 1) == next;
  }

  function Items<T>(pages: seq<Page<T>>): seq<Entry<T>> {
    if pages == [] then [] else pages[0].items + Items(pages[1..])
  }

  ghost predicate Complete<T>(pages: seq<Page<T>>) {
    pages != [] && pages[|pages| - 1].nextCursor.None?
  }

  /** Rows added above the cursor leave everything below it alone. */
  lemma NewerRowsAreInvisible<T>(
      codec: Codec, before: seq<Entry<T>>, added: seq<Entry<T>>, cursor: Option<string>)
    requires ParseCursor(codec, cursor).Ok? ==>
               forall i :: 0 <= i < |added| ==> !Admits(ParseCursor(codec, cursor).value, added[i])
    ensures StableBelow(codec, before, before + added, cursor)
  {
    if ParseCursor(codec, cursor).Ok? {
      var position := ParseCursor(codec, cursor).value;
      BelowConcat(before, added, position);
      BelowNone(added, position);
      assert Below(before, position) + [] == Below(before, position);
    }
  }

  lemma PrefixSplit<T>(all: seq<T>, n: nat, later: seq<T>)
    requires n <= |all| && later <= all[n..]
    ensures all[..n] + later <= all
    ensures all[..n] + later == all <==> later == all[n..]
  {
    assert all == all[..n] + all[n..];
    if later != all[n..] {
      assert |later| < |all[n..]|;
    }
  }

  /** A walk has yielded a prefix of the rows below its first cursor, and a complete walk all
      of them: each exactly once, in order. Every page with a successor holds at least one
      row, so a walk cannot go on for ever. */
  lemma {:induction false} WalkYieldsListing<T>(
      codec: Codec, tables: seq<seq<Entry<T>>>, sizes: seq<nat>, cursor: Option<string>,
      pages: seq<Page<T>>)
    requires Faithful(codec) && IsWalk(codec, tables, sizes, cursor, pages)
    ensures ParseCursor(codec, cursor).Ok?
    ensures var all := Listing(tables[0], ParseCursor(codec, cursor).value);
            && Items(pages) <= all
            && (Complete(pages) <==> Items(pages) == all)
            && |pages| <= |all| + 1
    decreases |pages|
  {
    WalkStart(codec, tables, sizes, cursor, pages);
    PageStep(codec, tables[0], cursor, sizes[0]);
    ItemsUnfold(pages);
    if |pages| > 1 {
      WalkTail(codec, tables, sizes, cursor, pages);
      hide IsWalk, StableBelow, FetchPage, ParseCursor, Listing, Items;
      WalkYieldsListing(codec, tables[1..], sizes[1..], pages[0].nextCursor, pages[1..]);
      PrefixSplit(Listing(tables[0], ParseCursor(codec, cursor).value), sizes[0], Items(pages[1..]));
    }
  }

  lemma WalkStart<T>(
      codec: Codec, tables: seq<seq<Entry<T>>>, sizes: seq<nat>, cursor: Option<string>,
      pages: seq<Page<T>>)
    requires IsPaging(codec, tables, sizes, cursor, pages)
    ensures |pages| == |tables| == |sizes| && |pages| > 0
    ensures UniqueIds(tables[0]) && sizes[0] > 0 && ParseCursor(codec, cursor).Ok?
    ensures FetchPage(codec, tables[0], cursor, sizes[0]) == Ok(pages[0])
    ensures |pages| > 1 ==> pages[0].nextCursor.Some?
  {
    hide UniqueIds;
    assert IsPage(codec, tables[0], sizes[0], CursorOf(cursor, pages, 0), pages[0]);
    if |pages| > 1 {
      assert CursorOf(cursor, pages, 1) == pages[0].nextCursor;
    }
  }

  lemma ItemsUnfold<T>(pages: seq<Page<T>>)
    requires pages != []
    ensures Items(pages) == pages[0].items + Items(pages[1..])
    ensures |pages| == 1 ==> Items(pages) == pages[0].items
    ensures |pages| > 1 ==> (Complete(pages) <==> Complete(pages[1..]))
  {
    if |pages| == 1 {
      assert pages[1..] == [] && pages[0].items + [] == pages[0].items;
    }
  }

  /** From the first page on, that is the whole table in descending order. */
  lemma WalkYieldsTable<T>(
      codec: Codec, tables: seq<seq<Entry<T>>>, sizes: seq<nat>, pages: seq<Page<T>>)
    requires Faithful(codec) && IsWalk(codec, tables, sizes, None, pages)
    ensures Complete(pages) ==> Descending(Items(pages)) && multiset(Items(pages)) == multiset(tables[0])
  {
    WalkYieldsListing(codec, tables, sizes, None, pages);
    assert IsPage(codec, tables[0], sizes[0], CursorOf(None, pages, 0), pages[0]);
    SortIsDescendingPermutation(tables[0]);
    BelowAll(tables[0], None);
  }

  // ---------------------------------------------------------------- walks over moving rows

  lemma {:induction false} BelowMember<T>(s: seq<Entry<T>>, cursor: Option<CursorPosition>, e: Entry<T>)
    ensures e in Below(s, cursor) <==> e in s && Admits(cursor, e)
  {
    if s != [] {
      BelowMember(s[1..], cursor, e);
      assert s == [s[0]] + s[1..];
    }
  }

  /** A listing holds the rows of the table that the cursor admits, newest first. */
  lemma ListingHolds<T>(table: seq<Entry<T>>, cursor: Option<CursorPosition>, e: Entry<T>)
    requires UniqueIds(table)
    ensures e in Listing(table, cursor) <==> e in table && Admits(cursor, e)
    ensures Descending(Listing(table, cursor))
  {
    var all := SortDescending(table);
    SortIsDescendingPermutation(table);
    ListingIsFilteredSort(table, cursor);
    BelowMember(all, cursor, e);
    assert e in multiset(all) <==> e in multiset(table);
    var k := BelowDescending(all, cursor);
  }

  /** A page without its table: what it yields is a descending run of admitted rows, and its cursor
      stands at the last of them. */
  lemma PageFacts<T>(codec: Codec, table: seq<Entry<T>>, cursor: Option<string>, size: nat, page: Page<T>, e: Entry<T>)
    requires Faithful(codec) && IsPage(codec, table, size, cursor, page)
    ensures ParseCursor(codec, cursor).Ok? && Descending(page.items)
    ensures e in page.items ==> e in table && Admits(ParseCursor(codec, cursor).value, e)
    ensures page.nextCursor.Some? ==>
              && page.items != []
              && ParseCursor(codec, page.nextCursor) == Ok(Some(Position(page.items[|page.items| - 1])))
    ensures e in table && Admits(ParseCursor(codec, cursor).value, e) && e !in page.items ==>
              page.nextCursor.Some? && Newer(page.items[|page.items| - 1], e)
  {
    hide IsPage, Listing, ParseCursor, FetchPage, UniqueIds, Descending, Take;
    PageOf(codec, table, cursor, size, page);
    var rest := Listing(table, ParseCursor(codec, cursor).value);
    ListingHolds(table, ParseCursor(codec, cursor).value, e);
    TakeFacts(rest, size, e);
  }

  lemma TakeFacts<T>(rest: seq<Entry<T>>, size: nat, e: Entry<T>)
    requires Descending(rest) && size > 0
    ensures Descending(Take(rest, size)) && (e in Take(rest, size) ==> e in rest)
    ensures |rest| > size ==> Take(rest, size) != []
    ensures e in rest && e !in Take(rest, size) ==>
              |rest| > size && Take(rest, size) != [] && Newer(Take(rest, size)[|Take(rest, size)| - 1], e)
  {
    forall i | 0 <= i < |rest| && i < size ensures rest[i] in Take(rest, size) {
      assert Take(rest, size)[i] == rest[i];
    }
    if e in rest && e !in Take(rest, size) {
      var k :| 0 <= k < |rest| && rest[k] == e;
      assert k >= size;
    }
  }

  lemma PageOf<T>(codec: Codec, table: seq<Entry<T>>, cursor: Option<string>, size: nat, page: Page<T>)
    requires Faithful(codec) && IsPage(codec, table, size, cursor, page)
    ensures UniqueIds(table) && size > 0 && ParseCursor(codec, cursor).Ok?
    ensures var rest := Listing(table, ParseCursor(codec, cursor).value);
            && page.items == Take(rest, size)
            && (page.nextCursor.Some? <==> |rest| > size)
    ensures page.nextCursor.Some? ==>
              && page.items != []
              && ParseCursor(codec, page.nextCursor) == Ok(Some(Position(page.items[|page.items| - 1])))
  {
    hide Listing, EncodeCursor, DecodeCursor, UniqueIds;
    var rest := Listing(table, ParseCursor(codec, cursor).value);
    assert |rest| > size ==> Take(rest, size + 1)[..size] == rest[..size];
    if page.nextCursor.Some? {
      CursorRoundTrip(codec, Position(page.items[|page.items| - 1]));
    }
  }

  lemma NewerIsTransitive<T>(a: Entry<T>, b: Entry<T>, c: Entry<T>)
    requires Newer(a, b) && Newer(b, c)
    ensures Newer(a, c)
  {
  }

  ghost predicate AllAdmitted<T>(cursor: Option<CursorPosition>, s: seq<Entry<T>>) {
    forall e :: e in s ==> Admits(cursor, e)
  }

  /** What follows a page stands below its last row, and so below all of it. */
  lemma JoinDescending<T>(cursor: Option<CursorPosition>, head: seq<Entry<T>>, later: seq<Entry<T>>)
    requires head != [] && Descending(head) && Descending(later)
    requires AllAdmitted(cursor, head) && AllAdmitted(Some(Position(head[|head| - 1])), later)
    ensures Descending(head + later) && AllAdmitted(cursor, head + later)
  {
    var last, all := head[|head| - 1], head + later;
    forall e | e in later ensures Newer(last, e) && Admits(cursor, e) {
      assert last in head;
    }
    forall i, j | 0 <= i < j < |all| ensures Newer(all[i], all[j]) {
      if i < |head| <= j {
        assert all[j] in later && Newer(last, all[j]);
        if i < |head| - 1 {
          NewerIsTransitive(all[i], last, all[j]);
        }
      }
    }
  }

  /** However the table changes between the pages: what is yielded goes strictly down, so no row
      appears twice at the same place. */
  lemma {:induction false} PagingDescends<T>(
      codec: Codec, tables: seq<seq<Entry<T>>>, sizes: seq<nat>, cursor: Option<string>, pages: seq<Page<T>>)
    requires Faithful(codec) && IsPaging(codec, tables, sizes, cursor, pages)
    ensures ParseCursor(codec, cursor).Ok?
    ensures Descending(Items(pages)) && AllAdmitted(ParseCursor(codec, cursor).value, Items(pages))
    decreases |pages|
  {
    hide IsPaging, IsPage, ParseCursor, Items, Descending, AllAdmitted;
    FirstPage(codec, tables, sizes, cursor, pages);
    ItemsUnfold(pages);
    if |pages| > 1 {
      PagingTail(codec, tables, sizes, cursor, pages);
      PagingDescends(codec, tables[1..], sizes[1..], pages[0].nextCursor, pages[1..]);
      JoinDescending(ParseCursor(codec, cursor).value, pages[0].items, Items(pages[1..]));
    }
  }

  lemma FirstPage<T>(
      codec: Codec, tables: seq<seq<Entry<T>>>, sizes: seq<nat>, cursor: Option<string>, pages: seq<Page<T>>)
    requires Faithful(codec) && IsPaging(codec, tables, sizes, cursor, pages)
    ensures |pages| == |tables| == |sizes| && |pages| > 0
    ensures IsPage(codec, tables[0], sizes[0], cursor, pages[0]) && ParseCursor(codec, cursor).Ok?
    ensures Descending(pages[0].items) && AllAdmitted(ParseCursor(codec, cursor).value, pages[0].items)
    ensures |pages| > 1 ==>
              && pages[0].items != []
              && ParseCursor(codec, pages[0].nextCursor)
                 == Ok(Some(Position(pages[0].items[|pages[0].items| - 1])))
  {
    hide IsPage, ParseCursor;
    assert IsPage(codec, tables[0], sizes[0], CursorOf(cursor, pages, 0), pages[0]);
    assert |pages| > 1 ==> CursorOf(cursor, pages, 1) == pages[0].nextCursor;
    PageFactsForAll(codec, tables[0], cursor, sizes[0], pages[0]);
  }

  lemma PageFactsForAll<T>(codec: Codec, table: seq<Entry<T>>, cursor: Option<string>, size: nat, page: Page<T>)
    requires Faithful(codec) && IsPage(codec, table, size, cursor, page)
    ensures ParseCursor(codec, cursor).Ok? && Descending(page.items)
    ensures AllAdmitted(ParseCursor(codec, cursor).value, page.items)
    ensures page.nextCursor.Some? ==>
              && page.items != []
              && ParseCursor(codec, page.nextCursor) == Ok(Some(Position(page.items[|page.items| - 1])))
  {
    hide IsPage, Descending;
    forall e | e in page.items ensures ParseCursor(codec, cursor).Ok? && Admits(ParseCursor(codec, cursor).value, e) {
      PageFacts(codec, table, cursor, size, page, e);
    }
    if page.items == [] {
      var r := FetchPage(codec, table, cursor, size);
      EmptyPage(codec, table, cursor, size, page);
    } else {
      PageFacts(codec, table, cursor, size, page, page.items[0]);
    }
  }

  lemma EmptyPage<T>(codec: Codec, table: seq<Entry<T>>, cursor: Option<string>, size: nat, page: Page<T>)
    requires IsPage(codec, table, size, cursor, page) && page.items == []
    ensures ParseCursor(codec, cursor).Ok? && Descending(page.items) && page.nextCursor.None?
  {
  }

  ghost predicate InAll<T>(tables: seq<seq<Entry<T>>>, e: Entry<T>) {
    forall i :: 0 <= i < |tables| ==> e in tables[i]
  }

  lemma InAllTail<T>(tables: seq<seq<Entry<T>>>, e: Entry<T>)
    requires InAll(tables, e) && tables != []
    ensures InAll(tables[1..], e) && e in tables[0]
  {
  }

  /** A row that stays where it is through all pages of a finished walk is yielded. */
  lemma {:induction false} StayingRowIsYielded<T>(
      codec: Codec, tables: seq<seq<Entry<T>>>, sizes: seq<nat>, cursor: Option<string>, pages: seq<Page<T>>,
      e: Entry<T>)
    requires Faithful(codec) && IsPaging(codec, tables, sizes, cursor, pages)
    ensures ParseCursor(codec, cursor).Ok?
    ensures Complete(pages) && Admits(ParseCursor(codec, cursor).value, e) && InAll(tables, e) ==> e in Items(pages)
    decreases |pages|
  {
    hide IsPaging, IsPage, ParseCursor, Items, Descending, AllAdmitted;
    FirstPage(codec, tables, sizes, cursor, pages);
    PageFacts(codec, tables[0], cursor, sizes[0], pages[0], e);
    ItemsUnfold(pages);
    if |pages| > 1 {
      PagingTail(codec, tables, sizes, cursor, pages);
      StayingRowIsYielded(codec, tables[1..], sizes[1..], pages[0].nextCursor, pages[1..], e);
      if InAll(tables, e) {
        InAllTail(tables, e);
      }
    }
  }

  /** Rows only ever move towards the newest: what sending a message does to a conversation. */
  ghost predicate OnlyRise<T>(tables: seq<seq<Entry<T>>>) {
    forall i, j, e, f ::
      0 <= i <= j < |tables| && e in tables[i] && f in tables[j] && e.id == f.id ==> e.timestamp <= f.timestamp
  }

  ghost predicate DistinctIds<T>(s: seq<Entry<T>>) {
    forall i, j :: 0 <= i < j < |s| ==> s[i].id != s[j].id
  }

  lemma {:induction false} ItemFromTable<T>(
      codec: Codec, tables: seq<seq<Entry<T>>>, sizes: seq<nat>, cursor: Option<string>, pages: seq<Page<T>>,
      e: Entry<T>) returns (i: nat)
    requires Faithful(codec) && IsPaging(codec, tables, sizes, cursor, pages) && e in Items(pages)
    ensures i < |tables| && e in tables[i]
    decreases |pages|
  {
    hide IsPaging, IsPage, ParseCursor, Items, Descending, AllAdmitted;
    FirstPage(codec, tables, sizes, cursor, pages);
    PageFacts(codec, tables[0], cursor, sizes[0], pages[0], e);
    ItemsUnfold(pages);
    if e in pages[0].items {
      i := 0;
    } else {
      PagingTail(codec, tables, sizes, cursor, pages);
      i := ItemFromTable(codec, tables[1..], sizes[1..], pages[0].nextCursor, pages[1..], e);
      i := i + 1;
    }
  }

  /** While rows only rise, no row is yielded twice, at whatever place. */
  lemma {:induction false} RisingRowsAreYieldedOnce<T>(
      codec: Codec, tables: seq<seq<Entry<T>>>, sizes: seq<nat>, cursor: Option<string>, pages: seq<Page<T>>)
    requires Faithful(codec) && IsPaging(codec, tables, sizes, cursor, pages) && OnlyRise(tables)
    ensures DistinctIds(Items(pages))
    decreases |pages|
  {
    PagingDescends(codec, tables, sizes, cursor, pages);
    FirstPage(codec, tables, sizes, cursor, pages);
    ItemsUnfold(pages);
    var head, later := pages[0].items, Items(pages[1..]);
    if |pages| > 1 {
      PagingTail(codec, tables, sizes, cursor, pages);
      RisingTail(tables);
      RisingRowsAreYieldedOnce(codec, tables[1..], sizes[1..], pages[0].nextCursor, pages[1..]);
    }
    var all: seq<Entry<T>> := head + later;
    forall i, j | 0 <= i < |head| && i < j < |all| ensures all[i].id != all[j].id {
      FirstRowDiffers(codec, tables, sizes, cursor, pages, all[i], all[j]);
    }
    hide IsPaging, ParseCursor, Items, AllAdmitted, OnlyRise, Descending, IsPage;
    JoinDistinct(head, later);
  }

  lemma JoinDistinct<T>(head: seq<Entry<T>>, later: seq<Entry<T>>)
    requires DistinctIds(later)
    requires var all := head + later;
             forall i, j :: 0 <= i < |head| && i < j < |all| ==> all[i].id != all[j].id
    ensures DistinctIds(head + later)
  {
    var all := head + later;
    forall i, j | 0 <= i < j < |all| ensures all[i].id != all[j].id {
      if i >= |head| {
        assert all[i] == later[i - |head|] && all[j] == later[j - |head|];
      }
    }
  }

  lemma FirstRowDiffers<T>(
      codec: Codec, tables: seq<seq<Entry<T>>>, sizes: seq<nat>, cursor: Option<string>, pages: seq<Page<T>>,
      x: Entry<T>, y: Entry<T>)
    requires Faithful(codec) && IsPaging(codec, tables, sizes, cursor, pages) && OnlyRise(tables)
    requires x in pages[0].items && y in Items(pages) && Newer(x, y)
    ensures x.id != y.id
  {
    FirstPage(codec, tables, sizes, cursor, pages);
    PageFacts(codec, tables[0], cursor, sizes[0], pages[0], x);
    var k := ItemFromTable(codec, tables, sizes, cursor, pages, y);
    assert x in tables[0] && y in tables[k];
  }

  lemma RisingTail<T>(tables: seq<seq<Entry<T>>>)
    requires OnlyRise(tables) && tables != []
    ensures OnlyRise(tables[1..])
  {
    forall i, j, e, f |
      0 <= i <= j < |tables| - 1 && e in tables[1..][i] && f in tables[1..][j] && e.id == f.id
      ensures e.timestamp <= f.timestamp
    {
      assert e in tables[i + 1] && f in tables[j + 1];
    }
  }

  // ---------------------------------------------------------------- missed rows

  ghost predicate Yields<T>(items: seq<Entry<T>>, id: nat) {
    exists e :: e in items && e.id == id
  }

  /** The table holds the row at a place that the cursor admits, or at one that it does not. */
  ghost predicate HasAt<T>(table: seq<Entry<T>>, id: nat, cursor: Option<CursorPosition>, admitted: bool) {
    exists e :: e in table && e.id == id && Admits(cursor, e) == admitted
  }

  /** Between page i - 1 and page i the row moves from below the cursor to above it. */
  ghost predicate JumpsAt<T>(codec: Codec, tables: seq<seq<Entry<T>>>, pages: seq<Page<T>>, id: nat, i: nat)
    requires 0 < i < |pages| == |tables|
  {
    var next := ParseCursor(codec, pages[i - 1].nextCursor);
    next.Ok? && HasAt(tables[i - 1], id, next.value, true) && HasAt(tables[i], id, next.value, false)
  }

  ghost predicate Jumps<T>(codec: Codec, tables: seq<seq<Entry<T>>>, pages: seq<Page<T>>, id: nat)
    requires |pages| == |tables|
  {
    exists i :: 0 < i < |pages| && JumpsAt(codec, tables, pages, id, i)
  }

  ghost predicate AlwaysThere<T>(tables: seq<seq<Entry<T>>>, id: nat) {
    forall i :: 0 <= i < |tables| ==> Yields(tables[i], id)
  }

  lemma JumpsTail<T>(codec: Codec, tables: seq<seq<Entry<T>>>, pages: seq<Page<T>>, id: nat)
    requires |pages| == |tables| && |pages| > 1
    ensures Jumps(codec, tables, pages, id) <==>
            JumpsAt(codec, tables, pages, id, 1) || Jumps(codec, tables[1..], pages[1..], id)
  {
    hide ParseCursor, HasAt;
    forall i | 0 < i < |pages| - 1
      ensures JumpsAt(codec, tables[1..], pages[1..], id, i) == JumpsAt(codec, tables, pages, id, i + 1)
    {
      assert pages[1..][i - 1] == pages[i] && tables[1..][i - 1] == tables[i] && tables[1..][i] == tables[i + 1];
    }
    if i :| 0 < i < |pages| && JumpsAt(codec, tables, pages, id, i) && i > 1 {
      assert JumpsAt(codec, tables[1..], pages[1..], id, i - 1);
    }
  }

  lemma YieldsConcat<T>(a: seq<Entry<T>>, b: seq<Entry<T>>, id: nat)
    ensures Yields(a + b, id) <==> Yields(a, id) || Yields(b, id)
  {
    if Yields(a, id) {
      var e :| e in a && e.id == id;
      assert e in a + b;
    }
    if Yields(b, id) {
      var e :| e in b && e.id == id;
      assert e in a + b;
    }
  }

  lemma OneRowPerId<T>(table: seq<Entry<T>>, e: Entry<T>, f: Entry<T>)
    requires UniqueIds(table) && e in table && f in table && e.id == f.id
    ensures e == f
  {
  }

  lemma TheRow<T>(table: seq<Entry<T>>, e: Entry<T>, cursor: Option<CursorPosition>, admitted: bool)
    requires UniqueIds(table) && e in table
    ensures HasAt(table, e.id, cursor, admitted) <==> Admits(cursor, e) == admitted
  {
    if HasAt(table, e.id, cursor, admitted) {
      var f :| f in table && f.id == e.id && Admits(cursor, f) == admitted;
      OneRowPerId(table, e, f);
    }
  }

  /** A page yields the row exactly when it holds it at the place where the table has it. */
  lemma PageYields<T>(codec: Codec, table: seq<Entry<T>>, cursor: Option<string>, size: nat, page: Page<T>, e: Entry<T>)
    requires Faithful(codec) && IsPage(codec, table, size, cursor, page) && e in table
    ensures Yields(page.items, e.id) <==> e in page.items
  {
    if Yields(page.items, e.id) {
      var f :| f in page.items && f.id == e.id;
      PageFacts(codec, table, cursor, size, page, f);
      OneRowPerId(table, e, f);
    }
  }

  lemma LastIsOldest<T>(s: seq<Entry<T>>, e: Entry<T>)
    requires Descending(s) && e in s
    ensures e == s[|s| - 1] || Newer(e, s[|s| - 1])
  {
  }

  /** A row that has not been below the cursor stays above all later ones while it only rises. */
  lemma RisenStaysOut<T>(cursor: Option<CursorPosition>, last: Entry<T>, e: Entry<T>, f: Entry<T>)
    requires Admits(cursor, last) && (!Admits(cursor, e) || e == last || Newer(e, last))
    requires f.id == e.id && f.timestamp >= e.timestamp
    ensures !Admits(Some(Position(last)), e) && !Admits(Some(Position(last)), f)
  {
  }

  /** The first page of at least two, the rows of one id in the first two tables, and the cursor. */
  lemma Rising<T>(tables: seq<seq<Entry<T>>>, e: Entry<T>) returns (f: Entry<T>)
    requires OnlyRise(tables) && |tables| > 1 && e in tables[0] && AlwaysThere(tables, e.id)
    ensures f in tables[1] && f.id == e.id && f.timestamp >= e.timestamp
    ensures OnlyRise(tables[1..]) && AlwaysThere(tables[1..], e.id)
  {
    assert Yields(tables[1], e.id);
    f :| f in tables[1] && f.id == e.id;
    RisingTail(tables);
    forall i | 0 <= i < |tables[1..]| ensures Yields(tables[1..][i], e.id) {
      assert Yields(tables[i + 1], e.id);
    }
  }

  lemma {:induction false} OutStaysOut<T>(
      codec: Codec, tables: seq<seq<Entry<T>>>, sizes: seq<nat>, cursor: Option<string>, pages: seq<Page<T>>, e: Entry<T>)
    requires Faithful(codec) && IsPaging(codec, tables, sizes, cursor, pages)
    requires OnlyRise(tables) && AlwaysThere(tables, e.id) && e in tables[0]
    requires ParseCursor(codec, cursor).Ok? ==> !Admits(ParseCursor(codec, cursor).value, e)
    ensures !Yields(Items(pages), e.id) && !Jumps(codec, tables, pages, e.id)
    decreases |pages|
  {
    hide IsPaging, IsPage, ParseCursor, Items, Jumps, JumpsAt, Yields, OnlyRise, AlwaysThere, Descending, UniqueIds;
    FirstPage(codec, tables, sizes, cursor, pages);
    PageFacts(codec, tables[0], cursor, sizes[0], pages[0], e);
    PageYields(codec, tables[0], cursor, sizes[0], pages[0], e);
    ItemsUnfold(pages);
    YieldsConcat(pages[0].items, Items(pages[1..]), e.id);
    if |pages| > 1 {
      var last := pages[0].items[|pages[0].items| - 1];
      assert last in pages[0].items;
      var f := Rising(tables, e);
      RisenStaysOut(ParseCursor(codec, cursor).value, last, e, f);
      PagingTail(codec, tables, sizes, cursor, pages);
      OutStaysOut(codec, tables[1..], sizes[1..], pages[0].nextCursor, pages[1..], f);
      SecondTable(codec, tables, sizes, cursor, pages);
      JumpsFirst(codec, tables, pages, last, e, f);
      JumpsTail(codec, tables, pages, e.id);
    } else {
      LastPage(codec, tables, pages, e.id);
    }
  }

  /** Exactly which rows a finished walk misses, while rows only rise: those that jump over the cursor. */
  lemma {:induction false} MissedIffJumped<T>(
      codec: Codec, tables: seq<seq<Entry<T>>>, sizes: seq<nat>, cursor: Option<string>, pages: seq<Page<T>>, e: Entry<T>)
    requires Faithful(codec) && IsPaging(codec, tables, sizes, cursor, pages)
    requires OnlyRise(tables) && AlwaysThere(tables, e.id) && e in tables[0]
    ensures ParseCursor(codec, cursor).Ok?
    ensures Complete(pages) && Admits(ParseCursor(codec, cursor).value, e) ==>
              (Yields(Items(pages), e.id) <==> !Jumps(codec, tables, pages, e.id))
    decreases |pages|
  {
    hide IsPaging, IsPage, ParseCursor, Items, Jumps, JumpsAt, Yields, OnlyRise, AlwaysThere, Descending, UniqueIds;
    FirstPage(codec, tables, sizes, cursor, pages);
    PageFacts(codec, tables[0], cursor, sizes[0], pages[0], e);
    PageYields(codec, tables[0], cursor, sizes[0], pages[0], e);
    ItemsUnfold(pages);
    YieldsConcat(pages[0].items, Items(pages[1..]), e.id);
    if |pages| > 1 {
      var last := pages[0].items[|pages[0].items| - 1];
      assert last in pages[0].items;
      var f := Rising(tables, e);
      PagingTail(codec, tables, sizes, cursor, pages);
      SecondTable(codec, tables, sizes, cursor, pages);
      JumpsTail(codec, tables, pages, e.id);
      JumpsFirst(codec, tables, pages, last, e, f);
      if e in pages[0].items {
        LastIsOldest(pages[0].items, e);
        RisenStaysOut(ParseCursor(codec, cursor).value, last, e, f);
        OutStaysOut(codec, tables[1..], sizes[1..], pages[0].nextCursor, pages[1..], f);
      } else if Admits(Some(Position(last)), f) {
        MissedIffJumped(codec, tables[1..], sizes[1..], pages[0].nextCursor, pages[1..], f);
      } else {
        OutStaysOut(codec, tables[1..], sizes[1..], pages[0].nextCursor, pages[1..], f);
      }
    } else {
      LastPage(codec, tables, pages, e.id);
    }
  }

  lemma LastPage<T>(codec: Codec, tables: seq<seq<Entry<T>>>, pages: seq<Page<T>>, id: nat)
    requires |pages| == |tables| == 1
    ensures Items(pages[1..]) == [] && !Yields(Items(pages[1..]), id) && !Jumps(codec, tables, pages, id)
  {
  }

  lemma SecondTable<T>(
      codec: Codec, tables: seq<seq<Entry<T>>>, sizes: seq<nat>, cursor: Option<string>, pages: seq<Page<T>>)
    requires IsPaging(codec, tables, sizes, cursor, pages) && |pages| > 1
    ensures UniqueIds(tables[0]) && UniqueIds(tables[1])
  {
    assert IsPage(codec, tables[0], sizes[0], CursorOf(cursor, pages, 0), pages[0]);
    assert IsPage(codec, tables[1], sizes[1], CursorOf(cursor, pages, 1), pages[1]);
  }

  lemma JumpsFirst<T>(
      codec: Codec, tables: seq<seq<Entry<T>>>, pages: seq<Page<T>>, last: Entry<T>, e: Entry<T>, f: Entry<T>)
    requires |pages| == |tables| > 1 && UniqueIds(tables[0]) && UniqueIds(tables[1])
    requires e in tables[0] && f in tables[1] && f.id == e.id
    requires ParseCursor(codec, pages[0].nextCursor) == Ok(Some(Position(last)))
    ensures JumpsAt(codec, tables, pages, e.id, 1) <==>
              Admits(Some(Position(last)), e) && !Admits(Some(Position(last)), f)
  {
    TheRow(tables[0], e, Some(Position(last)), true);
    TheRow(tables[1], f, Some(Position(last)), false);
  }

  /** A walk that misses a row: two rows, pages of one, and the second row moves to the top between them. */
  lemma MovedRowIsMissed<T>(codec: Codec, row: T)
    returns (tables: seq<seq<Entry<T>>>, pages: seq<Page<T>>)
    requires Faithful(codec)
    ensures |tables| == 2 && IsPaging(codec, tables, [1, 1], None, pages) && Complete(pages)
    ensures OnlyRise(tables) && AlwaysThere(tables, 2) && !Yields(Items(pages), 2)
  {
    hide FetchPage, EncodeCursor, DecodeCursor, IsPaging, Jumps, Items, OnlyRise, AlwaysThere, UniqueIds;
    var a, b, c := Entry(2, 1, row), Entry(1, 2, row), Entry(3, 2, row);
    tables := [[a, b], [a, c]];
    pages := [Page([a], Some(EncodeCursor(codec, Position(a)))), Page([], None)];
    TwoPages(codec, a, b, c);
    TwoTables(a, b, c);
    PagingOfTwo(codec, tables, pages);
    assert b in tables[0] && c in tables[1];
    MissedIffJumped(codec, tables, [1, 1], None, pages, b);
    JumpsFirst(codec, tables, pages, a, b, c);
    JumpsTail(codec, tables, pages, 2);
  }

  lemma TwoTables<T>(a: Entry<T>, b: Entry<T>, c: Entry<T>)
    requires a.id == 1 && b.id == 2 && c.id == 2 && b.timestamp <= c.timestamp
    ensures UniqueIds([a, b]) && UniqueIds([a, c]) && OnlyRise([[a, b], [a, c]]) && AlwaysThere([[a, b], [a, c]], 2)
  {
    var tables := [[a, b], [a, c]];
    assert tables[0] == [a, b] && tables[1] == [a, c];
    assert b in tables[0] && c in tables[1];
  }

  lemma PagingOfTwo<T>(codec: Codec, tables: seq<seq<Entry<T>>>, pages: seq<Page<T>>)
    requires |tables| == |pages| == 2 && UniqueIds(tables[0]) && UniqueIds(tables[1])
    requires FetchPage(codec, tables[0], None, 1) == Ok(pages[0]) && pages[0].nextCursor.Some?
    requires FetchPage(codec, tables[1], pages[0].nextCursor, 1) == Ok(pages[1])
    ensures IsPaging(codec, tables, [1, 1], None, pages)
  {
    hide FetchPage, UniqueIds;
  }

  lemma TwoPages<T>(codec: Codec, a: Entry<T>, b: Entry<T>, c: Entry<T>)
    requires Faithful(codec) && Newer(a, b) && Newer(c, a)
    ensures var next := Some(EncodeCursor(codec, Position(a)));
            && FetchPage(codec, [a, b], None, 1) == Ok(Page([a], next))
            && FetchPage(codec, [a, c], next, 1) == Ok(Page([], None))
            && ParseCursor(codec, next) == Ok(Some(Position(a)))
  {
    CursorRoundTrip(codec, Position(a));
    TwoRowListings(a, b, c);
    hide Listing, EncodeCursor, DecodeCursor;
    assert Take([a, b], 2) == [a, b] && Take([a, b], 1) == [a];
  }

  lemma TwoRowListings<T>(a: Entry<T>, b: Entry<T>, c: Entry<T>)
    requires Newer(a, b) && Newer(c, a)
    ensures Listing([a, b], None) == [a, b] && Listing([a, c], Some(Position(a))) == []
  {
    BelowAll([a, b], None);
    BelowNone([a, c], Some(Position(a)));
    assert [a, b][1..] == [b] && [b][1..] == [];
    assert SortDescending([b]) == [b];
  }

  // ---------------------------------------------------------------- timelines

  /** What a client shows that puts each reversed page in front of the ones before it. */
  function Timeline<T>(pages: seq<Page<T>>): seq<Entry<T>> {
    if pages == [] then [] else Timeline(pages[1..]) + Reverse(pages[0].items)
  }

  lemma {:induction false} TimelineIsReversedItems<T>(pages: seq<Page<T>>)
    ensures Timeline(pages) == Reverse(Items(pages))
  {
    if pages != [] {
      TimelineIsReversedItems(pages[1..]);
      ReverseConcat(pages[0].items, Items(pages[1..]));
    }
  }

  lemma {:induction false} ReverseAt<T>(s: seq<T>, i: nat)
    requires i < |s|
    ensures |Reverse(s)| == |s| && Reverse(s)[i] == s[|s| - 1 - i]
  {
    if |s| > 1 {
      ReverseAt(s[1..], if i < |s| - 1 then i else 0);
    }
  }

  lemma {:induction false} ReverseElements<T>(s: seq<T>)
    ensures multiset(Reverse(s)) == multiset(s)
  {
    if s != [] {
      ReverseElements(s[1..]);
      assert s == [s[0]] + s[1..];
    }
  }

  ghost predicate Ascending<T>(s: seq<Entry<T>>) {
    forall i, j :: 0 <= i < j < |s| ==> Newer(s[j], s[i])
  }

  /** The timeline assembled from a complete walk holds every row once, oldest first. */
  lemma TimelineIsAscending<T>(
      codec: Codec, tables: seq<seq<Entry<T>>>, sizes: seq<nat>, pages: seq<Page<T>>)
    requires Faithful(codec) && IsWalk(codec, tables, sizes, None, pages)
    ensures Complete(pages) ==>
              && multiset(Timeline(pages)) == multiset(tables[0])
              && Ascending(Timeline(pages))
  {
    if Complete(pages) {
      WalkYieldsTable(codec, tables, sizes, pages);
      TimelineIsReversedItems(pages);
      var items := Items(pages);
      ReverseElements(items);
      forall i, j | 0 <= i < j < |Reverse(items)| ensures Newer(Reverse(items)[j], Reverse(items)[i]) {
        assert |Reverse(items)| == |items| by { if items != [] { ReverseAt(items, 0); } }
        ReverseAt(items, i);
        ReverseAt(items, j);
      }
    }
  }

  // ---------------------------------------------------------------- the two services

  datatype ConversationRow = ConversationRow(
    id: nat, userId: nat, archivedAt: Option<int>, createdAt: int, lastMessageAt: Option<int>)

  datatype MessageRow = MessageRow(id: nat, conversationId: nat, createdAt: int, content: string)

  datatype PageError = ValidationError | ConversationNotFound

  /** `coalesce(last_message_at, created_at)` */
  function Activity(c: ConversationRow): int {
    if c.lastMessageAt.Some? then c.lastMessageAt.value else c.createdAt
  }

  /** The user's unarchived conversations under their activity time. */
  function ConversationEntries(rows: seq<ConversationRow>, userId: nat): seq<Entry<ConversationRow>> {
    if rows == [] then []
    else
      (if rows[0].userId == userId && rows[0].archivedAt.None?
       then [Entry(Activity(rows[0]), rows[0].id, rows[0])] else [])
      + ConversationEntries(rows[1..], userId)
  }

  /** The messages of one conversation under their creation time. */
  function MessageEntries(rows: seq<MessageRow>, conversationId: nat): seq<Entry<MessageRow>> {
    if rows == [] then []
    else
      (if rows[0].conversationId == conversationId
       then [Entry(rows[0].createdAt, rows[0].id, rows[0])] else [])
      + MessageEntries(rows[1..], conversationId)
  }

  lemma {:induction false} MessageEntriesAre(rows: seq<MessageRow>, conversationId: nat)
    ensures forall e :: e in MessageEntries(rows, conversationId) <==>
              e.row in rows && e.row.conversationId == conversationId
              && e.timestamp == e.row.createdAt && e.id == e.row.id
  {
    if rows != [] {
      MessageEntriesAre(rows[1..], conversationId);
      assert rows == [rows[0]] + rows[1..];
    }
  }

  /** The entries of a conversation are its messages, each under its own key. */
  lemma {:induction false} MessageEntriesUnique(rows: seq<MessageRow>, conversationId: nat)
    requires forall i, j :: 0 <= i < j < |rows| ==> rows[i].id != rows[j].id
    ensures UniqueIds(MessageEntries(rows, conversationId))
    ensures forall e :: e in MessageEntries(rows, conversationId) <==>
              e.row in rows && e.row.conversationId == conversationId
              && e.timestamp == e.row.createdAt && e.id == e.row.id
  {
    MessageEntriesAre(rows, conversationId);
    if rows != [] {
      var later := MessageEntries(rows[1..], conversationId);
      MessageEntriesUnique(rows[1..], conversationId);
      forall e | e in later ensures e.id != rows[0].id {
        assert e.row in rows[1..];
      }
      UniqueCons(Entry(rows[0].createdAt, rows[0].id, rows[0]), later);
    }
  }

  lemma UniqueCons<T>(e: Entry<T>, later: seq<Entry<T>>)
    requires UniqueIds(later) && forall x :: x in later ==> x.id != e.id
    ensures UniqueIds([e] + later) && UniqueIds([] + later)
  {
    assert [] + later == later;
  }

  lemma {:induction false} ConversationEntriesAre(rows: seq<ConversationRow>, userId: nat)
    ensures forall e :: e in ConversationEntries(rows, userId) <==>
              e.row in rows && e.row.userId == userId && e.row.archivedAt.None?
              && e.timestamp == (if e.row.lastMessageAt.Some? then e.row.lastMessageAt.value else e.row.createdAt)
              && e.id == e.row.id
  {
    if rows != [] {
      ConversationEntriesAre(rows[1..], userId);
      assert rows == [rows[0]] + rows[1..];
    }
  }

  /** The entries of a user are the unarchived conversations, each under its own key. */
  lemma {:induction false} ConversationEntriesUnique(rows: seq<ConversationRow>, userId: nat)
    requires forall i, j :: 0 <= i < j < |rows| ==> rows[i].id != rows[j].id
    ensures UniqueIds(ConversationEntries(rows, userId))
    ensures forall e :: e in ConversationEntries(rows, userId) <==>
              e.row in rows && e.row.userId == userId && e.row.archivedAt.None?
              && e.timestamp == (if e.row.lastMessageAt.Some? then e.row.lastMessageAt.value else e.row.createdAt)
              && e.id == e.row.id
  {
    ConversationEntriesAre(rows, userId);
    if rows != [] {
      var later := ConversationEntries(rows[1..], userId);
      ConversationEntriesUnique(rows[1..], userId);
      forall e | e in later ensures e.id != rows[0].id {
        assert e.row in rows[1..];
      }
      UniqueCons(Entry(Activity(rows[0]), rows[0].id, rows[0]), later);
    }
  }

  /** `ConversationService.list_for_user` */
  method ListForUser(
      codec: Codec, pageSizeMax: nat, rows: seq<ConversationRow>, userId: nat, limit: nat,
      cursor: Option<string>)
    returns (r: Result<Page<ConversationRow>, PageError>)
    ensures var page := FetchPage(codec, ConversationEntries(rows, userId), cursor, Min(limit, pageSizeMax));
            r == if page.Ok? then Ok(page.value) else Err(ValidationError)
  {
    hide Listing, EncodeCursor, DecodeCursor, ConversationEntries;
    var pageSize := Min(limit, pageSizeMax);
    var position: Option<CursorPosition> := None;
    if cursor.Some? && cursor.value != "" {
      var decoded := DecodeCursor(codec, cursor.value);
      if decoded.Err? {
        return Err(ValidationError);
      }
      position := Some(decoded.value);
    }
    var found := Take(Listing(ConversationEntries(rows, userId), position), pageSize + 1);
    var hasMore := |found| > pageSize;
    var items := Take(found, pageSize);
    var nextCursor: Option<string> := None;
    if hasMore && |items| > 0 {
      nextCursor := Some(EncodeCursor(codec, Position(items[|items| - 1])));
    }
    assert ParseCursor(codec, cursor) == Ok(position);
    assert CutPage(codec, found, pageSize) == Page(items, nextCursor);
    return Ok(Page(items, nextCursor));
  }

  /** `ConversationService.list_messages`: the same cut, handed out oldest first. */
  method ListMessages(
      codec: Codec, pageSizeMax: nat, conversations: seq<ConversationRow>, rows: seq<MessageRow>,
      userId: nat, conversationId: nat, limit: nat, cursor: Option<string>)
    returns (r: Result<Page<MessageRow>, PageError>)
    ensures var owned := exists c :: c in conversations && c.id == conversationId
                                     && c.userId == userId && c.archivedAt.None?;
            var page := FetchPage(codec, MessageEntries(rows, conversationId), cursor, Min(limit, pageSizeMax));
            r == if page.Err? then Err(ValidationError)
                 else if !owned then Err(ConversationNotFound)
                 else Ok(page.value.(items := Reverse(page.value.items)))
  {
    hide Listing, EncodeCursor, DecodeCursor, MessageEntries;
    var pageSize := Min(limit, pageSizeMax);
    var position: Option<CursorPosition> := None;
    if cursor.Some? && cursor.value != "" {
      var decoded := DecodeCursor(codec, cursor.value);
      if decoded.Err? {
        return Err(ValidationError);
      }
      position := Some(decoded.value);
    }
    if !exists c :: c in conversations && c.id == conversationId && c.userId == userId && c.archivedAt.None? {
      return Err(ConversationNotFound);
    }
    var found := Take(Listing(MessageEntries(rows, conversationId), position), pageSize + 1);
    var hasMore := |found| > pageSize;
    var newestFirst := Take(found, pageSize);
    var nextCursor: Option<string> := None;
    if hasMore && |newestFirst| > 0 {
      nextCursor := Some(EncodeCursor(codec, Position(newestFirst[|newestFirst| - 1])));
    }
    assert ParseCursor(codec, cursor) == Ok(position);
    assert CutPage(codec, found, pageSize) == Page(newestFirst, nextCursor);
    newestFirst := Reverse(newestFirst);
    return Ok(Page(newestFirst, nextCursor));
  }
}
