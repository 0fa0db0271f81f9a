/**
 The paged contact list (apps/api/src/accounting/accounting-contact.service.ts). Pages come from the
 database by keyset, or, when a computed status is filtered on, from a list sliced in memory.
 */
module ContactPaging {
  import opened Wrappers
  import opened ContactReview

  /** Where a row stands in the list, and all that a cursor carries. */
  datatype Key = Key(createdAt: int, id: int)

  datatype Row = Row(key: Key, status: ContactStatus)

  /** No cursor, one that does not decode, or the last key of the page before. */
  datatype Cursor = Start | Broken | At(key: Key)

  datatype Page = Page(data: seq<Row>, nextCursor: Option<Key>, hasMore: bool, total: nat)

  datatype Response = Listed(page: Page) | InvalidCursor

  /** `a` is listed strictly later than `b`: newest first, then by descending id. */
  predicate Later(a: Key, b: Key) {
    a.createdAt < b.createdAt || (a.createdAt == b.createdAt && a.id < b.id)
  }

  predicate Follows(k: Key, cursor: Cursor) {
    cursor.At? ==> Later(k, cursor.key)
  }

  /** What ORDER BY createdAt DESC, id DESC yields, ids being unique. */
  ghost predicate Descending(rows: seq<Row>) {
    forall i, j :: 0 <= i < j < |rows| ==>
      || rows[i].key.createdAt > rows[j].key.createdAt
      || (rows[i].key.createdAt == rows[j].key.createdAt && rows[i].key.id > rows[j].key.id)
  }

  // ----- The two implementations -----

  /** The rows the keyset condition lets through. */
  function Beyond(rows: seq<Row>, cursor: Cursor): (beyond: seq<Row>)
    ensures |beyond| <= |rows|
  {
    if rows == [] then []
    else if Follows(rows[0].key, cursor) then [rows[0]] + Beyond(rows[1..], cursor)
    else Beyond(rows[1..], cursor)
  }

  function Take(rows: seq<Row>, n: nat): seq<Row> {
    if |rows| <= n then rows else rows[..n]
  }

  /** One row more than the limit is fetched, to learn whether there is a next page. */
  function FetchPage(beyond: seq<Row>, limit: nat, total: nat): Response
    requires limit >= 1
  {
    var fetched := Take(beyond, limit + 1);
    var hasMore := |fetched| > limit;
    var data := if hasMore then fetched[..|fetched| - 1] else fetched;
    Listed(Page(data, if hasMore then Some(data[|data| - 1].key) else None, hasMore, total))
  }

  /** The page the database serves. */
  function KeysetPage(rows: seq<Row>, cursor: Cursor, limit: nat): Response
    requires limit >= 1
  {
    if cursor.Broken? then InvalidCursor else FetchPage(Beyond(rows, cursor), limit, |rows|)
  }

  /** findIndex, or the length when nothing follows the cursor. */
  function StartIndex(rows: seq<Row>, cursor: Cursor): (i: nat)
    ensures i <= |rows|
    ensures forall k :: 0 <= k < i ==> !Follows(rows[k].key, cursor)
    ensures i < |rows| ==> Follows(rows[i].key, cursor)
  {
    if rows == [] || Follows(rows[0].key, cursor) then 0 else 1 + StartIndex(rows[1..], cursor)
  }

  /** paginateFilteredMatches */
  function SlicedPage(matches: seq<Row>, cursor: Cursor, limit: nat): Response
    requires limit >= 1
  {
    if cursor.Broken? then InvalidCursor
    else
      var start := StartIndex(matches, cursor);
      var data := Take(matches[start..], limit);
      var hasMore := start + limit < |matches|;
      Listed(Page(data, if hasMore && data != [] then Some(data[|data| - 1].key) else None, hasMore, |matches|))
  }

  function WithStatus(rows: seq<Row>, wanted: set<ContactStatus>): seq<Row> {
    if rows == [] then []
    else (if rows[0].status in wanted then [rows[0]] else []) + WithStatus(rows[1..], wanted)
  }

  function ListContacts(rows: seq<Row>, wanted: set<ContactStatus>, cursor: Cursor, limit: nat): Response
    requires limit >= 1
  {
    if wanted != {} then SlicedPage(WithStatus(rows, wanted), cursor, limit) else KeysetPage(rows, cursor, limit)
  }

  // ----- The two agree -----

  lemma {:induction false} BeyondAll(rows: seq<Row>, cursor: Cursor)
    requires forall r :: r in rows ==> Follows(r.key, cursor)
    ensures Beyond(rows, cursor) == rows
  {
    if rows != [] {
      assert rows[0] in rows;
      BeyondAll(rows[1..], cursor);
    }
  }

  /** In a descending list the rows past a cursor are a suffix. */
  lemma {:induction false} BeyondIsSuffix(rows: seq<Row>, cursor: Cursor)
    requires Descending(rows)
    ensures Beyond(rows, cursor) == rows[StartIndex(rows, cursor)..]
  {
    if rows == [] {
    } else if Follows(rows[0].key, cursor) {
      forall r | r in rows
        ensures Follows(r.key, cursor)
      {
        var i :| 0 <= i < |rows| && rows[i] == r;
      }
      BeyondAll(rows, cursor);
    } else {
      BeyondIsSuffix(rows[1..], cursor);
    }
  }

  /** The page either comes to: the first rows of those past the cursor. */
  function PrefixPage(beyond: seq<Row>, limit: nat, total: nat): Response
    requires limit >= 1
  {
    if |beyond| > limit then Listed(Page(beyond[..limit], Some(beyond[limit - 1].key), true, total))
    else Listed(Page(beyond, None, false, total))
  }

  lemma SlicedIsPrefix(rows: seq<Row>, cursor: Cursor, limit: nat)
    requires limit >= 1 && !cursor.Broken? && Descending(rows)
    ensures SlicedPage(rows, cursor, limit) == PrefixPage(Beyond(rows, cursor), limit, |rows|)
  {
    BeyondIsSuffix(rows, cursor);
  }

  lemma SamePages(rows: seq<Row>, cursor: Cursor, limit: nat)
    requires limit >= 1 && Descending(rows)
    ensures SlicedPage(rows, cursor, limit) == KeysetPage(rows, cursor, limit)
  {
    if !cursor.Broken? {
      SlicedIsPrefix(rows, cursor, limit);
    }
  }

  lemma {:induction false} WithStatusFrom(rows: seq<Row>, wanted: set<ContactStatus>)
    ensures forall r :: r in WithStatus(rows, wanted) <==> r in rows && r.status in wanted
  {
    if rows != [] {
      assert rows == [rows[0]] + rows[1..];
      WithStatusFrom(rows[1..], wanted);
    }
  }

  lemma {:induction false} WithStatusDescends(rows: seq<Row>, wanted: set<ContactStatus>)
    requires Descending(rows)
    ensures Descending(WithStatus(rows, wanted))
  {
    if rows != [] {
      WithStatusDescends(rows[1..], wanted);
      WithStatusFrom(rows[1..], wanted);
      var rest := WithStatus(rows[1..], wanted);
      forall j | 0 <= j < |rest|
        ensures Later(rest[j].key, rows[0].key)
      {
        assert rest[j] in rows[1..];
      }
    }
  }

  /** The matching rows a request sees: all of them when no status is asked for. */
  function Matching(rows: seq<Row>, wanted: set<ContactStatus>): seq<Row> {
    if wanted == {} then rows else WithStatus(rows, wanted)
  }

  /** Either way, a list request answers with the keyset page of its matching rows. */
  lemma ListIsKeysetOfMatches(rows: seq<Row>, wanted: set<ContactStatus>, cursor: Cursor, limit: nat)
    requires limit >= 1 && Descending(rows)
    ensures Descending(Matching(rows, wanted))
    ensures ListContacts(rows, wanted, cursor, limit) == KeysetPage(Matching(rows, wanted), cursor, limit)
  {
    WithStatusDescends(rows, wanted);
    SamePages(Matching(rows, wanted), cursor, limit);
  }

  // ----- Following nextCursor -----

  lemma StartAfter(rows: seq<Row>, n: nat)
    requires Descending(rows) && 1 <= n <= |rows|
    ensures StartIndex(rows, At(rows[n - 1].key)) == n
  {
    var last := rows[n - 1].key;
    forall k | 0 <= k < n
      ensures !Later(rows[k].key, last)
    {
      assert k < n - 1 ==> Later(last, rows[k].key);
    }
    assert n < |rows| ==> Follows(rows[n].key, At(last));
  }

  /** The rows past a cursor, from the n-th on, are the rows past the key just before them. */
  lemma BeyondLast(rows: seq<Row>, cursor: Cursor, n: nat)
    requires Descending(rows) && 1 <= n <= |Beyond(rows, cursor)|
    ensures Beyond(rows, At(Beyond(rows, cursor)[n - 1].key)) == Beyond(rows, cursor)[n..]
  {
    BeyondIsSuffix(rows, cursor);
    var end := StartIndex(rows, cursor) + n;
    StartAfter(rows, end);
    BeyondIsSuffix(rows, At(rows[end - 1].key));
  }

  lemma PrefixCuts(beyond: seq<Row>, limit: nat, total: nat)
    requires limit >= 1
    ensures var page := FetchPage(beyond, limit, total).page;
      && (page.hasMore <==> |beyond| > limit)
      && (page.hasMore ==> page.nextCursor == Some(beyond[limit - 1].key))
      && (page.hasMore ==> |page.data| == limit && page.data[limit - 1] == beyond[limit - 1])
      && (page.hasMore ==> beyond == page.data + beyond[limit..])
      && (!page.hasMore ==> page.nextCursor == None && page.data == beyond)
  {
  }

  /** A page is what comes next past its cursor, and the next cursor leaves exactly what it did not show. */
  lemma PageCutsTheRest(rows: seq<Row>, cursor: Cursor, limit: nat)
    requires limit >= 1 && Descending(rows) && !cursor.Broken?
    ensures var page := KeysetPage(rows, cursor, limit).page;
      && (page.hasMore <==> page.nextCursor.Some?)
      && (page.hasMore <==> |Beyond(rows, cursor)| > limit)
      && (page.hasMore ==> Beyond(rows, cursor) == page.data + Beyond(rows, At(page.nextCursor.value)))
      && (page.hasMore ==> |page.data| == limit && page.nextCursor.value == page.data[limit - 1].key)
      && (!page.hasMore ==> Beyond(rows, cursor) == page.data)
  {
    PrefixCuts(Beyond(rows, cursor), limit, |rows|);
    if |Beyond(rows, cursor)| > limit { BeyondLast(rows, cursor, limit); }
  }

  /** Every page from a cursor on, over rows that do not change. */
  ghost function Walk(rows: seq<Row>, cursor: Cursor, limit: nat): seq<Row>
    requires limit >= 1 && Descending(rows) && !cursor.Broken?
    decreases |Beyond(rows, cursor)|
  {
    PageCutsTheRest(rows, cursor, limit);
    var page := KeysetPage(rows, cursor, limit).page;
    page.data + if page.hasMore then Walk(rows, At(page.nextCursor.value), limit) else []
  }

  lemma {:induction false} WalkShowsTheRest(rows: seq<Row>, cursor: Cursor, limit: nat)
    requires limit >= 1 && Descending(rows) && !cursor.Broken?
    ensures Walk(rows, cursor, limit) == Beyond(rows, cursor)
    decreases |Beyond(rows, cursor)|
  {
    PageCutsTheRest(rows, cursor, limit);
    var page := KeysetPage(rows, cursor, limit).page;
    if page.hasMore { WalkShowsTheRest(rows, At(page.nextCursor.value), limit); }
  }

  /** From the first page on, every matching row is shown exactly once and in order. */
  lemma WalkShowsEverything(rows: seq<Row>, wanted: set<ContactStatus>, limit: nat)
    requires limit >= 1 && Descending(rows)
    ensures Descending(Matching(rows, wanted))
    ensures Walk(Matching(rows, wanted), Start, limit) == Matching(rows, wanted)
  {
    WithStatusDescends(rows, wanted);
    WalkShowsTheRest(Matching(rows, wanted), Start, limit);
    BeyondAll(Matching(rows, wanted), Start);
  }

  // ----- While rows come and go -----

  /** What was shown, and the cursor left to follow when the requests ran out before the pages did. */
  datatype Visit = Visit(shown: seq<Row>, left: Option<Key>)

  ghost predicate AllDescending(tables: seq<seq<Row>>) {
    forall rows :: rows in tables ==> Descending(rows)
  }

  /** One request per table, each table being the matching rows at that request. */
  function Traverse(tables: seq<seq<Row>>, cursor: Cursor, limit: nat): Visit
    requires limit >= 1 && !cursor.Broken? && tables != []
    decreases |tables|
  {
    var page := KeysetPage(tables[0], cursor, limit).page;
    if |tables| == 1 || page.nextCursor.None? then Visit(page.data, page.nextCursor)
    else
      var rest := Traverse(tables[1..], At(page.nextCursor.value), limit);
      rest.(shown := page.data + rest.shown)
  }

  ghost predicate AllFollow(rows: seq<Row>, cursor: Cursor) {
    forall i :: 0 <= i < |rows| ==> Follows(rows[i].key, cursor)
  }

  lemma PageFollows(rows: seq<Row>, cursor: Cursor, limit: nat)
    requires limit >= 1 && Descending(rows) && !cursor.Broken?
    ensures var page := KeysetPage(rows, cursor, limit).page;
      Descending(page.data) && AllFollow(page.data, cursor)
  {
    PageCutsTheRest(rows, cursor, limit);
    BeyondIsSuffix(rows, cursor);
    var beyond := Beyond(rows, cursor);
    forall i | 0 <= i < |beyond|
      ensures Follows(beyond[i].key, cursor)
    {
    }
    var page := KeysetPage(rows, cursor, limit).page;
    assert page.data == beyond[..|page.data|];
  }

  /** What lies past the last row of a descending list can be put after it. */
  lemma DescendingAppend(shown: seq<Row>, more: seq<Row>)
    requires Descending(shown) && Descending(more) && shown != [] && AllFollow(more, At(shown[|shown| - 1].key))
    ensures Descending(shown + more)
  {
    forall i, j | 0 <= i < j < |shown + more|
      ensures Later((shown + more)[j].key, (shown + more)[i].key)
    {
      if i < |shown| <= j {
        assert Follows(more[j - |shown|].key, At(shown[|shown| - 1].key));
        assert i < |shown| - 1 ==> Later(shown[|shown| - 1].key, shown[i].key);
      }
    }
  }

  lemma FollowsOn(more: seq<Row>, next: Key, cursor: Cursor)
    requires AllFollow(more, At(next)) && Follows(next, cursor)
    ensures AllFollow(more, cursor)
  {
    forall i | 0 <= i < |more|
      ensures Follows(more[i].key, cursor)
    {
      assert Follows(more[i].key, At(next));
    }
  }

  /** Whatever comes and goes, no row is ever shown twice: what is shown keeps descending. */
  lemma {:induction false} NothingRepeats(tables: seq<seq<Row>>, cursor: Cursor, limit: nat)
    requires limit >= 1 && !cursor.Broken? && tables != [] && AllDescending(tables)
    ensures Descending(Traverse(tables, cursor, limit).shown)
    ensures AllFollow(Traverse(tables, cursor, limit).shown, cursor)
    decreases |tables|
  {
    assert tables[0] in tables;
    PageFollows(tables[0], cursor, limit);
    PageCutsTheRest(tables[0], cursor, limit);
    var page := KeysetPage(tables[0], cursor, limit).page;
    if |tables| > 1 && page.nextCursor.Some? {
      var next := At(page.nextCursor.value);
      NothingRepeats(tables[1..], next, limit);
      var rest := Traverse(tables[1..], next, limit).shown;
      DescendingAppend(page.data, rest);
      FollowsOn(rest, next.key, cursor);
    }
  }

  ghost predicate Shows(rows: seq<Row>, k: Key) {
    exists i :: 0 <= i < |rows| && rows[i].key == k
  }

  lemma ShowsAppend(a: seq<Row>, b: seq<Row>, k: Key)
    ensures Shows(a + b, k) <==> Shows(a, k) || Shows(b, k)
  {
    if Shows(a, k) {
      var i :| 0 <= i < |a| && a[i].key == k;
      assert (a + b)[i].key == k;
    }
    if Shows(b, k) {
      var i :| 0 <= i < |b| && b[i].key == k;
      assert (a + b)[|a| + i].key == k;
    }
  }

  lemma {:induction false} BeyondShows(rows: seq<Row>, cursor: Cursor, k: Key)
    requires Shows(rows, k) && Follows(k, cursor)
    ensures Shows(Beyond(rows, cursor), k)
  {
    var i :| 0 <= i < |rows| && rows[i].key == k;
    if i == 0 {
      assert Beyond(rows, cursor)[0].key == k;
    } else {
      assert rows[1..][i - 1].key == k;
      BeyondShows(rows[1..], cursor, k);
      if Follows(rows[0].key, cursor) { ShowsAppend([rows[0]], Beyond(rows[1..], cursor), k); }
    }
  }

  lemma BeyondFollows(rows: seq<Row>, cursor: Cursor)
    requires Descending(rows)
    ensures AllFollow(Beyond(rows, cursor), cursor)
  {
    BeyondIsSuffix(rows, cursor);
    var beyond := Beyond(rows, cursor);
    forall i | 0 <= i < |beyond|
      ensures Follows(beyond[i].key, cursor)
    {
    }
  }

  /** A row past the cursor is on the page unless it lies past the next cursor. */
  lemma PageShows(rows: seq<Row>, cursor: Cursor, limit: nat, k: Key)
    requires limit >= 1 && !cursor.Broken? && Descending(rows) && Shows(rows, k) && Follows(k, cursor)
    ensures var page := KeysetPage(rows, cursor, limit).page;
      Shows(page.data, k) <==> page.nextCursor.None? || !Later(k, page.nextCursor.value)
  {
    BeyondShows(rows, cursor, k);
    PageCutsTheRest(rows, cursor, limit);
    var page := KeysetPage(rows, cursor, limit).page;
    if page.hasMore {
      PageFollows(rows, cursor, limit);
      var next := At(page.nextCursor.value);
      BeyondFollows(rows, next);
      ShowsAppend(page.data, Beyond(rows, next), k);
    }
  }

  lemma {:induction false} LeftMovesOn(tables: seq<seq<Row>>, cursor: Cursor, limit: nat)
    requires limit >= 1 && !cursor.Broken? && tables != [] && AllDescending(tables)
    ensures var left := Traverse(tables, cursor, limit).left;
      left.Some? ==> Follows(left.value, cursor)
    decreases |tables|
  {
    assert tables[0] in tables;
    PageCutsTheRest(tables[0], cursor, limit);
    PageFollows(tables[0], cursor, limit);
    var page := KeysetPage(tables[0], cursor, limit).page;
    if |tables| > 1 && page.nextCursor.Some? {
      LeftMovesOn(tables[1..], At(page.nextCursor.value), limit);
    }
  }

  /**
   A row matching at every request is shown, or still lies past the cursor left to follow: it is never
   skipped. With NothingRepeats, a finished traversal shows it exactly once.
   */
  lemma {:induction false} PresentIsNotSkipped(tables: seq<seq<Row>>, cursor: Cursor, limit: nat, k: Key)
    requires limit >= 1 && !cursor.Broken? && tables != [] && AllDescending(tables)
    requires Follows(k, cursor)
    requires forall rows :: rows in tables ==> Shows(rows, k)
    ensures var visit := Traverse(tables, cursor, limit);
      Shows(visit.shown, k) <==> visit.left.None? || !Later(k, visit.left.value)
    decreases |tables|
  {
    assert tables[0] in tables;
    PageShows(tables[0], cursor, limit, k);
    var page := KeysetPage(tables[0], cursor, limit).page;
    if |tables| > 1 && page.nextCursor.Some? {
      var next := At(page.nextCursor.value);
      ShowsAppend(page.data, Traverse(tables[1..], next, limit).shown, k);
      if Later(k, next.key) {
        PresentIsNotSkipped(tables[1..], next, limit, k);
      } else {
        NothingRepeats(tables[1..], next, limit);
        LeftMovesOn(tables[1..], next, limit);
      }
    }
  }
}
