/** Cursor pagination of a run's events, bounded by count and by bytes. */
module Pagination {
  import opened Options

  /** An event row: its sequence within the run, its test, and the size of its decoded payload. */
  datatype Event = Event(sequence: int, test: string, size: nat)

  datatype Page = Page(items: seq<Event>, nextCursor: Option<int>)

  /** The rows of one run as the index yields them; sequences are unique within a run. */
  ghost predicate InOrder(rows: seq<Event>) {
    && (forall i, j :: 0 <= i < j < |rows| ==> rows[i].sequence < rows[j].sequence)
    && (forall i :: 0 <= i < |rows| ==> rows[i].sequence >= 0)
  }

  predicate Wanted(e: Event, test: Option<string>, after: int) {
    (test.None? || e.test == test.value) && e.sequence > after
  }

  /** WHERE test_id = ? AND sequence > ? ORDER BY sequence. */
  function Query(rows: seq<Event>, test: Option<string>, after: int): seq<Event> {
    if rows == [] then []
    else (if Wanted(rows[0], test, after) then [rows[0]] else []) + Query(rows[1..], test, after)
  }

  lemma {:induction false} QueryMembers(rows: seq<Event>, test: Option<string>, after: int)
    ensures forall e :: e in Query(rows, test, after) <==>
                        e in rows && (test == None || test == Some(e.test)) && e.sequence > after
  {
    if rows != [] {
      QueryMembers(rows[1..], test, after);
      assert rows == [rows[0]] + rows[1..];
    }
  }

  function Bytes(events: seq<Event>): nat {
    if events == [] then 0 else Bytes(events[..|events| - 1]) + events[|events| - 1].size
  }

  /** `page` shows the first k of the matching events: as many as the limit and the byte bound allow,
      but at least one, and a cursor at the last one shown if more remain. */
  ghost predicate IsPage(page: Page, matching: seq<Event>, limit: nat, maxBytes: nat) {
    var k := |page.items|;
    && page.items <= matching
    && k <= limit
    && (k <= 1 || Bytes(page.items) <= maxBytes)
    && (k < |matching| && k < limit ==> 1 <= k && Bytes(matching[..k + 1]) > maxBytes)
    && (page.nextCursor == if 0 < k < |matching| then Some(matching[k - 1].sequence) else None)
  }

  lemma BytesSnoc(events: seq<Event>, i: nat)
    requires i < |events|
    ensures events[..i + 1] == events[..i] + [events[i]]
    ensures Bytes(events[..i + 1]) == Bytes(events[..i]) + events[i].size
  {
    assert events[..i + 1][..i] == events[..i];
  }

  /** The loop over the fetched rows: it stops at the limit, or at the first row after the first that
      would exceed the byte bound. */
  method FillPage(fetched: seq<Event>, limit: nat, maxBytes: nat) returns (items: seq<Event>, hasMore: bool)
    ensures items <= fetched && |items| <= limit
    ensures |items| <= 1 || Bytes(items) <= maxBytes
    ensures hasMore <==> |items| < |fetched|
    ensures |items| < |fetched| && |items| < limit ==> items != [] && Bytes(fetched[..|items| + 1]) > maxBytes
  {
    items, hasMore := [], false;
    var bytes, i := 0, 0;
    while i < |fetched|
      invariant 0 <= i <= |fetched| && i <= limit
      invariant items == fetched[..i] && bytes == Bytes(items)
      invariant i <= 1 || bytes <= maxBytes
    {
      if |items| >= limit {
        return items, true;
      }
      BytesSnoc(fetched, i);
      if items != [] && bytes + fetched[i].size > maxBytes {
        return items, true;
      }
      bytes := bytes + fetched[i].size;
      items := items + [fetched[i]];
      i := i + 1;
    }
  }

  function PageOf(items: seq<Event>, hasMore: bool): Page {
    Page(items, if hasMore && items != [] then Some(items[|items| - 1].sequence) else None)
  }

  /** What fills the page from one row more than the limit also does so from all matching rows. */
  lemma {:induction false} FetchedPage(
    matching: seq<Event>, fetched: seq<Event>, items: seq<Event>, limit: nat, maxBytes: nat)
    requires fetched == if limit + 1 < |matching| then matching[..limit + 1] else matching
    requires items <= fetched && |items| <= limit && (|items| <= 1 || Bytes(items) <= maxBytes)
    requires |items| < |fetched| && |items| < limit ==> items != [] && Bytes(fetched[..|items| + 1]) > maxBytes
    ensures IsPage(PageOf(items, |items| < |fetched|), matching, limit, maxBytes)
  {
    var k := |items|;
    assert items <= matching;
    assert k < |fetched| ==> fetched[..k + 1] == matching[..k + 1];
  }

  method EventsMatching(rows: seq<Event>, test: Option<string>, cursor: Option<int>, limit: nat, maxBytes: nat)
    returns (page: Page)
    ensures IsPage(page, Query(rows, test, if cursor.Some? then cursor.value else -1), limit, maxBytes)
  {
    var after := if cursor.Some? then cursor.value else -1;
    var matching := Query(rows, test, after);
    var fetched := if limit + 1 < |matching| then matching[..limit + 1] else matching;
    var items, hasMore := FillPage(fetched, limit, maxBytes);
    FetchedPage(matching, fetched, items, limit, maxBytes);
    page := PageOf(items, hasMore);
  }

  // ---------------------------------------------------------------- following cursors

  lemma {:induction false} PrependInOrder(e: Event, rest: seq<Event>)
    requires InOrder(rest) && e.sequence >= 0 && forall j :: 0 <= j < |rest| ==> e.sequence < rest[j].sequence
    ensures InOrder([e] + rest)
  {
  }

  lemma {:induction false} QueryInOrder(rows: seq<Event>, test: Option<string>, after: int)
    requires InOrder(rows)
    ensures InOrder(Query(rows, test, after))
  {
    if rows != [] {
      var rest := Query(rows[1..], test, after);
      QueryInOrder(rows[1..], test, after);
      if Wanted(rows[0], test, after) {
        QueryMembers(rows[1..], test, after);
        forall j | 0 <= j < |rest|
          ensures rows[0].sequence < rest[j].sequence
        {
          assert rest[j] in rows[1..];
        }
        PrependInOrder(rows[0], rest);
      } else {
        assert Query(rows, test, after) == rest;
      }
    }
  }

  /** Querying further on is querying what was found. */
  lemma {:induction false} QueryTwice(rows: seq<Event>, test: Option<string>, after: int, cut: int)
    requires after <= cut
    ensures Query(rows, test, cut) == Query(Query(rows, test, after), None, cut)
  {
    if rows != [] {
      QueryTwice(rows[1..], test, after, cut);
      var found := Query(rows, test, after);
      if Wanted(rows[0], test, after) {
        assert found[0] == rows[0] && found[1..] == Query(rows[1..], test, after);
      } else {
        assert found == Query(rows[1..], test, after);
      }
    }
  }

  lemma {:induction false} AllLater(found: seq<Event>, cut: int)
    requires forall i :: 0 <= i < |found| ==> found[i].sequence > cut
    ensures Query(found, None, cut) == found
  {
    if found != [] {
      AllLater(found[1..], cut);
    }
  }

  lemma {:induction false} LaterThanKth(found: seq<Event>, k: nat)
    requires InOrder(found) && 0 < k <= |found|
    ensures Query(found, None, found[k - 1].sequence) == found[k..]
  {
    var rest := found[1..];
    if k == 1 {
      AllLater(rest, found[0].sequence);
    } else {
      assert rest[k - 2] == found[k - 1] && found[0].sequence < found[k - 1].sequence;
      LaterThanKth(rest, k - 1);
      assert rest[k - 1..] == found[k..];
    }
  }

  /** Asking again from the k-th match gives exactly the matches after it. */
  lemma {:induction false} QueryAfter(rows: seq<Event>, test: Option<string>, after: int, k: nat)
    requires InOrder(rows) && 0 < k <= |Query(rows, test, after)|
    ensures Query(rows, test, Query(rows, test, after)[k - 1].sequence) == Query(rows, test, after)[k..]
  {
    var found := Query(rows, test, after);
    QueryInOrder(rows, test, after);
    QueryMembers(rows, test, after);
    assert found[k - 1] in found;
    QueryTwice(rows, test, after, found[k - 1].sequence);
    LaterThanKth(found, k);
  }

  function Concat(pages: seq<Page>): seq<Event> {
    if pages == [] then [] else Concat(pages[..|pages| - 1]) + pages[|pages| - 1].items
  }

  predicate WithinBounds(page: Page, limit: nat, maxBytes: nat) {
    page.items != [] && |page.items| <= limit && (Bytes(page.items) <= maxBytes || |page.items| == 1)
  }

  lemma ConcatSnoc(pages: seq<Page>, page: Page)
    ensures Concat(pages + [page]) == Concat(pages) + page.items
  {
    assert (pages + [page])[..|pages|] == pages;
  }

  /** A page of what remains carries the walk from `seen` to the end of the page. */
  lemma PageAdvances(all: seq<Event>, seen: nat, page: Page, limit: nat, maxBytes: nat)
    requires seen < |all| && limit >= 1 && IsPage(page, all[seen..], limit, maxBytes)
    ensures WithinBounds(page, limit, maxBytes) && seen + |page.items| <= |all|
    ensures all[..seen] + page.items == all[..seen + |page.items|]
    ensures
      var end := seen + |page.items|;
      page.nextCursor == if end < |all| then Some(all[end - 1].sequence) else None
  {
    var k := |page.items|;
    assert page.items == all[seen..][..k];
    if k == 1 {
      assert page.items[..0] == [];
    }
  }

  function CursorAt(all: seq<Event>, seen: nat): Option<int>
    requires seen <= |all|
  {
    if 0 < seen < |all| then Some(all[seen - 1].sequence) else None
  }

  method NextPage(rows: seq<Event>, test: Option<string>, cursor: Option<int>, limit: nat, maxBytes: nat, ghost seen: nat)
    returns (page: Page)
    requires InOrder(rows) && limit >= 1
    requires seen < |Query(rows, test, -1)| && cursor == CursorAt(Query(rows, test, -1), seen)
    ensures
      var all := Query(rows, test, -1);
      && WithinBounds(page, limit, maxBytes)
      && seen + |page.items| <= |all|
      && all[..seen] + page.items == all[..seen + |page.items|]
      && page.nextCursor == CursorAt(all, seen + |page.items|)
  {
    ghost var all := Query(rows, test, -1);
    page := EventsMatching(rows, test, cursor, limit, maxBytes);
    if seen > 0 {
      QueryAfter(rows, test, -1, seen);
    } else {
      assert all[0..] == all;
    }
    PageAdvances(all, seen, page, limit, maxBytes);
  }

  /** The pages so far show the first `seen` events; the last page has no cursor only at the end. */
  ghost predicate Walk(all: seq<Event>, pages: seq<Page>, seen: nat, limit: nat, maxBytes: nat) {
    seen <= |all| && Concat(pages) == all[..seen] && Legs(pages, seen == |all|, limit, maxBytes)
  }

  ghost predicate Legs(pages: seq<Page>, done: bool, limit: nat, maxBytes: nat) {
    forall i :: 0 <= i < |pages| ==>
      WithinBounds(pages[i], limit, maxBytes) && (pages[i].nextCursor.None? <==> i == |pages| - 1 && done)
  }

  lemma {:induction false} WalkStep(all: seq<Event>, pages: seq<Page>, seen: nat, page: Page, limit: nat, maxBytes: nat)
    requires Walk(all, pages, seen, limit, maxBytes) && seen < |all| && WithinBounds(page, limit, maxBytes)
    requires seen + |page.items| <= |all| && all[..seen] + page.items == all[..seen + |page.items|]
    requires page.nextCursor == CursorAt(all, seen + |page.items|)
    ensures Walk(all, pages + [page], seen + |page.items|, limit, maxBytes)
  {
    ConcatSnoc(pages, page);
    var more := pages + [page];
    assert forall i :: 0 <= i < |pages| ==> more[i] == pages[i];
  }

  /** The walk from page to page. */
  method Follow(rows: seq<Event>, test: Option<string>, limit: nat, maxBytes: nat, ghost all: seq<Event>)
    returns (pages: seq<Page>)
    requires InOrder(rows) && limit >= 1 && all == Query(rows, test, -1) && all != []
    ensures Walk(all, pages, |all|, limit, maxBytes)
  {
    pages := [];
    var cursor, more := None, true;
    ghost var seen := 0;
    while more
      invariant Walk(all, pages, seen, limit, maxBytes)
      invariant cursor == CursorAt(all, seen)
      invariant more <==> seen < |all|
      decreases |all| - seen
    {
      var page := NextPage(rows, test, cursor, limit, maxBytes, seen);
      WalkStep(all, pages, seen, page, limit, maxBytes);
      pages := pages + [page];
      seen := seen + |page.items|;
      cursor := page.nextCursor;
      more := cursor.Some?;
    }
  }

  /** Pagination is exact: for every limit of at least one and every byte bound, following cursors
      until none is returned visits each matching event once, in sequence order; while events remain
      every page shows some, and it exceeds the byte bound only with a single event. */
  method FollowCursors(rows: seq<Event>, test: Option<string>, limit: nat, maxBytes: nat) returns (pages: seq<Page>)
    requires InOrder(rows) && limit >= 1
    ensures Concat(pages) == Query(rows, test, -1) && InOrder(Concat(pages))
    ensures forall e :: e in Concat(pages) <==> e in rows && (test == None || test == Some(e.test))
    ensures forall i :: 0 <= i < |pages| ==> WithinBounds(pages[i], limit, maxBytes)
    ensures forall i :: 0 <= i < |pages| ==> (pages[i].nextCursor.None? <==> i == |pages| - 1)
  {
    var all := Query(rows, test, -1);
    QueryInOrder(rows, test, -1);
    QueryMembers(rows, test, -1);
    assert forall e :: e in rows ==> e.sequence > -1;
    if all == [] {
      return [];
    }
    pages := Follow(rows, test, limit, maxBytes, all);
    assert all[..|all|] == all;
  }
}
