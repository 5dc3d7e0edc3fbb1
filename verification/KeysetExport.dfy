/** The keyset-paginated export of backend/app/features/voice_data/repository.py: one short
    query per page, while other sessions go on inserting and deleting rows in between. */
module KeysetExport {
  import opened Options

  datatype Key = Key(startedAt: int, id: int)

  datatype Row = Row(key: Key, turns: seq<string>)

  /** Tuple comparison: started_at first, then id. */
  predicate Less(a: Key, b: Key) {
    a.startedAt < b.startedAt || (a.startedAt == b.startedAt && a.id < b.id)
  }

  /** Any two keys are in order one way or the other: earlier sessions first, and those that started at
      the same instant by id. */
  lemma KeysAreOrdered(a: Key, b: Key)
    ensures a == b || Less(a, b) || Less(b, a)
    ensures Less(a, b) ==> a.startedAt <= b.startedAt && !Less(b, a)
    ensures a.startedAt == b.startedAt && a.id < b.id ==> Less(a, b)
  {
  }

  /** The user's rows at one instant, as ORDER BY started_at, id lists them. */
  type Table = seq<Row>

  predicate Increasing(rows: seq<Row>) {
    forall i, j :: 0 <= i < j < |rows| ==> Less(rows[i].key, rows[j].key)
  }

  predicate Has(rows: seq<Row>, k: Key) {
    exists i :: 0 <= i < |rows| && rows[i].key == k
  }

  predicate After(cursor: Option<Key>, k: Key) { cursor.Some? ==> Less(cursor.value, k) }

  function Min(a: nat, b: nat): nat { if a <= b then a else b }

  /** How many rows of a listed table are not after the cursor. */
  function Passed(table: Table, cursor: Option<Key>, i: nat): (from: nat)
    requires Increasing(table) && i <= |table|
    requires forall j :: 0 <= j < i ==> !After(cursor, table[j].key)
    ensures from <= |table|
    ensures forall j :: 0 <= j < |table| ==> (After(cursor, table[j].key) <==> from <= j)
    decreases |table| - i
  {
    if i == |table| || After(cursor, table[i].key) then i else Passed(table, cursor, i + 1)
  }

  /** WHERE (started_at, id) > cursor ORDER BY started_at, id LIMIT pageSize. */
  function FetchPage(table: Table, cursor: Option<Key>, pageSize: nat): seq<Row>
    requires Increasing(table)
  {
    var from := Passed(table, cursor, 0);
    table[from..Min(|table|, from + pageSize)]
  }

  /** A page is the rows right after the cursor: in order, none skipped, and short only when
      nothing is left. */
  lemma PageIsNextRows(table: Table, cursor: Option<Key>, pageSize: nat, k: Key)
    requires Increasing(table)
    ensures var page := FetchPage(table, cursor, pageSize);
            && Increasing(page) && |page| <= pageSize
            && (forall i :: 0 <= i < |page| ==> page[i] in table && After(cursor, page[i].key))
            && (Has(table, k) && After(cursor, k) && !Has(page, k) ==>
                  |page| == pageSize && (page != [] ==> Less(page[|page| - 1].key, k)))
  {
    var from, page := Passed(table, cursor, 0), FetchPage(table, cursor, pageSize);
    if Has(table, k) && After(cursor, k) {
      var j :| 0 <= j < |table| && table[j].key == k;
      if j < from + |page| { assert page[j - from].key == k; }
    }
  }

  // ----- The page loop -----

  datatype Export = Export(rows: seq<Row>, finished: bool, fetches: nat)

  predicate Listed(snapshots: seq<Table>) {
    forall i :: 0 <= i < |snapshots| ==> Increasing(snapshots[i])
  }

  /** The export from `cursor` on, when the i-th fetch sees the i-th snapshot. Not finished: the
      snapshots end before the loop does. */
  function ExportFrom(snapshots: seq<Table>, cursor: Option<Key>, pageSize: nat): Export
    requires Listed(snapshots)
  {
    if snapshots == [] then Export([], false, 0)
    else
      var rows := FetchPage(snapshots[0], cursor, pageSize);
      if rows == [] || |rows| < pageSize then Export(rows, true, 1)
      else
        var rest := ExportFrom(snapshots[1..], Some(rows[|rows| - 1].key), pageSize);
        Export(rows + rest.rows, rest.finished, 1 + rest.fetches)
  }

  /** rows before an export, fetches before it. */
  function Before(yielded: seq<Row>, fetches: nat, e: Export): Export {
    Export(yielded + e.rows, e.finished, fetches + e.fetches)
  }

  lemma BeforeAgain(yielded: seq<Row>, fetches: nat, rows: seq<Row>, e: Export)
    ensures Before(yielded, fetches, Before(rows, 1, e)) == Before(yielded + rows, fetches + 1, e)
  {
  }

  lemma OnePage(snapshots: seq<Table>, cursor: Option<Key>, pageSize: nat)
    requires Listed(snapshots) && snapshots != []
    ensures var rows := FetchPage(snapshots[0], cursor, pageSize);
            ExportFrom(snapshots, cursor, pageSize) ==
              if rows == [] || |rows| < pageSize then Export(rows, true, 1)
              else Before(rows, 1, ExportFrom(snapshots[1..], Some(rows[|rows| - 1].key), pageSize))
  {
  }

  /** _keyset_pages: the loop over pages with its moving cursor. */
  method KeysetPages(snapshots: seq<Table>, pageSize: nat) returns (result: Export)
    requires Listed(snapshots)
    ensures result == ExportFrom(snapshots, None, pageSize)
  {
    var cursor: Option<Key> := None;
    var yielded: seq<Row>, fetches: nat := [], 0;
    ghost var rest := ExportFrom(snapshots, None, pageSize);
    assert snapshots[0..] == snapshots;
    while fetches < |snapshots|
      invariant fetches <= |snapshots|
      invariant rest == ExportFrom(snapshots[fetches..], cursor, pageSize)
      invariant ExportFrom(snapshots, None, pageSize) == Before(yielded, fetches, rest)
    {
      var rows := FetchPage(snapshots[fetches], cursor, pageSize);
      OnePage(snapshots[fetches..], cursor, pageSize);
      assert snapshots[fetches..][1..] == snapshots[fetches + 1..];
      if rows == [] {
        return Export(yielded, true, fetches + 1);
      }
      cursor := Some(rows[|rows| - 1].key);
      if |rows| < pageSize {
        return Export(yielded + rows, true, fetches + 1);
      }
      rest := ExportFrom(snapshots[fetches + 1..], cursor, pageSize);
      BeforeAgain(yielded, fetches, rows, rest);
      yielded := yielded + rows;
      fetches := fetches + 1;
    }
    return Export(yielded, false, fetches);
  }

  // ----- What every export satisfies, however the table changes -----

  ghost predicate FromSnapshots(snapshots: seq<Table>, r: Row, fetches: nat) {
    fetches <= |snapshots| && exists t :: 0 <= t < fetches && r in snapshots[t]
  }

  lemma AppendIncreasing(rows: seq<Row>, more: seq<Row>)
    requires Increasing(rows) && Increasing(more) && rows != []
    requires forall i :: 0 <= i < |more| ==> Less(rows[|rows| - 1].key, more[i].key)
    ensures Increasing(rows + more)
  {
  }

  /** Keys come out strictly increasing, so no row is exported twice. */
  lemma {:induction false} ExportIncreasing(snapshots: seq<Table>, cursor: Option<Key>, pageSize: nat)
    requires Listed(snapshots)
    ensures var e := ExportFrom(snapshots, cursor, pageSize);
            Increasing(e.rows) && forall i :: 0 <= i < |e.rows| ==> After(cursor, e.rows[i].key)
    decreases |snapshots|
  {
    if snapshots == [] {
    } else {
      var rows := FetchPage(snapshots[0], cursor, pageSize);
      PageIsNextRows(snapshots[0], cursor, pageSize, Key(0, 0));
      OnePage(snapshots, cursor, pageSize);
      if rows != [] && |rows| >= pageSize {
        var last := Some(rows[|rows| - 1].key);
        ExportIncreasing(snapshots[1..], last, pageSize);
        AppendIncreasing(rows, ExportFrom(snapshots[1..], last, pageSize).rows);
      }
    }
  }

  /** Nothing is invented: every exported row was in the table when its page was fetched. */
  lemma {:induction false} ExportSound(snapshots: seq<Table>, cursor: Option<Key>, pageSize: nat, r: Row)
    requires Listed(snapshots) && r in ExportFrom(snapshots, cursor, pageSize).rows
    ensures FromSnapshots(snapshots, r, ExportFrom(snapshots, cursor, pageSize).fetches)
    decreases |snapshots|
  {
    var rows := FetchPage(snapshots[0], cursor, pageSize);
    PageIsNextRows(snapshots[0], cursor, pageSize, Key(0, 0));
    OnePage(snapshots, cursor, pageSize);
    if r in rows {
      assert r in snapshots[0];
      if rows != [] && |rows| >= pageSize { FetchesWithin(snapshots[1..], Some(rows[|rows| - 1].key), pageSize); }
    } else {
      var last := Some(rows[|rows| - 1].key);
      ExportSound(snapshots[1..], last, pageSize, r);
      var t :| 0 <= t < ExportFrom(snapshots[1..], last, pageSize).fetches && r in snapshots[1..][t];
      assert r in snapshots[t + 1];
    }
  }

  lemma {:induction false} FetchesWithin(snapshots: seq<Table>, cursor: Option<Key>, pageSize: nat)
    requires Listed(snapshots)
    ensures ExportFrom(snapshots, cursor, pageSize).fetches <= |snapshots|
    decreases |snapshots|
  {
    if snapshots == [] {
    } else {
      var rows := FetchPage(snapshots[0], cursor, pageSize);
      if rows != [] { FetchesWithin(snapshots[1..], Some(rows[|rows| - 1].key), pageSize); }
    }
  }

  /** Completeness: a finished export holds every row that was in the table at each of its
      fetches, whatever else was inserted or deleted in between. */
  lemma {:induction false} ExportComplete(snapshots: seq<Table>, cursor: Option<Key>, pageSize: nat, k: Key)
    requires Listed(snapshots) && pageSize > 0 && After(cursor, k)
    requires var e := ExportFrom(snapshots, cursor, pageSize);
             e.finished && e.fetches <= |snapshots| && forall t :: 0 <= t < e.fetches ==> Has(snapshots[t], k)
    ensures Has(ExportFrom(snapshots, cursor, pageSize).rows, k)
    decreases |snapshots|
  {
    var e := ExportFrom(snapshots, cursor, pageSize);
    var rows := FetchPage(snapshots[0], cursor, pageSize);
    PageIsNextRows(snapshots[0], cursor, pageSize, k);
    if Has(rows, k) {
      var i :| 0 <= i < |rows| && rows[i].key == k;
      assert e.rows[i].key == k;
    } else {
      var rest := ExportFrom(snapshots[1..], Some(rows[|rows| - 1].key), pageSize);
      forall t | 0 <= t < rest.fetches ensures Has(snapshots[1..][t], k) {
        assert Has(snapshots[t + 1], k);
      }
      ExportComplete(snapshots[1..], Some(rows[|rows| - 1].key), pageSize, k);
      var i :| 0 <= i < |rest.rows| && rest.rows[i].key == k;
      assert e.rows[|rows| + i].key == k;
    }
  }

  lemma NextPageStarts(table: Table, cursor: Option<Key>, last: nat)
    requires Increasing(table) && Passed(table, cursor, 0) <= last < |table|
    ensures Passed(table, Some(table[last].key), 0) == last + 1
  {
    var from := Passed(table, Some(table[last].key), 0);
    assert !Less(table[last].key, table[last].key);
    if last + 1 < |table| { assert Less(table[last].key, table[last + 1].key); }
  }

  /** Rows that so many fetches can return at most. */
  function Room(fetches: nat, pageSize: nat): nat {
    if fetches == 0 then 0 else pageSize + Room(fetches - 1, pageSize)
  }

  lemma {:induction false} RoomIsProduct(fetches: nat, pageSize: nat)
    ensures Room(fetches, pageSize) == fetches * pageSize
  {
    if fetches == 0 {
    } else {
      RoomIsProduct(fetches - 1, pageSize);
      assert fetches * pageSize == (fetches - 1) * pageSize + pageSize;
    }
  }

  lemma JoinSlices(table: Table, a: nat, b: nat, c: nat)
    requires a <= b <= c <= |table|
    ensures table[a..b] + table[b..c] == table[a..c]
  {
  }

  /** e is the export of table[from..] by fetches that have room for so many rows. */
  predicate Exports(e: Export, table: Table, from: nat, room: nat) {
    && from <= |table|
    && (e.finished <==> room > |table| - from)
    && e.rows == table[from..Min(|table|, from + room)]
  }

  lemma FullPageThenRest(table: Table, from: nat, pageSize: nat, e: Export, room: nat)
    requires from + pageSize <= |table| && Exports(e, table, from + pageSize, room)
    ensures Exports(Before(table[from..from + pageSize], 1, e), table, from, pageSize + room)
  {
    JoinSlices(table, from, from + pageSize, Min(|table|, from + pageSize + room));
  }

  lemma PageSlice(table: Table, cursor: Option<Key>, pageSize: nat)
    requires Increasing(table) && pageSize > 0
    ensures var from, page := Passed(table, cursor, 0), FetchPage(table, cursor, pageSize);
            if from + pageSize > |table| then |page| < pageSize && page == table[from..]
            else
              && |page| == pageSize && page == table[from..from + pageSize]
              && page[pageSize - 1].key == table[from + pageSize - 1].key
  {
  }

  lemma ShortPage(table: Table, from: nat, pageSize: nat, room: nat)
    requires from <= |table| < from + pageSize
    ensures Exports(Export(table[from..], true, 1), table, from, pageSize + room)
  {
  }

  /** The page loop on a fixed table, by position instead of cursor. */
  function StaticFrom(table: Table, from: nat, fetches: nat, pageSize: nat): Export
    requires from <= |table|
    decreases fetches
  {
    if fetches == 0 then Export([], false, 0)
    else if from + pageSize > |table| then Export(table[from..], true, 1)
    else Before(table[from..from + pageSize], 1, StaticFrom(table, from + pageSize, fetches - 1, pageSize))
  }

  /** The same table at every fetch. */
  function Unchanged(table: Table, fetches: nat): (snapshots: seq<Table>)
    requires Increasing(table)
    ensures |snapshots| == fetches && Listed(snapshots)
  {
    if fetches == 0 then [] else [table] + Unchanged(table, fetches - 1)
  }

  lemma UnchangedTail(table: Table, fetches: nat) returns (tail: seq<Table>)
    requires Increasing(table) && fetches > 0
    ensures Unchanged(table, fetches) == [table] + tail && tail == Unchanged(table, fetches - 1)
  {
    tail := Unchanged(table, fetches - 1);
  }

  lemma FullPage(table: Table, tail: seq<Table>, cursor: Option<Key>, pageSize: nat, page: seq<Row>, rest: Export)
    requires Listed([table] + tail) && Listed(tail) && Increasing(table) && page == FetchPage(table, cursor, pageSize)
    requires page != [] && |page| >= pageSize && rest == ExportFrom(tail, Some(page[|page| - 1].key), pageSize)
    ensures ExportFrom([table] + tail, cursor, pageSize) == Before(page, 1, rest)
  {
    assert ([table] + tail)[1..] == tail;
    OnePage([table] + tail, cursor, pageSize);
  }

  lemma ShortFetch(table: Table, tail: seq<Table>, cursor: Option<Key>, pageSize: nat, page: seq<Row>)
    requires Listed([table] + tail) && Increasing(table) && page == FetchPage(table, cursor, pageSize)
    requires |page| < pageSize
    ensures ExportFrom([table] + tail, cursor, pageSize) == Export(page, true, 1)
  {
    OnePage([table] + tail, cursor, pageSize);
  }

  lemma FullPageAt(table: Table, tail: seq<Table>, cursor: Option<Key>, pageSize: nat, from: nat, rest: Export)
    requires Listed([table] + tail) && Listed(tail) && Increasing(table) && pageSize > 0
    requires from == Passed(table, cursor, 0) && from + pageSize <= |table|
    requires rest == ExportFrom(tail, Some(table[from + pageSize - 1].key), pageSize)
    ensures ExportFrom([table] + tail, cursor, pageSize) == Before(table[from..from + pageSize], 1, rest)
  {
    PageSlice(table, cursor, pageSize);
    FullPage(table, tail, cursor, pageSize, table[from..from + pageSize], rest);
  }

  lemma ShortPageAt(table: Table, tail: seq<Table>, cursor: Option<Key>, pageSize: nat, from: nat)
    requires Listed([table] + tail) && Increasing(table) && pageSize > 0
    requires from == Passed(table, cursor, 0) && from + pageSize > |table|
    ensures ExportFrom([table] + tail, cursor, pageSize) == Export(table[from..], true, 1)
  {
    PageSlice(table, cursor, pageSize);
    ShortFetch(table, tail, cursor, pageSize, table[from..]);
  }

  lemma StaticStep(table: Table, from: nat, fetches: nat, pageSize: nat, rest: Export)
    requires pageSize > 0 && fetches > 0 && from + pageSize <= |table|
    requires rest == StaticFrom(table, from + pageSize, fetches - 1, pageSize)
    ensures StaticFrom(table, from, fetches, pageSize) == Before(table[from..from + pageSize], 1, rest)
  {
  }

  /** On a fixed table the cursor is a position, and the two forms of the loop agree. */
  lemma {:induction false} CursorIsPosition(
      table: Table, fetches: nat, cursor: Option<Key>, pageSize: nat, from: nat)
    returns (e: Export)
    requires Increasing(table) && pageSize > 0 && from == Passed(table, cursor, 0)
    ensures e == ExportFrom(Unchanged(table, fetches), cursor, pageSize)
    ensures e == StaticFrom(table, from, fetches, pageSize)
    decreases fetches
  {
    if fetches == 0 {
      e := NoFetch(table, cursor, pageSize, from);
    } else if from + pageSize > |table| {
      e := LastFetch(table, fetches, cursor, pageSize, from);
    } else {
      var next := NextCursor(table, cursor, from, pageSize);
      var rest := CursorIsPosition(table, fetches - 1, next, pageSize, from + pageSize);
      e := PageThenRest(table, fetches, cursor, next, pageSize, from, rest);
    }
  }

  lemma NextCursor(table: Table, cursor: Option<Key>, from: nat, pageSize: nat) returns (next: Option<Key>)
    requires Increasing(table) && pageSize > 0 && from == Passed(table, cursor, 0) && from + pageSize <= |table|
    ensures next == Some(table[from + pageSize - 1].key) && Passed(table, next, 0) == from + pageSize
  {
    next := Some(table[from + pageSize - 1].key);
    NextPageStarts(table, cursor, from + pageSize - 1);
  }

  lemma NoFetch(table: Table, cursor: Option<Key>, pageSize: nat, from: nat) returns (e: Export)
    requires Increasing(table) && from <= |table|
    ensures e == ExportFrom(Unchanged(table, 0), cursor, pageSize) && e == StaticFrom(table, from, 0, pageSize)
  {
    e := Export([], false, 0);
  }

  lemma LastFetch(table: Table, fetches: nat, cursor: Option<Key>, pageSize: nat, from: nat) returns (e: Export)
    requires Increasing(table) && pageSize > 0 && fetches > 0
    requires from == Passed(table, cursor, 0) && from + pageSize > |table|
    ensures e == ExportFrom(Unchanged(table, fetches), cursor, pageSize)
    ensures e == StaticFrom(table, from, fetches, pageSize)
  {
    var tail := UnchangedTail(table, fetches);
    ShortPageAt(table, tail, cursor, pageSize, from);
    e := Export(table[from..], true, 1);
  }

  lemma PageThenRest(
      table: Table, fetches: nat, cursor: Option<Key>, next: Option<Key>, pageSize: nat, from: nat, rest: Export)
    returns (e: Export)
    requires Increasing(table) && pageSize > 0 && fetches > 0
    requires from == Passed(table, cursor, 0) && from + pageSize <= |table|
    requires next == Some(table[from + pageSize - 1].key)
    requires rest == ExportFrom(Unchanged(table, fetches - 1), next, pageSize)
    requires rest == StaticFrom(table, from + pageSize, fetches - 1, pageSize)
    ensures e == ExportFrom(Unchanged(table, fetches), cursor, pageSize)
    ensures e == StaticFrom(table, from, fetches, pageSize)
  {
    var tail := UnchangedTail(table, fetches);
    FullPageAt(table, tail, cursor, pageSize, from, rest);
    StaticStep(table, from, fetches, pageSize, rest);
    e := Before(table[from..from + pageSize], 1, rest);
  }

  /** On a table that does not change, the loop ends exactly when the pages asked for have room
      for more than the rows left, and it yields those rows in order. */
  lemma {:induction false} StaticExport(table: Table, from: nat, fetches: nat, pageSize: nat)
    requires from <= |table| && pageSize > 0
    ensures Exports(StaticFrom(table, from, fetches, pageSize), table, from, Room(fetches, pageSize))
    decreases fetches
  {
    if fetches == 0 {
      NoPages(table, from);
    } else if from + pageSize > |table| {
      ShortPage(table, from, pageSize, Room(fetches - 1, pageSize));
    } else {
      StaticExport(table, from + pageSize, fetches - 1, pageSize);
      var rest := StaticFrom(table, from + pageSize, fetches - 1, pageSize);
      FullPageThenRest(table, from, pageSize, rest, Room(fetches - 1, pageSize));
    }
  }

  lemma NoPages(table: Table, from: nat)
    requires from <= |table|
    ensures Exports(Export([], false, 0), table, from, 0)
  {
  }

  /** A static table is exported whole and in order once there are fetches enough, and never
      before. */
  lemma StaticExportIsWhole(table: Table, fetches: nat, pageSize: nat)
    requires Increasing(table) && pageSize > 0
    ensures var e := ExportFrom(Unchanged(table, fetches), None, pageSize);
            && (e.finished <==> fetches * pageSize > |table|)
            && (e.finished ==> e.rows == table)
  {
    var e := CursorIsPosition(table, fetches, None, pageSize, 0);
    StaticExport(table, 0, fetches, pageSize);
    RoomIsProduct(fetches, pageSize);
  }
}
