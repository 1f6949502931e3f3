/** Reading one snapshot through pages: the measurements endpoint and the client's page loop. */
module Pagination {
  import opened Prelude
  import opened Measurements
  import opened DatasetStore

  const MAX_RANGE: int := 60 * DAY
  const MAX_LIMIT: nat := 1000
  const MAX_COLLECTION_ITEMS: nat := 1000
  const MAX_COMBINED_ITEMS: nat := 12000
  const MAX_PAGES: nat := 64
  // 10^12 kWh, the first value the client's decimal pattern refuses.
  const VALUE_BOUND: int := 1_000_000_000_000_000_000_000

  datatype Cursor = Cursor(revision: string, start: int, end: int, after: Key)

  datatype Reply = Reply(metadata: Metadata, lastAttempt: Option<int>, completeness: Counts,
                         start: int, end: int, values: seq<Row>, missing: seq<Row>, next: Option<Cursor>)

  datatype ApiError = InvalidQueryValue | InvalidCursor | DatasetUnavailable

  datatype ClientError = RequestFailed | InvalidPage | MetadataChanged | RangeMismatch | InvalidOrder
                       | TooManyMeasurements | CursorLoop | TooManyPages | ContradictoryCompleteness

  /** What the client returns for a range: the metadata of one revision and its rows that are not invalid. */
  datatype Snapshot = Snapshot(metadata: Metadata, lastAttempt: Option<int>, completeness: Counts,
                               start: int, end: int, values: seq<Row>, missing: seq<Row>)

  function Visible(rows: seq<Row>): (v: seq<Row>)
    ensures |v| <= |rows|
  {
    if rows == [] then []
    else (if rows[0].quality == Invalid then [] else [rows[0]]) + Visible(rows[1..])
  }

  function OfQuality(rows: seq<Row>, quality: Quality): (v: seq<Row>)
    ensures |v| <= |rows|
  {
    if rows == [] then []
    else (if rows[0].quality == quality then [rows[0]] else []) + OfQuality(rows[1..], quality)
  }

  function SnapshotOf(db: Db, start: int, end: int): Snapshot
    requires db.metadata.Some?
  {
    var rows := RowsIn(db.table, start, end);
    Snapshot(db.metadata.value, db.lastAttempt, Tally(db.table, KeysIn(db.table, start, end)),
             start, end, Visible(rows), OfQuality(rows, Missing))
  }

  // The server

  /** GET /api/v1/measurements, answered from the database of the moment. */
  function Answer(db: Db, start: int, end: int, limit: int, cursor: Option<Cursor>): Result<Reply, ApiError> {
    if start >= end || end - start > MAX_RANGE || !(1 <= limit <= MAX_LIMIT) then Failure(InvalidQueryValue)
    else if cursor.Some? && (cursor.value.start != start || cursor.value.end != end) then Failure(InvalidCursor)
    else
      match ReadMeasurements(db, start, end, limit, if cursor.None? then None else Some(cursor.value.after))
      case Failure(_) => Failure(InvalidCursor)
      case Success(None) => Failure(DatasetUnavailable)
      case Success(Some(page)) =>
        if cursor.Some? && cursor.value.revision != page.metadata.revision then Failure(InvalidCursor)
        else Success(Respond(page, start, end, limit))
  }

  /** The response body: the first `limit` rows of the page, with a cursor when there are more. */
  function Respond(page: Page, start: int, end: int, limit: nat): Reply
    requires 1 <= limit
  {
    var selected := if |page.rows| > limit then page.rows[..limit] else page.rows;
    var next := if |page.rows| > limit
                then Some(Cursor(page.metadata.revision, start, end, selected[|selected| - 1].Id()))
                else None;
    Reply(page.metadata, page.lastAttempt, page.counts, start, end, Visible(selected), OfQuality(selected, Missing), next)
  }

  /** A request is answered exactly when its range and limit are valid and its cursor is one of this range and revision. */
  lemma AnsweredExactly(db: Db, start: int, end: int, limit: int, cursor: Option<Cursor>)
    ensures Answer(db, start, end, limit, cursor).Success? <==>
              && start < end <= start + 60 * 86_400 && 1 <= limit <= 1000 && db.metadata.Some?
              && (cursor.Some? ==>
                    && cursor.value.start == start && cursor.value.end == end
                    && cursor.value.revision == db.metadata.value.revision
                    && cursor.value.after in db.table && start <= cursor.value.after.start < end)
  {
  }

  // The client

  function Positions(rows: seq<Row>): (p: seq<int>)
    ensures |p| == |rows|
    ensures forall i :: 0 <= i < |rows| ==> p[i] == Position(rows[i].Id())
  {
    seq(|rows|, i requires 0 <= i < |rows| => Position(rows[i].Id()))
  }

  /** Every value is inside the range and follows the one before it: what the client checks, value by value. */
  ghost predicate InOrder(rows: seq<Row>, start: int, end: int) {
    if rows == [] then true
    else
      var n := |rows| - 1;
      && InOrder(rows[..n], start, end) && start <= rows[n].start && rows[n].end <= end
      && (n > 0 ==> Position(rows[n - 1].Id()) < Position(rows[n].Id()))
  }

  /** The values are inside the range and strictly follow (start, channel) order, all of them. */
  ghost predicate Ordered(rows: seq<Row>, start: int, end: int) {
    && StrictlyAscending(Positions(rows))
    && forall i :: 0 <= i < |rows| ==> start <= rows[i].start && rows[i].end <= end
  }

  /** A page the client's parser accepts. */
  predicate Parses(reply: Reply) {
    && |reply.values| <= MAX_COLLECTION_ITEMS
    && |reply.missing| <= MAX_COLLECTION_ITEMS
    && reply.completeness.valid + reply.completeness.missing + reply.completeness.invalid == reply.completeness.expected
    && forall row :: row in reply.values ==>
         && row.start < row.end
         && (row.quality == Missing ==> row.value.None?)
         && (row.quality == Valid ==> row.value.Some? && 0 <= row.value.value < VALUE_BOUND)
         && row.quality != Invalid
  }

  /** Valid values are decimals that the client reads. */
  predicate Decimals(rows: seq<Row>) {
    forall row :: row in rows && row.quality == Valid ==> row.value.Some? && 0 <= row.value.value < VALUE_BOUND
  }

  /** What the loop remembers of the values so far: their identities and the order of the last one. */
  ghost predicate Tracks(values: seq<Row>, identities: set<(Channel, int, int)>, lastOrder: Option<int>) {
    && identities == (set v | v in values :: Identity(v))
    && lastOrder == if values == [] then None else Some(Position(values[|values| - 1].Id()))
  }

  /** Why an item may not follow, by what the loop remembers. */
  function ItemFault(item: Row, identities: set<(Channel, int, int)>, lastOrder: Option<int>, start: int, end: int)
    : Option<ClientError>
  {
    if item.start < start || item.end > end then Some(RangeMismatch)
    else if Identity(item) in identities then Some(InvalidOrder)
    else if lastOrder.Some? && Position(item.Id()) <= lastOrder.value then Some(InvalidOrder)
    else None
  }

  lemma ItemDecides(values: seq<Row>, item: Row, identities: set<(Channel, int, int)>, lastOrder: Option<int>,
                    start: int, end: int)
    requires InOrder(values, start, end) && Tracks(values, identities, lastOrder)
    ensures ItemFault(item, identities, lastOrder, start, end).None? <==> InOrder(values + [item], start, end)
  {
    if ItemFault(item, identities, lastOrder, start, end).None? {
      InOrderGrows(values, item, start, end);
    } else {
      OrderBreaks(values, item, start, end);
    }
  }

  lemma TracksGrow(values: seq<Row>, item: Row, identities: set<(Channel, int, int)>, lastOrder: Option<int>)
    requires Tracks(values, identities, lastOrder)
    ensures Tracks(values + [item], identities + {Identity(item)}, Some(Position(item.Id())))
  {
    var all := values + [item];
    forall id ensures id in identities + {Identity(item)} <==> id in set v | v in all :: Identity(v) {
      if id in identities {
        var v :| v in values && Identity(v) == id;
        assert v in all;
      }
      assert item in all;
    }
  }

  /** The per-value checks of one page: range, duplicates and order. */
  method AppendValues(values: seq<Row>, items: seq<Row>, start: int, end: int)
    returns (r: Result<seq<Row>, ClientError>)
    requires InOrder(values, start, end)
    ensures r.Success? <==> InOrder(values + items, start, end)
    ensures r.Success? ==> r.value == values + items
  {
    var all := values;
    var identities := set v | v in values :: Identity(v);
    var lastOrder: Option<int> := if values == [] then None else Some(Position(values[|values| - 1].Id()));
    var i := 0;
    while i < |items|
      invariant 0 <= i <= |items| && all == values + items[..i]
      invariant InOrder(all, start, end) && Tracks(all, identities, lastOrder)
    {
      var item := items[i];
      StepOf(values, items, i);
      ItemDecides(all, item, identities, lastOrder, start, end);
      TracksGrow(all, item, identities, lastOrder);
      var fault := ItemFault(item, identities, lastOrder, start, end);
      if fault.Some? {
        ItemBreaks(values, items, i, start, end);
        return Failure(fault.value);
      }
      identities := identities + {Identity(item)};
      lastOrder := Some(Position(item.Id()));
      all := all + [item];
      i := i + 1;
    }
    assert items[..i] == items;
    r := Success(all);
  }

  lemma PrefixBreaks(rows: seq<Row>, n: nat, start: int, end: int)
    requires n <= |rows| && !InOrder(rows[..n], start, end)
    ensures !InOrder(rows, start, end)
  {
    if InOrder(rows, start, end) {
      PrefixInOrder(rows, n, start, end);
    }
  }

  lemma ItemBreaks(values: seq<Row>, items: seq<Row>, i: nat, start: int, end: int)
    requires i < |items| && !InOrder(values + items[..i] + [items[i]], start, end)
    ensures !InOrder(values + items, start, end)
  {
    StepOf(values, items, i);
    PrefixBreaks(values + items, |values| + i + 1, start, end);
  }

  function Identity(row: Row): (Channel, int, int) {
    (row.channel, row.start, row.end)
  }

  lemma StepOf(values: seq<Row>, items: seq<Row>, i: nat)
    requires i < |items|
    ensures values + items[..i] + [items[i]] == (values + items)[..|values| + i + 1]
    ensures values + items[..i] + [items[i]] == values + items[..i + 1]
  {
  }

  /** Checking value by value orders all pairs. */
  lemma {:induction false} InOrderMeans(rows: seq<Row>, start: int, end: int)
    ensures InOrder(rows, start, end) <==> Ordered(rows, start, end)
  {
    if rows != [] {
      var n := |rows| - 1;
      InOrderMeans(rows[..n], start, end);
      if Ordered(rows, start, end) { LastOrdered(rows, start, end); }
      if InOrder(rows, start, end) {
        OrderGrows(rows[..n], rows[n], start, end);
        assert rows == rows[..n] + [rows[n]];
      }
    }
  }

  lemma LastOrdered(rows: seq<Row>, start: int, end: int)
    requires rows != [] && Ordered(rows, start, end)
    ensures var n := |rows| - 1;
            && Ordered(rows[..n], start, end) && start <= rows[n].start && rows[n].end <= end
            && (n > 0 ==> Position(rows[n - 1].Id()) < Position(rows[n].Id()))
  {
    var n := |rows| - 1;
    PrefixOrdered(rows, n, start, end);
    if n > 0 {
      assert Positions(rows)[n - 1] < Positions(rows)[n];
    }
  }

  lemma PrefixOrdered(rows: seq<Row>, n: nat, start: int, end: int)
    requires n <= |rows|
    ensures Ordered(rows, start, end) ==> Ordered(rows[..n], start, end)
  {
    assert forall i :: 0 <= i < n ==> Positions(rows[..n])[i] == Positions(rows)[i];
  }

  lemma {:induction false} PrefixInOrder(rows: seq<Row>, n: nat, start: int, end: int)
    requires n <= |rows| && InOrder(rows, start, end)
    ensures InOrder(rows[..n], start, end)
  {
    if n < |rows| {
      PrefixInOrder(rows[..|rows| - 1], n, start, end);
      assert rows[..|rows| - 1][..n] == rows[..n];
    } else {
      assert rows[..n] == rows;
    }
  }

  /** The reasons for which the client refuses a value are reasons against the order of all values. */
  lemma OrderBreaks(rows: seq<Row>, item: Row, start: int, end: int)
    requires
      || item.start < start || item.end > end
      || (exists row :: row in rows && Identity(row) == Identity(item))
      || (rows != [] && Position(item.Id()) <= Position(rows[|rows| - 1].Id()))
    ensures !InOrder(rows + [item], start, end)
  {
    var all := rows + [item];
    var p := Positions(all);
    InOrderMeans(all, start, end);
    assert all[|rows|] == item;
    if exists row :: row in rows && Identity(row) == Identity(item) {
      var i :| 0 <= i < |rows| && Identity(rows[i]) == Identity(item);
      assert all[i] == rows[i] && p[i] == p[|rows|];
    } else if rows != [] && Position(item.Id()) <= Position(rows[|rows| - 1].Id()) {
      assert all[|rows| - 1] == rows[|rows| - 1];
      assert p[|rows| - 1] >= p[|rows|];
    }
  }

  lemma OrderGrows(rows: seq<Row>, item: Row, start: int, end: int)
    requires Ordered(rows, start, end)
    requires start <= item.start && item.end <= end
    requires rows != [] ==> Position(rows[|rows| - 1].Id()) < Position(item.Id())
    ensures Ordered(rows + [item], start, end)
  {
    var p := Positions(rows + [item]);
    assert forall i :: 0 <= i < |rows| ==> p[i] == Positions(rows)[i];
  }

  lemma InOrderGrows(rows: seq<Row>, item: Row, start: int, end: int)
    requires InOrder(rows, start, end)
    requires start <= item.start && item.end <= end
    requires rows != [] ==> Position(rows[|rows| - 1].Id()) < Position(item.Id())
    ensures InOrder(rows + [item], start, end)
  {
    assert (rows + [item])[..|rows|] == rows;
  }

  // Filtering a listing

  lemma {:induction false} VisibleSplits(a: seq<Row>, b: seq<Row>)
    ensures Visible(a + b) == Visible(a) + Visible(b)
  {
    if a == [] {
      assert a + b == b;
    } else {
      assert (a + b)[1..] == a[1..] + b;
      VisibleSplits(a[1..], b);
    }
  }

  lemma {:induction false} OfQualitySplits(a: seq<Row>, b: seq<Row>, quality: Quality)
    ensures OfQuality(a + b, quality) == OfQuality(a, quality) + OfQuality(b, quality)
  {
    if a == [] {
      assert a + b == b;
    } else {
      assert (a + b)[1..] == a[1..] + b && (a + b)[0] == a[0];
      OfQualitySplits(a[1..], b, quality);
      var head := if a[0].quality == quality then [a[0]] else [];
      assert OfQuality(a, quality) == head + OfQuality(a[1..], quality);
      assert head + (OfQuality(a[1..], quality) + OfQuality(b, quality)) == OfQuality(a, quality) + OfQuality(b, quality);
    }
  }

  lemma {:induction false} VisibleMembers(rows: seq<Row>, row: Row)
    ensures row in Visible(rows) <==> row in rows && row.quality != Invalid
    ensures forall q :: row in OfQuality(rows, q) <==> row in rows && row.quality == q
  {
    if rows != [] {
      VisibleMembers(rows[1..], row);
      assert rows == [rows[0]] + rows[1..];
    }
  }

  lemma {:induction false} VisibleParts(rows: seq<Row>)
    ensures OfQuality(Visible(rows), Valid) == OfQuality(rows, Valid)
    ensures OfQuality(Visible(rows), Missing) == OfQuality(rows, Missing)
    ensures |Visible(rows)| == |OfQuality(rows, Valid)| + |OfQuality(rows, Missing)|
  {
    if rows != [] {
      VisibleParts(rows[1..]);
      var head := if rows[0].quality == Invalid then [] else [rows[0]];
      OfQualitySplits(head, Visible(rows[1..]), Valid);
      OfQualitySplits(head, Visible(rows[1..]), Missing);
    }
  }

  ghost function PositionsOf(table: Table, positions: seq<int>, quality: Quality): set<int>
    requires forall p :: p in positions ==> KeyAt(p) in table
  {
    set p | p in positions && table[KeyAt(p)].quality == quality
  }

  /** The rows of a quality, listed, are as many as the keys of that quality, counted. */
  lemma {:induction false} CountedListing(table: Table, positions: seq<int>, quality: Quality)
    requires StrictlyAscending(positions)
    requires forall p :: p in positions ==> KeyAt(p) in table
    ensures |OfQuality(RowsAt(table, positions), quality)| == |PositionsOf(table, positions, quality)|
  {
    if positions != [] {
      var rest := positions[1..];
      assert positions == [positions[0]] + rest;
      CountedListing(table, rest, quality);
      assert RowsAt(table, positions)[1..] == RowsAt(table, rest);
      CountedStep(table, positions[0], rest, quality);
    }
  }

  lemma CountedStep(table: Table, p: int, rest: seq<int>, quality: Quality)
    requires KeyAt(p) in table && p !in rest
    requires forall q :: q in rest ==> KeyAt(q) in table
    ensures |PositionsOf(table, [p] + rest, quality)|
         == |PositionsOf(table, rest, quality)| + if table[KeyAt(p)].quality == quality then 1 else 0
  {
    var head := if table[KeyAt(p)].quality == quality then {p} else {};
    assert PositionsOf(table, [p] + rest, quality) == PositionsOf(table, rest, quality) + head;
  }

  lemma ListedTally(table: Table, start: int, end: int, quality: Quality)
    ensures |OfQuality(RowsIn(table, start, end), quality)| == |WithQuality(table, KeysIn(table, start, end), quality)|
  {
    var positions := Ascending(PositionsIn(table, start, end));
    CountedListing(table, positions, quality);
    var listed := PositionsOf(table, positions, quality);
    var counted := WithQuality(table, KeysIn(table, start, end), quality);
    forall k | k in counted ensures Position(k) in listed && KeyAt(Position(k)) == k { PositionIsOrder(k, k); }
    forall p | p in listed ensures KeyAt(p) in counted && Position(KeyAt(p)) == p { KeyAtPosition(p); }
    SameSize(counted, listed, k => Position(k), p => KeyAt(p));
  }

  /** The completeness check of the client over everything it has collected. */
  predicate Complete(c: Counts, values: seq<Row>, missing: seq<Row>) {
    && |values| == c.valid + c.missing
    && |OfQuality(values, Valid)| == c.valid
    && |OfQuality(values, Missing)| == c.missing
    && |missing| == c.missing
    && (set m | m in missing :: Identity(m)) == (set v | v in values && v.quality == Missing :: Identity(v))
  }

  /** The completeness check holds of every listing of one table. */
  lemma CompletenessAgrees(table: Table, start: int, end: int)
    ensures var rows := RowsIn(table, start, end);
            Complete(Tally(table, KeysIn(table, start, end)), Visible(rows), OfQuality(rows, Missing))
  {
    var rows := RowsIn(table, start, end);
    ListedTally(table, start, end, Valid);
    ListedTally(table, start, end, Missing);
    VisibleParts(rows);
    forall row ensures row in OfQuality(rows, Missing) <==> row in Visible(rows) && row.quality == Missing {
      VisibleMembers(rows, row);
    }
  }

  // Capacity

  /** Quarter-hour slots before an instant. */
  function Slot(t: int): int {
    (t + QUARTER - 1) / QUARTER
  }

  function SlotAt(p: int): int {
    2 * (KeyAt(p).start / QUARTER) + p % 2
  }

  lemma SlotInRange(p: int, start: int, end: int)
    requires KeyAt(p).start % QUARTER == 0 && start <= KeyAt(p).start < end
    ensures 2 * Slot(start) <= SlotAt(p) < 2 * Slot(end)
  {
  }

  lemma SlotOrder(p: int, q: int)
    requires p < q && KeyAt(p).start % QUARTER == 0 && KeyAt(q).start % QUARTER == 0
    ensures SlotAt(p) < SlotAt(q)
  {
    if KeyAt(p).start == KeyAt(q).start {
      assert p % 2 < q % 2;
    } else {
      assert KeyAt(p).start / QUARTER < KeyAt(q).start / QUARTER;
    }
  }

  /** One row per channel and quarter-hour start: a range of 60 days holds at most 11520 rows. */
  lemma Capacity(table: Table, start: int, end: int)
    requires start < end && end - start <= MAX_RANGE
    requires forall k :: k in table && start <= k.start < end ==> k.start % QUARTER == 0
    ensures |RowsIn(table, start, end)| <= 11520
  {
    SlotsFit(Ascending(PositionsIn(table, start, end)), start, end);
  }

  lemma SlotsFit(positions: seq<int>, start: int, end: int)
    requires start < end && end - start <= MAX_RANGE
    requires StrictlyAscending(positions)
    requires forall p :: p in positions ==> KeyAt(p).start % QUARTER == 0 && start <= KeyAt(p).start < end
    ensures |positions| <= 11520
  {
    var slots := seq(|positions|, i requires 0 <= i < |positions| => SlotAt(positions[i]));
    forall i | 0 <= i < |slots| ensures 2 * Slot(start) <= slots[i] < 2 * Slot(end) {
      SlotInRange(positions[i], start, end);
    }
    forall i, j | 0 <= i < j < |slots| ensures slots[i] < slots[j] {
      SlotOrder(positions[i], positions[j]);
    }
    SlotSpan(start, end);
    AscendingFits(slots, 2 * Slot(start), 2 * Slot(end));
  }

  lemma SlotSpan(start: int, end: int)
    requires start < end && end - start <= MAX_RANGE
    ensures Slot(start) <= Slot(end) <= Slot(start) + 5760
  {
  }

  // The page loop

  function Listing(table: Table, start: int, end: int): (l: seq<int>)
    ensures StrictlyAscending(l)
    ensures forall p :: p in l ==> KeyAt(p) in table && start <= KeyAt(p).start < end
  {
    Ascending(PositionsIn(table, start, end))
  }

  /** The cursor a client holds after it has read the first k rows of a listing. */
  function CursorAfter(db: Db, start: int, end: int, k: nat): Option<Cursor>
    requires db.metadata.Some? && k <= |Listing(db.table, start, end)|
  {
    if k == 0 then None
    else Some(Cursor(db.metadata.value.revision, start, end, KeyAt(Listing(db.table, start, end)[k - 1])))
  }

  function PageEnd(listing: seq<int>, k: nat): nat {
    if k + MAX_LIMIT < |listing| then k + MAX_LIMIT else |listing|
  }

  /** The page that continues after k rows: the next thousand rows, with a cursor when more remain. */
  function PageAfter(db: Db, start: int, end: int, k: nat): Reply
    requires db.metadata.Some? && k <= |Listing(db.table, start, end)|
  {
    var listing := Listing(db.table, start, end);
    var m := PageEnd(listing, k);
    var rows := RowsAt(db.table, listing[k..m]);
    Reply(db.metadata.value, db.lastAttempt, Tally(db.table, KeysIn(db.table, start, end)), start, end,
          Visible(rows), OfQuality(rows, Missing),
          if m < |listing| then CursorAfter(db, start, end, m) else None)
  }

  function KeyBefore(listing: seq<int>, k: nat): Option<Key>
    requires k <= |listing|
  {
    if k == 0 then None else Some(KeyAt(listing[k - 1]))
  }

  /** Listing after the last row a client has seen gives exactly the remaining rows. */
  lemma ListingContinues(table: Table, start: int, end: int, k: nat)
    requires k <= |Listing(table, start, end)|
    ensures var listing := Listing(table, start, end);
            Ascending(PositionsAfter(table, start, end, KeyBefore(listing, k))) == listing[k..]
  {
    var all := PositionsIn(table, start, end);
    var listing := Listing(table, start, end);
    if k == 0 {
      assert listing[k..] == listing;
    } else {
      KeyAtPosition(listing[k - 1]);
      AscendingTail(all, k - 1);
    }
  }

  function NextPage(db: Db, start: int, end: int, k: nat): Page
    requires db.metadata.Some? && k <= |Listing(db.table, start, end)|
  {
    Page(db.metadata.value, db.lastAttempt, Tally(db.table, KeysIn(db.table, start, end)),
         PageRows(db.table, start, end, MAX_LIMIT + 1, KeyBefore(Listing(db.table, start, end), k)))
  }

  lemma ReadContinues(db: Db, start: int, end: int, k: nat)
    requires db.metadata.Some? && k <= |Listing(db.table, start, end)|
    ensures ReadMeasurements(db, start, end, MAX_LIMIT, KeyBefore(Listing(db.table, start, end), k))
         == Success(Some(NextPage(db, start, end, k)))
  {
    var listing := Listing(db.table, start, end);
    if k > 0 {
      assert listing[k - 1] in listing;
    }
  }

  lemma RespondContinues(db: Db, start: int, end: int, k: nat)
    requires SoundTable(db.table)
    requires db.metadata.Some? && k <= |Listing(db.table, start, end)|
    ensures Respond(NextPage(db, start, end, k), start, end, MAX_LIMIT) == PageAfter(db, start, end, k)
  {
    ListingContinues(db.table, start, end, k);
    RespondSelects(NextPage(db, start, end, k), db.table, Listing(db.table, start, end), k, start, end);
  }

  lemma RespondSelects(page: Page, table: Table, listing: seq<int>, k: nat, start: int, end: int)
    requires k <= |listing| && SoundTable(table)
    requires forall p :: p in listing ==> KeyAt(p) in table
    requires page.rows == RowsAt(table, Limited(listing[k..], MAX_LIMIT + 1))
    ensures var m := PageEnd(listing, k);
            var rows := RowsAt(table, listing[k..m]);
            && (m < |listing| ==> 0 < m)
            && Respond(page, start, end, MAX_LIMIT)
            == Reply(page.metadata, page.lastAttempt, page.counts, start, end, Visible(rows), OfQuality(rows, Missing),
                     if m < |listing| then Some(Cursor(page.metadata.revision, start, end, KeyAt(listing[m - 1]))) else None)
  {
    SelectedRows(table, listing, k, Limited(listing[k..], MAX_LIMIT + 1));
  }

  /** A request with the client's cursor is answered with the page that continues its listing. */
  lemma AnswerContinues(db: Db, start: int, end: int, k: nat)
    requires start < end && end - start <= MAX_RANGE && SoundTable(db.table)
    requires db.metadata.Some? && k <= |Listing(db.table, start, end)|
    ensures Answer(db, start, end, MAX_LIMIT, CursorAfter(db, start, end, k)) == Success(PageAfter(db, start, end, k))
  {
    ReadContinues(db, start, end, k);
    RespondContinues(db, start, end, k);
  }

  lemma SelectedRows(table: Table, listing: seq<int>, k: nat, taken: seq<int>)
    requires k <= |listing| && SoundTable(table)
    requires forall p :: p in listing ==> KeyAt(p) in table
    requires taken == Limited(listing[k..], MAX_LIMIT + 1)
    ensures forall p :: p in taken ==> KeyAt(p) in table
    ensures |taken| > MAX_LIMIT <==> PageEnd(listing, k) < |listing|
    ensures var rows := RowsAt(table, taken);
            var selected := if |rows| > MAX_LIMIT then rows[..MAX_LIMIT] else rows;
            var m := PageEnd(listing, k);
            && selected == RowsAt(table, listing[k..m])
            && (m < |listing| ==> |selected| == MAX_LIMIT && selected[MAX_LIMIT - 1].Id() == KeyAt(listing[m - 1]))
  {
    assert forall p :: p in taken ==> p in listing;
    var m := PageEnd(listing, k);
    var rows := RowsAt(table, taken);
    var selected := if |rows| > MAX_LIMIT then rows[..MAX_LIMIT] else rows;
    assert forall i :: 0 <= i < |selected| ==> taken[i] == listing[k + i];
    assert selected == RowsAt(table, listing[k..m]);
  }

  /** Two databases with one revision hold one table: what commits with fresh revisions guarantee. */
  ghost predicate Agree(a: Db, b: Db) {
    && (a.metadata.Some? && b.metadata.Some? && a.metadata.value.revision == b.metadata.value.revision ==>
          a.table == b.table && a.metadata == b.metadata)
  }

  ghost predicate AgreeAll(db: Db, served: seq<Option<Db>>) {
    forall i :: 0 <= i < |served| && served[i].Some? ==> Agree(db, served[i].value)
  }

  /** The request reaches a database with the metadata and the last attempt of `db`. */
  ghost predicate SameView(db: Db, here: Option<Db>) {
    here.Some? && here.value.metadata == db.metadata && here.value.lastAttempt == db.lastAttempt
  }

  ghost predicate SameViews(db: Db, served: seq<Option<Db>>, n: nat) {
    n <= |served| && forall i :: 0 <= i < n ==> SameView(db, served[i])
  }

  lemma SameViewsGrow(db: Db, served: seq<Option<Db>>, n: nat)
    requires SameViews(db, served, n) && n < |served|
    ensures SameViews(db, served, n + 1) <==> SameView(db, served[n])
  {
  }

  predicate ValidRange(start: int, end: int) {
    start < end && end - start <= MAX_RANGE
  }

  /** A quarter-aligned request for rows that lie on the quarter-hour grid and fit the client's decimals. */
  ghost predicate Readable(db: Db, start: int, end: int) {
    && db.metadata.Some?
    && SoundTable(db.table)
    && ValidRange(start, end) && start % QUARTER == 0 && end % QUARTER == 0
    && forall k :: k in db.table && start <= k.start < end ==>
         && k.start % QUARTER == 0
         && (db.table[k].quality == Valid ==> db.table[k].value.value < VALUE_BOUND)
  }

  function PagesNeeded(db: Db, start: int, end: int): nat {
    var n := |Listing(db.table, start, end)|;
    if n == 0 then 1 else (n + 999) / 1000
  }

  /** So a readable range takes at most twelve pages, and neither limit of the client can trip. */
  lemma PagesFit(db: Db, start: int, end: int)
    requires Readable(db, start, end)
    ensures PagesNeeded(db, start, end) <= 12 < MAX_PAGES
    ensures |SnapshotOf(db, start, end).values| <= 11520 < MAX_COMBINED_ITEMS
    ensures |SnapshotOf(db, start, end).missing| <= 11520
  {
    Capacity(db.table, start, end);
  }

  lemma PagesNeverRunOut(db: Db, start: int, end: int)
    requires Readable(db, start, end)
    ensures !MoreToRead(db, start, end, MAX_PAGES)
  {
    Capacity(db.table, start, end);
  }

  /** What the client holds between two requests. */
  datatype Progress = Progress(cursor: Option<Cursor>, first: Option<Reply>, values: seq<Row>, missing: seq<Row>)

  const START: Progress := Progress(None, None, [], [])

  /** Rows read by n pages of a listing of `size` rows. */
  function RowsRead(size: nat, n: nat): nat {
    if 1000 * n < size then 1000 * n else size
  }

  /** The client's state after n pages of one view of the data. */
  function After(db: Db, start: int, end: int, n: nat): Progress
    requires db.metadata.Some?
  {
    var listing := Listing(db.table, start, end);
    var k := RowsRead(|listing|, n);
    var rows := RowsAt(db.table, listing[..k]);
    Progress(if k < |listing| then CursorAfter(db, start, end, k) else None,
             if n == 0 then None else Some(PageAfter(db, start, end, 0)),
             Visible(rows), OfQuality(rows, Missing))
  }

  /** Request n may be made: nothing was read yet, or rows remain. */
  ghost predicate MoreToRead(db: Db, start: int, end: int, n: nat) {
    n == 0 || 1000 * n < |Listing(db.table, start, end)|
  }

  lemma StartIsAfterNothing(db: Db, start: int, end: int)
    requires db.metadata.Some?
    ensures After(db, start, end, 0) == START
  {
    assert Listing(db.table, start, end)[..0] == [];
  }

  /** The page that request n is answered with takes the client from After(n) to After(n + 1). */
  lemma PageCollected(db: Db, start: int, end: int, n: nat)
    requires db.metadata.Some? && MoreToRead(db, start, end, n)
    ensures 1000 * n <= |Listing(db.table, start, end)|
    ensures var page := PageAfter(db, start, end, 1000 * n);
            && After(db, start, end, n + 1).values == After(db, start, end, n).values + page.values
            && After(db, start, end, n + 1).missing == After(db, start, end, n).missing + page.missing
            && After(db, start, end, n + 1).cursor == page.next
  {
    var listing := Listing(db.table, start, end);
    var k, m := 1000 * n, PageEnd(listing, 1000 * n);
    assert m == RowsRead(|listing|, n + 1) && k == RowsRead(|listing|, n);
    ListingSplits(db.table, listing, k, m);
  }

  lemma ListingSplits(table: Table, listing: seq<int>, k: nat, m: nat)
    requires k <= m <= |listing| && forall p :: p in listing ==> KeyAt(p) in table
    ensures Visible(RowsAt(table, listing[..m])) == Visible(RowsAt(table, listing[..k])) + Visible(RowsAt(table, listing[k..m]))
    ensures OfQuality(RowsAt(table, listing[..m]), Missing)
         == OfQuality(RowsAt(table, listing[..k]), Missing) + OfQuality(RowsAt(table, listing[k..m]), Missing)
  {
    var front, back := RowsAt(table, listing[..k]), RowsAt(table, listing[k..m]);
    assert listing[..m] == listing[..k] + listing[k..m];
    assert RowsAt(table, listing[..m]) == front + back;
    VisibleSplits(front, back);
    OfQualitySplits(front, back, Missing);
  }

  lemma ReadableRows(db: Db, start: int, end: int, positions: seq<int>)
    requires Readable(db, start, end) && StrictlyAscending(positions)
    requires forall p :: p in positions ==> KeyAt(p) in db.table && start <= KeyAt(p).start < end
    ensures Ordered(RowsAt(db.table, positions), start, end)
    ensures forall row :: row in RowsAt(db.table, positions) ==>
              row.Sound() && (row.quality == Valid ==> row.value.value < VALUE_BOUND)
  {
    var rows := RowsAt(db.table, positions);
    forall i | 0 <= i < |rows|
      ensures rows[i].Sound() && start <= rows[i].start && rows[i].end <= end
      ensures Positions(rows)[i] == positions[i]
      ensures rows[i].quality == Valid ==> rows[i].value.value < VALUE_BOUND
    {
      assert positions[i] in positions;
      KeyAtPosition(positions[i]);
      AlignedEnd(rows[i].start, end);
    }
  }

  lemma AlignedEnd(start: int, end: int)
    requires start % QUARTER == 0 && end % QUARTER == 0 && start < end
    ensures start + QUARTER <= end
  {
  }

  lemma {:induction false} VisibleInOrder(rows: seq<Row>, start: int, end: int)
    requires Ordered(rows, start, end)
    ensures Ordered(Visible(rows), start, end)
  {
    if rows != [] {
      HeadInOrder(rows, start, end);
      var rest := Visible(rows[1..]);
      VisibleInOrder(rows[1..], start, end);
      forall v | v in rest ensures Position(rows[0].Id()) < Position(v.Id()) { VisibleMembers(rows[1..], v); }
      if rows[0].quality != Invalid {
        PrependInOrder(rows[0], rest, start, end);
      }
    }
  }

  lemma HeadInOrder(rows: seq<Row>, start: int, end: int)
    requires Ordered(rows, start, end) && rows != []
    ensures Ordered(rows[1..], start, end)
    ensures forall v :: v in rows[1..] ==> Position(rows[0].Id()) < Position(v.Id())
  {
    var p := Positions(rows);
    assert forall i :: 0 <= i < |rows| - 1 ==> rows[1..][i] == rows[i + 1] && Positions(rows[1..])[i] == p[i + 1];
    forall v | v in rows[1..] ensures Position(rows[0].Id()) < Position(v.Id()) {
      var i :| 0 <= i < |rows| - 1 && rows[1..][i] == v;
      assert p[0] < p[i + 1];
    }
  }

  lemma PrependInOrder(item: Row, rows: seq<Row>, start: int, end: int)
    requires Ordered(rows, start, end) && start <= item.start && item.end <= end
    requires forall v :: v in rows ==> Position(item.Id()) < Position(v.Id())
    ensures Ordered([item] + rows, start, end)
  {
    var all := [item] + rows;
    assert forall i :: 1 <= i < |all| ==> all[i] == rows[i - 1] && Positions(all)[i] == Positions(rows)[i - 1];
  }

  lemma VisibleParse(rows: seq<Row>)
    requires forall row :: row in rows ==> row.Sound() && (row.quality == Valid ==> row.value.value < VALUE_BOUND)
    ensures forall row :: row in Visible(rows) ==>
              && row.start < row.end
              && (row.quality == Missing ==> row.value.None?)
              && (row.quality == Valid ==> row.value.Some? && 0 <= row.value.value < VALUE_BOUND)
              && row.quality != Invalid
  {
    forall row | row in Visible(rows) ensures row in rows && row.quality != Invalid { VisibleMembers(rows, row); }
  }

  lemma ReadableSlice(db: Db, start: int, end: int, from: nat, to: nat)
    requires Readable(db, start, end) && from <= to <= |Listing(db.table, start, end)|
    ensures InOrder(Visible(RowsAt(db.table, Listing(db.table, start, end)[from..to])), start, end)
    ensures forall row :: row in RowsAt(db.table, Listing(db.table, start, end)[from..to]) ==>
              row.Sound() && (row.quality == Valid ==> row.value.value < VALUE_BOUND)
  {
    var listing := Listing(db.table, start, end);
    forall p | p in listing[from..to] ensures p in listing {
    }
    ReadableRows(db, start, end, listing[from..to]);
    VisibleInOrder(RowsAt(db.table, listing[from..to]), start, end);
    InOrderMeans(Visible(RowsAt(db.table, listing[from..to])), start, end);
  }

  lemma PageParses(db: Db, start: int, end: int, k: nat)
    requires Readable(db, start, end) && k <= |Listing(db.table, start, end)|
    ensures Parses(PageAfter(db, start, end, k))
  {
    var listing := Listing(db.table, start, end);
    ReadableSlice(db, start, end, k, PageEnd(listing, k));
    VisibleParse(RowsAt(db.table, listing[k..PageEnd(listing, k)]));
  }

  /** None of the client's checks rejects what a readable range contains. */
  lemma PageAccepted(db: Db, start: int, end: int, n: nat)
    requires Readable(db, start, end) && MoreToRead(db, start, end, n)
    ensures 1000 * n <= |Listing(db.table, start, end)| <= 11520
    ensures Parses(PageAfter(db, start, end, 1000 * n))
    ensures InOrder(After(db, start, end, n + 1).values, start, end)
    ensures |After(db, start, end, n + 1).values| <= 11520 && |After(db, start, end, n + 1).missing| <= 11520
  {
    Capacity(db.table, start, end);
    PageParses(db, start, end, 1000 * n);
    ReadableSlice(db, start, end, 0, RowsRead(|Listing(db.table, start, end)|, n + 1));
  }

  lemma Refused(here: Db, start: int, end: int, cursor: Option<Cursor>)
    requires || here.metadata.None? || !ValidRange(start, end)
             || (cursor.Some? && cursor.value.revision != here.metadata.value.revision)
    ensures Answer(here, start, end, MAX_LIMIT, cursor).Failure?
  {
  }

  /** A request continues the listing of the first view, or it is refused. */
  lemma RequestOutcome(db: Db, here: Db, start: int, end: int, n: nat)
    requires db.metadata.Some? && SoundTable(db.table) && Agree(db, here) && MoreToRead(db, start, end, n)
    requires n == 0 ==> here == db
    ensures var answer := Answer(here, start, end, MAX_LIMIT, After(db, start, end, n).cursor);
            && 1000 * n <= |Listing(db.table, start, end)|
            && (answer.Success? ==>
                  && ValidRange(start, end) && here.metadata == db.metadata
                  && answer.value == PageAfter(db, start, end, 1000 * n).(lastAttempt := here.lastAttempt))
            && (answer.Failure? ==> !ValidRange(start, end) || !SameView(db, Some(here)))
  {
    var cursor := After(db, start, end, n).cursor;
    if ValidRange(start, end) && here.metadata.Some? && here.metadata.value.revision == db.metadata.value.revision {
      AnswerContinues(here, start, end, 1000 * n);
    } else {
      Refused(here, start, end, cursor);
    }
  }

  function PageMetadata(reply: Reply): (Metadata, Option<int>, Counts, int, int) {
    (reply.metadata, reply.lastAttempt, reply.completeness, reply.start, reply.end)
  }

  /** One request of the loop. `db` is the view of request 0 and `here` what this request reaches. */
  method FetchPage(here: Option<Db>, ghost db: Db, n: nat, start: int, end: int, state: Progress)
    returns (r: Result<Progress, ClientError>)
    requires db.metadata.Some? && SoundTable(db.table) && MoreToRead(db, start, end, n)
    requires here.Some? ==> Agree(db, here.value) && (n == 0 ==> here.value == db)
    requires state == After(db, start, end, n) && InOrder(state.values, start, end) && Decimals(state.values)
    ensures r.Success? ==> r.value == After(db, start, end, n + 1) && InOrder(r.value.values, start, end)
    ensures r.Success? ==> Decimals(r.value.values)
    ensures r.Success? ==> SameView(db, here) && ValidRange(start, end)
    ensures Readable(db, start, end) ==> (r.Success? <==> SameView(db, here))
  {
    if here.None? {
      return Failure(RequestFailed);
    }
    var answer := Answer(here.value, start, end, MAX_LIMIT, state.cursor);
    RequestOutcome(db, here.value, start, end, n);
    if answer.Failure? {
      return Failure(RequestFailed);
    }
    var reply := answer.value;
    ghost var page := PageAfter(db, start, end, 1000 * n);
    PageCollected(db, start, end, n);
    if Readable(db, start, end) {
      PageAccepted(db, start, end, n);
    }
    if !Parses(reply) {
      return Failure(InvalidPage);
    }
    if reply.start != start || reply.end != end {
      return Failure(RangeMismatch);
    }
    if state.first.Some? && PageMetadata(reply) != PageMetadata(state.first.value) {
      return Failure(MetadataChanged);
    }
    var appended := AppendValues(state.values, reply.values, start, end);
    if appended.Failure? {
      return Failure(appended.error);
    }
    if |appended.value| > MAX_COMBINED_ITEMS || |state.missing + reply.missing| > MAX_COMBINED_ITEMS {
      return Failure(TooManyMeasurements);
    }
    r := Success(Progress(reply.next, if state.first.None? then Some(reply) else state.first,
                          appended.value, state.missing + reply.missing));
  }

  /** The position of the last row of n full pages. */
  ghost function LastRead(listing: seq<int>, n: nat): Option<int> {
    if n == 0 || 1000 * n > |listing| then None else Some(listing[1000 * n - 1])
  }

  /** Every cursor used so far lies within the rows already read. */
  ghost predicate Behind(seen: set<Cursor>, last: Option<int>) {
    if last.None? then seen == {} else forall c :: c in seen ==> Position(c.after) <= last.value
  }

  lemma BehindGrows(seen: set<Cursor>, listing: seq<int>, n: nat, next: Cursor)
    requires StrictlyAscending(listing) && Behind(seen, LastRead(listing, n)) && 1000 * (n + 1) <= |listing|
    requires Position(next.after) == listing[1000 * (n + 1) - 1]
    ensures next !in seen && Behind(seen + {next}, LastRead(listing, n + 1))
  {
  }

  lemma NextCursorIsNew(db: Db, start: int, end: int, n: nat, seen: set<Cursor>)
    requires db.metadata.Some? && Behind(seen, LastRead(Listing(db.table, start, end), n))
    requires MoreToRead(db, start, end, n + 1)
    ensures var next := After(db, start, end, n + 1).cursor;
            next.Some? && next.value !in seen && Behind(seen + {next.value}, LastRead(Listing(db.table, start, end), n + 1))
  {
    var listing := Listing(db.table, start, end);
    KeyAtPosition(listing[1000 * (n + 1) - 1]);
    BehindGrows(seen, listing, n, CursorAfter(db, start, end, 1000 * (n + 1)).value);
  }

  lemma LastPage(db: Db, start: int, end: int)
    requires db.metadata.Some? && ValidRange(start, end)
    ensures var last := After(db, start, end, PagesNeeded(db, start, end));
            && last.first.Some?
            && Complete(last.first.value.completeness, last.values, last.missing)
            && SnapshotOf(db, start, end)
            == Snapshot(last.first.value.metadata, last.first.value.lastAttempt, last.first.value.completeness,
                        start, end, last.values, last.missing)
  {
    var listing := Listing(db.table, start, end);
    assert listing[..|listing|] == listing;
    CompletenessAgrees(db.table, start, end);
  }

  lemma PageCount(db: Db, start: int, end: int, n: nat)
    requires db.metadata.Some? && MoreToRead(db, start, end, n)
    ensures n < PagesNeeded(db, start, end)
    ensures After(db, start, end, n + 1).cursor.None? <==> n + 1 == PagesNeeded(db, start, end)
    ensures After(db, start, end, n + 1).cursor.Some? ==> MoreToRead(db, start, end, n + 1)
  {
  }

  lemma NotAllServed(db: Db, served: seq<Option<Db>>, n: nat, needed: nat)
    requires n < needed && !(n < |served| && SameView(db, served[n]))
    ensures !SameViews(db, served, needed)
  {
  }

  /** After n pages, all of the view `db`: the client holds them and its cursors lie behind. */
  ghost predicate Reading(db: Db, served: seq<Option<Db>>, start: int, end: int, n: nat, state: Progress, seen: set<Cursor>)
    requires db.metadata.Some?
  {
    && MoreToRead(db, start, end, n) && state == After(db, start, end, n)
    && InOrder(state.values, start, end) && Decimals(state.values)
    && Behind(seen, LastRead(Listing(db.table, start, end), n)) && SameViews(db, served, n)
  }

  lemma NextReading(db: Db, served: seq<Option<Db>>, start: int, end: int, n: nat, before: Progress, seen: set<Cursor>,
                    state: Progress)
    requires db.metadata.Some? && Reading(db, served, start, end, n, before, seen)
    requires n < |served| && SameView(db, served[n])
    requires state == After(db, start, end, n + 1) && InOrder(state.values, start, end) && Decimals(state.values)
    ensures state.cursor.None? ==> n + 1 == PagesNeeded(db, start, end) && SameViews(db, served, n + 1)
    ensures state.cursor.Some? ==>
              state.cursor.value !in seen && Reading(db, served, start, end, n + 1, state, seen + {state.cursor.value})
  {
    PageCount(db, start, end, n);
    SameViewsGrow(db, served, n);
    if state.cursor.Some? {
      NextCursorIsNew(db, start, end, n, seen);
    }
  }

  /** What the page loop may end with: all pages of the view, or a failure that only a request of another view explains. */
  ghost predicate Finished(db: Db, served: seq<Option<Db>>, start: int, end: int, r: Result<Progress, ClientError>)
    requires db.metadata.Some?
  {
    var needed := PagesNeeded(db, start, end);
    && (r.Success? ==> ValidRange(start, end) && r.value == After(db, start, end, needed) && SameViews(db, served, needed))
    && (r.Success? ==> InOrder(r.value.values, start, end) && Decimals(r.value.values))
    && (r.Failure? && Readable(db, start, end) ==> !SameViews(db, served, needed))
  }

  /** How far the client has come: Some(n) when what it holds are n pages, all of the view `db`. */
  ghost function Stage(db: Db, served: seq<Option<Db>>, start: int, end: int, n: nat, state: Progress, seen: set<Cursor>)
    : Option<nat>
  {
    if db.metadata.Some? && SoundTable(db.table) && |served| > 0 && served[0] == Some(db) && AgreeAll(db, served)
       && Reading(db, served, start, end, n, state, seen) then Some(n)
    else None
  }

  /** The body of the loop: request n, and the check that its cursor is new. */
  method TurnPage(start: int, end: int, served: seq<Option<Db>>, ghost db: Db, n: nat, state: Progress, seen: set<Cursor>)
    returns (r: Result<Progress, ClientError>, seen': set<Cursor>)
    requires db.metadata.Some? && Stage(db, served, start, end, n, state, seen) == Some(n)
    ensures if r.Success? && r.value.cursor.Some? then Stage(db, served, start, end, n + 1, r.value, seen') == Some(n + 1)
            else Finished(db, served, start, end, r)
  {
    seen' := seen;
    r := FetchPage(if n < |served| then served[n] else None, db, n, start, end, state);
    if r.Failure? {
      PageCount(db, start, end, n);
      if Readable(db, start, end) {
        NotAllServed(db, served, n, PagesNeeded(db, start, end));
      }
      return;
    }
    NextReading(db, served, start, end, n, state, seen, r.value);
    if r.value.cursor.Some? {
      if r.value.cursor.value in seen {
        return Failure(CursorLoop), seen;
      }
      seen' := seen + {r.value.cursor.value};
    }
  }

  lemma StartStage(db: Db, served: seq<Option<Db>>, start: int, end: int)
    requires |served| > 0 && served[0] == Some(db)
    requires db.metadata.Some? && SoundTable(db.table) && AgreeAll(db, served)
    ensures Stage(db, served, start, end, 0, START, {}) == Some(0)
  {
    StartIsAfterNothing(db, start, end);
  }

  lemma LastStage(db: Db, served: seq<Option<Db>>, start: int, end: int, state: Progress, seen: set<Cursor>)
    requires db.metadata.Some? && Stage(db, served, start, end, MAX_PAGES, state, seen) == Some(MAX_PAGES)
    ensures Finished(db, served, start, end, Failure(TooManyPages))
  {
    if Readable(db, start, end) {
      PagesNeverRunOut(db, start, end);
    }
  }

  /** The loop over the pages; `db` is the view of request 0. */
  method ReadPages(start: int, end: int, served: seq<Option<Db>>, ghost db: Db)
    returns (r: Result<Progress, ClientError>)
    requires db.metadata.Some? && Stage(db, served, start, end, 0, START, {}) == Some(0)
    ensures Finished(db, served, start, end, r)
  {
    var state := START;
    var seen: set<Cursor> := {};
    var page := 0;
    while page < MAX_PAGES
      invariant page <= MAX_PAGES && Stage(db, served, start, end, page, state, seen) == Some(page)
    {
      r, seen := TurnPage(start, end, served, db, page, state, seen);
      if r.Failure? || r.value.cursor.None? {
        return;
      }
      state := r.value;
      page := page + 1;
    }
    LastStage(db, served, start, end, state, seen);
    r := Failure(TooManyPages);
  }

  /**
   * Follow the pages of a range. `served[n]` is the database that request n reaches, None when the request fails.
   */
  method ReadSnapshot(start: int, end: int, served: seq<Option<Db>>) returns (r: Result<Snapshot, ClientError>)
    requires |served| > 0 && served[0].Some? ==>
               SoundTable(served[0].value.table) && AgreeAll(served[0].value, served)
    ensures r.Success? ==>
              && |served| > 0 && served[0].Some? && served[0].value.metadata.Some?
              && r.value == SnapshotOf(served[0].value, start, end)
              && SameViews(served[0].value, served, PagesNeeded(served[0].value, start, end))
    ensures r.Success? ==> Ordered(r.value.values, start, end) && Decimals(r.value.values)
    ensures |served| > 0 && served[0].Some? && Readable(served[0].value, start, end) ==>
              (r.Success? <==> SameViews(served[0].value, served, PagesNeeded(served[0].value, start, end)))
  {
    if |served| == 0 || served[0].None? || served[0].value.metadata.None? {
      return Failure(RequestFailed);
    }
    StartStage(served[0].value, served, start, end);
    var read := ReadPages(start, end, served, served[0].value);
    if read.Failure? {
      return Failure(read.error);
    }
    LastPage(served[0].value, start, end);
    InOrderMeans(read.value.values, start, end);
    var first := read.value.first.value;
    if !Complete(first.completeness, read.value.values, read.value.missing) {
      return Failure(ContradictoryCompleteness);
    }
    r := Success(Snapshot(first.metadata, first.lastAttempt, first.completeness, start, end,
                          read.value.values, read.value.missing));
  }
}
