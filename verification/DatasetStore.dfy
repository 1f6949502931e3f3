/** The Collector's SQLite store of measurements: commits replace rows by key, reads are pages of one transaction. */
module DatasetStore {
  import opened Prelude
  import opened Measurements

  type Table = map<Key, Row>

  datatype SourceStatus = Ok | Partial

  datatype Counts = Counts(expected: nat, valid: nat, missing: nat, invalid: nat)

  datatype Metadata = Metadata(revision: string, dataTimestamp: Option<int>, lastSuccess: int,
                               sourceStatus: SourceStatus, counts: Counts)

  /** The database as one transaction sees it. */
  datatype Db = Db(table: Table, metadata: Option<Metadata>, lastAttempt: Option<int>)

  datatype Page = Page(metadata: Metadata, lastAttempt: Option<int>, counts: Counts, rows: seq<Row>)

  datatype StoreError = InvalidDataset | InvalidCursorPosition

  /** Every row sits under its own key and satisfies the constraints of the table. */
  ghost predicate SoundTable(table: Table) {
    forall k :: k in table ==> table[k].Id() == k && table[k].Sound()
  }

  /** The metadata row describes the table it was committed with. */
  ghost predicate Consistent(db: Db) {
    && SoundTable(db.table)
    && (db.metadata.Some? ==>
          && db.metadata.value.counts == Tally(db.table, db.table.Keys)
          && db.metadata.value.dataTimestamp == DataTimestamp(db.table))
  }

  // Aggregates

  function WithQuality(table: Table, keys: set<Key>, quality: Quality): set<Key>
    requires keys <= table.Keys
  {
    set k | k in keys && table[k].quality == quality
  }

  /** COUNT(*) with the sums of the three qualities. */
  function Tally(table: Table, keys: set<Key>): (c: Counts)
    requires keys <= table.Keys
    ensures c.valid + c.missing + c.invalid == c.expected == |keys|
  {
    var valid := WithQuality(table, keys, Valid);
    var missing := WithQuality(table, keys, Missing);
    var invalid := WithQuality(table, keys, Invalid);
    assert keys == valid + missing + invalid;
    Counts(|keys|, |valid|, |missing|, |invalid|)
  }

  function ValidEnds(table: Table): set<int> {
    set k | k in table && table[k].quality == Valid :: table[k].end
  }

  /** MAX of the ends of the valid intervals. */
  function DataTimestamp(table: Table): (t: Option<int>)
    ensures t.None? ==> forall k :: k in table ==> table[k].quality != Valid
    ensures t.Some? ==> exists k :: k in table && table[k].quality == Valid && table[k].end == t.value
    ensures t.Some? ==> forall k :: k in table && table[k].quality == Valid ==> table[k].end <= t.value
  {
    var ends := ValidEnds(table);
    assert forall k :: k in table && table[k].quality == Valid ==> table[k].end in ends;
    if ends == {} then None else Some(Greatest(ends))
  }

  // Writing

  /** INSERT ... ON CONFLICT DO UPDATE of the records in order: the last record of a key stays. */
  function Upserted(table: Table, records: seq<Row>): Table {
    if records == [] then table
    else
      var last := records[|records| - 1];
      Upserted(table, records[..|records| - 1])[last.Id() := last]
  }

  function Committed(db: Db, records: seq<Row>, collectedAt: int, revision: string): Db {
    var table := Upserted(db.table, records);
    var counts := Tally(table, table.Keys);
    var status := if counts.missing == 0 && counts.invalid == 0 then Ok else Partial;
    Db(table, Some(Metadata(revision, DataTimestamp(table), collectedAt, status, counts)), db.lastAttempt)
  }

  /** What a commit leaves under a key: its last record there, else the row that was there. */
  lemma {:induction false} UpsertedRows(table: Table, records: seq<Row>, k: Key)
    ensures (exists r :: r in records && r.Id() == k) ==>
              k in Upserted(table, records) && Upserted(table, records)[k] in records && Upserted(table, records)[k].Id() == k
    ensures (forall r :: r in records ==> r.Id() != k) ==>
              (k in Upserted(table, records) <==> k in table) &&
              (k in table ==> Upserted(table, records)[k] == table[k])
  {
    if records != [] {
      var n := |records| - 1;
      UpsertedRows(table, records[..n], k);
      assert records == records[..n] + [records[n]];
    }
  }

  /** Among several records of one key the last one stays. */
  lemma {:induction false} LastRecordStays(table: Table, records: seq<Row>, i: nat)
    requires i < |records| && forall j :: i < j < |records| ==> records[j].Id() != records[i].Id()
    ensures records[i].Id() in Upserted(table, records) && Upserted(table, records)[records[i].Id()] == records[i]
  {
    if i < |records| - 1 {
      LastRecordStays(table, records[..|records| - 1], i);
    }
  }

  lemma {:induction false} UpsertedIsSound(table: Table, records: seq<Row>)
    requires SoundTable(table) && forall r :: r in records ==> r.Sound()
    ensures SoundTable(Upserted(table, records))
  {
    if records != [] {
      var n := |records| - 1;
      assert records[n] in records;
      UpsertedIsSound(table, records[..n]);
    }
  }

  lemma CommitIsConsistent(db: Db, records: seq<Row>, collectedAt: int, revision: string)
    requires Consistent(db) && forall r :: r in records ==> r.Sound()
    ensures Consistent(Committed(db, records, collectedAt, revision))
  {
    UpsertedIsSound(db.table, records);
  }

  /** The metadata of a commit: its own revision and time, and partial exactly when some row of the table is not valid. */
  lemma CommitDescribes(db: Db, records: seq<Row>, collectedAt: int, revision: string)
    ensures var after := Committed(db, records, collectedAt, revision);
            && after.metadata.Some? && after.lastAttempt == db.lastAttempt
            && after.metadata.value.revision == revision && after.metadata.value.lastSuccess == collectedAt
            && (after.metadata.value.sourceStatus == Ok <==> forall k :: k in after.table ==> after.table[k].quality == Valid)
  {
    var table := Upserted(db.table, records);
    var missing, invalid := WithQuality(table, table.Keys, Missing), WithQuality(table, table.Keys, Invalid);
    forall k | k in table
      ensures table[k].quality != Valid <==> k in missing || k in invalid
    {
    }
    if missing != {} { assert AnyOf(missing) in table; }
    if invalid != {} { assert AnyOf(invalid) in table; }
  }

  // Reading

  /** The positions of the rows starting in [start, end). */
  function PositionsIn(table: Table, start: int, end: int): (s: set<int>)
    ensures forall p :: p in s <==> KeyAt(p) in table && start <= KeyAt(p).start < end
  {
    var s := set k | k in table && start <= k.start < end :: Position(k);
    assert forall p :: p in s <==> KeyAt(p) in table && start <= KeyAt(p).start < end by {
      forall p ensures p in s <==> KeyAt(p) in table && start <= KeyAt(p).start < end {
        KeyAtPosition(p);
      }
    }
    s
  }

  function RowsAt(table: Table, positions: seq<int>): (rows: seq<Row>)
    requires forall p :: p in positions ==> KeyAt(p) in table
    ensures |rows| == |positions|
    ensures forall i :: 0 <= i < |rows| ==> rows[i] == table[KeyAt(positions[i])]
  {
    seq(|positions|, i requires 0 <= i < |positions| => table[KeyAt(positions[i])])
  }

  /** The rows starting in [start, end), ordered by (start, channel). */
  function RowsIn(table: Table, start: int, end: int): seq<Row> {
    RowsAt(table, Ascending(PositionsIn(table, start, end)))
  }

  function KeysIn(table: Table, start: int, end: int): set<Key> {
    set k | k in table && start <= k.start < end
  }

  /** The positions of the range that lie after the given key. */
  function PositionsAfter(table: Table, start: int, end: int, after: Option<Key>): (s: set<int>)
    ensures s <= PositionsIn(table, start, end)
  {
    match after
    case None => PositionsIn(table, start, end)
    case Some(key) => set p | p in PositionsIn(table, start, end) && p > Position(key)
  }

  function Limited(listing: seq<int>, limit: nat): (l: seq<int>)
    ensures forall p :: p in l ==> p in listing
  {
    if |listing| > limit then listing[..limit] else listing
  }

  function PageRows(table: Table, start: int, end: int, limit: nat, after: Option<Key>): seq<Row> {
    RowsAt(table, Limited(Ascending(PositionsAfter(table, start, end, after)), limit))
  }

  /** One read transaction: at most limit + 1 rows of the range, those after the given key only. */
  function ReadMeasurements(db: Db, start: int, end: int, limit: nat, after: Option<Key>): Result<Option<Page>, StoreError> {
    if db.metadata.None? then Success(None)
    else if after.Some? && !(after.value in db.table && start <= after.value.start < end) then
      Failure(InvalidCursorPosition)
    else
      Success(Some(Page(db.metadata.value, db.lastAttempt, Tally(db.table, KeysIn(db.table, start, end)),
                        PageRows(db.table, start, end, limit + 1, after))))
  }

  /** Counting keys and listing rows agree, and adjacent windows add up. */
  lemma WindowSizes(table: Table, a: int, b: int, c: int)
    requires a <= b <= c
    ensures |KeysIn(table, a, b)| + |KeysIn(table, b, c)| == |KeysIn(table, a, c)| <= |table|
    ensures |RowsIn(table, a, b)| == |KeysIn(table, a, b)|
  {
    assert KeysIn(table, a, b) + KeysIn(table, b, c) == KeysIn(table, a, c);
    SubsetSize(KeysIn(table, a, c), table.Keys);
    ListedSize(table, a, b);
  }

  lemma ListedSize(table: Table, a: int, b: int)
    ensures |PositionsIn(table, a, b)| == |KeysIn(table, a, b)|
  {
    forall k | k in KeysIn(table, a, b) ensures Position(k) in PositionsIn(table, a, b) { PositionIsOrder(k, k); }
    forall p | p in PositionsIn(table, a, b) ensures Position(KeyAt(p)) == p { KeyAtPosition(p); }
    SameSize(KeysIn(table, a, b), PositionsIn(table, a, b), k => Position(k), p => KeyAt(p));
  }

  /** One exported profile, as the CSV parser hands it over. */
  datatype Profile = Profile(channel: Channel, intervals: seq<Row>)

  /** The store object; every method is one transaction. */
  class NormalizedDatasetStore {
    var table: Table
    var metadata: Option<Metadata>
    var lastAttempt: Option<int>

    function Current(): Db
      reads this
    {
      Db(table, metadata, lastAttempt)
    }

    constructor ()
      ensures Current() == Db(map[], None, None)
    {
      table, metadata, lastAttempt := map[], None, None;
    }

    method RecordAttempt(attemptedAt: int)
      modifies this
      ensures Current() == old(Current()).(lastAttempt := Some(attemptedAt))
    {
      lastAttempt := Some(attemptedAt);
    }

    method CommitDataset(consumption: Profile, production: Profile, collectedAt: int, revision: string)
      returns (r: Result<Metadata, StoreError>)
      requires forall row :: row in consumption.intervals + production.intervals ==> row.Sound()
      modifies this
      ensures r.Failure? <==>
                || consumption.channel != GridImport || production.channel != GridExport
                || !("ds_" <= revision && 3 < |revision| <= 80)
                || consumption.intervals + production.intervals == []
      ensures r.Failure? ==> r.error == InvalidDataset && Current() == old(Current())
      ensures r.Success? ==>
                && Current() == Committed(old(Current()), consumption.intervals + production.intervals, collectedAt, revision)
                && metadata == Some(r.value)
      ensures old(Consistent(Current())) ==> Consistent(Current())
    {
      if consumption.channel != GridImport || production.channel != GridExport {
        return Failure(InvalidDataset);
      }
      if !("ds_" <= revision && 3 < |revision| <= 80) {
        return Failure(InvalidDataset);
      }
      var records := consumption.intervals + production.intervals;
      if records == [] {
        return Failure(InvalidDataset);
      }
      ghost var before := Current();
      var i := 0;
      while i < |records|
        invariant 0 <= i <= |records|
        invariant table == Upserted(before.table, records[..i])
        invariant metadata == before.metadata && lastAttempt == before.lastAttempt
      {
        assert records[..i + 1][..i] == records[..i];
        table := table[records[i].Id() := records[i]];
        i := i + 1;
      }
      assert records[..i] == records;
      var totals := Tally(table, table.Keys);
      metadata := Some(Metadata(revision, DataTimestamp(table), collectedAt,
                                if totals.missing == 0 && totals.invalid == 0 then Ok else Partial, totals));
      r := Success(metadata.value);
      if Consistent(before) {
        CommitIsConsistent(before, records, collectedAt, revision);
      }
    }
  }
}
