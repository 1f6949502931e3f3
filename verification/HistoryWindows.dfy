/** Fetching hours in windows: the whole history of one revision, and the correction of recent days (statistics.py). */
module HistoryWindows {
  import opened Prelude
  import opened Measurements
  import opened Zone
  import opened DatasetStore
  import opened Pagination
  import opened DatasetHistory
  import opened HourlyAggregation

  const HISTORY_WINDOW: int := 5_184_000
  const RECENT_CORRECTION: int := 604_800
  const MAX_HISTORY_WINDOWS: nat := 128
  const MAX_HISTORY_EXPECTED_COUNT: int := 1_536_000

  datatype Status = Status(revision: string, dataTimestamp: Option<int>, lastSuccess: Option<int>,
                           sourceStatus: SourceStatus, expected: int)

  function StatusOf(db: Db): Status
    requires db.metadata.Some?
  {
    var m := db.metadata.value;
    Status(m.revision, m.dataTimestamp, Some(m.lastSuccess), m.sourceStatus, m.counts.expected)
  }

  function CeilHour(t: int): int {
    if t == HourOf(t) then t else HourOf(t) + HOUR
  }

  /** The later of the data's hour and the Prague midnight that follows the last success. */
  function UpperBound(zone: Zone, dataTimestamp: int, lastSuccess: int): int {
    var nextMidnight := Midnight(zone, Wall(zone, lastSuccess) / DAY + 1);
    if CeilHour(dataTimestamp) < nextMidnight then nextMidnight else CeilHour(dataTimestamp)
  }

  lemma BoundsAreHours(zone: Zone, dataTimestamp: int, lastSuccess: int)
    ensures UpperBound(zone, dataTimestamp, lastSuccess) % 3600 == 0
    ensures UpperBound(zone, dataTimestamp, lastSuccess) >= CeilHour(dataTimestamp)
  {
    CeilIsHour(dataTimestamp);
    MidnightIsHour(zone, Wall(zone, lastSuccess) / DAY + 1);
  }

  lemma CeilIsHour(t: int)
    ensures CeilHour(t) % 3600 == 0 && CeilHour(t) - 3600 < t <= CeilHour(t)
  {
  }

  lemma MidnightIsHour(zone: Zone, day: int)
    ensures Midnight(zone, day) % 3600 == 0
  {
    assert Midnight(zone, day) == 3600 * (24 * day - if Offset(zone, 86400 * day - 7200) == 3600 then 1 else 2);
  }

  /** The bound leaves out nothing of the Prague day of the last success, nor of any earlier day. */
  lemma BoundCoversLocalDay(zone: Zone, dataTimestamp: int, lastSuccess: int, t: int)
    requires EuropeanRule(zone)
    ensures dataTimestamp <= UpperBound(zone, dataTimestamp, lastSuccess)
    ensures Wall(zone, t) / DAY <= Wall(zone, lastSuccess) / DAY ==> t < UpperBound(zone, dataTimestamp, lastSuccess)
    ensures var end := UpperBound(zone, dataTimestamp, lastSuccess);
            end == CeilHour(dataTimestamp) || Wall(zone, end) == 86400 * (Wall(zone, lastSuccess) / DAY + 1)
  {
    CeilIsHour(dataTimestamp);
    var next := Wall(zone, lastSuccess) / DAY + 1;
    MidnightSeparates(zone, next, t);
    MidnightSeparates(zone, next, Midnight(zone, next));
    EarlierDay(Wall(zone, t), next);
  }

  lemma EarlierDay(local: int, day: int)
    ensures local / DAY < day <==> local < 86400 * day
  {
  }

  // The hours of a table

  function ValidStarts(table: Table, c: Channel): (s: set<int>)
    ensures forall t :: t in s <==> Key(c, t) in table && table[Key(c, t)].quality == Valid && table[Key(c, t)].value.Some?
  {
    var s := set k | k in table && k.channel == c && table[k].quality == Valid && table[k].value.Some? :: k.start;
    assert forall t :: Key(c, t) in table && table[Key(c, t)].quality == Valid && table[Key(c, t)].value.Some? ==> t in s;
    s
  }

  /** All valid readings of one channel in a table. */
  function TableReadings(table: Table, c: Channel): map<int, int> {
    map t | t in ValidStarts(table, c) :: table[Key(c, t)].value.value
  }

  /** The hours of a whole table: what every synchronisation is after. */
  function TableHours(table: Table): HourlyEnergy {
    PerChannel(HourlyOf(TableReadings(table, GridExport)), HourlyOf(TableReadings(table, GridImport)))
  }

  function Within(m: map<int, int>, start: int, end: int): map<int, int> {
    map t | t in m && start <= t < end :: m[t]
  }

  function Outside(m: map<int, int>, start: int, end: int): map<int, int> {
    map t | t in m && !(start <= t < end) :: m[t]
  }

  ghost predicate HasReading(rows: seq<Row>, c: Channel, t: int) {
    exists i :: 0 <= i < |rows| && rows[i].channel == c && rows[i].start == t && rows[i].quality == Valid && rows[i].value.Some?
  }

  lemma HasReadingSplits(rows: seq<Row>, c: Channel, t: int)
    requires rows != []
    ensures var last := rows[|rows| - 1];
            HasReading(rows, c, t) <==> HasReading(rows[..|rows| - 1], c, t)
                                        || (last.channel == c && last.start == t && last.quality == Valid && last.value.Some?)
  {
    var n := |rows| - 1;
    if HasReading(rows, c, t) {
      var i :| 0 <= i < |rows| && rows[i].channel == c && rows[i].start == t && rows[i].quality == Valid && rows[i].value.Some?;
      assert i < n ==> rows[..n][i] == rows[i];
    }
    if HasReading(rows[..n], c, t) {
      var i :| 0 <= i < n && rows[..n][i].channel == c && rows[..n][i].start == t && rows[..n][i].quality == Valid
               && rows[..n][i].value.Some?;
      assert rows[i] == rows[..n][i];
    }
  }

  lemma {:induction false} ReadingsComeFromRows(rows: seq<Row>, c: Channel, t: int)
    ensures t in Readings(rows, c) <==> HasReading(rows, c, t)
    ensures t in Readings(rows, c) ==>
              exists i :: 0 <= i < |rows| && rows[i].channel == c && rows[i].start == t && rows[i].quality == Valid
                          && rows[i].value == Some(Readings(rows, c)[t])
  {
    if rows != [] {
      var n := |rows| - 1;
      var front := rows[..n];
      ReadingsComeFromRows(front, c, t);
      if HasReading(front, c, t) {
        var i :| 0 <= i < n && front[i].channel == c && front[i].start == t && front[i].quality == Valid
                 && front[i].value == Some(Readings(front, c)[t]);
        assert rows[i] == front[i];
      }
      HasReadingSplits(rows, c, t);
    }
  }

  lemma SnapshotReading(db: Db, start: int, end: int, c: Channel, t: int)
    requires db.metadata.Some? && SoundTable(db.table)
    ensures var r := Readings(SnapshotOf(db, start, end).values, c);
            && (t in r <==> t in TableReadings(db.table, c) && start <= t < end)
            && (t in r ==> r[t] == TableReadings(db.table, c)[t])
  {
    SnapshotMeaning(db, start, end);
    ListedReading(db.table, SnapshotOf(db, start, end).values, start, end, c, t);
  }

  /** `values` lists the rows of the table in the range that are not invalid. */
  ghost predicate Lists(table: Table, values: seq<Row>, start: int, end: int) {
    forall row :: row in values <==>
      row.Id() in table && table[row.Id()] == row && start <= row.start < end && row.quality != Invalid
  }

  lemma ListedReading(table: Table, values: seq<Row>, start: int, end: int, c: Channel, t: int)
    requires SoundTable(table) && Lists(table, values, start, end)
    ensures var r := Readings(values, c);
            && (t in r <==> t in TableReadings(table, c) && start <= t < end)
            && (t in r ==> r[t] == TableReadings(table, c)[t])
  {
    ReadingsComeFromRows(values, c, t);
    if t in Readings(values, c) {
      var i :| 0 <= i < |values| && values[i].channel == c && values[i].start == t && values[i].quality == Valid
               && values[i].value == Some(Readings(values, c)[t]);
      assert values[i] in values && values[i].Id() == Key(c, t);
    }
    if t in TableReadings(table, c) && start <= t < end {
      var row := table[Key(c, t)];
      assert row in values;
      var i :| 0 <= i < |values| && values[i] == row;
      assert HasReading(values, c, t);
    }
  }

  /** The readings of a snapshot are those of the table, cut to the range. */
  lemma SnapshotReadings(db: Db, start: int, end: int, c: Channel)
    requires db.metadata.Some? && SoundTable(db.table)
    ensures Readings(SnapshotOf(db, start, end).values, c) == Within(TableReadings(db.table, c), start, end)
  {
    var r := Readings(SnapshotOf(db, start, end).values, c);
    var w := Within(TableReadings(db.table, c), start, end);
    forall t ensures t in r <==> t in w {
      SnapshotReading(db, start, end, c, t);
    }
    forall t | t in r && t in w ensures r[t] == w[t] {
      SnapshotReading(db, start, end, c, t);
    }
    SameMaps(r, w);
  }

  /** On whole hours, cutting the readings cuts the hours. */
  lemma HoursWithin(r: map<int, int>, start: int, end: int)
    requires start % 3600 == 0 && end % 3600 == 0
    ensures HourlyOf(Within(r, start, end)) == Within(HourlyOf(r), start, end)
  {
    var a, b := HourlyOf(Within(r, start, end)), Within(HourlyOf(r), start, end);
    forall h ensures h in a <==> h in b {
      HourWithin(r, start, end, h);
    }
    forall h | h in a && h in b ensures a[h] == b[h] {
      HourWithin(r, start, end, h);
    }
    SameMaps(a, b);
  }

  lemma HourWithin(r: map<int, int>, start: int, end: int, h: int)
    requires start % 3600 == 0 && end % 3600 == 0
    ensures h in HourlyOf(Within(r, start, end)) <==> h in HourlyOf(r) && start <= h < end
    ensures h in HourlyOf(Within(r, start, end)) ==> HourlyOf(Within(r, start, end))[h] == HourlyOf(r)[h]
  {
    HourlyAt(r, h);
    HourlyAt(Within(r, start, end), h);
    if h % 3600 == 0 && start <= h < end {
      WholeHour(h, end);
    }
  }

  lemma WholeHour(h: int, end: int)
    requires h % 3600 == 0 && end % 3600 == 0 && h < end
    ensures h + 3600 <= end
  {
  }

  lemma WithinMerges(m: map<int, int>, a: int, b: int, c: int)
    requires a <= b <= c
    ensures Within(m, b, c).Keys * Within(m, a, b).Keys == {}
    ensures Within(m, b, c) + Within(m, a, b) == Within(m, a, c)
  {
    var merged := Within(m, b, c) + Within(m, a, b);
    forall k ensures k in merged <==> k in Within(m, a, c) {
    }
    SameMaps(merged, Within(m, a, c));
  }

  // What a snapshot aggregates to

  /** No row of a snapshot is refused but for a start off the quarter-hour grid. */
  lemma SnapshotFault(db: Db, start: int, end: int, i: nat)
    requires db.metadata.Some? && SoundTable(db.table) && i < |SnapshotOf(db, start, end).values|
    ensures var values := SnapshotOf(db, start, end).values;
            FaultOf(values[..i], values[i]) == if values[i].start % QUARTER == 0 then None else Some(IntervalInvalid)
  {
    var values := SnapshotOf(db, start, end).values;
    SnapshotMeaning(db, start, end);
    assert values[i] in values;
    NotReadBefore(values, i);
  }

  lemma NotReadBefore(values: seq<Row>, i: nat)
    requires StrictlyAscending(Positions(values)) && i < |values|
    ensures values[i].start !in Readings(values[..i], values[i].channel)
  {
    ReadingsComeFromRows(values[..i], values[i].channel, values[i].start);
    assert forall j :: 0 <= j < i ==> Positions(values)[j] < Positions(values)[i];
  }

  ghost predicate OnGridIn(table: Table, start: int, end: int) {
    forall k :: k in table && start <= k.start < end ==> k.start % QUARTER == 0
  }

  lemma SnapshotAcceptable(db: Db, start: int, end: int)
    requires db.metadata.Some? && SoundTable(db.table) && OnGridIn(db.table, start, end)
    ensures Acceptable(SnapshotOf(db, start, end).values)
  {
    var values := SnapshotOf(db, start, end).values;
    SnapshotMeaning(db, start, end);
    forall i | 0 <= i < |values| ensures FaultOf(values[..i], values[i]).None? {
      assert values[i] in values;
      SnapshotFault(db, start, end, i);
    }
  }

  /** The hours are those of the table, cut to the range. */
  ghost predicate HoursOf(hours: HourlyEnergy, table: Table, start: int, end: int) {
    && hours.gridExport == Within(TableHours(table).gridExport, start, end)
    && hours.gridImport == Within(TableHours(table).gridImport, start, end)
  }

  lemma SnapshotHours(db: Db, start: int, end: int, hours: HourlyEnergy)
    requires db.metadata.Some? && SoundTable(db.table) && start % 3600 == 0 && end % 3600 == 0
    requires hours.gridExport == HourlyOf(Readings(SnapshotOf(db, start, end).values, GridExport))
    requires hours.gridImport == HourlyOf(Readings(SnapshotOf(db, start, end).values, GridImport))
    ensures HoursOf(hours, db.table, start, end)
  {
    SnapshotReadings(db, start, end, GridExport);
    SnapshotReadings(db, start, end, GridImport);
    HoursWithin(TableReadings(db.table, GridExport), start, end);
    HoursWithin(TableReadings(db.table, GridImport), start, end);
  }

  // The requests of one window

  ghost predicate Moments(run: seq<Op>, moments: seq<Option<nat>>) {
    forall n :: 0 <= n < |moments| && moments[n].Some? ==> moments[n].value <= |run|
  }

  /** What requests reach that arrive after moments[n] of the operations of a run, or get lost. */
  function Reached(run: seq<Op>, moments: seq<Option<nat>>): (view: seq<Option<Db>>)
    requires Moments(run, moments)
    ensures |view| == |moments|
    ensures forall n :: 0 <= n < |view| ==>
              view[n] == if moments[n].None? then None else Some(StateAt(run, moments[n].value))
  {
    seq(|moments|, n requires 0 <= n < |moments| => if moments[n].None? then None else Some(StateAt(run, moments[n].value)))
  }

  /** What the requests of a window reach: sound tables, one table for every revision, that of `db` for its own. */
  ghost predicate Coherent(db: Db, view: seq<Option<Db>>) {
    && (forall i :: 0 <= i < |view| && view[i].Some? ==> SoundTable(view[i].value.table) && Agree(db, view[i].value))
    && (|view| > 0 && view[0].Some? ==> AgreeAll(view[0].value, view))
  }

  /** Whatever a run of the store is and whenever requests arrive in it, what they reach is coherent. */
  lemma RunsAreCoherent(run: seq<Op>, m: nat, moments: seq<Option<nat>>)
    requires ValidRun(run) && m <= |run| && Moments(run, moments)
    ensures Consistent(StateAt(run, m)) && Coherent(StateAt(run, m), Reached(run, moments))
  {
    var view := Reached(run, moments);
    RunIsConsistent(run, m);
    forall n | 0 <= n < |view| && view[n].Some?
      ensures SoundTable(view[n].value.table) && Agree(StateAt(run, m), view[n].value)
    {
      RunIsConsistent(run, moments[n].value);
      RevisionNamesOneTable(run, m, moments[n].value);
    }
    if |view| > 0 && view[0].Some? {
      forall n | 0 <= n < |view| && view[n].Some? ensures Agree(view[0].value, view[n].value) {
        RevisionNamesOneTable(run, moments[0].value, moments[n].value);
      }
    }
  }

  /** All requests that the window needs reach one state of the store, which shows the revision of `db`. */
  ghost predicate WindowServed(db: Db, view: seq<Option<Db>>, start: int, end: int) {
    && |view| > 0 && view[0].Some? && view[0].value.metadata == db.metadata
    && SameViews(view[0].value, view, PagesNeeded(view[0].value, start, end))
  }

  function MetadataMatches(status: Status, m: Metadata): bool {
    && m.revision == status.revision && m.dataTimestamp == status.dataTimestamp
    && Some(m.lastSuccess) == status.lastSuccess && m.sourceStatus == status.sourceStatus
  }

  /** A window of the revision of `status`, as validated and aggregated hours with its count. */
  method FetchWindow(status: Status, ghost db: Db, view: seq<Option<Db>>, start: int, end: int)
    returns (r: Result<(HourlyEnergy, nat), StatisticsError>)
    requires db.metadata.Some? && SoundTable(db.table) && status == StatusOf(db) && Coherent(db, view)
    requires start % 3600 == 0 && end % 3600 == 0
    ensures r.Success? ==> HoursOf(r.value.0, db.table, start, end) && r.value.1 == |KeysIn(db.table, start, end)|
    ensures r.Failure? ==> r.error in {FetchFailed, MetadataInconsistent, IntervalInvalid}
    ensures Readable(db, start, end) ==> (r.Success? <==> WindowServed(db, view, start, end))
  {
    var fetched := ReadSnapshot(start, end, view);
    if fetched.Failure? {
      if WindowServed(db, view, start, end) && Readable(db, start, end) {
        assert Readable(view[0].value, start, end);
      }
      return Failure(FetchFailed);
    }
    var snapshot := fetched.value;
    if !MetadataMatches(status, snapshot.metadata) {
      return Failure(MetadataInconsistent);
    }
    assert Agree(db, view[0].value);
    ghost var here := view[0].value;
    if Readable(db, start, end) {
      SnapshotAcceptable(here, start, end);
    }
    var hours := AggregateHourly(snapshot.values);
    if hours.Failure? {
      OnlyGridFaults(here, start, end, hours.error);
      return Failure(hours.error);
    }
    SnapshotHours(here, start, end, hours.value);
    r := Success((hours.value, snapshot.completeness.expected));
  }

  lemma OnlyGridFaults(db: Db, start: int, end: int, error: StatisticsError)
    requires db.metadata.Some? && SoundTable(db.table)
    requires var values := SnapshotOf(db, start, end).values;
             exists i :: 0 <= i < |values| && Acceptable(values[..i]) && FaultOf(values[..i], values[i]) == Some(error)
    ensures error == IntervalInvalid
  {
    var values := SnapshotOf(db, start, end).values;
    var i :| 0 <= i < |values| && Acceptable(values[..i]) && FaultOf(values[..i], values[i]) == Some(error);
    SnapshotFault(db, start, end, i);
  }

  method MergeDisjoint(target: HourlyEnergy, addition: HourlyEnergy) returns (r: Result<HourlyEnergy, StatisticsError>)
    ensures r.Success? <==> target.gridExport.Keys * addition.gridExport.Keys == {}
                            && target.gridImport.Keys * addition.gridImport.Keys == {}
    ensures r.Success? ==> r.value == PerChannel(target.gridExport + addition.gridExport, target.gridImport + addition.gridImport)
    ensures r.Failure? ==> r.error == HistoryOverlap
  {
    if target.gridImport.Keys * addition.gridImport.Keys != {} {
      return Failure(HistoryOverlap);
    }
    var merged := target.(gridImport := target.gridImport + addition.gridImport);
    if target.gridExport.Keys * addition.gridExport.Keys != {} {
      return Failure(HistoryOverlap);
    }
    r := Success(merged.(gridExport := target.gridExport + addition.gridExport));
  }

  // _async_full_history

  function ViewOf(views: seq<seq<Option<Db>>>, n: nat): seq<Option<Db>> {
    if n < |views| then views[n] else []
  }

  /** The start of the n-th window back from `end`. */
  function WindowStart(end: int, n: int): int {
    end - 5_184_000 * n
  }

  /** Every row of the table starts in the first n windows back from `end`. */
  ghost predicate Covered(table: Table, end: int, n: int) {
    KeysIn(table, WindowStart(end, n), end) == table.Keys
  }

  ghost predicate StatusConfirmed(status: Status, confirm: Option<Db>) {
    confirm.Some? && confirm.value.metadata.Some? && StatusOf(confirm.value) == status
  }

  /** The size limits and the grid that the client's checks rest on. */
  ghost predicate Wellformed(table: Table) {
    && SoundTable(table)
    && forall k :: k in table ==> k.start % QUARTER == 0 && (table[k].quality == Valid ==> table[k].value.value < VALUE_BOUND)
  }

  /** All windows that still miss rows are served. */
  ghost predicate WindowsServed(db: Db, end: int, views: seq<seq<Option<Db>>>) {
    WindowsServedUpTo(db, end, views, MAX_HISTORY_WINDOWS)
  }

  /** The hours from `start` to `end` are collected and their rows counted. */
  ghost predicate Gathered(db: Db, start: int, end: int, hourly: HourlyEnergy, accumulated: int) {
    HoursOf(hourly, db.table, start, end) && accumulated == |KeysIn(db.table, start, end)|
  }

  lemma NothingGathered(db: Db, end: int)
    ensures Gathered(db, end, end, PerChannel(map[], map[]), 0)
  {
    NothingWithin(TableHours(db.table).gridExport, end);
    NothingWithin(TableHours(db.table).gridImport, end);
    assert KeysIn(db.table, end, end) == {};
  }

  lemma NothingWithin(m: map<int, int>, t: int)
    ensures Within(m, t, t) == map[]
  {
    SameMaps(Within(m, t, t), map[]);
  }

  /** Adjacent windows never overlap and never count a row twice. */
  lemma GatherWindow(db: Db, start: int, middle: int, end: int, hourly: HourlyEnergy, accumulated: int,
                     window: HourlyEnergy, count: int)
    requires start <= middle <= end && Gathered(db, middle, end, hourly, accumulated)
    requires HoursOf(window, db.table, start, middle) && count == |KeysIn(db.table, start, middle)|
    ensures accumulated + count <= |db.table|
    ensures hourly.gridExport.Keys * window.gridExport.Keys == {} && hourly.gridImport.Keys * window.gridImport.Keys == {}
    ensures Gathered(db, start, end, PerChannel(hourly.gridExport + window.gridExport, hourly.gridImport + window.gridImport),
                     accumulated + count)
  {
    WindowSizes(db.table, start, middle, end);
    WithinMerges(TableHours(db.table).gridExport, start, middle, end);
    WithinMerges(TableHours(db.table).gridImport, start, middle, end);
  }

  lemma CoveredByCount(table: Table, start: int, end: int, n: int)
    requires start == WindowStart(end, n)
    ensures Covered(table, end, n) <==> |KeysIn(table, start, end)| == |table|
  {
    if |KeysIn(table, start, end)| == |table| {
      SubsetOfEqualSize(KeysIn(table, start, end), table.Keys);
    }
  }

  /** Where no row is left outside, the collected hours are those of the whole table. */
  lemma GatheredAll(db: Db, start: int, end: int, n: int, hourly: HourlyEnergy, accumulated: int)
    requires Gathered(db, start, end, hourly, accumulated) && start == WindowStart(end, n) && Covered(db.table, end, n)
    ensures hourly == TableHours(db.table)
  {
    CoveredHours(db.table, GridExport, start, end);
    CoveredHours(db.table, GridImport, start, end);
  }

  lemma CoveredHours(table: Table, c: Channel, start: int, end: int)
    requires KeysIn(table, start, end) == table.Keys
    ensures Within(HourlyOf(TableReadings(table, c)), start, end) == HourlyOf(TableReadings(table, c))
  {
    var r := TableReadings(table, c);
    forall h | h in HourlyOf(r) ensures start <= h < end {
      assert h in r;
      assert Key(c, h) in KeysIn(table, start, end);
    }
    SameMaps(Within(HourlyOf(r), start, end), HourlyOf(r));
  }

  lemma WindowsAreHours(end: int, n: int)
    requires end % 3600 == 0
    ensures WindowStart(end, n) % 3600 == 0 && WindowStart(end, n) % 900 == 0
  {
    assert WindowStart(end, n) == 3600 * (end / 3600 - 1440 * n);
    assert WindowStart(end, n) == 900 * (4 * (end / 3600) - 5760 * n);
  }

  lemma ReadableRange(db: Db, start: int, end: int)
    requires db.metadata.Some? && Wellformed(db.table)
    requires start % 900 == 0 && end % 900 == 0 && start < end <= start + HISTORY_WINDOW
    ensures Readable(db, start, end)
  {
  }

  lemma WindowNotServed(db: Db, end: int, views: seq<seq<Option<Db>>>, n: nat)
    requires n < MAX_HISTORY_WINDOWS && !Covered(db.table, end, n)
    requires !ServedAt(db, end, views, n)
    ensures !WindowsServed(db, end, views)
  {
  }

  /** One round of the loop: the window from `start` to `end`. */
  method GatherNext(status: Status, ghost db: Db, ghost upper: int, view: seq<Option<Db>>, start: int, end: int,
                    hourly: HourlyEnergy, accumulated: int)
    returns (r: Result<(HourlyEnergy, int), StatisticsError>)
    requires db.metadata.Some? && Consistent(db) && status == StatusOf(db) && Coherent(db, view)
    requires start % 900 == 0 && end % 900 == 0 && start % 3600 == 0 && end % 3600 == 0
    requires end - start == HISTORY_WINDOW && end <= upper
    requires Gathered(db, end, upper, hourly, accumulated)
    ensures r.Success? ==> Gathered(db, start, upper, r.value.0, r.value.1)
    ensures r.Failure? ==> r.error in {FetchFailed, MetadataInconsistent, IntervalInvalid}
    ensures Wellformed(db.table) ==> (r.Success? <==> WindowServed(db, view, start, end))
  {
    if Wellformed(db.table) {
      ReadableRange(db, start, end);
    }
    var fetched := FetchWindow(status, db, view, start, end);
    if fetched.Failure? {
      return Failure(fetched.error);
    }
    GatherWindow(db, start, end, upper, hourly, accumulated, fetched.value.0, fetched.value.1);
    var total := accumulated + fetched.value.1;
    if total > status.expected {
      return Failure(HistoryOvercount);
    }
    var merged := MergeDisjoint(hourly, fetched.value.0);
    if merged.Failure? {
      return Failure(HistoryOverlap);
    }
    r := Success((merged.value, total));
  }

  /** The loop over the windows. */
  method GatherHistory(status: Status, ghost db: Db, upper: int, views: seq<seq<Option<Db>>>)
    returns (r: Result<HourlyEnergy, StatisticsError>)
    requires db.metadata.Some? && Consistent(db) && status == StatusOf(db) && upper % 3600 == 0
    requires forall n :: Coherent(db, ViewOf(views, n))
    ensures r.Success? ==> r.value == TableHours(db.table)
    ensures r.Failure? ==> r.error in {FetchFailed, MetadataInconsistent, IntervalInvalid, HistoryUnreconciled}
    ensures Wellformed(db.table) ==>
              (r.Success? <==> Covered(db.table, upper, MAX_HISTORY_WINDOWS) && WindowsServed(db, upper, views))
  {
    var accumulated := 0;
    var hourly: HourlyEnergy := PerChannel(map[], map[]);
    NothingGathered(db, upper);
    var end := upper;
    var window := 0;
    while window < MAX_HISTORY_WINDOWS && accumulated != status.expected
      invariant 0 <= window <= MAX_HISTORY_WINDOWS && end == WindowStart(upper, window)
      invariant Gathered(db, end, upper, hourly, accumulated)
      invariant Wellformed(db.table) ==> WindowsServedUpTo(db, upper, views, window)
    {
      CoveredByCount(db.table, end, upper, window);
      var start := end - HISTORY_WINDOW;
      WindowsAreHours(upper, window);
      WindowsAreHours(upper, window + 1);
      assert start == WindowStart(upper, window + 1);
      var next := GatherNext(status, db, upper, ViewOf(views, window), start, end, hourly, accumulated);
      if next.Failure? {
        if Wellformed(db.table) {
          WindowNotServed(db, upper, views, window);
        }
        return Failure(next.error);
      }
      if Wellformed(db.table) {
        ServedFurther(db, upper, views, window);
      }
      hourly, accumulated := next.value.0, next.value.1;
      end := start;
      window := window + 1;
    }
    CoveredByCount(db.table, end, upper, window);
    if accumulated != status.expected {
      return Failure(HistoryUnreconciled);
    }
    GatheredAll(db, end, upper, window, hourly, accumulated);
    CoveredFurther(db, upper, views, window);
    r := Success(hourly);
  }

  lemma ServedFurther(db: Db, end: int, views: seq<seq<Option<Db>>>, m: nat)
    requires WindowsServedUpTo(db, end, views, m)
    requires ServedAt(db, end, views, m)
    ensures WindowsServedUpTo(db, end, views, m + 1)
  {
  }

  ghost predicate WindowsServedUpTo(db: Db, end: int, views: seq<seq<Option<Db>>>, m: int) {
    forall n :: 0 <= n < m && !Covered(db.table, end, n) ==> ServedAt(db, end, views, n)
  }

  ghost predicate ServedAt(db: Db, end: int, views: seq<seq<Option<Db>>>, n: nat) {
    WindowServed(db, ViewOf(views, n), WindowStart(end, n + 1), WindowStart(end, n))
  }

  lemma CoveredFurther(db: Db, end: int, views: seq<seq<Option<Db>>>, m: nat)
    requires m <= MAX_HISTORY_WINDOWS && Covered(db.table, end, m)
    ensures Covered(db.table, end, MAX_HISTORY_WINDOWS)
    ensures WindowsServedUpTo(db, end, views, m) ==> WindowsServed(db, end, views)
  {
    forall n | m <= n <= MAX_HISTORY_WINDOWS ensures Covered(db.table, end, n) {
      CoveredLater(db.table, end, m, n);
    }
  }

  lemma CoveredLater(table: Table, end: int, m: nat, n: nat)
    requires m <= n && Covered(table, end, m)
    ensures Covered(table, end, n)
  {
    forall k | k in table ensures k in KeysIn(table, WindowStart(end, n), end) {
      assert k in KeysIn(table, WindowStart(end, m), end);
    }
  }

  /**
   * All windows back from the upper bound until the counts add up to the status's own.
   * `views[n]` is what the requests of window n reach, `confirm` what the closing status request reaches.
   */
  method FullHistory(zone: Zone, status: Status, ghost db: Db, views: seq<seq<Option<Db>>>, confirm: Option<Db>)
    returns (r: Result<HourlyEnergy, StatisticsError>)
    requires db.metadata.Some? && Consistent(db) && status == StatusOf(db)
    requires forall n :: Coherent(db, ViewOf(views, n))
    ensures r.Success? ==> status.dataTimestamp.Some? && r.value == TableHours(db.table)
    ensures r.Success? ==> StatusConfirmed(status, confirm)
    ensures r.Failure? ==> r.error !in {HistoryOverlap, HistoryOvercount, ValueInvalid, IntervalDuplicate}
    ensures Wellformed(db.table) ==> (r.Success? <==> HistoryObtainable(zone, db, views, confirm))
  {
    if status.dataTimestamp.None? {
      return Failure(StatisticsError.DatasetUnavailable);
    }
    if !(0 <= status.expected <= MAX_HISTORY_EXPECTED_COUNT) {
      return Failure(HistoryTooLarge);
    }
    if status.lastSuccess.None? {
      return Failure(StatisticsError.DatasetUnavailable);
    }
    var upper := UpperBound(zone, status.dataTimestamp.value, status.lastSuccess.value);
    BoundsAreHours(zone, status.dataTimestamp.value, status.lastSuccess.value);
    var gathered := GatherHistory(status, db, upper, views);
    if gathered.Failure? {
      return gathered;
    }
    r := ConfirmRevision(status, confirm, gathered.value);
  }

  /** The dataset fits the windows, and all requests see its revision. */
  ghost predicate HistoryObtainable(zone: Zone, db: Db, views: seq<seq<Option<Db>>>, confirm: Option<Db>)
    requires db.metadata.Some?
  {
    var m := db.metadata.value;
    && m.dataTimestamp.Some? && m.counts.expected <= MAX_HISTORY_EXPECTED_COUNT
    && var end := UpperBound(zone, m.dataTimestamp.value, m.lastSuccess);
    && Covered(db.table, end, MAX_HISTORY_WINDOWS)
    && WindowsServed(db, end, views)
    && StatusConfirmed(StatusOf(db), confirm)
  }

  /** The closing status confirms the one started with exactly when nothing of the revision has changed. */
  lemma ConfirmedExactly(db: Db, confirm: Option<Db>)
    requires db.metadata.Some?
    ensures StatusConfirmed(StatusOf(db), confirm) <==>
              && confirm.Some? && confirm.value.metadata.Some?
              && var now, m := confirm.value.metadata.value, db.metadata.value;
                 && now.revision == m.revision && now.dataTimestamp == m.dataTimestamp && now.lastSuccess == m.lastSuccess
                 && now.sourceStatus == m.sourceStatus && now.counts.expected == m.counts.expected
  {
  }

  /** In a run of the store, exactly when the revision is still the current one. */
  lemma ConfirmedInRun(run: seq<Op>, m: nat, n: nat)
    requires ValidRun(run) && m <= |run| && n <= |run| && StateAt(run, m).metadata.Some?
    ensures StatusConfirmed(StatusOf(StateAt(run, m)), Some(StateAt(run, n))) <==>
              && StateAt(run, n).metadata.Some?
              && StateAt(run, n).metadata.value.revision == StateAt(run, m).metadata.value.revision
  {
    RevisionNamesOneTable(run, m, n);
    ConfirmedExactly(StateAt(run, m), Some(StateAt(run, n)));
  }

  // When the windows suffice

  lemma WindowFits(table: Table, end: int, n: nat)
    requires Wellformed(table)
    ensures |KeysIn(table, WindowStart(end, n + 1), WindowStart(end, n))| <= 11520
    ensures |KeysIn(table, WindowStart(end, n + 1), end)|
         <= |KeysIn(table, WindowStart(end, n), end)| + 11520
  {
    Capacity(table, WindowStart(end, n + 1), WindowStart(end, n));
    WindowSizes(table, WindowStart(end, n + 1), WindowStart(end, n), end);
  }

  lemma {:induction false} WindowsFit(table: Table, end: int, n: nat)
    requires Wellformed(table)
    ensures |KeysIn(table, WindowStart(end, n), end)| <= 11520 * n
  {
    if n > 0 {
      WindowsFit(table, end, n - 1);
      WindowFits(table, end, n - 1);
    }
  }

  /** A dataset on the quarter-hour grid that fits the windows is never too large. */
  lemma CoveredIsSmall(table: Table, end: int)
    requires Wellformed(table) && Covered(table, end, MAX_HISTORY_WINDOWS)
    ensures |table| <= 128 * 11520 <= MAX_HISTORY_EXPECTED_COUNT
  {
    WindowsFit(table, end, MAX_HISTORY_WINDOWS);
    assert |table| == |table.Keys|;
  }

  function LocalDay(zone: Zone, t: int): int {
    Wall(zone, t) / DAY
  }

  /** No record starts after the Prague day on which it was collected, and these days do not go back. */
  ghost predicate CollectedInTime(zone: Zone, run: seq<Op>) {
    && (forall i :: 0 <= i < |run| && run[i].Commit? ==>
          forall row :: row in run[i].records ==> LocalDay(zone, row.start) <= LocalDay(zone, run[i].collectedAt))
    && (forall i, j :: 0 <= i < j < |run| && run[i].Commit? && run[j].Commit? ==>
          LocalDay(zone, run[i].collectedAt) <= LocalDay(zone, run[j].collectedAt))
  }

  lemma {:induction false} SuccessIsCommit(run: seq<Op>, n: nat) returns (i: nat)
    requires n <= |run| && StateAt(run, n).metadata.Some?
    ensures i < n && run[i].Commit? && StateAt(run, n).metadata.value.lastSuccess == run[i].collectedAt
  {
    i := n - 1;
    if !run[i].Commit? {
      i := SuccessIsCommit(run, n - 1);
    }
  }

  lemma CommitInTime(zone: Zone, table: Table, records: seq<Row>, collectedAt: int, k: Key)
    requires k in Upserted(table, records)
    requires forall row :: row in records ==> LocalDay(zone, row.start) <= LocalDay(zone, collectedAt)
    requires k in table ==> LocalDay(zone, k.start) <= LocalDay(zone, collectedAt)
    ensures LocalDay(zone, k.start) <= LocalDay(zone, collectedAt)
  {
    UpsertedRows(table, records, k);
    if row :| row in records && row.Id() == k {
      assert row.start == k.start;
    }
  }

  lemma {:induction false} RowsInTime(zone: Zone, run: seq<Op>, n: nat, k: Key)
    requires n <= |run| && CollectedInTime(zone, run) && k in StateAt(run, n).table
    ensures StateAt(run, n).metadata.Some?
    ensures LocalDay(zone, k.start) <= LocalDay(zone, StateAt(run, n).metadata.value.lastSuccess)
  {
    match run[n - 1]
    case Attempt(_) => RowsInTime(zone, run, n - 1, k);
    case Commit(records, collectedAt, _) =>
      var table := StateAt(run, n - 1).table;
      if k in table {
        RowsInTime(zone, run, n - 1, k);
        var i := SuccessIsCommit(run, n - 1);
        assert run[i].Commit?;
      }
      CommitInTime(zone, table, records, collectedAt, k);
  }

  /** In such a run of the store the 128 windows hold every row exactly when none starts before them. */
  lemma RunsAreCovered(zone: Zone, run: seq<Op>, n: nat)
    requires EuropeanRule(zone) && CollectedInTime(zone, run) && n <= |run|
    requires StateAt(run, n).metadata.Some? && StateAt(run, n).metadata.value.dataTimestamp.Some?
    ensures var db := StateAt(run, n);
            var end := UpperBound(zone, db.metadata.value.dataTimestamp.value, db.metadata.value.lastSuccess);
            Covered(db.table, end, MAX_HISTORY_WINDOWS) <==>
            forall k :: k in db.table ==> end - 128 * 60 * 86_400 <= k.start
  {
    var db := StateAt(run, n);
    var ts, last := db.metadata.value.dataTimestamp.value, db.metadata.value.lastSuccess;
    var end := UpperBound(zone, ts, last);
    forall k | k in db.table
      ensures k.start < end
    {
      RowsInTime(zone, run, n, k);
      BoundCoversLocalDay(zone, ts, last, k.start);
    }
    CoveredFrom(db.table, end, MAX_HISTORY_WINDOWS);
  }

  lemma CoveredFrom(table: Table, end: int, n: nat)
    requires forall k :: k in table ==> k.start < end
    ensures Covered(table, end, n) <==> forall k :: k in table ==> WindowStart(end, n) <= k.start
  {
    if Covered(table, end, n) {
      forall k | k in table
        ensures WindowStart(end, n) <= k.start
      {
        assert k in KeysIn(table, WindowStart(end, n), end);
      }
    }
  }

  method ConfirmRevision(status: Status, confirm: Option<Db>, hourly: HourlyEnergy)
    returns (r: Result<HourlyEnergy, StatisticsError>)
    ensures r == if StatusConfirmed(status, confirm) then Success(hourly)
                 else Failure(if confirm.Some? && confirm.value.metadata.Some? then RevisionChanged else FetchFailed)
  {
    if confirm.None? || confirm.value.metadata.None? {
      return Failure(FetchFailed);
    }
    if StatusOf(confirm.value) != status {
      return Failure(RevisionChanged);
    }
    r := Success(hourly);
  }
}
