/** Keeping the Recorder in step with the revisions of the Collector (statistics.py). */
module StatisticsSync {
  import opened Prelude
  import opened Measurements
  import opened Zone
  import opened DatasetStore
  import opened Pagination
  import opened DatasetHistory
  import opened HourlyAggregation
  import opened HistoryWindows
  import opened RecorderMirror

  // _async_recent_correction

  function Patched(m: map<int, int>, n: map<int, int>, start: int, end: int): map<int, int> {
    Outside(m, start, end) + Within(n, start, end)
  }

  /** The previous hours, those of the window replaced by the table's. */
  function Corrected(previous: HourlyEnergy, table: Table, start: int, end: int): HourlyEnergy {
    PerChannel(Patched(previous.gridExport, TableHours(table).gridExport, start, end),
               Patched(previous.gridImport, TableHours(table).gridImport, start, end))
  }

  function CorrectionStart(dataTimestamp: int): int {
    CeilHour(dataTimestamp) - RECENT_CORRECTION
  }

  lemma CorrectionMerges(m: map<int, int>, n: map<int, int>, start: int, end: int)
    requires forall t :: t in n ==> start <= t < end
    ensures Outside(m, start, end).Keys * n.Keys == {}
  {
  }

  lemma CorrectionWindow(dataTimestamp: int)
    ensures CeilHour(dataTimestamp) % 3600 == 0 && CeilHour(dataTimestamp) % 900 == 0
    ensures CorrectionStart(dataTimestamp) % 3600 == 0 && CorrectionStart(dataTimestamp) % 900 == 0
    ensures CorrectionStart(dataTimestamp) < CeilHour(dataTimestamp) <= CorrectionStart(dataTimestamp) + HISTORY_WINDOW
  {
    CeilIsHour(dataTimestamp);
    WholeQuarters(CeilHour(dataTimestamp));
  }

  lemma WholeQuarters(t: int)
    requires t % 3600 == 0
    ensures t % 900 == 0 && (t - RECENT_CORRECTION) % 3600 == 0 && (t - RECENT_CORRECTION) % 900 == 0
  {
    assert t == 3600 * (t / 3600);
    assert t == 900 * (4 * (t / 3600));
  }

  method RecentCorrection(status: Status, ghost db: Db, previous: HourlyEnergy, view: seq<Option<Db>>, confirm: Option<Db>)
    returns (r: Result<HourlyEnergy, StatisticsError>)
    requires db.metadata.Some? && Consistent(db) && status == StatusOf(db) && Coherent(db, view)
    ensures r.Success? ==>
              && status.dataTimestamp.Some?
              && r.value == Corrected(previous, db.table, CorrectionStart(status.dataTimestamp.value),
                                      CeilHour(status.dataTimestamp.value))
    ensures r.Success? ==> StatusConfirmed(status, confirm)
    ensures r.Failure? ==> r.error !in {HistoryOverlap, ValueInvalid, IntervalDuplicate}
    ensures Wellformed(db.table) ==>
              (r.Success? <==>
                 && status.dataTimestamp.Some?
                 && WindowServed(db, view, CorrectionStart(status.dataTimestamp.value), CeilHour(status.dataTimestamp.value))
                 && StatusConfirmed(status, confirm))
  {
    if status.dataTimestamp.None? {
      return Failure(StatisticsError.DatasetUnavailable);
    }
    var end := CeilHour(status.dataTimestamp.value);
    var start := CorrectionStart(status.dataTimestamp.value);
    CorrectionWindow(status.dataTimestamp.value);
    r := CorrectWindow(status, db, previous, view, confirm, start, end);
  }

  method CorrectWindow(status: Status, ghost db: Db, previous: HourlyEnergy, view: seq<Option<Db>>, confirm: Option<Db>,
                       start: int, end: int)
    returns (r: Result<HourlyEnergy, StatisticsError>)
    requires db.metadata.Some? && Consistent(db) && status == StatusOf(db) && Coherent(db, view)
    requires start % 3600 == 0 && start % 900 == 0 && end % 3600 == 0 && end % 900 == 0 && start < end <= start + HISTORY_WINDOW
    ensures r.Success? ==> r.value == Corrected(previous, db.table, start, end) && StatusConfirmed(status, confirm)
    ensures r.Failure? ==> r.error in {FetchFailed, MetadataInconsistent, IntervalInvalid, RevisionChanged}
    ensures Wellformed(db.table) ==> (r.Success? <==> WindowServed(db, view, start, end) && StatusConfirmed(status, confirm))
  {
    if Wellformed(db.table) {
      ReadableRange(db, start, end);
    }
    var fetched := FetchWindow(status, db, view, start, end);
    if fetched.Failure? {
      return Failure(fetched.error);
    }
    var merged := ReplaceWindow(previous, fetched.value.0, db.table, start, end);
    r := ConfirmRevision(status, confirm, merged);
  }

  method ReplaceWindow(previous: HourlyEnergy, window: HourlyEnergy, ghost table: Table, start: int, end: int)
    returns (hourly: HourlyEnergy)
    requires HoursOf(window, table, start, end)
    ensures hourly == Corrected(previous, table, start, end)
  {
    var kept: HourlyEnergy := PerChannel(Outside(previous.gridExport, start, end), Outside(previous.gridImport, start, end));
    CorrectionMerges(previous.gridExport, window.gridExport, start, end);
    CorrectionMerges(previous.gridImport, window.gridImport, start, end);
    var merged := MergeDisjoint(kept, window);
    hourly := merged.value;
  }

  /** Outside the window the hours are already those of the table. */
  ghost predicate AgreesOutside(previous: HourlyEnergy, table: Table, start: int, end: int) {
    && EqualOutside(previous.gridExport, TableHours(table).gridExport, start, end)
    && EqualOutside(previous.gridImport, TableHours(table).gridImport, start, end)
  }

  ghost predicate EqualOutside(m: map<int, int>, n: map<int, int>, start: int, end: int) {
    Outside(m, start, end) == Outside(n, start, end)
  }

  lemma PatchedExactly(m: map<int, int>, n: map<int, int>, start: int, end: int)
    ensures Patched(m, n, start, end) == n <==> EqualOutside(m, n, start, end)
  {
    var patched := Patched(m, n, start, end);
    if Outside(m, start, end) == Outside(n, start, end) {
      forall k ensures k in patched <==> k in n {
        assert k in Outside(m, start, end) <==> k in Outside(n, start, end);
      }
      forall k | k in patched && k in n ensures patched[k] == n[k] {
        if k in Outside(m, start, end) { assert Outside(m, start, end)[k] == Outside(n, start, end)[k]; }
      }
      SameMaps(patched, n);
    }
    if patched == n {
      forall k ensures k in Outside(m, start, end) <==> k in Outside(n, start, end) {
        assert k in patched <==> k in n;
      }
      forall k | k in Outside(m, start, end) && k in Outside(n, start, end)
        ensures Outside(m, start, end)[k] == Outside(n, start, end)[k]
      {
        assert patched[k] == n[k];
      }
      SameMaps(Outside(m, start, end), Outside(n, start, end));
    }
  }

  /** A correction gives the hours of the whole new table exactly when nothing changed outside its window. */
  lemma CorrectionExactly(previous: HourlyEnergy, table: Table, start: int, end: int)
    ensures Corrected(previous, table, start, end) == TableHours(table) <==> AgreesOutside(previous, table, start, end)
  {
    ChannelsCorrected(previous, TableHours(table), start, end);
  }

  lemma ChannelsCorrected(previous: HourlyEnergy, goal: HourlyEnergy, start: int, end: int)
    ensures PerChannel(Patched(previous.gridExport, goal.gridExport, start, end),
                       Patched(previous.gridImport, goal.gridImport, start, end)) == goal
       <==> EqualOutside(previous.gridExport, goal.gridExport, start, end)
            && EqualOutside(previous.gridImport, goal.gridImport, start, end)
  {
    PatchedExactly(previous.gridExport, goal.gridExport, start, end);
    PatchedExactly(previous.gridImport, goal.gridImport, start, end);
  }

  /** No hour of a table ends after its data timestamp. */
  lemma HoursEndInTime(table: Table, c: Channel, h: int)
    requires SoundTable(table) && h in HourlyOf(TableReadings(table, c))
    ensures DataTimestamp(table).Some? && h + 3600 <= DataTimestamp(table).value
  {
    HourlyAt(TableReadings(table, c), h);
    var last := Key(c, h + 2700);
    assert h + 2700 in TableReadings(table, c);
    assert last in table && table[last].Id() == last && table[last].end == h + 3600;
  }

  ghost predicate SameBefore(old': Table, new': Table, start: int) {
    forall k: Key :: k.start < start ==> (k in old' <==> k in new') && (k in old' && k in new' ==> old'[k] == new'[k])
  }

  lemma SameReadingBefore(old': Table, new': Table, c: Channel, start: int, t: int)
    requires SameBefore(old', new', start) && t < start
    ensures SameAt(TableReadings(old', c), TableReadings(new', c), t)
  {
    assert Key(c, t).start < start;
  }

  ghost predicate SameAt(m: map<int, int>, n: map<int, int>, t: int) {
    (t in m <==> t in n) && (t in m ==> m[t] == n[t])
  }

  lemma SameHourAt(m: map<int, int>, n: map<int, int>, h: int)
    requires h % 3600 == 0 ==> SameAt(m, n, h) && SameAt(m, n, h + 900) && SameAt(m, n, h + 1800) && SameAt(m, n, h + 2700)
    ensures SameAt(HourlyOf(m), HourlyOf(n), h)
  {
    HourlyAt(m, h);
    HourlyAt(n, h);
  }

  lemma SameHourBefore(old': Table, new': Table, c: Channel, start: int, h: int)
    requires SameBefore(old', new', start) && start % 3600 == 0 && h < start
    ensures SameAt(HourlyOf(TableReadings(old', c)), HourlyOf(TableReadings(new', c)), h)
  {
    if h % 3600 == 0 {
      WholeHour(h, start);
      SameReadingBefore(old', new', c, start, h);
      SameReadingBefore(old', new', c, start, h + 900);
      SameReadingBefore(old', new', c, start, h + 1800);
      SameReadingBefore(old', new', c, start, h + 2700);
    }
    SameHourAt(TableReadings(old', c), TableReadings(new', c), h);
  }

  lemma SameOutside(old': Table, new': Table, c: Channel, start: int, end: int)
    requires SoundTable(old') && SoundTable(new') && SameBefore(old', new', start) && start % 3600 == 0
    requires DataTimestamp(old').Some? && DataTimestamp(new').Some?
    requires DataTimestamp(old').value <= end && DataTimestamp(new').value <= end
    ensures EqualOutside(HourlyOf(TableReadings(old', c)), HourlyOf(TableReadings(new', c)), start, end)
  {
    var a, b := HourlyOf(TableReadings(old', c)), HourlyOf(TableReadings(new', c));
    forall h | !(start <= h < end) ensures SameAt(a, b, h) {
      if h < start {
        SameHourBefore(old', new', c, start, h);
      } else {
        if h in a { HoursEndInTime(old', c, h); }
        if h in b { HoursEndInTime(new', c, h); }
      }
    }
    SameOutsideMaps(a, b, start, end);
  }

  lemma SameOutsideMaps(a: map<int, int>, b: map<int, int>, start: int, end: int)
    requires forall h :: !(start <= h < end) ==> SameAt(a, b, h)
    ensures EqualOutside(a, b, start, end)
  {
    forall h ensures h in Outside(a, start, end) <==> h in Outside(b, start, end) {
      assert !(start <= h < end) ==> SameAt(a, b, h);
    }
    forall h | h in Outside(a, start, end) && h in Outside(b, start, end)
      ensures Outside(a, start, end)[h] == Outside(b, start, end)[h]
    {
      assert SameAt(a, b, h);
    }
    SameMaps(Outside(a, start, end), Outside(b, start, end));
  }

  /** What a correction relies on: the hour of the data timestamp does not go back, older rows are unchanged. */
  ghost predicate OnlyRecentChanges(old': Db, new': Db) {
    && old'.metadata.Some? && new'.metadata.Some?
    && var before, after := old'.metadata.value.dataTimestamp, new'.metadata.value.dataTimestamp;
    && before.Some? && after.Some? && CeilHour(before.value) <= CeilHour(after.value)
    && SameBefore(old'.table, new'.table, CorrectionStart(after.value))
  }

  /** From the hours of the old table, a correction after recent changes leads to those of the new table. */
  lemma RecentChangesSuffice(old': Db, new': Db)
    requires Consistent(old') && Consistent(new') && OnlyRecentChanges(old', new')
    ensures var ts := new'.metadata.value.dataTimestamp.value;
            Corrected(TableHours(old'.table), new'.table, CorrectionStart(ts), CeilHour(ts)) == TableHours(new'.table)
  {
    var ts := new'.metadata.value.dataTimestamp.value;
    var start, end := CorrectionStart(ts), CeilHour(ts);
    CorrectionWindow(ts);
    CeilIsHour(ts);
    CeilIsHour(old'.metadata.value.dataTimestamp.value);
    SameOutside(old'.table, new'.table, GridExport, start, end);
    SameOutside(old'.table, new'.table, GridImport, start, end);
    CorrectionExactly(TableHours(old'.table), new'.table, start, end);
  }

  // async_sync

  /** What the manager remembers between synchronisations. */
  datatype Memory = Memory(hourly: Option<HourlyEnergy>, lastRevision: Option<string>, lastExpected: Option<int>)

  const NOTHING: Memory := Memory(None, None, None)

  predicate NeedsFullHistory(memory: Memory, status: Status) {
    memory.hourly.None? || memory.lastExpected != Some(status.expected)
  }

  /** The hours a successful synchronisation with the revision of `db` arrives at. */
  function NewHours(memory: Memory, db: Db): HourlyEnergy
    requires db.metadata.Some? && db.metadata.value.dataTimestamp.Some?
  {
    var ts := db.metadata.value.dataTimestamp.value;
    if NeedsFullHistory(memory, StatusOf(db)) then TableHours(db.table)
    else Corrected(memory.hourly.value, db.table, CorrectionStart(ts), CeilHour(ts))
  }

  function Synced(memory: Memory, db: Db): Memory
    requires db.metadata.Some? && db.metadata.value.dataTimestamp.Some?
  {
    var status := StatusOf(db);
    if memory.lastRevision == Some(status.revision) then memory
    else Memory(Some(NewHours(memory, db)), Some(status.revision), Some(status.expected))
  }

  ghost predicate BothNonNegative(hourly: HourlyEnergy) {
    NonNegative(hourly.gridExport) && NonNegative(hourly.gridImport)
  }

  lemma TableHoursNonNegative(table: Table)
    requires SoundTable(table)
    ensures BothNonNegative(TableHours(table))
  {
    HourlyIsNonNegative(TableReadings(table, GridExport));
    HourlyIsNonNegative(TableReadings(table, GridImport));
  }

  lemma PatchedNonNegative(m: map<int, int>, n: map<int, int>, start: int, end: int)
    requires NonNegative(m) && NonNegative(n)
    ensures NonNegative(Patched(m, n, start, end))
  {
  }

  lemma NewHoursNonNegative(memory: Memory, db: Db)
    requires db.metadata.Some? && db.metadata.value.dataTimestamp.Some? && SoundTable(db.table)
    requires memory.hourly.Some? ==> BothNonNegative(memory.hourly.value)
    ensures BothNonNegative(NewHours(memory, db))
  {
    TableHoursNonNegative(db.table);
    if !NeedsFullHistory(memory, StatusOf(db)) {
      var ts := db.metadata.value.dataTimestamp.value;
      var m, n := memory.hourly.value, TableHours(db.table);
      PatchedNonNegative(m.gridExport, n.gridExport, CorrectionStart(ts), CeilHour(ts));
      PatchedNonNegative(m.gridImport, n.gridImport, CorrectionStart(ts), CeilHour(ts));
    }
  }

  /** The requests a synchronisation needs all see the revision of `db`. */
  ghost predicate Obtainable(memory: Memory, zone: Zone, db: Db, views: seq<seq<Option<Db>>>, confirm: Option<Db>)
    requires db.metadata.Some?
  {
    if NeedsFullHistory(memory, StatusOf(db)) then HistoryObtainable(zone, db, views, confirm)
    else
      && db.metadata.value.dataTimestamp.Some?
      && WindowServed(db, ViewOf(views, 0), CorrectionStart(db.metadata.value.dataTimestamp.value),
                      CeilHour(db.metadata.value.dataTimestamp.value))
      && StatusConfirmed(StatusOf(db), confirm)
  }

  class StatisticsManager {
    var hourly: Option<HourlyEnergy>
    var lastRevision: Option<string>
    var lastExpected: Option<int>

    constructor ()
      ensures State() == NOTHING
    {
      hourly, lastRevision, lastExpected := None, None, None;
    }

    function State(): Memory
      reads this
    {
      Memory(hourly, lastRevision, lastExpected)
    }

    ghost predicate Valid()
      reads this
    {
      hourly.Some? ==> BothNonNegative(hourly.value)
    }

    /** The Recorder shows the hours the manager remembers. */
    ghost predicate Mirrored(recorder: Recorder)
      reads this, recorder
    {
      hourly.Some? ==> recorder.streams == Mirrors(hourly.value)
    }

    method Fetch(zone: Zone, status: Status, ghost db: Db, views: seq<seq<Option<Db>>>, confirm: Option<Db>)
      returns (r: Result<HourlyEnergy, StatisticsError>)
      requires db.metadata.Some? && Consistent(db) && status == StatusOf(db)
      requires forall n :: Coherent(db, ViewOf(views, n))
      ensures r.Success? ==> db.metadata.value.dataTimestamp.Some? && r.value == NewHours(State(), db)
      ensures r.Success? ==> StatusConfirmed(status, confirm)
      ensures Wellformed(db.table) ==> (r.Success? <==> Obtainable(State(), zone, db, views, confirm))
    {
      if hourly.None? || lastExpected != Some(status.expected) {
        r := FullHistory(zone, status, db, views, confirm);
      } else {
        r := RecentCorrection(status, db, hourly.value, ViewOf(views, 0), confirm);
      }
    }

    /** One synchronisation with a status: a failed fetch changes nothing, a successful one remembers and shows its hours. */
    method Sync(recorder: Recorder, zone: Zone, status: Status, ghost db: Db, views: seq<seq<Option<Db>>>, confirm: Option<Db>)
      returns (r: Result<(), StatisticsError>)
      requires Valid() && db.metadata.Some? && Consistent(db) && status == StatusOf(db)
      requires forall n :: Coherent(db, ViewOf(views, n))
      modifies this, recorder
      ensures Valid()
      ensures r.Failure? || old(lastRevision) == Some(status.revision) ==>
                State() == old(State()) && recorder.streams == old(recorder.streams) && recorder.calls == old(recorder.calls)
      ensures r.Success? && old(lastRevision) != Some(status.revision) ==>
                status.dataTimestamp.Some? && State() == Synced(old(State()), db)
      ensures r.Success? && old(lastRevision) != Some(status.revision) ==> StatusConfirmed(status, confirm)
      ensures r.Success? && old(lastRevision) != Some(status.revision) ==>
                recorder.calls == old(recorder.calls) +
                  if NeedsFullHistory(old(State()), status) then RebuildCalls(NewHours(old(State()), db))
                  else IncrementalCalls(old(State()).hourly.value, NewHours(old(State()), db))
      ensures Wellformed(db.table) ==>
                (r.Success? <==> old(lastRevision) == Some(status.revision) || old(Obtainable(State(), zone, db, views, confirm)))
      ensures old(Mirrored(recorder)) ==> Mirrored(recorder)
    {
      if lastRevision == Some(status.revision) {
        return Success(());
      }
      var fetched := Fetch(zone, status, db, views, confirm);
      if fetched.Failure? {
        return Failure(fetched.error);
      }
      NewHoursNonNegative(State(), db);
      r := Show(recorder, status, fetched.value);
    }

    method Show(recorder: Recorder, status: Status, hours: HourlyEnergy) returns (r: Result<(), StatisticsError>)
      requires BothNonNegative(hours)
      modifies this, recorder
      ensures r.Success? && State() == Memory(Some(hours), Some(status.revision), Some(status.expected))
      ensures old(Mirrored(recorder)) ==> Mirrored(recorder)
      ensures recorder.calls == old(recorder.calls) +
                if NeedsFullHistory(old(State()), status) then RebuildCalls(hours)
                else IncrementalCalls(old(State()).hourly.value, hours)
    {
      if hourly.None? || lastExpected != Some(status.expected) {
        r := FullRebuild(recorder, hours);
      } else {
        r := IncrementalUpdate(recorder, hourly.value, hours);
      }
      hourly := Some(hours);
      lastRevision := Some(status.revision);
      lastExpected := Some(status.expected);
    }
  }

  // A synchronisation while the store goes on

  function Views(run: seq<Op>, moments: seq<seq<Option<nat>>>): (views: seq<seq<Option<Db>>>)
    requires forall w :: 0 <= w < |moments| ==> Moments(run, moments[w])
    ensures |views| == |moments| && forall w :: 0 <= w < |views| ==> views[w] == Reached(run, moments[w])
  {
    seq(|moments|, w requires 0 <= w < |moments| => Reached(run, moments[w]))
  }

  lemma ViewsAreCoherent(run: seq<Op>, m: nat, moments: seq<seq<Option<nat>>>)
    requires ValidRun(run) && m <= |run| && forall w :: 0 <= w < |moments| ==> Moments(run, moments[w])
    ensures Consistent(StateAt(run, m))
    ensures forall w :: Coherent(StateAt(run, m), ViewOf(Views(run, moments), w))
  {
    RunIsConsistent(run, m);
    forall w: nat ensures Coherent(StateAt(run, m), ViewOf(Views(run, moments), w)) {
      if w < |moments| {
        RunsAreCoherent(run, m, moments[w]);
      }
    }
  }

  /**
   * From the store to the Recorder: the status was read after `statusAt` operations of a run of the store, and every
   * request of the synchronisation arrives at some moment of that run or gets lost.
   */
  method SyncDuring(manager: StatisticsManager, recorder: Recorder, zone: Zone, run: seq<Op>, statusAt: nat,
                    moments: seq<seq<Option<nat>>>, confirmAt: Option<nat>)
    returns (r: Result<(), StatisticsError>)
    requires manager.Valid() && ValidRun(run) && statusAt <= |run| && StateAt(run, statusAt).metadata.Some?
    requires forall w :: 0 <= w < |moments| ==> Moments(run, moments[w])
    requires confirmAt.Some? ==> confirmAt.value <= |run|
    modifies manager, recorder
    ensures manager.Valid()
    ensures old(manager.Mirrored(recorder)) ==> manager.Mirrored(recorder)
    ensures r.Failure? ==> manager.State() == old(manager.State()) && recorder.streams == old(recorder.streams)
    ensures r.Success? ==>
              var db := StateAt(run, statusAt);
              if old(manager.lastRevision) == Some(db.metadata.value.revision) then manager.State() == old(manager.State())
              else db.metadata.value.dataTimestamp.Some? && manager.State() == Synced(old(manager.State()), db)
    ensures r.Success? && old(manager.lastRevision) != Some(StateAt(run, statusAt).metadata.value.revision) ==>
              && confirmAt.Some? && StateAt(run, confirmAt.value).metadata.Some?
              && StateAt(run, confirmAt.value).metadata.value.revision == StateAt(run, statusAt).metadata.value.revision
    ensures r.Success? && old(manager.State()) == NOTHING ==>
              recorder.streams == Mirrors(TableHours(StateAt(run, statusAt).table))
  {
    var db := StateAt(run, statusAt);
    ViewsAreCoherent(run, statusAt, moments);
    if confirmAt.Some? {
      ConfirmedInRun(run, statusAt, confirmAt.value);
    }
    r := manager.Sync(recorder, zone, StatusOf(db), db, Views(run, moments),
                      if confirmAt.None? then None else Some(StateAt(run, confirmAt.value)));
  }

  // Runs of synchronisations

  /** A revision to synchronise with, carrying data. */
  ghost predicate IsRevision(db: Db) {
    Consistent(db) && db.metadata.Some? && db.metadata.value.dataTimestamp.Some?
  }

  ghost predicate ValidRevisions(run: seq<Db>) {
    forall i :: 0 <= i < |run| ==> IsRevision(run[i])
  }

  /** The memory after the successful synchronisations of a run; failed ones change nothing. */
  ghost function AfterRun(run: seq<Db>): Memory
    requires ValidRevisions(run)
  {
    if run == [] then NOTHING else Synced(AfterRun(run[..|run| - 1]), run[|run| - 1])
  }

  /** Successive revisions either differ in their row counts, or only in recent rows, or are the same one. */
  ghost predicate Steady(a: Db, b: Db)
    requires a.metadata.Some? && b.metadata.Some?
  {
    if a.metadata.value.revision == b.metadata.value.revision then Agree(a, b)
    else a.metadata.value.counts.expected == b.metadata.value.counts.expected ==> OnlyRecentChanges(a, b)
  }

  /** Over a steady run the remembered hours are always those of the last table. */
  lemma {:induction false} SteadyRunIsTrue(run: seq<Db>)
    requires run != [] && ValidRevisions(run)
    requires forall i :: 0 < i < |run| ==> Steady(run[i - 1], run[i])
    ensures AfterRun(run) == Memory(Some(TableHours(run[|run| - 1].table)), Some(run[|run| - 1].metadata.value.revision),
                                    Some(run[|run| - 1].metadata.value.counts.expected))
  {
    var n := |run| - 1;
    if n > 0 {
      SteadyRunIsTrue(run[..n]);
      assert Steady(run[n - 1], run[n]);
      SteadyStep(AfterRun(run[..n]), run[n - 1], run[n]);
    }
  }

  lemma SteadyStep(memory: Memory, a: Db, b: Db)
    requires Consistent(a) && a.metadata.Some? && Consistent(b) && b.metadata.Some? && b.metadata.value.dataTimestamp.Some?
    requires Steady(a, b)
    requires memory == Memory(Some(TableHours(a.table)), Some(a.metadata.value.revision), Some(a.metadata.value.counts.expected))
    ensures Synced(memory, b)
         == Memory(Some(TableHours(b.table)), Some(b.metadata.value.revision), Some(b.metadata.value.counts.expected))
  {
    if a.metadata.value.revision != b.metadata.value.revision
       && a.metadata.value.counts.expected == b.metadata.value.counts.expected {
      RecentChangesSuffice(a, b);
    }
  }

  lemma {:induction false} AfterRunRemembers(run: seq<Db>)
    requires run != [] && ValidRevisions(run)
    ensures AfterRun(run).hourly.Some? && AfterRun(run).lastRevision == Some(run[|run| - 1].metadata.value.revision)
  {
    var n := |run| - 1;
    if n > 0 {
      AfterRunRemembers(run[..n]);
    }
  }

  // The manager over a run of the store

  /** A synchronisation: when its status is read, and when its other requests arrive. */
  datatype SyncRequest = SyncRequest(statusAt: nat, moments: seq<seq<Option<nat>>>, confirmAt: Option<nat>)

  ghost predicate ValidRequest(run: seq<Op>, s: SyncRequest) {
    && s.statusAt <= |run| && StateAt(run, s.statusAt).metadata.Some?
    && (forall w :: 0 <= w < |s.moments| ==> Moments(run, s.moments[w]))
    && (s.confirmAt.Some? ==> s.confirmAt.value <= |run|)
  }

  ghost predicate ValidRequests(run: seq<Op>, requests: seq<SyncRequest>) {
    forall i :: 0 <= i < |requests| ==> ValidRequest(run, requests[i])
  }

  type SyncResult = Result<(), StatisticsError>

  /** The revisions of the synchronisations that succeeded. */
  ghost function Shown(run: seq<Op>, requests: seq<SyncRequest>, results: seq<SyncResult>): seq<Db>
    requires ValidRequests(run, requests) && |results| <= |requests|
  {
    if results == [] then []
    else
      var n := |results| - 1;
      Shown(run, requests, results[..n]) + if results[n].Success? then [StateAt(run, requests[n].statusAt)] else []
  }

  lemma {:induction false} LastShown(run: seq<Op>, requests: seq<SyncRequest>, results: seq<SyncResult>) returns (n: nat)
    requires ValidRequests(run, requests) && |results| <= |requests| && Shown(run, requests, results) != []
    ensures var shown := Shown(run, requests, results);
            n < |results| && shown[|shown| - 1] == StateAt(run, requests[n].statusAt)
  {
    n := |results| - 1;
    if results[n].Failure? {
      n := LastShown(run, requests, results[..n]);
    }
  }

  /** The manager has remembered the successful synchronisations and the Recorder shows what it remembers. */
  ghost predicate Follows(run: seq<Op>, requests: seq<SyncRequest>, results: seq<SyncResult>, memory: Memory)
    requires ValidRequests(run, requests) && |results| <= |requests|
  {
    ValidRevisions(Shown(run, requests, results)) && memory == AfterRun(Shown(run, requests, results))
  }

  lemma ShownGrows(shown: seq<Db>, db: Db, before: Memory, after: Memory)
    requires ValidRevisions(shown) && IsRevision(db) && before == AfterRun(shown)
    requires after == if before.lastRevision == Some(db.metadata.value.revision) then before else Synced(before, db)
    ensures ValidRevisions(shown + [db]) && AfterRun(shown + [db]) == after
  {
    assert (shown + [db])[..|shown|] == shown;
  }

  /** A revision that is already remembered carries data, as it did then. */
  lemma RememberedHasData(run: seq<Op>, requests: seq<SyncRequest>, results: seq<SyncResult>, memory: Memory, at: nat)
    requires ValidRun(run) && ValidRequests(run, requests) && |results| <= |requests| && at <= |run|
    requires Follows(run, requests, results, memory) && StateAt(run, at).metadata.Some?
    requires memory.lastRevision == Some(StateAt(run, at).metadata.value.revision)
    ensures StateAt(run, at).metadata.value.dataTimestamp.Some?
  {
    var n := LastShown(run, requests, results);
    AfterRunRemembers(Shown(run, requests, results));
    RevisionNamesOneTable(run, requests[n].statusAt, at);
  }

  lemma SyncFollows(run: seq<Op>, requests: seq<SyncRequest>, results: seq<SyncResult>, r: SyncResult,
                    before: Memory, after: Memory)
    requires ValidRun(run) && ValidRequests(run, requests) && |results| < |requests|
    requires Follows(run, requests, results, before)
    requires r.Failure? ==> after == before
    requires var db := StateAt(run, requests[|results|].statusAt);
             r.Success? ==>
               if before.lastRevision == Some(db.metadata.value.revision) then after == before
               else db.metadata.value.dataTimestamp.Some? && after == Synced(before, db)
    ensures Follows(run, requests, results + [r], after)
  {
    var shown, at := Shown(run, requests, results), requests[|results|].statusAt;
    assert (results + [r])[..|results|] == results;
    if r.Success? {
      RunIsConsistent(run, at);
      if before.lastRevision == Some(StateAt(run, at).metadata.value.revision) {
        RememberedHasData(run, requests, results, before, at);
      }
      ShownGrows(shown, StateAt(run, at), before, after);
    } else {
      assert shown + [] == shown;
    }
  }

  method SyncNext(manager: StatisticsManager, recorder: Recorder, zone: Zone, run: seq<Op>, requests: seq<SyncRequest>,
                  ghost results: seq<SyncResult>, s: SyncRequest)
    returns (r: SyncResult)
    requires ValidRun(run) && ValidRequests(run, requests) && |results| < |requests| && s == requests[|results|]
    requires manager.Valid() && manager.Mirrored(recorder) && Follows(run, requests, results, manager.State())
    modifies manager, recorder
    ensures manager.Valid() && manager.Mirrored(recorder) && Follows(run, requests, results + [r], manager.State())
  {
    ghost var before := manager.State();
    assert ValidRequest(run, s);
    r := SyncDuring(manager, recorder, zone, run, s.statusAt, s.moments, s.confirmAt);
    SyncFollows(run, requests, results, r, before, manager.State());
  }

  /** Successive revisions are steady, and there are some. */
  ghost predicate AllSteady(shown: seq<Db>)
    requires ValidRevisions(shown)
  {
    shown != [] && forall i :: 0 < i < |shown| ==> Steady(shown[i - 1], shown[i])
  }

  lemma SteadyHours(shown: seq<Db>)
    requires ValidRevisions(shown) && AllSteady(shown)
    ensures AfterRun(shown).hourly == Some(TableHours(shown[|shown| - 1].table))
  {
    SteadyRunIsTrue(shown);
  }

  /**
   * The manager from its start, over any run of the store: whatever fails in between, it remembers the successful
   * synchronisations, and if these were steady the Recorder shows the table of the last one.
   */
  method SyncRun(recorder: Recorder, zone: Zone, run: seq<Op>, requests: seq<SyncRequest>)
    returns (manager: StatisticsManager, results: seq<SyncResult>)
    requires ValidRun(run) && ValidRequests(run, requests)
    modifies recorder
    ensures |results| == |requests| && Follows(run, requests, results, manager.State())
    ensures var shown := Shown(run, requests, results);
            AllSteady(shown) ==> recorder.streams == Mirrors(TableHours(shown[|shown| - 1].table))
  {
    manager := new StatisticsManager();
    results := [];
    for i := 0 to |requests|
      invariant fresh(manager) && manager.Valid() && manager.Mirrored(recorder)
      invariant |results| == i && Follows(run, requests, results, manager.State())
    {
      var r := SyncNext(manager, recorder, zone, run, requests, results, requests[i]);
      results := results + [r];
    }
    if AllSteady(Shown(run, requests, results)) {
      SteadyHours(Shown(run, requests, results));
    }
  }

  /** And a correction leaves the Recorder showing the new table exactly when no hour outside its window changed. */
  lemma CorrectedMemoryExactly(memory: Memory, db: Db)
    requires db.metadata.Some? && db.metadata.value.dataTimestamp.Some? && memory.hourly.Some?
    requires memory.lastRevision != Some(db.metadata.value.revision) && !NeedsFullHistory(memory, StatusOf(db))
    ensures var ts := db.metadata.value.dataTimestamp.value;
            Synced(memory, db).hourly == Some(TableHours(db.table)) <==>
            AgreesOutside(memory.hourly.value, db.table, CorrectionStart(ts), CeilHour(ts))
  {
    var ts := db.metadata.value.dataTimestamp.value;
    CorrectionExactly(memory.hourly.value, db.table, CorrectionStart(ts), CeilHour(ts));
  }

  /** A change of an hour older than the window is missed while the row count stays. */
  lemma OldChangeIsMissed(memory: Memory, db: Db, c: Channel, h: int)
    requires db.metadata.Some? && db.metadata.value.dataTimestamp.Some? && memory.hourly.Some?
    requires memory.lastRevision != Some(db.metadata.value.revision) && !NeedsFullHistory(memory, StatusOf(db))
    requires h < CorrectionStart(db.metadata.value.dataTimestamp.value)
    requires !SameAt(memory.hourly.value.Of(c), TableHours(db.table).Of(c), h)
    ensures Synced(memory, db).hourly != Some(TableHours(db.table))
  {
    var ts := db.metadata.value.dataTimestamp.value;
    CorrectedMemoryExactly(memory, db);
    if AgreesOutside(memory.hourly.value, db.table, CorrectionStart(ts), CeilHour(ts)) {
      EqualThere(memory.hourly.value.Of(c), TableHours(db.table).Of(c), CorrectionStart(ts), CeilHour(ts), h);
    }
  }

  lemma EqualThere(m: map<int, int>, n: map<int, int>, start: int, end: int, h: int)
    requires !(start <= h < end) && EqualOutside(m, n, start, end)
    ensures SameAt(m, n, h)
  {
    assert h in Outside(m, start, end) <==> h in Outside(n, start, end);
    assert h in Outside(m, start, end) ==> Outside(m, start, end)[h] == Outside(n, start, end)[h];
  }

  // A change that is missed

  function OneImport(start: int, value: int): Row {
    Row(GridImport, start, start + QUARTER, Some(value), Valid)
  }

  /** An hour, and one more quarter-hour eight days later. */
  const FIRST_ROWS: seq<Row> :=
    [OneImport(0, 1), OneImport(900, 1), OneImport(1800, 1), OneImport(2700, 1), OneImport(691_200, 1)]

  /** Eight days later the first quarter-hour of that hour is corrected. */
  const LATE_CHANGE: seq<Op> := [Commit(FIRST_ROWS, 692_100, "ds_1"), Commit([OneImport(0, 2)], 692_200, "ds_2")]

  /** The table after the first commit, but for the value of its first row. */
  function TableWith(value: int): Table {
    map[Key(GridImport, 0) := OneImport(0, value), Key(GridImport, 900) := OneImport(900, 1),
        Key(GridImport, 1800) := OneImport(1800, 1), Key(GridImport, 2700) := OneImport(2700, 1),
        Key(GridImport, 691_200) := OneImport(691_200, 1)]
  }

  lemma UpsertedGrows(table: Table, records: seq<Row>, row: Row)
    ensures Upserted(table, records + [row]) == Upserted(table, records)[row.Id() := row]
  {
    assert (records + [row])[..|records|] == records;
  }

  lemma UpsertedFive(a: Row, b: Row, c: Row, d: Row, e: Row)
    ensures Upserted(map[], [a, b, c, d, e])
         == map[a.Id() := a][b.Id() := b][c.Id() := c][d.Id() := d][e.Id() := e]
  {
    UpsertedGrows(map[], [], a);
    UpsertedGrows(map[], [a], b);
    UpsertedGrows(map[], [a, b], c);
    UpsertedGrows(map[], [a, b, c], d);
    UpsertedGrows(map[], [a, b, c, d], e);
    assert [] + [a] == [a] && [a] + [b] == [a, b] && [a, b] + [c] == [a, b, c];
    assert [a, b, c] + [d] == [a, b, c, d] && [a, b, c, d] + [e] == [a, b, c, d, e];
  }

  lemma FirstTable()
    ensures Upserted(map[], FIRST_ROWS) == TableWith(1)
  {
    UpsertedFive(OneImport(0, 1), OneImport(900, 1), OneImport(1800, 1), OneImport(2700, 1), OneImport(691_200, 1));
  }

  lemma SecondTable()
    ensures Upserted(TableWith(1), [OneImport(0, 2)]) == TableWith(2)
  {
    UpsertedGrows(TableWith(1), [], OneImport(0, 2));
    assert [] + [OneImport(0, 2)] == [OneImport(0, 2)];
  }

  lemma LateChangeTables()
    ensures StateAt(LATE_CHANGE, 1) == DatasetStore.Committed(EMPTY, FIRST_ROWS, 692_100, "ds_1")
    ensures StateAt(LATE_CHANGE, 1).table == TableWith(1)
    ensures StateAt(LATE_CHANGE, 2) == DatasetStore.Committed(StateAt(LATE_CHANGE, 1), [OneImport(0, 2)], 692_200, "ds_2")
    ensures StateAt(LATE_CHANGE, 2).table == TableWith(2)
  {
    FirstTable();
    SecondTable();
  }

  lemma LastEnd(value: int)
    ensures DataTimestamp(TableWith(value)) == Some(692_100)
  {
    var table := TableWith(value);
    assert table[Key(GridImport, 691_200)] == OneImport(691_200, 1);
    assert forall k :: k in table ==> table[k].end <= 692_100;
  }

  lemma FirstHour(value: int)
    ensures var hours := TableHours(TableWith(value)).gridImport;
            0 in hours && hours[0] == value + 3
  {
    var readings := TableReadings(TableWith(value), GridImport);
    assert 0 in readings && readings[0] == value;
    assert 900 in readings && readings[900] == 1;
    assert 1800 in readings && readings[1800] == 1;
    assert 2700 in readings && readings[2700] == 1;
    HourlyAt(readings, 0);
  }

  lemma LateChangeIsValid()
    ensures ValidRun(LATE_CHANGE)
  {
    assert forall row :: row in FIRST_ROWS ==> row.Sound();
    assert OneImport(0, 2).Sound();
  }

  lemma OneHourDiffers()
    ensures !SameAt(TableHours(TableWith(1)).Of(GridImport), TableHours(TableWith(2)).Of(GridImport), 0)
  {
    FirstHour(1);
    FirstHour(2);
  }

  lemma AfterOne(first: Db)
    requires IsRevision(first)
    ensures ValidRevisions([first]) && AfterRun([first]) == Synced(NOTHING, first)
  {
    assert [first][..0] == [];
  }

  lemma AfterTwo(first: Db, second: Db)
    requires IsRevision(first) && IsRevision(second)
    ensures ValidRevisions([first, second]) && AfterRun([first, second]) == Synced(Synced(NOTHING, first), second)
  {
    AfterOne(first);
    assert [first, second][..1] == [first];
  }

  /** A second revision of the same row count is missed where it changes an hour before its correction window. */
  lemma SecondRevisionIsMissed(first: Db, second: Db, c: Channel, h: int)
    requires IsRevision(first) && IsRevision(second)
    requires first.metadata.value.revision != second.metadata.value.revision
    requires first.metadata.value.counts.expected == second.metadata.value.counts.expected
    requires h < CorrectionStart(second.metadata.value.dataTimestamp.value)
    requires !SameAt(TableHours(first.table).Of(c), TableHours(second.table).Of(c), h)
    ensures Synced(NOTHING, first).hourly == Some(TableHours(first.table))
    ensures Synced(Synced(NOTHING, first), second).hourly != Some(TableHours(second.table))
  {
    var memory := Memory(Some(TableHours(first.table)), Some(first.metadata.value.revision),
                         Some(first.metadata.value.counts.expected));
    assert Synced(NOTHING, first) == memory;
    OldChangeIsMissed(memory, second, c, h);
  }

  lemma LateChangeRevisions(first: Db, second: Db)
    requires first == StateAt(LATE_CHANGE, 1) && second == StateAt(LATE_CHANGE, 2)
    ensures IsRevision(first) && IsRevision(second)
    ensures first.metadata.value.revision != second.metadata.value.revision
    ensures first.metadata.value.counts.expected == second.metadata.value.counts.expected
    ensures second.metadata.value.dataTimestamp == Some(692_100)
    ensures first.table == TableWith(1) && second.table == TableWith(2)
  {
    LateChangeTables();
    LateChangeIsValid();
    RunIsConsistent(LATE_CHANGE, 1);
    RunIsConsistent(LATE_CHANGE, 2);
    LastEnd(1);
    LastEnd(2);
    assert TableWith(1).Keys == TableWith(2).Keys;
  }

  lemma LateWindow()
    ensures CorrectionStart(692_100) == 90_000
  {
  }

  /** The second synchronisation of this run does not notice the change: eight days back is outside its window. */
  lemma LateChangeIsMissed(first: Db, second: Db)
    requires first == StateAt(LATE_CHANGE, 1) && second == StateAt(LATE_CHANGE, 2)
    ensures ValidRun(LATE_CHANGE) && ValidRevisions([first]) && ValidRevisions([first, second])
    ensures AfterRun([first]).hourly == Some(TableHours(first.table))
    ensures AfterRun([first, second]).hourly != Some(TableHours(second.table))
  {
    LateChangeIsValid();
    LateChangeRevisions(first, second);
    LateWindow();
    OneHourDiffers();
    AfterOne(first);
    AfterTwo(first, second);
    SecondRevisionIsMissed(first, second, GridImport, 0);
  }
}
