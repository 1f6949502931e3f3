/** Writing hours to Home Assistant's Recorder: rebuilding both streams, and updating them incrementally. */
module RecorderMirror {
  import opened Prelude
  import opened Measurements
  import opened HourlyAggregation

  datatype Point = Point(state: int, sum: int)

  /** One external statistic: its points by start. */
  type Stream = map<int, Point>

  type Streams = PerChannel<Stream>

  datatype Call = Clear(channels: set<Channel>) | Add(channel: Channel, rows: seq<StatisticRow>)

  // What the calls do

  /** Adding statistics overwrites by start; a later row of the same start wins. */
  function Overwritten(stream: Stream, rows: seq<StatisticRow>): Stream {
    if rows == [] then stream
    else
      var n := |rows| - 1;
      Overwritten(stream, rows[..n])[rows[n].start := Point(rows[n].state, rows[n].sum)]
  }

  function Applied(streams: Streams, call: Call): Streams {
    match call
    case Clear(channels) =>
      PerChannel(if GridExport in channels then map[] else streams.gridExport,
                 if GridImport in channels then map[] else streams.gridImport)
    case Add(c, rows) => streams.With(c, Overwritten(streams.Of(c), rows))
  }

  function Replay(streams: Streams, calls: seq<Call>): Streams
    decreases |calls|
  {
    if calls == [] then streams else Replay(Applied(streams, calls[0]), calls[1..])
  }

  /** The stream that shows `hourly`: each hour with its value and the sum of all hours up to it. */
  ghost function Mirror(hourly: map<int, int>): (s: Stream)
    ensures s.Keys == hourly.Keys
  {
    map h | h in hourly :: MirrorAt(hourly, h)
  }

  ghost function MirrorAt(hourly: map<int, int>, h: int): Point
    requires h in hourly
  {
    Point(hourly[h], SumOver(UpTo(hourly, h), hourly))
  }

  ghost function Mirrors(hourly: HourlyEnergy): Streams {
    PerChannel(Mirror(hourly.gridExport), Mirror(hourly.gridImport))
  }

  // Which calls are made

  function RebuildCalls(hourly: HourlyEnergy): seq<Call> {
    [Clear({GridImport, GridExport}),
     Add(GridImport, CumulativeRows(hourly.gridImport)),
     Add(GridExport, CumulativeRows(hourly.gridExport))]
  }

  function Removed(old': map<int, int>, new': map<int, int>): set<int> {
    old'.Keys - new'.Keys
  }

  function Changed(old': map<int, int>, new': map<int, int>): set<int> {
    set h | h in new' && (h !in old' || old'[h] != new'[h])
  }

  function RowsSince(rows: seq<StatisticRow>, start: int): seq<StatisticRow> {
    if rows == [] then []
    else (if rows[0].start >= start then [rows[0]] else []) + RowsSince(rows[1..], start)
  }

  /** Nothing for an unchanged stream, a rebuild after a removal, otherwise the rows from the first change on. */
  function ChannelCalls(c: Channel, old': map<int, int>, new': map<int, int>): seq<Call> {
    if Removed(old', new') == {} && Changed(old', new') == {} then []
    else if Removed(old', new') != {} then [Clear({c}), Add(c, CumulativeRows(new'))]
    else [Add(c, RowsSince(CumulativeRows(new'), Least(Changed(old', new'))))]
  }

  // Why the calls suffice

  /** Rows in increasing order of start, carrying the points of `mirror`. */
  ghost predicate Shows(rows: seq<StatisticRow>, mirror: Stream) {
    && (forall i, j :: 0 <= i < j < |rows| ==> rows[i].start < rows[j].start)
    && forall i :: 0 <= i < |rows| ==>
         rows[i].start in mirror && mirror[rows[i].start] == Point(rows[i].state, rows[i].sum)
  }

  ghost predicate HasStart(rows: seq<StatisticRow>, k: int) {
    exists i :: 0 <= i < |rows| && rows[i].start == k
  }

  lemma {:induction false} OverwrittenAt(stream: Stream, rows: seq<StatisticRow>, mirror: Stream, k: int)
    requires Shows(rows, mirror)
    ensures k in Overwritten(stream, rows) <==> k in stream || HasStart(rows, k)
    ensures HasStart(rows, k) ==> k in mirror && Overwritten(stream, rows)[k] == mirror[k]
    ensures !HasStart(rows, k) && k in stream ==> Overwritten(stream, rows)[k] == stream[k]
  {
    if rows != [] {
      var n := |rows| - 1;
      OverwrittenAt(stream, rows[..n], mirror, k);
      if HasStart(rows, k) {
        var i :| 0 <= i < |rows| && rows[i].start == k;
        assert i < n ==> rows[..n][i].start == k;
      }
      if HasStart(rows[..n], k) {
        var i :| 0 <= i < n && rows[..n][i].start == k;
        assert rows[i].start == k;
      }
    }
  }

  /** Of several rows of one start the last one stays. */
  lemma {:induction false} LastRowStays(stream: Stream, rows: seq<StatisticRow>, i: nat)
    requires i < |rows| && forall j :: i < j < |rows| ==> rows[j].start != rows[i].start
    ensures rows[i].start in Overwritten(stream, rows)
    ensures Overwritten(stream, rows)[rows[i].start] == Point(rows[i].state, rows[i].sum)
  {
    if i < |rows| - 1 {
      LastRowStays(stream, rows[..|rows| - 1], i);
    }
  }

  /** Other points stay as they were. */
  lemma {:induction false} OtherPointsStay(stream: Stream, rows: seq<StatisticRow>, k: int)
    requires forall i :: 0 <= i < |rows| ==> rows[i].start != k
    ensures k in Overwritten(stream, rows) <==> k in stream
    ensures k in stream ==> Overwritten(stream, rows)[k] == stream[k]
  {
    if rows != [] {
      OtherPointsStay(stream, rows[..|rows| - 1], k);
    }
  }

  lemma CumulativeShows(hourly: map<int, int>)
    ensures Shows(CumulativeRows(hourly), Mirror(hourly))
    ensures forall k :: HasStart(CumulativeRows(hourly), k) <==> k in hourly
  {
    var rows := CumulativeRows(hourly);
    CumulativeMeaning(hourly);
    forall k ensures HasStart(rows, k) <==> k in hourly {
      if k in hourly {
        var keys := Ascending(hourly.Keys);
        assert k in keys;
        var i :| 0 <= i < |keys| && keys[i] == k;
        assert rows[i].start == k;
      }
    }
  }

  lemma {:induction false} SinceShows(rows: seq<StatisticRow>, mirror: Stream, start: int)
    requires Shows(rows, mirror)
    ensures Shows(RowsSince(rows, start), mirror)
    ensures forall k :: HasStart(RowsSince(rows, start), k) <==> HasStart(rows, k) && k >= start
  {
    if rows != [] {
      var rest := RowsSince(rows[1..], start);
      SinceShows(rows[1..], mirror, start);
      forall i | 0 <= i < |rest| ensures rows[0].start < rest[i].start {
        assert HasStart(rest, rest[i].start);
        var j :| 0 <= j < |rows| - 1 && rows[1..][j].start == rest[i].start;
        assert rows[j + 1].start == rest[i].start;
      }
      forall k ensures HasStart(RowsSince(rows, start), k) <==> HasStart(rows, k) && k >= start {
        HasStartSplits(rows, k);
        var head := if rows[0].start >= start then [rows[0]] else [];
        if head != [] {
          HasStartSplits(head + rest, k);
          assert (head + rest)[1..] == rest;
        } else {
          assert head + rest == rest;
        }
      }
    }
  }

  lemma HasStartSplits(rows: seq<StatisticRow>, k: int)
    requires rows != []
    ensures HasStart(rows, k) <==> rows[0].start == k || HasStart(rows[1..], k)
  {
    if HasStart(rows, k) {
      var i :| 0 <= i < |rows| && rows[i].start == k;
      assert i > 0 ==> rows[1..][i - 1].start == k;
    }
    if HasStart(rows[1..], k) {
      var i :| 0 <= i < |rows| - 1 && rows[1..][i].start == k;
      assert rows[i + 1].start == k;
    }
  }

  /** `before` is `goal` but for the keys `late`, which are still to be written. */
  ghost predicate CompleteBut(before: Stream, late: set<int>, goal: Stream) {
    && (forall k :: k in before ==> k in goal)
    && (forall k :: k in goal && k !in late ==> k in before && before[k] == goal[k])
  }

  /** Overwriting the keys `late` of `before` with their values in `goal`, and when that gives all of `goal`. */
  lemma OverwrittenEquals(before: Stream, late: set<int>, after: Stream, goal: Stream)
    requires late <= goal.Keys
    requires forall k :: k in after <==> k in before || k in late
    requires forall k :: k in late ==> after[k] == goal[k]
    requires forall k :: k in before && k !in late ==> after[k] == before[k]
    ensures after == goal <==> CompleteBut(before, late, goal)
  {
    if CompleteBut(before, late, goal) {
      forall k ensures k in after <==> k in goal {
      }
      forall k | k in goal ensures after[k] == goal[k] {
      }
    } else if k :| k in before && k !in goal {
      assert k in after;
    } else {
      var k :| k in goal && k !in late && !(k in before && before[k] == goal[k]);
      assert k in after ==> after[k] != goal[k];
    }
  }

  ghost function Since(hourly: map<int, int>, start: int): set<int> {
    set k | k in hourly && k >= start
  }

  lemma SuffixWrites(stream: Stream, hourly: map<int, int>, start: int, k: int)
    ensures var result := Overwritten(stream, RowsSince(CumulativeRows(hourly), start));
            && (k in result <==> k in stream || k in Since(hourly, start))
            && (k in Since(hourly, start) ==> result[k] == Mirror(hourly)[k])
            && (k in stream && k !in Since(hourly, start) ==> result[k] == stream[k])
  {
    CumulativeShows(hourly);
    SinceShows(CumulativeRows(hourly), Mirror(hourly), start);
    OverwrittenAt(stream, RowsSince(CumulativeRows(hourly), start), Mirror(hourly), k);
  }

  /** Writing only the rows from `start` on suffices exactly when the stream was complete before them. */
  lemma SuffixSuffices(stream: Stream, hourly: map<int, int>, start: int)
    ensures Overwritten(stream, RowsSince(CumulativeRows(hourly), start)) == Mirror(hourly)
       <==> CompleteBut(stream, Since(hourly, start), Mirror(hourly))
  {
    forall k {
      SuffixWrites(stream, hourly, start, k);
    }
    OverwrittenEquals(stream, Since(hourly, start),
                      Overwritten(stream, RowsSince(CumulativeRows(hourly), start)), Mirror(hourly));
  }

  lemma RebuildWrites(hourly: map<int, int>, k: int)
    ensures var result := Overwritten(map[], CumulativeRows(hourly));
            && (k in result <==> k in hourly)
            && (k in hourly ==> result[k] == Mirror(hourly)[k])
  {
    CumulativeShows(hourly);
    OverwrittenAt(map[], CumulativeRows(hourly), Mirror(hourly), k);
  }

  /** Writing all rows into an empty stream shows the hours. */
  lemma RebuildShows(hourly: map<int, int>)
    ensures Overwritten(map[], CumulativeRows(hourly)) == Mirror(hourly)
  {
    forall k ensures k in Overwritten(map[], CumulativeRows(hourly)) <==> k in Mirror(hourly) {
      RebuildWrites(hourly, k);
    }
    forall k | k in Overwritten(map[], CumulativeRows(hourly)) && k in Mirror(hourly)
      ensures Overwritten(map[], CumulativeRows(hourly))[k] == Mirror(hourly)[k]
    {
      RebuildWrites(hourly, k);
    }
    SameMaps(Overwritten(map[], CumulativeRows(hourly)), Mirror(hourly));
  }

  /** Before its first change a table keeps its points. */
  lemma UnchangedBefore(old': map<int, int>, new': map<int, int>, start: int)
    requires Removed(old', new') == {} && forall h :: h in Changed(old', new') ==> start <= h
    ensures CompleteBut(Mirror(old'), Since(new', start), Mirror(new'))
  {
    forall k | k in old' ensures k in new' { assert k !in Removed(old', new'); }
    forall k | k in new' && k !in Since(new', start) ensures k in old' && Mirror(old')[k] == Mirror(new')[k] {
      UnchangedPoint(old', new', start, k);
    }
  }

  lemma UnchangedPoint(old': map<int, int>, new': map<int, int>, start: int, k: int)
    requires forall h :: h in old' ==> h in new'
    requires forall h :: h in Changed(old', new') ==> start <= h
    requires k in new' && k < start
    ensures k in old' && MirrorAt(old', k) == MirrorAt(new', k)
  {
    forall j | j in new' && j <= k ensures j in old' && old'[j] == new'[j] { assert j !in Changed(old', new'); }
    assert UpTo(old', k) == UpTo(new', k);
    SumAgrees(UpTo(old', k), old', new');
  }

  lemma SameTable(old': map<int, int>, new': map<int, int>)
    requires Removed(old', new') == {} && Changed(old', new') == {}
    ensures old' == new'
  {
    forall h ensures h in old' <==> h in new' {
      if h in old' { assert h !in Removed(old', new'); }
      if h in new' { assert h !in Changed(old', new'); }
    }
    forall h | h in new' ensures old'[h] == new'[h] { assert h !in Changed(old', new'); }
  }

  /** The incremental calls take a stream that shows the old hours to one that shows the new hours. */
  lemma IncrementalMirrors(streams: Streams, c: Channel, old': map<int, int>, new': map<int, int>)
    requires streams.Of(c) == Mirror(old')
    ensures Replay(streams, ChannelCalls(c, old', new')) == streams.With(c, Mirror(new'))
  {
    if Removed(old', new') == {} && Changed(old', new') == {} {
      SameTable(old', new');
    } else if Removed(old', new') != {} {
      RebuildShows(new');
      ReplayTwo(streams, Clear({c}), Add(c, CumulativeRows(new')));
    } else {
      var start := Least(Changed(old', new'));
      UnchangedBefore(old', new', start);
      SuffixSuffices(Mirror(old'), new', start);
      ReplayOne(streams, Add(c, RowsSince(CumulativeRows(new'), start)));
    }
  }

  /** From any Recorder state, exactly when the incremental calls leave the stream showing the new hours. */
  lemma IncrementalExactly(streams: Streams, c: Channel, old': map<int, int>, new': map<int, int>)
    ensures Replay(streams, ChannelCalls(c, old', new')).Of(c) == Mirror(new') <==>
            if Removed(old', new') != {} then true
            else if Changed(old', new') == {} then streams.Of(c) == Mirror(new')
            else CompleteBut(streams.Of(c), Since(new', Least(Changed(old', new'))), Mirror(new'))
  {
    if Removed(old', new') != {} {
      RebuildShows(new');
      ReplayTwo(streams, Clear({c}), Add(c, CumulativeRows(new')));
    } else if Changed(old', new') != {} {
      var start := Least(Changed(old', new'));
      SuffixSuffices(streams.Of(c), new', start);
      ReplayOne(streams, Add(c, RowsSince(CumulativeRows(new'), start)));
    }
  }

  /** An update trusts the Recorder: a stream emptied behind its back gets only the rows from the first change on. */
  lemma EmptiedStreamStaysIncomplete()
    ensures var old', new' := map[0 := 1, 3600 := 1], map[0 := 1, 3600 := 2];
            Replay(PerChannel(map[], map[]), ChannelCalls(GridImport, old', new')).Of(GridImport) != Mirror(new')
  {
    var old', new' := map[0 := 1, 3600 := 1], map[0 := 1, 3600 := 2];
    assert Removed(old', new') == {} && Changed(old', new') == {3600};
    assert Least({3600}) == 3600;
    assert 0 in Mirror(new') && 0 !in Since(new', 3600);
    IncrementalExactly(PerChannel(map[], map[]), GridImport, old', new');
  }

  lemma ReplayOne(streams: Streams, a: Call)
    ensures Replay(streams, [a]) == Applied(streams, a)
  {
  }

  lemma ReplayTwo(streams: Streams, a: Call, b: Call)
    ensures Replay(streams, [a, b]) == Applied(Applied(streams, a), b)
  {
    assert [a, b][1..] == [b];
    ReplayOne(Applied(streams, a), b);
  }

  lemma {:induction false} ReplaySplits(streams: Streams, a: seq<Call>, b: seq<Call>)
    ensures Replay(streams, a + b) == Replay(Replay(streams, a), b)
    decreases |a|
  {
    if a == [] {
      assert a + b == b;
    } else {
      assert (a + b)[1..] == a[1..] + b;
      ReplaySplits(Applied(streams, a[0]), a[1..], b);
    }
  }

  /** A rebuild shows the hours whatever the Recorder held before. */
  lemma RebuildMirrors(streams: Streams, hourly: HourlyEnergy)
    ensures Replay(streams, RebuildCalls(hourly)) == Mirrors(hourly)
  {
    var calls := RebuildCalls(hourly);
    RebuildShows(hourly.gridImport);
    RebuildShows(hourly.gridExport);
    assert calls == [calls[0]] + [calls[1], calls[2]];
    ReplaySplits(streams, [calls[0]], [calls[1], calls[2]]);
    ReplayOne(streams, calls[0]);
    ReplayTwo(Applied(streams, calls[0]), calls[1], calls[2]);
  }

  function IncrementalCalls(previous: HourlyEnergy, current: HourlyEnergy): seq<Call> {
    ChannelCalls(GridImport, previous.gridImport, current.gridImport)
    + ChannelCalls(GridExport, previous.gridExport, current.gridExport)
  }

  /** The fast form and the simple one agree: an incremental update leaves what a full rebuild would. */
  lemma IncrementalRefinesRebuild(previous: HourlyEnergy, current: HourlyEnergy)
    ensures Replay(Mirrors(previous), IncrementalCalls(previous, current))
         == Replay(Mirrors(previous), RebuildCalls(current))
         == Mirrors(current)
  {
    var streams := Mirrors(previous);
    RebuildMirrors(streams, current);
    IncrementalMirrors(streams, GridImport, previous.gridImport, current.gridImport);
    var half := streams.With(GridImport, Mirror(current.gridImport));
    IncrementalMirrors(half, GridExport, previous.gridExport, current.gridExport);
    ReplaySplits(streams, ChannelCalls(GridImport, previous.gridImport, current.gridImport),
                 ChannelCalls(GridExport, previous.gridExport, current.gridExport));
  }

  // The Recorder and the two writers

  class Recorder {
    var streams: Streams
    ghost var calls: seq<Call>

    constructor (initial: Streams)
      ensures streams == initial && calls == []
    {
      streams, calls := initial, [];
    }

    method ClearStatistics(channels: set<Channel>)
      modifies this
      ensures streams == Applied(old(streams), Clear(channels))
      ensures calls == old(calls) + [Clear(channels)]
    {
      streams := PerChannel(if GridExport in channels then map[] else streams.gridExport,
                            if GridImport in channels then map[] else streams.gridImport);
      calls := calls + [Clear(channels)];
    }

    method AddStatistics(c: Channel, rows: seq<StatisticRow>)
      modifies this
      ensures streams == Applied(old(streams), Add(c, rows))
      ensures calls == old(calls) + [Add(c, rows)]
    {
      var stream := streams.Of(c);
      var i := 0;
      while i < |rows|
        invariant 0 <= i <= |rows|
        invariant stream == Overwritten(old(streams.Of(c)), rows[..i])
        invariant streams == old(streams) && calls == old(calls)
      {
        assert rows[..i + 1][..i] == rows[..i];
        stream := stream[rows[i].start := Point(rows[i].state, rows[i].sum)];
        i := i + 1;
      }
      assert rows[..i] == rows;
      streams := streams.With(c, stream);
      calls := calls + [Add(c, rows)];
    }
  }

  // In the order of the constant CHANNELS.
  const CHANNELS: seq<Channel> := [GridImport, GridExport]

  /** From `start` with the log `log`, the calls `made` led to `streams` with the log `calls`. */
  ghost predicate Led(start: Streams, log: seq<Call>, made: seq<Call>, streams: Streams, calls: seq<Call>) {
    streams == Replay(start, made) && calls == log + made
  }

  lemma LedFurther(start: Streams, log: seq<Call>, made: seq<Call>, streams: Streams, calls: seq<Call>,
                   more: seq<Call>, streams': Streams, calls': seq<Call>)
    requires Led(start, log, made, streams, calls)
    requires Led(streams, calls, more, streams', calls')
    ensures Led(start, log, made + more, streams', calls')
  {
    ReplaySplits(start, made, more);
  }

  /** The calls a rebuild has made after the first n channels. */
  function RebuildThrough(hourly: HourlyEnergy, n: nat): seq<Call> {
    if n == 0 then [Clear({GridImport, GridExport})]
    else if n == 1 then [Clear({GridImport, GridExport}), Add(GridImport, CumulativeRows(hourly.gridImport))]
    else RebuildCalls(hourly)
  }

  lemma NextRebuild(hourly: HourlyEnergy, n: nat, c: Channel, more: seq<Call>)
    requires n < 2 && c == CHANNELS[n] && more == [Add(c, CumulativeRows(hourly.Of(c)))]
    ensures RebuildThrough(hourly, n + 1) == RebuildThrough(hourly, n) + more
  {
  }

  ghost predicate NonNegativeThrough(hourly: HourlyEnergy, n: nat) {
    (n > 0 ==> NonNegative(hourly.gridImport)) && (n > 1 ==> NonNegative(hourly.gridExport))
  }

  lemma NonNegativeNext(hourly: HourlyEnergy, n: nat, c: Channel)
    requires n < 2 && c == CHANNELS[n] && NonNegativeThrough(hourly, n)
    ensures NonNegative(hourly.Of(c)) ==> NonNegativeThrough(hourly, n + 1)
    ensures !NonNegative(hourly.Of(c)) ==> !NonNegativeThrough(hourly, 2)
  {
  }

  method FullRebuild(recorder: Recorder, hourly: HourlyEnergy) returns (r: Result<(), StatisticsError>)
    modifies recorder
    ensures r.Success? <==> NonNegativeThrough(hourly, 2)
    ensures r.Success? ==> recorder.streams == Mirrors(hourly)
    ensures r.Success? ==> recorder.calls == old(recorder.calls) + RebuildCalls(hourly)
    ensures r.Failure? ==> r.error == ValueInvalid
  {
    ghost var start, log := recorder.streams, recorder.calls;
    recorder.ClearStatistics({GridImport, GridExport});
    ReplayOne(start, Clear({GridImport, GridExport}));
    var i := 0;
    while i < 2
      invariant 0 <= i <= 2
      invariant NonNegativeThrough(hourly, i)
      invariant Led(start, log, RebuildThrough(hourly, i), recorder.streams, recorder.calls)
    {
      var c := CHANNELS[i];
      NonNegativeNext(hourly, i, c);
      var rows := CumulativeStatistics(hourly.Of(c));
      if rows.Failure? {
        return Failure(rows.error);
      }
      ghost var streams, calls := recorder.streams, recorder.calls;
      recorder.AddStatistics(c, rows.value);
      ghost var more := [Add(c, rows.value)];
      ReplayOne(streams, more[0]);
      LedFurther(start, log, RebuildThrough(hourly, i), streams, calls, more, recorder.streams, recorder.calls);
      NextRebuild(hourly, i, c, more);
      i := i + 1;
    }
    RebuildMirrors(start, hourly);
    r := Success(());
  }

  /** The body of the loop of the incremental update: one channel. */
  method UpdateChannel(recorder: Recorder, c: Channel, old': map<int, int>, new': map<int, int>)
    returns (r: Result<(), StatisticsError>)
    modifies recorder
    ensures NonNegative(new') ==> r.Success?
    ensures r.Success? ==> Led(old(recorder.streams), old(recorder.calls), ChannelCalls(c, old', new'),
                               recorder.streams, recorder.calls)
    ensures r.Failure? ==> r.error == ValueInvalid
  {
    var removed, changed := Removed(old', new'), Changed(old', new');
    if removed == {} && changed == {} {
      return Success(());
    }
    ghost var before := recorder.streams;
    if removed != {} {
      recorder.ClearStatistics({c});
    }
    var all := CumulativeStatistics(new');
    if all.Failure? {
      return Failure(all.error);
    }
    var rows := if removed != {} then all.value else RowsSince(all.value, Least(changed));
    recorder.AddStatistics(c, rows);
    if removed != {} {
      ReplayTwo(before, Clear({c}), Add(c, rows));
    } else {
      ReplayOne(before, Add(c, rows));
    }
    r := Success(());
  }

  /** The calls an incremental update has made after the first n channels. */
  function UpdateThrough(previous: HourlyEnergy, current: HourlyEnergy, n: nat): seq<Call> {
    if n == 0 then []
    else if n == 1 then ChannelCalls(GridImport, previous.gridImport, current.gridImport)
    else IncrementalCalls(previous, current)
  }

  lemma NextUpdate(previous: HourlyEnergy, current: HourlyEnergy, n: nat, c: Channel, more: seq<Call>)
    requires n < 2 && c == CHANNELS[n] && more == ChannelCalls(c, previous.Of(c), current.Of(c))
    ensures UpdateThrough(previous, current, n + 1) == UpdateThrough(previous, current, n) + more
  {
  }

  method IncrementalUpdate(recorder: Recorder, previous: HourlyEnergy, current: HourlyEnergy)
    returns (r: Result<(), StatisticsError>)
    modifies recorder
    ensures NonNegative(current.gridImport) && NonNegative(current.gridExport) ==> r.Success?
    ensures r.Success? ==> recorder.streams == Replay(old(recorder.streams), IncrementalCalls(previous, current))
    ensures r.Success? ==> recorder.calls == old(recorder.calls) + IncrementalCalls(previous, current)
    ensures r.Success? && old(recorder.streams) == Mirrors(previous) ==> recorder.streams == Mirrors(current)
    ensures r.Failure? ==> r.error == ValueInvalid
  {
    ghost var start, log := recorder.streams, recorder.calls;
    var i := 0;
    while i < 2
      invariant 0 <= i <= 2
      invariant Led(start, log, UpdateThrough(previous, current, i), recorder.streams, recorder.calls)
    {
      var c := CHANNELS[i];
      ghost var streams, calls := recorder.streams, recorder.calls;
      var updated := UpdateChannel(recorder, c, previous.Of(c), current.Of(c));
      if updated.Failure? {
        return Failure(updated.error);
      }
      ghost var more := ChannelCalls(c, previous.Of(c), current.Of(c));
      LedFurther(start, log, UpdateThrough(previous, current, i), streams, calls, more, recorder.streams, recorder.calls);
      NextUpdate(previous, current, i, c, more);
      i := i + 1;
    }
    if start == Mirrors(previous) {
      IncrementalRefinesRebuild(previous, current);
    }
    r := Success(());
  }
}
