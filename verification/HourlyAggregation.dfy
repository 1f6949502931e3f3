/** From quarter-hour readings to hours and to running sums (statistics.py). */
module HourlyAggregation {
  import opened Prelude
  import opened Measurements

  datatype StatisticsError =
    | IntervalInvalid | ValueInvalid | IntervalDuplicate
    | DatasetUnavailable | HistoryTooLarge | HistoryOvercount | HistoryOverlap | HistoryUnreconciled
    | MetadataInconsistent | RevisionChanged | FetchFailed

  type HourlyEnergy = PerChannel<map<int, int>>

  function HourOf(t: int): int {
    t - t % HOUR
  }

  // The specification: readings by start, and the hours they complete

  predicate OnGrid(m: Row) {
    m.end - m.start == QUARTER && m.start % QUARTER == 0
  }

  /** The valid readings of one channel by start; the last one wins where starts repeat. */
  function Readings(rows: seq<Row>, c: Channel): map<int, int> {
    if rows == [] then map[]
    else
      var last := rows[|rows| - 1];
      var before := Readings(rows[..|rows| - 1], c);
      if last.channel == c && last.quality == Valid && last.value.Some? then before[last.start := last.value.value] else before
  }

  /** Why a row that follows the rows `before` is refused, if it is. */
  function FaultOf(before: seq<Row>, m: Row): Option<StatisticsError> {
    if !OnGrid(m) then Some(IntervalInvalid)
    else if m.quality != Valid then None
    else if m.value.None? || m.value.value < 0 then Some(ValueInvalid)
    else if m.start in Readings(before, m.channel) then Some(IntervalDuplicate)
    else None
  }

  ghost predicate Acceptable(rows: seq<Row>) {
    forall i :: 0 <= i < |rows| ==> FaultOf(rows[..i], rows[i]).None?
  }

  /** Rows are accepted exactly when all are quarter-hours, and the valid ones have values and starts of their own. */
  lemma AcceptableExactly(rows: seq<Row>)
    ensures Acceptable(rows) <==>
              && (forall i :: 0 <= i < |rows| ==> rows[i].start % 900 == 0 && rows[i].end == rows[i].start + 900)
              && (forall i :: 0 <= i < |rows| && rows[i].quality == Valid ==> rows[i].value.Some? && 0 <= rows[i].value.value)
              && (forall i, j :: 0 <= i < j < |rows| && rows[i].quality == Valid && rows[j].quality == Valid ==>
                    rows[i].channel != rows[j].channel || rows[i].start != rows[j].start)
  {
    if Acceptable(rows) {
      forall i | 0 <= i < |rows|
        ensures FaultOf(rows[..i], rows[i]).None?
      {
      }
      forall i, j | 0 <= i < j < |rows| && rows[i].quality == Valid && rows[j].quality == Valid && rows[i].channel == rows[j].channel
        ensures rows[i].start != rows[j].start
      {
        assert FaultOf(rows[..i], rows[i]).None? && FaultOf(rows[..j], rows[j]).None?;
        ReadingOf(rows[..j], rows[j].channel, rows[j].start);
        assert rows[..j][i] == rows[i];
      }
    } else {
      var j :| 0 <= j < |rows| && FaultOf(rows[..j], rows[j]).Some?;
      ReadingOf(rows[..j], rows[j].channel, rows[j].start);
    }
  }

  lemma {:induction false} ReadingOf(rows: seq<Row>, c: Channel, start: int)
    ensures start in Readings(rows, c) <==>
            exists i :: 0 <= i < |rows| && rows[i].channel == c && rows[i].quality == Valid && rows[i].value.Some?
                        && rows[i].start == start
  {
    if rows != [] {
      var n := |rows| - 1;
      ReadingOf(rows[..n], c, start);
      if start in Readings(rows[..n], c) {
        var i :| 0 <= i < n && rows[..n][i].channel == c && rows[..n][i].quality == Valid && rows[..n][i].value.Some?
                 && rows[..n][i].start == start;
        assert rows[i] == rows[..n][i];
      }
      if i :| 0 <= i < n && rows[i].channel == c && rows[i].quality == Valid && rows[i].value.Some? && rows[i].start == start {
        assert rows[..n][i] == rows[i];
      }
    }
  }

  predicate FullHour(r: map<int, int>, h: int) {
    h % HOUR == 0 && h in r && h + 900 in r && h + 1800 in r && h + 2700 in r
  }

  /** An hour is present exactly when its four quarters are, with their sum. */
  function HourlyOf(r: map<int, int>): map<int, int> {
    map h | h in r && FullHour(r, h) :: r[h] + r[h + 900] + r[h + 1800] + r[h + 2700]
  }

  ghost predicate NonNegative(m: map<int, int>) {
    forall k :: k in m ==> 0 <= m[k]
  }

  lemma HourlyIsNonNegative(r: map<int, int>)
    requires NonNegative(r)
    ensures NonNegative(HourlyOf(r))
  {
  }

  lemma {:induction false} AcceptableReadings(rows: seq<Row>, c: Channel)
    requires Acceptable(rows)
    ensures NonNegative(Readings(rows, c))
    ensures forall s :: s in Readings(rows, c) ==> s % QUARTER == 0
  {
    if rows != [] {
      var n := |rows| - 1;
      assert forall i :: 0 <= i < n ==> rows[..n][..i] == rows[..i];
      assert FaultOf(rows[..n], rows[n]).None?;
      AcceptableReadings(rows[..n], c);
    }
  }

  // aggregate_hourly

  /** The buckets by hour hold exactly the readings `r`. */
  ghost predicate Buckets(b: map<int, map<int, int>>, r: map<int, int>) {
    && (forall h :: h in b ==> h % HOUR == 0 && forall s :: s in b[h] ==> s in r && HourOf(s) == h && b[h][s] == r[s])
    && (forall s :: s in r ==> HourOf(s) in b && s in b[HourOf(s)])
  }

  type HourBuckets = PerChannel<map<int, map<int, int>>>

  function Bucket(b: map<int, map<int, int>>, h: int): map<int, int> {
    if h in b then b[h] else map[]
  }

  lemma BucketsGrow(b: map<int, map<int, int>>, r: map<int, int>, s: int, v: int)
    requires Buckets(b, r)
    ensures s in Bucket(b, HourOf(s)) <==> s in r
    ensures Buckets(b[HourOf(s) := Bucket(b, HourOf(s))[s := v]], r[s := v])
  {
  }

  /** The buckets hold the readings of the acceptable rows seen so far. */
  ghost predicate Collected(buckets: HourBuckets, rows: seq<Row>) {
    && Acceptable(rows)
    && Buckets(buckets.gridExport, Readings(rows, GridExport))
    && Buckets(buckets.gridImport, Readings(rows, GridImport))
  }

  lemma CollectedGrows(buckets: HourBuckets, before: seq<Row>, item: Row, buckets': HourBuckets)
    requires Collected(buckets, before) && FaultOf(before, item).None?
    requires var c := item.channel;
             buckets' == if item.quality != Valid then buckets
                         else buckets.With(c, buckets.Of(c)[HourOf(item.start) :=
                                Bucket(buckets.Of(c), HourOf(item.start))[item.start := item.value.value]])
    ensures Collected(buckets', before + [item])
  {
    var rows := before + [item];
    assert rows[..|before|] == before;
    forall i | 0 <= i < |rows| ensures FaultOf(rows[..i], rows[i]).None? {
      if i < |before| {
        assert rows[..i] == before[..i];
      }
    }
    if item.quality == Valid {
      BucketsGrow(buckets.Of(item.channel), Readings(before, item.channel), item.start, item.value.value);
    }
  }

  method AggregateHourly(rows: seq<Row>) returns (r: Result<HourlyEnergy, StatisticsError>)
    ensures r.Success? <==> Acceptable(rows)
    ensures r.Success? ==> r.value.gridExport == HourlyOf(Readings(rows, GridExport))
    ensures r.Success? ==> r.value.gridImport == HourlyOf(Readings(rows, GridImport))
    ensures r.Failure? ==> exists i :: 0 <= i < |rows| && Acceptable(rows[..i]) && FaultOf(rows[..i], rows[i]) == Some(r.error)
  {
    var buckets: HourBuckets := PerChannel(map[], map[]);
    var i := 0;
    while i < |rows|
      invariant 0 <= i <= |rows| && Collected(buckets, rows[..i])
    {
      var item := rows[i];
      var c := item.channel;
      var before := buckets;
      if item.end - item.start != QUARTER || item.start % QUARTER != 0 {
        return Failure(IntervalInvalid);
      }
      if item.quality == Valid {
        if item.value.None? || item.value.value < 0 {
          return Failure(ValueInvalid);
        }
        var hour := HourOf(item.start);
        var intervals := Bucket(buckets.Of(c), hour);
        BucketsGrow(buckets.Of(c), Readings(rows[..i], c), item.start, item.value.value);
        if item.start in intervals {
          return Failure(IntervalDuplicate);
        }
        buckets := buckets.With(c, buckets.Of(c)[hour := intervals[item.start := item.value.value]]);
      }
      CollectedGrows(before, rows[..i], item, buckets);
      assert rows[..i] + [item] == rows[..i + 1];
      i := i + 1;
    }
    assert rows[..i] == rows;
    AcceptableReadings(rows, GridExport);
    AcceptableReadings(rows, GridImport);
    var exported := CompleteHours(buckets.gridExport, Readings(rows, GridExport));
    var imported := CompleteHours(buckets.gridImport, Readings(rows, GridImport));
    r := Success(PerChannel(exported, imported));
  }

  function Minutes(intervals: map<int, int>): set<int> {
    set s | s in intervals :: s % HOUR / 60
  }

  ghost function Quarters(h: int): set<int> {
    {h, h + 900, h + 1800, h + 2700}
  }

  /** Keep the hours whose bucket has four intervals at minutes 0, 15, 30 and 45. */
  method CompleteHours(hours: map<int, map<int, int>>, ghost r: map<int, int>) returns (hourly: map<int, int>)
    requires Buckets(hours, r) && forall s :: s in r ==> s % QUARTER == 0
    ensures hourly == HourlyOf(r)
  {
    hourly := map[];
    FullHoursHaveBuckets(hours, r);
    var todo := hours.Keys;
    while todo != {}
      invariant todo <= hours.Keys
      invariant forall h :: h in hourly ==> FullHour(r, h) && hourly[h] == FourQuarters(r, h)
      invariant forall h :: FullHour(r, h) ==> h in hourly || h in todo
      decreases |todo|
    {
      var h := TakeAny(todo);
      var intervals := hours[h];
      FullBucket(hours, r, h);
      if |intervals| == 4 && Minutes(intervals) == {0, 15, 30, 45} {
        var total := SumValues(intervals);
        hourly := hourly[h := total];
      }
      todo := todo - {h};
    }
    HourlyIs(hourly, r);
  }

  ghost function FourQuarters(r: map<int, int>, h: int): int
    requires FullHour(r, h)
  {
    r[h] + r[h + 900] + r[h + 1800] + r[h + 2700]
  }

  lemma HourlyIs(hourly: map<int, int>, r: map<int, int>)
    requires forall h :: h in hourly ==> FullHour(r, h) && hourly[h] == FourQuarters(r, h)
    requires forall h :: FullHour(r, h) ==> h in hourly
    ensures hourly == HourlyOf(r)
  {
    var full := HourlyOf(r);
    forall h ensures h in hourly <==> h in full {
      HourlyAt(r, h);
    }
    forall h | h in hourly ensures hourly[h] == full[h] {
      HourlyAt(r, h);
    }
  }

  lemma HourlyAt(r: map<int, int>, h: int)
    ensures h in HourlyOf(r) <==> FullHour(r, h)
    ensures FullHour(r, h) ==> HourlyOf(r)[h] == FourQuarters(r, h)
  {
  }

  lemma FullHoursHaveBuckets(hours: map<int, map<int, int>>, r: map<int, int>)
    requires Buckets(hours, r)
    ensures forall h :: FullHour(r, h) ==> h in hours
  {
    forall h | FullHour(r, h) ensures h in hours {
      assert HourOf(h) == h;
    }
  }

  lemma FullBucket(hours: map<int, map<int, int>>, r: map<int, int>, h: int)
    requires Buckets(hours, r) && h in hours && forall s :: s in r ==> s % QUARTER == 0
    ensures |hours[h]| == 4 && Minutes(hours[h]) == {0, 15, 30, 45} <==> FullHour(r, h)
    ensures FullHour(r, h) ==> SumOver(hours[h].Keys, hours[h]) == FourQuarters(r, h)
  {
    BucketKeys(hours, r, h);
    FullKeys(hours[h], r, h);
  }

  lemma FullKeys(b: map<int, int>, r: map<int, int>, h: int)
    requires b.Keys == Quarters(h) * r.Keys && h % HOUR == 0
    requires forall s :: s in b ==> b[s] == r[s]
    ensures |b| == 4 && Minutes(b) == {0, 15, 30, 45} <==> FullHour(r, h)
    ensures FullHour(r, h) ==> SumOver(b.Keys, b) == FourQuarters(r, h)
  {
    MinutesOf(b, h);
    assert FullHour(r, h) <==> Quarters(h) <= r.Keys;
    assert Quarters(h) <= r.Keys <==> b.Keys == Quarters(h);
    if b.Keys == Quarters(h) {
      FourSum(b, h);
    }
  }

  lemma BucketKeys(hours: map<int, map<int, int>>, r: map<int, int>, h: int)
    requires Buckets(hours, r) && h in hours && forall s :: s in r ==> s % QUARTER == 0
    ensures hours[h].Keys == Quarters(h) * r.Keys
    ensures forall s :: s in hours[h] ==> hours[h][s] == r[s]
  {
    forall s ensures s in hours[h] <==> s in Quarters(h) && s in r {
      if s in hours[h] {
        QuarterOfHour(s, h);
      }
      if s in Quarters(h) {
        HourOfQuarter(s, h);
      }
    }
  }

  lemma MinutesOf(b: map<int, int>, h: int)
    requires b.Keys <= Quarters(h) && h % HOUR == 0
    ensures |b| == 4 && Minutes(b) == {0, 15, 30, 45} <==> b.Keys == Quarters(h)
  {
    forall s | s in b ensures s == h + 60 * (s % HOUR / 60) { HourOfQuarter(s, h); }
    if Minutes(b) == {0, 15, 30, 45} {
      forall s | s in Quarters(h) ensures s in b {
        HourOfQuarter(s, h);
        assert s % HOUR / 60 in Minutes(b);
      }
    }
    if b.Keys == Quarters(h) {
      assert |b.Keys| == |b|;
      assert |Quarters(h)| == 4;
      forall m | m in {0, 15, 30, 45} ensures m in Minutes(b) {
        HourOfQuarter(h + 60 * m, h);
        assert h + 60 * m in b;
      }
      forall m | m in Minutes(b) ensures m in {0, 15, 30, 45} {
        var s :| s in b && s % HOUR / 60 == m;
        HourOfQuarter(s, h);
      }
    }
  }

  lemma HourOfQuarter(s: int, h: int)
    requires s in Quarters(h) && h % HOUR == 0
    ensures HourOf(s) == h && s == h + 60 * (s % HOUR / 60) && s % HOUR / 60 in {0, 15, 30, 45}
  {
    assert s % HOUR == s - h;
  }

  lemma QuarterOfHour(s: int, h: int)
    requires s % QUARTER == 0 && HourOf(s) == h
    ensures s == h || s == h + 900 || s == h + 1800 || s == h + 2700
    ensures s == h + 60 * (s % HOUR / 60)
  {
    var m := s % HOUR;
    var k := s / 900 - 4 * (s / HOUR);
    assert m == 900 * k;
    assert 0 <= k < 4;
  }

  lemma FourSum(b: map<int, int>, h: int)
    requires b.Keys == {h, h + 900, h + 1800, h + 2700}
    ensures SumOver(b.Keys, b) == b[h] + b[h + 900] + b[h + 1800] + b[h + 2700]
  {
    SumWithout(b.Keys, b, h);
    var three := {h + 900, h + 1800, h + 2700};
    assert b.Keys - {h} == three;
    SumWithout(three, b, h + 900);
    var two := {h + 1800, h + 2700};
    assert three - {h + 900} == two;
    SumWithout(two, b, h + 1800);
    assert two - {h + 1800} == {h + 2700};
    SumWithout({h + 2700}, b, h + 2700);
    assert {h + 2700} - {h + 2700} == {};
  }

  method SumValues(m: map<int, int>) returns (total: int)
    ensures total == SumOver(m.Keys, m)
  {
    total := 0;
    var todo := m.Keys;
    while todo != {}
      invariant todo <= m.Keys
      invariant total + SumOver(todo, m) == SumOver(m.Keys, m)
      decreases |todo|
    {
      var k := TakeAny(todo);
      SumWithout(todo, m, k);
      total := total + m[k];
      todo := todo - {k};
    }
  }

  // cumulative_statistics

  datatype StatisticRow = StatisticRow(start: int, state: int, sum: int)

  function RowsFrom(keys: seq<int>, hourly: map<int, int>, total: int): (rows: seq<StatisticRow>)
    requires forall i :: 0 <= i < |keys| ==> keys[i] in hourly
    ensures |rows| == |keys| && forall i :: 0 <= i < |rows| ==> rows[i].start == keys[i] && rows[i].state == hourly[keys[i]]
  {
    if keys == [] then []
    else
      var sum := total + hourly[keys[0]];
      [StatisticRow(keys[0], hourly[keys[0]], sum)] + RowsFrom(keys[1..], hourly, sum)
  }

  function CumulativeRows(hourly: map<int, int>): seq<StatisticRow> {
    RowsFrom(Ascending(hourly.Keys), hourly, 0)
  }

  /** The hours up to and including `h`. */
  ghost function UpTo(hourly: map<int, int>, h: int): set<int> {
    set k | k in hourly && k <= h
  }

  /** A row carries the value of its hour and the sum of all hours up to it. */
  ghost predicate Running(hourly: map<int, int>, row: StatisticRow) {
    row.start in hourly && row.state == hourly[row.start] && row.sum == SumOver(UpTo(hourly, row.start), hourly)
  }

  lemma CumulativeRow(hourly: map<int, int>, i: nat)
    requires i < |CumulativeRows(hourly)|
    ensures Running(hourly, CumulativeRows(hourly)[i])
  {
    var keys := Ascending(hourly.Keys);
    AscendingLists(hourly);
    PrefixOfSorted(keys, hourly, i);
    RunningSum(keys, hourly, i);
  }

  /** Independent meaning of the rows: every hour once, in order, with its value and the sum of all hours up to it. */
  lemma CumulativeMeaning(hourly: map<int, int>)
    ensures |CumulativeRows(hourly)| == |hourly|
    ensures forall i, j :: 0 <= i < j < |CumulativeRows(hourly)| ==>
              CumulativeRows(hourly)[i].start < CumulativeRows(hourly)[j].start
    ensures forall i :: 0 <= i < |CumulativeRows(hourly)| ==> Running(hourly, CumulativeRows(hourly)[i])
  {
    forall i | 0 <= i < |CumulativeRows(hourly)| ensures Running(hourly, CumulativeRows(hourly)[i]) {
      CumulativeRow(hourly, i);
    }
  }

  ghost function Elements(s: seq<int>): set<int> {
    set x | x in s
  }

  lemma PrefixOfSorted(keys: seq<int>, hourly: map<int, int>, i: nat)
    requires StrictlyAscending(keys) && i < |keys| && forall k :: k in keys <==> k in hourly
    ensures Elements(keys[..i + 1]) == UpTo(hourly, keys[i])
  {
    forall k ensures k in Elements(keys[..i + 1]) <==> k in UpTo(hourly, keys[i]) {
      if k in keys[..i + 1] {
        var j :| 0 <= j < i + 1 && keys[j] == k;
        assert k in keys;
      }
      if k in hourly && k <= keys[i] {
        assert k in keys;
        var j :| 0 <= j < |keys| && keys[j] == k;
        assert keys[..i + 1][j] == k;
      }
    }
  }

  lemma ElementsNext(keys: seq<int>, hourly: map<int, int>, i: nat)
    requires StrictlyAscending(keys) && Listed(keys, hourly) && i < |keys|
    ensures Elements(keys[..i + 1]) <= hourly.Keys && keys[i] in Elements(keys[..i + 1])
    ensures Elements(keys[..i + 1]) - {keys[i]} == Elements(keys[..i])
  {
    assert keys[..i + 1] == keys[..i] + [keys[i]];
    forall k | k in keys[..i + 1]
      ensures k in hourly
    {
      var j :| 0 <= j < i + 1 && keys[j] == k;
    }
  }

  /** Row i carries the sum over the first i + 1 keys. */
  lemma {:induction false} RunningSum(keys: seq<int>, hourly: map<int, int>, i: nat)
    requires StrictlyAscending(keys) && Listed(keys, hourly) && i < |keys|
    ensures Elements(keys[..i + 1]) <= hourly.Keys
    ensures RowsFrom(keys, hourly, 0)[i].sum == SumOver(Elements(keys[..i + 1]), hourly)
  {
    ElementsNext(keys, hourly, i);
    SumWithout(Elements(keys[..i + 1]), hourly, keys[i]);
    RowsFromAt(keys, hourly, 0, i);
    if i == 0 {
      assert Elements(keys[..0]) == {};
    } else {
      RunningSum(keys, hourly, i - 1);
    }
  }

  lemma RowsFromNext(keys: seq<int>, hourly: map<int, int>, total: int, i: nat)
    requires 0 < i < |keys| && forall k :: 0 <= k < |keys| ==> keys[k] in hourly
    ensures RowsFrom(keys, hourly, total)[i] == RowsFrom(keys[1..], hourly, total + hourly[keys[0]])[i - 1]
  {
  }

  function SumBefore(rows: seq<StatisticRow>, i: nat): int
    requires i <= |rows|
  {
    if i == 0 then 0 else rows[i - 1].sum
  }

  lemma RowsShift(keys: seq<int>, hourly: map<int, int>, total: int, i: nat)
    requires 0 < i < |keys| && forall k :: 0 <= k < |keys| ==> keys[k] in hourly
    ensures var rows, rest := RowsFrom(keys, hourly, total), RowsFrom(keys[1..], hourly, total + hourly[keys[0]]);
            && rows[i].sum == rest[i - 1].sum
            && rows[i - 1].sum == if i == 1 then total + hourly[keys[0]] else rest[i - 2].sum
  {
    RowsFromNext(keys, hourly, total, i);
    if i > 1 {
      RowsFromNext(keys, hourly, total, i - 1);
    }
  }

  lemma {:induction false} RowsFromAt(keys: seq<int>, hourly: map<int, int>, total: int, i: nat)
    requires i < |keys| && forall k :: 0 <= k < |keys| ==> keys[k] in hourly
    ensures var rows := RowsFrom(keys, hourly, total);
            rows[i].sum == (if i == 0 then total else rows[i - 1].sum) + hourly[keys[i]]
  {
    if i > 0 {
      RowsFromAt(keys[1..], hourly, total + hourly[keys[0]], i - 1);
      RowsShift(keys, hourly, total, i);
    }
  }

  ghost predicate Listed(keys: seq<int>, hourly: map<int, int>) {
    forall i :: 0 <= i < |keys| ==> keys[i] in hourly
  }

  lemma AscendingLists(hourly: map<int, int>)
    ensures Listed(Ascending(hourly.Keys), hourly)
  {
    var keys := Ascending(hourly.Keys);
    forall i | 0 <= i < |keys| ensures keys[i] in hourly { assert keys[i] in keys; }
  }

  lemma AllChecked(keys: seq<int>, hourly: map<int, int>)
    requires Listed(keys, hourly) && keys == Ascending(hourly.Keys)
    requires forall i :: 0 <= i < |keys| ==> 0 <= hourly[keys[i]]
    ensures NonNegative(hourly)
  {
    forall k | k in hourly ensures 0 <= hourly[k] {
      assert k in keys;
      var i :| 0 <= i < |keys| && keys[i] == k;
    }
  }

  method CumulativeStatistics(hourly: map<int, int>) returns (r: Result<seq<StatisticRow>, StatisticsError>)
    ensures r.Success? <==> NonNegative(hourly)
    ensures r.Success? ==> r.value == CumulativeRows(hourly)
    ensures r.Failure? ==> r.error == ValueInvalid
  {
    var keys := Ascending(hourly.Keys);
    AscendingLists(hourly);
    r := SumInOrder(keys, hourly);
    if r.Success? {
      AllChecked(keys, hourly);
    }
  }

  ghost predicate Checked(keys: seq<int>, hourly: map<int, int>, n: nat)
    requires Listed(keys, hourly) && n <= |keys|
  {
    forall j :: 0 <= j < n ==> 0 <= hourly[keys[j]]
  }

  lemma CheckedStep(keys: seq<int>, hourly: map<int, int>, n: nat)
    requires Listed(keys, hourly) && n < |keys| && Checked(keys, hourly, n) && 0 <= hourly[keys[n]]
    ensures Checked(keys, hourly, n + 1)
  {
  }

  lemma FullPrefix<T>(s: seq<T>)
    ensures s[..|s|] == s
  {
  }

  method SumInOrder(keys: seq<int>, hourly: map<int, int>) returns (r: Result<seq<StatisticRow>, StatisticsError>)
    requires Listed(keys, hourly)
    ensures r.Success? <==> Checked(keys, hourly, |keys|)
    ensures r.Success? ==> r.value == RowsFrom(keys, hourly, 0)
    ensures r.Failure? ==> r.error == ValueInvalid
  {
    ghost var wanted := RowsFrom(keys, hourly, 0);
    var total := 0;
    var rows: seq<StatisticRow> := [];
    var i := 0;
    while i < |keys|
      invariant 0 <= i <= |keys| && Checked(keys, hourly, i)
      invariant Summed(rows, total, wanted, i)
    {
      if hourly[keys[i]] < 0 {
        return Failure(ValueInvalid);
      }
      total := total + hourly[keys[i]];
      var row := StatisticRow(keys[i], hourly[keys[i]], total);
      CheckedStep(keys, hourly, i);
      SummedStep(keys, hourly, wanted, i, rows, row);
      rows := rows + [row];
      i := i + 1;
    }
    FullPrefix(wanted);
    r := Success(rows);
  }

  /** The first i rows are built and `total` is their sum. */
  ghost predicate Summed(rows: seq<StatisticRow>, total: int, wanted: seq<StatisticRow>, i: nat) {
    i <= |wanted| && rows == wanted[..i] && total == SumBefore(wanted, i)
  }

  lemma SummedStep(keys: seq<int>, hourly: map<int, int>, wanted: seq<StatisticRow>, i: nat,
                   rows: seq<StatisticRow>, row: StatisticRow)
    requires i < |keys| && Listed(keys, hourly)
    requires wanted == RowsFrom(keys, hourly, 0) && Summed(rows, row.sum - row.state, wanted, i)
    requires row.start == keys[i] && row.state == hourly[keys[i]]
    ensures Summed(rows + [row], row.sum, wanted, i + 1)
  {
    RowsFromAt(keys, hourly, 0, i);
    TakeNext(wanted, i, row);
  }
}
