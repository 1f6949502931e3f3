/** The check of complete days: counting intervals, and when counting is enough (cez_csv_parser.py). */
module DayGrid {
  import opened Prelude
  import opened Measurements
  import opened Zone
  import opened DstNormalisation
  import opened DstRoundTrip

  function CountDay(records: seq<Interval>, day: int): (n: nat)
    ensures n > 0 <==> exists i :: 0 <= i < |records| && records[i].sourceDay == day
  {
    if records == [] then 0
    else
      var last := |records| - 1;
      CountDay(records[..last], day) + if records[last].sourceDay == day then 1 else 0
  }

  /** Quarter-hours from one local midnight to the next. */
  function ExpectedCount(zone: Zone, day: int): int {
    (Midnight(zone, day + 1) - Midnight(zone, day)) / QUARTER
  }

  ghost predicate DayComplete(zone: Zone, records: seq<Interval>, day: int) {
    ExpectedCount(zone, day) in {92, 96, 100} && CountDay(records, day) == ExpectedCount(zone, day)
  }

  /** Every day named by a record has the number of records it should have. */
  ghost predicate DaysComplete(zone: Zone, records: seq<Interval>) {
    forall day :: CountDay(records, day) > 0 ==> DayComplete(zone, records, day)
  }

  // _validate_day_counts

  ghost predicate CountsOf(records: seq<Interval>, byDay: map<int, int>) {
    && (forall day :: day in byDay <==> CountDay(records, day) > 0)
    && (forall day :: day in byDay ==> byDay[day] == CountDay(records, day))
  }

  lemma CountStep(records: seq<Interval>, record: Interval, byDay: map<int, int>)
    requires CountsOf(records, byDay)
    ensures CountsOf(records + [record],
                     byDay[record.sourceDay := (if record.sourceDay in byDay then byDay[record.sourceDay] else 0) + 1])
  {
    forall day ensures CountDay(records + [record], day)
                    == CountDay(records, day) + if record.sourceDay == day then 1 else 0
    {
      assert (records + [record])[..|records|] == records;
    }
  }

  method CountDays(records: seq<Interval>) returns (byDay: map<int, int>)
    ensures CountsOf(records, byDay)
  {
    byDay := map[];
    var i := 0;
    while i < |records|
      invariant 0 <= i <= |records|
      invariant CountsOf(records[..i], byDay)
    {
      var record := records[i];
      CountStep(records[..i], record, byDay);
      TakeNext(records, i, record);
      byDay := byDay[record.sourceDay := (if record.sourceDay in byDay then byDay[record.sourceDay] else 0) + 1];
      i := i + 1;
    }
    assert records[..i] == records;
  }

  method ValidateDayCounts(zone: Zone, records: seq<Interval>) returns (r: Result<(), CsvError>)
    ensures r.Success? <==> DaysComplete(zone, records)
    ensures r.Failure? ==> r.error == DayIntervalCountInvalid
  {
    var byDay := CountDays(records);
    var todo := byDay.Keys;
    while todo != {}
      invariant todo <= byDay.Keys
      invariant forall day :: day in byDay && day !in todo ==> DayComplete(zone, records, day)
      decreases |todo|
    {
      var day := TakeAny(todo);
      var expected := ExpectedCount(zone, day);
      if !(expected in {92, 96, 100}) || byDay[day] != expected {
        return Failure(DayIntervalCountInvalid);
      }
      todo := todo - {day};
    }
    r := Success(());
  }

  // What the count says about the day

  function DayEnds(records: seq<Interval>, day: int): (ends: seq<int>)
    ensures |ends| == CountDay(records, day)
  {
    if records == [] then []
    else
      var last := |records| - 1;
      DayEnds(records[..last], day) + if records[last].sourceDay == day then [records[last].end] else []
  }

  /** The ends of all quarter-hours from local midnight to the next. */
  function Grid(zone: Zone, day: int): (ends: seq<int>)
    requires EuropeanRule(zone)
    ensures |ends| == ExpectedCount(zone, day)
    ensures forall k :: 0 <= k < |ends| ==> ends[k] == Midnight(zone, day) + 900 * (k + 1)
  {
    DayLength(zone, day);
    seq(ExpectedCount(zone, day), k requires 0 <= k < ExpectedCount(zone, day) => Midnight(zone, day) + 900 * (k + 1))
  }

  /** Local midnight is a whole number of quarter-hours, four or eight of them before midnight UTC. */
  lemma MidnightQuarter(zone: Zone, day: int) returns (early: int)
    ensures (early == 4 || early == 8) && Midnight(zone, day) == 900 * (96 * day - early)
  {
    early := if Offset(zone, 86400 * day - 7200) == 3600 then 4 else 8;
  }

  lemma DayCount(zone: Zone, day: int)
    ensures ExpectedCount(zone, day) in {92, 96, 100}
    ensures Midnight(zone, day + 1) == Midnight(zone, day) + 900 * ExpectedCount(zone, day)
  {
    var early := MidnightQuarter(zone, day);
    var late := MidnightQuarter(zone, day + 1);
    assert Midnight(zone, day + 1) - Midnight(zone, day) == 900 * (96 + early - late);
  }

  /** A day has 92, 96 or 100 quarter-hours and nothing is left over. */
  lemma DayLength(zone: Zone, day: int)
    ensures ExpectedCount(zone, day) in {92, 96, 100}
    ensures Midnight(zone, day + 1) == Midnight(zone, day) + 900 * ExpectedCount(zone, day)
    ensures Midnight(zone, day) % 900 == 0
  {
    var early := MidnightQuarter(zone, day);
    DayCount(zone, day);
  }

  ghost predicate EndsAscend(records: seq<Interval>) {
    forall i, j :: 0 <= i < j < |records| ==> records[i].end < records[j].end
  }

  ghost predicate HasEnd(records: seq<Interval>, day: int, t: int) {
    exists i :: 0 <= i < |records| && records[i].sourceDay == day && records[i].end == t
  }

  lemma HasEndSplits(records: seq<Interval>, day: int, t: int)
    requires records != []
    ensures var n := |records| - 1;
            HasEnd(records, day, t) <==> HasEnd(records[..n], day, t) || (records[n].sourceDay == day && records[n].end == t)
  {
    var n := |records| - 1;
    if HasEnd(records, day, t) {
      var i :| 0 <= i < |records| && records[i].sourceDay == day && records[i].end == t;
      assert i < n ==> records[..n][i] == records[i];
    }
    if HasEnd(records[..n], day, t) {
      var i :| 0 <= i < n && records[..n][i].sourceDay == day && records[..n][i].end == t;
      assert records[i] == records[..n][i];
    }
  }

  lemma {:induction false} DayEndsMeaning(records: seq<Interval>, day: int)
    requires EndsAscend(records)
    ensures StrictlyAscending(DayEnds(records, day))
    ensures forall t :: t in DayEnds(records, day) <==> HasEnd(records, day, t)
  {
    if records != [] {
      var n := |records| - 1;
      var front, last := records[..n], records[n];
      DayEndsMeaning(front, day);
      forall t ensures HasEnd(records, day, t) <==> HasEnd(front, day, t) || (last.sourceDay == day && last.end == t) {
        HasEndSplits(records, day, t);
      }
      forall i | 0 <= i < |DayEnds(front, day)| ensures DayEnds(front, day)[i] < last.end {
        assert DayEnds(front, day)[i] in DayEnds(front, day);
      }
    }
  }

  /** A row as the timestamp parser produces it. */
  ghost predicate Parsed(row: Raw) {
    row.localEnd % QUARTER == 0 && 86400 * row.sourceDay <= row.localEnd <= 86400 * (row.sourceDay + 1)
  }

  lemma ParserRows(s: Stamp, row: Raw)
    requires ParseTimestamp(s).Success? && (row.localEnd, row.sourceDay) == ParseTimestamp(s).value
    ensures Parsed(row)
    ensures s.hour + s.minute > 0 <==> row.localEnd > 86400 * row.sourceDay
  {
    StampsOfLabels(s, s);
  }

  /** The first row labelled with the day's own 00:00 names that day. */
  predicate StartsAtMidnight(rows: seq<Raw>, day: int) {
    var first := Occurrences(rows, 86400 * day);
    first != [] && first[0].sourceDay == day
  }

  ghost predicate InDay(zone: Zone, day: int, t: int) {
    Midnight(zone, day) <= t <= Midnight(zone, day + 1) && t % 900 == 0
  }

  lemma LabelInDay(zone: Zone, t: int, day: int)
    requires EuropeanRule(zone) && Wall(zone, t) % 900 == 0
    requires 86400 * day <= Wall(zone, t) <= 86400 * (day + 1)
    ensures InDay(zone, day, t)
  {
    MidnightSeparates(zone, day, t);
    MidnightSeparates(zone, day + 1, t);
    QuarterOffset(Wall(zone, t), Offset(zone, t));
  }

  lemma QuarterOffset(local: int, offset: int)
    requires local % 900 == 0 && (offset == 3600 || offset == 7200)
    ensures (local - offset) % 900 == 0
  {
  }

  /** A record of a day lies between the two local midnights, the first included. */
  lemma RecordInDay(zone: Zone, rows: seq<Raw>, t: int, day: int)
    requires EuropeanRule(zone) && Wall(zone, t) in Labels(rows)
    requires forall row :: row in rows ==> Parsed(row)
    requires RowFor(zone, rows, t).sourceDay == day
    ensures InDay(zone, day, t)
  {
    var row := RowFor(zone, rows, t);
    LabelOccurs(rows, Wall(zone, t));
    assert row in Occurrences(rows, Wall(zone, t));
    LabelInDay(zone, t, day);
  }

  /** Pigeonhole: a full count of quarter-hour ends after midnight is the whole grid. */
  lemma FullCountIsGrid(zone: Zone, day: int, ends: seq<int>)
    requires EuropeanRule(zone) && StrictlyAscending(ends) && |ends| == ExpectedCount(zone, day)
    requires forall t :: t in ends ==> InDay(zone, day, t)
    ensures ends == Grid(zone, day) <==> Midnight(zone, day) !in ends
  {
    DayLength(zone, day);
    var m, n := Midnight(zone, day), ExpectedCount(zone, day);
    if m in ends {
      assert forall k :: 0 <= k < n ==> Grid(zone, day)[k] > m;
      assert m !in Grid(zone, day);
    } else {
      var slots := seq(n, i requires 0 <= i < n => (ends[i] - m) / 900);
      forall i | 0 <= i < n ensures 1 <= slots[i] < n + 1 && ends[i] == m + 900 * slots[i] {
        assert ends[i] in ends;
        SlotOf(m, ends[i], n);
      }
      AscendingFills(slots, 1, n + 1);
      assert ends == Grid(zone, day);
    }
  }

  lemma SlotOf(m: int, t: int, n: int)
    requires m % 900 == 0 && t % 900 == 0 && m < t <= m + 900 * n
    ensures 1 <= (t - m) / 900 < n + 1 && t == m + 900 * ((t - m) / 900)
  {
  }

  lemma ListedEnd(zone: Zone, rows: seq<Raw>, channel: Channel, day: int, t: int, listing: seq<int>)
    requires forall u :: u in listing <==> Wall(zone, u) in Labels(rows)
    ensures HasEnd(IntervalsAt(zone, rows, channel, listing), day, t)
       <==> Wall(zone, t) in Labels(rows) && RowFor(zone, rows, t).sourceDay == day
  {
    var records := IntervalsAt(zone, rows, channel, listing);
    if HasEnd(records, day, t) {
      var i :| 0 <= i < |records| && records[i].sourceDay == day && records[i].end == t;
      assert listing[i] in listing;
    }
    if Wall(zone, t) in Labels(rows) && RowFor(zone, rows, t).sourceDay == day {
      assert t in listing;
      var i :| 0 <= i < |listing| && listing[i] == t;
      assert records[i].sourceDay == day && records[i].end == t;
    }
  }

  /** The first row labelled with the day's 00:00 is the one that local midnight takes. */
  lemma MidnightRow(zone: Zone, rows: seq<Raw>, day: int)
    requires EuropeanRule(zone)
    ensures Wall(zone, Midnight(zone, day)) == 86400 * day
    ensures 86400 * day in Labels(rows) && RowFor(zone, rows, Midnight(zone, day)).sourceDay == day
       <==> StartsAtMidnight(rows, day)
  {
    var m := Midnight(zone, day);
    MidnightSeparates(zone, day, m);
    MidnightSeparates(zone, day, m - 3600);
    assert !IsRepeat(zone, m);
    if StartsAtMidnight(rows, day) {
      assert Occurrences(rows, 86400 * day)[0] in Occurrences(rows, 86400 * day);
    }
  }

  lemma ListingAscends(zone: Zone, rows: seq<Raw>, channel: Channel, listing: seq<int>)
    requires StrictlyAscending(listing) && forall u :: u in listing ==> Wall(zone, u) in Labels(rows)
    ensures EndsAscend(IntervalsAt(zone, rows, channel, listing))
  {
  }

  /** A day of an accepted file is its full grid exactly when it has no row labelled with its own 00:00. */
  lemma AcceptedDayIsGrid(zone: Zone, rows: seq<Raw>, channel: Channel, day: int)
    requires EuropeanRule(zone) && forall row :: row in rows ==> Parsed(row)
    requires DaysComplete(zone, Normalized(zone, rows, channel))
    requires CountDay(Normalized(zone, rows, channel), day) > 0
    ensures DayEnds(Normalized(zone, rows, channel), day) == Grid(zone, day) <==> !StartsAtMidnight(rows, day)
  {
    var records := Normalized(zone, rows, channel);
    var listing := Ascending(Ends(zone, rows));
    ListingAscends(zone, rows, channel, listing);
    DayEndsMeaning(records, day);
    var ends := DayEnds(records, day);
    forall t | t in ends ensures InDay(zone, day, t) {
      ListedEnd(zone, rows, channel, day, t, listing);
      RecordInDay(zone, rows, t, day);
    }
    FullCountIsGrid(zone, day, ends);
    ListedEnd(zone, rows, channel, day, Midnight(zone, day), listing);
    MidnightRow(zone, rows, day);
  }

  // The hypothesis is needed: a whole day of rows labelled from 00:00 on

  /** One reading at every quarter-hour from local midnight to a quarter-hour before the next. */
  function LateReadings(zone: Zone, day: int): (readings: seq<Reading>)
    ensures |readings| == ExpectedCount(zone, day)
    ensures forall i :: 0 <= i < |readings| ==>
              readings[i] == Reading(Midnight(zone, day) + 900 * i, day, Some(1), Valid)
  {
    DayLength(zone, day);
    seq(ExpectedCount(zone, day), i requires 0 <= i < ExpectedCount(zone, day) =>
      Reading(Midnight(zone, day) + 900 * i, day, Some(1), Valid))
  }

  function LateRows(zone: Zone, day: int): seq<Raw> {
    Written(zone, LateReadings(zone, day))
  }

  lemma LateLabel(zone: Zone, day: int, i: nat)
    requires EuropeanRule(zone) && i < ExpectedCount(zone, day)
    ensures var end := Midnight(zone, day) + 900 * i;
            && 86400 * day <= Wall(zone, end) < 86400 * (day + 1)
            && Wall(zone, end) % 900 == 0
            && (Wall(zone, end) == 86400 * day <==> i == 0)
  {
    var end := Midnight(zone, day) + 900 * i;
    DayLength(zone, day);
    MidnightSeparates(zone, day, end);
    MidnightSeparates(zone, day + 1, end);
    LateQuarter(Midnight(zone, day), i, Offset(zone, end));
  }

  lemma LateQuarter(midnight: int, i: nat, offset: int)
    requires midnight % 900 == 0 && (offset == 3600 || offset == 7200)
    ensures (midnight + 900 * i + offset) % 900 == 0
  {
  }

  /** Every instant with a label of the day before its last quarter-hour has a reading. */
  lemma LateInstant(zone: Zone, day: int, t: int)
    requires EuropeanRule(zone) && 86400 * day <= Wall(zone, t) < 86400 * (day + 1) && Wall(zone, t) % 900 == 0
    ensures t in EndsOf(LateReadings(zone, day))
  {
    DayLength(zone, day);
    MidnightSeparates(zone, day, t);
    MidnightSeparates(zone, day + 1, t);
    QuarterOffset(Wall(zone, t), Offset(zone, t));
    var m, n := Midnight(zone, day), ExpectedCount(zone, day);
    SlotFrom(m, t, n);
    assert EndsOf(LateReadings(zone, day))[(t - m) / 900] == t;
  }

  lemma SlotFrom(m: int, t: int, n: int)
    requires m % 900 == 0 && t % 900 == 0 && m <= t < m + 900 * n
    ensures 0 <= (t - m) / 900 < n && t == m + 900 * ((t - m) / 900)
  {
  }

  lemma LateRowsReturn(zone: Zone, day: int, channel: Channel)
    requires EuropeanRule(zone)
    ensures Normalizable(zone, LateRows(zone, day))
    ensures Normalized(zone, LateRows(zone, day), channel) == Recovered(LateReadings(zone, day), channel)
  {
    var readings := LateReadings(zone, day);
    forall i, t | 0 <= i < |readings| && Wall(zone, t) == Wall(zone, readings[i].end)
      ensures t in EndsOf(readings)
    {
      LateLabel(zone, day, i);
      LateInstant(zone, day, t);
    }
    RoundTrip(zone, readings, channel);
  }

  lemma {:induction false} OneDayCounts(records: seq<Interval>, only: int, day: int)
    requires forall r :: r in records ==> r.sourceDay == only
    ensures CountDay(records, day) == if day == only then |records| else 0
  {
    if records != [] {
      var n := |records| - 1;
      assert records == records[..n] + [records[n]];
      assert records[n] in records;
      OneDayCounts(records[..n], only, day);
    }
  }

  lemma LateRowsComplete(zone: Zone, day: int, channel: Channel)
    ensures DaysComplete(zone, Recovered(LateReadings(zone, day), channel))
    ensures CountDay(Recovered(LateReadings(zone, day), channel), day) == ExpectedCount(zone, day) > 0
  {
    var records := Recovered(LateReadings(zone, day), channel);
    forall d ensures CountDay(records, d) == if d == day then |records| else 0 {
      OneDayCounts(records, day, d);
    }
    DayLength(zone, day);
  }

  lemma LateRowsStart(zone: Zone, day: int)
    requires EuropeanRule(zone)
    ensures forall row :: row in LateRows(zone, day) ==> Parsed(row)
    ensures StartsAtMidnight(LateRows(zone, day), day)
  {
    var rows := LateRows(zone, day);
    DayLength(zone, day);
    forall i | 0 <= i < |rows|
      ensures Parsed(rows[i]) && (rows[i].localEnd == 86400 * day <==> i == 0)
    {
      LateLabel(zone, day, i);
    }
    OccursOnce(rows, 86400 * day, 0);
  }

  /** For every day there is a file accepted as complete that lacks the last quarter-hour of the day it names. */
  lemma MidnightRowBreaksGrid(zone: Zone, day: int, channel: Channel)
    requires EuropeanRule(zone)
    ensures var rows := LateRows(zone, day);
            && (forall row :: row in rows ==> Parsed(row))
            && Normalizable(zone, rows)
            && DaysComplete(zone, Normalized(zone, rows, channel))
            && DayEnds(Normalized(zone, rows, channel), day) != Grid(zone, day)
  {
    LateRowsReturn(zone, day, channel);
    LateRowsComplete(zone, day, channel);
    LateRowsStart(zone, day);
    AcceptedDayIsGrid(zone, LateRows(zone, day), channel, day);
  }

  /** Where no row is written 00:00, every day named by an accepted file is its full grid. */
  lemma NamedDaysAreGrids(zone: Zone, rows: seq<Raw>, channel: Channel, day: int)
    requires EuropeanRule(zone) && forall row :: row in rows ==> Parsed(row) && row.localEnd > 86400 * row.sourceDay
    requires DaysComplete(zone, Normalized(zone, rows, channel))
    requires CountDay(Normalized(zone, rows, channel), day) > 0
    ensures DayEnds(Normalized(zone, rows, channel), day) == Grid(zone, day)
  {
    AcceptedDayIsGrid(zone, rows, channel, day);
    HeadIsMember(Occurrences(rows, 86400 * day));
  }
}
