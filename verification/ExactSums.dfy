/** Totals of a full history fit the 28 digits of Python's default decimal context, so no addition rounds. */
module ExactSums {
  import opened Prelude
  import opened Measurements
  import opened DatasetStore
  import opened Pagination
  import opened HourlyAggregation
  import opened HistoryWindows

  // In units of 10^-9 kWh: the first integer that has more than 28 digits.
  const DIGITS_28: int := 10_000_000_000_000_000_000_000_000_000

  lemma HourBounded(table: Table, c: Channel, h: int)
    requires Wellformed(table) && h in HourlyOf(TableReadings(table, c))
    ensures 0 <= HourlyOf(TableReadings(table, c))[h] <= 4_000_000_000_000_000_000_000
  {
    var r := TableReadings(table, c);
    HourlyAt(r, h);
    ReadingBounded(table, c, h);
    ReadingBounded(table, c, h + 900);
    ReadingBounded(table, c, h + 1800);
    ReadingBounded(table, c, h + 2700);
  }

  lemma ReadingBounded(table: Table, c: Channel, t: int)
    requires Wellformed(table) && t in TableReadings(table, c)
    ensures 0 <= TableReadings(table, c)[t] < 1_000_000_000_000_000_000_000
  {
    assert Key(c, t) in table;
  }

  lemma HoursFewerThanRows(table: Table, c: Channel)
    ensures |HourlyOf(TableReadings(table, c)).Keys| <= |table|
  {
    var hours := HourlyOf(TableReadings(table, c)).Keys;
    var starts := ValidStarts(table, c);
    var keys := set k | k in table && k.channel == c && k.start in starts;
    forall t | t in starts ensures Key(c, t) in keys && Key(c, t).start == t { assert Key(c, t) in table; }
    forall k | k in keys ensures k.start in starts && Key(c, k.start) == k {
    }
    SameSize(starts, keys, t => Key(c, t), (k: Key) => k.start);
    assert hours <= starts;
    SubsetSize(hours, starts);
    SubsetSize(keys, table.Keys);
  }

  /**
   * Every sum of hours of a table of at most 128 windows fits 28 digits, whatever hours it takes:
   * so does every partial sum of the running total, in whatever order the additions are made.
   */
  lemma SumsAreExact(table: Table, c: Channel, some: set<int>)
    requires Wellformed(table) && |table| <= MAX_HISTORY_EXPECTED_COUNT
    requires some <= HourlyOf(TableReadings(table, c)).Keys
    ensures 0 <= SumOver(some, HourlyOf(TableReadings(table, c))) < DIGITS_28
  {
    forall h | h in some
      ensures 0 <= HourlyOf(TableReadings(table, c))[h] <= 4_000_000_000_000_000_000_000
    {
      HourBounded(table, c, h);
    }
    HoursFewerThanRows(table, c);
    SubsetSize(some, HourlyOf(TableReadings(table, c)).Keys);
    SumFits(some, HourlyOf(TableReadings(table, c)));
  }

  lemma SumFits(some: set<int>, hourly: map<int, int>)
    requires some <= hourly.Keys && |some| <= 1_536_000
    requires forall h :: h in some ==> 0 <= hourly[h] <= 4_000_000_000_000_000_000_000
    ensures 0 <= SumOver(some, hourly) < DIGITS_28
  {
    SumBounded(some, hourly, 4_000_000_000_000_000_000_000);
  }

  /** In particular every state and sum that the Recorder is given. */
  lemma RecordedSumsAreExact(table: Table, c: Channel, i: nat)
    requires Wellformed(table) && |table| <= MAX_HISTORY_EXPECTED_COUNT
    requires i < |CumulativeRows(TableHours(table).Of(c))|
    ensures var row := CumulativeRows(TableHours(table).Of(c))[i];
            0 <= row.state <= row.sum < DIGITS_28
  {
    var hourly := TableHours(table).Of(c);
    CumulativeMeaning(hourly);
    var h := CumulativeRows(hourly)[i].start;
    HourBounded(table, c, h);
    SumsAreExact(table, c, UpTo(hourly, h));
    SumWithout(UpTo(hourly, h), hourly, h);
    SumsAreExact(table, c, UpTo(hourly, h) - {h});
  }
}
