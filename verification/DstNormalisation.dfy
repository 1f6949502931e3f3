/** From wall clock labels of an exported file to UTC intervals (cez_csv_parser.py). */
module DstNormalisation {
  import opened Prelude
  import opened Measurements
  import opened Zone

  datatype CsvError = TimestampInvalid | TimestampAmbiguous | DuplicateConflict | DayIntervalCountInvalid

  /** The digits of a timestamp cell; `day` counts days of the calendar. */
  datatype Stamp = Stamp(day: int, hour: nat, minute: nat, second: nat)

  /** A row of the file: the label of the end of its interval, the day it names, and its reading. */
  datatype Raw = Raw(localEnd: int, sourceDay: int, value: Option<int>, quality: Quality)

  datatype Interval = Interval(channel: Channel, start: int, end: int, value: Option<int>, quality: Quality, sourceDay: int)

  // _parse_timestamp

  function ParseTimestamp(s: Stamp): Result<(int, int), CsvError> {
    if s.hour == 24 then
      if s.minute != 0 || s.second != 0 then Failure(TimestampInvalid)
      else Success((86400 * (s.day + 1), s.day))
    else if s.hour > 23 || s.minute > 59 || s.second != 0 then Failure(TimestampInvalid)
    else if s.minute % 15 != 0 then Failure(TimestampInvalid)
    else Success((86400 * s.day + 3600 * s.hour + 60 * s.minute, s.day))
  }

  /** Every quarter-hour label of a day has one stamp but for midnight, which 00:00 and 24:00 write for different days. */
  lemma StampsOfLabels(a: Stamp, b: Stamp)
    requires ParseTimestamp(a).Success? && ParseTimestamp(b).Success?
    requires ParseTimestamp(a).value.0 == ParseTimestamp(b).value.0
    ensures ParseTimestamp(a).value.0 % QUARTER == 0
    ensures 86400 * a.day <= ParseTimestamp(a).value.0 <= 86400 * (a.day + 1)
    ensures a == b || (a.hour == 24 && b == Stamp(a.day + 1, 0, 0, 0)) || (b.hour == 24 && a == Stamp(b.day + 1, 0, 0, 0))
  {
    SameClock(a.day, 60 * a.hour + a.minute, b.day, 60 * b.hour + b.minute);
    assert ParseTimestamp(a).value.0 == 900 * (96 * a.day + 4 * a.hour + a.minute / 15);
  }

  /** Accepted are exactly the quarter-hours of a day from 00:00 to 23:45, and 24:00, without seconds. */
  lemma AcceptedStamps(s: Stamp)
    ensures ParseTimestamp(s).Success? <==>
              s.second == 0 && ((s.hour <= 23 && s.minute in {0, 15, 30, 45}) || (s.hour == 24 && s.minute == 0))
  {
  }

  /** The stamp of the k-th quarter-hour end of a day; the last one is written 24:00. */
  function StampOf(day: int, k: nat): Stamp {
    if k == 96 then Stamp(day, 24, 0, 0) else Stamp(day, k / 4, 15 * (k % 4), 0)
  }

  /** Every quarter-hour end of a day can be written for that day, and is read back. */
  lemma StampRoundTrip(day: int, k: nat)
    requires 1 <= k <= 96
    ensures ParseTimestamp(StampOf(day, k)) == Success((86400 * day + 900 * k, day))
  {
  }

  lemma SameClock(d: int, m: nat, e: int, n: nat)
    requires m <= 1440 && n <= 1440 && 1440 * d + m == 1440 * e + n
    ensures (d == e && m == n) || (m == 1440 && e == d + 1 && n == 0) || (n == 1440 && d == e + 1 && m == 0)
  {
  }

  // What the rows of one label denote

  function Occurrences(rows: seq<Raw>, local: int): (s: seq<Raw>)
    ensures forall row :: row in s <==> row in rows && row.localEnd == local
  {
    if rows == [] then []
    else
      var last := rows[|rows| - 1];
      Occurrences(rows[..|rows| - 1], local) + (if last.localEnd == local then [last] else [])
  }

  function Labels(rows: seq<Raw>): set<int> {
    set row | row in rows :: row.localEnd
  }

  predicate SameReading(a: Raw, b: Raw) {
    a.value == b.value && a.quality == b.quality
  }

  /** Why the rows of a label cannot be placed, if they cannot. */
  function FaultOf(zone: Zone, rows: seq<Raw>, local: int): Option<CsvError> {
    var candidates, occurrences := UtcCandidates(zone, local), Occurrences(rows, local);
    if candidates == [] then Some(TimestampInvalid)
    else if |candidates| == 2 then (if |occurrences| == 2 then None else Some(TimestampAmbiguous))
    else if forall a, b :: a in occurrences && b in occurrences ==> SameReading(a, b) then None
    else Some(DuplicateConflict)
  }

  predicate Normalizable(zone: Zone, rows: seq<Raw>) {
    forall local :: local in Labels(rows) ==> FaultOf(zone, rows, local).None?
  }

  /** All rows of a label carry the same reading. */
  ghost predicate Agreeing(rows: seq<Raw>, local: int) {
    forall a, b :: a in rows && b in rows && a.localEnd == local && b.localEnd == local ==> a.value == b.value && a.quality == b.quality
  }

  /** The clock shows the label; if it shows it twice it is written twice, and otherwise its rows agree. */
  ghost predicate Placeable(zone: Zone, rows: seq<Raw>, local: int) {
    && (exists t :: Wall(zone, t) == local)
    && (if exists t :: Wall(zone, t) == local == Wall(zone, t + 3600) then |Occurrences(rows, local)| == 2
        else Agreeing(rows, local))
  }

  /** A file can be normalised exactly when each of its labels can be placed. */
  lemma NormalizableExactly(zone: Zone, rows: seq<Raw>)
    ensures Normalizable(zone, rows) <==> forall row :: row in rows ==> Placeable(zone, rows, row.localEnd)
  {
    forall local
      ensures FaultOf(zone, rows, local).None? <==> Placeable(zone, rows, local)
    {
      LabelFault(zone, rows, local);
    }
  }

  lemma LabelFault(zone: Zone, rows: seq<Raw>, local: int)
    ensures FaultOf(zone, rows, local).None? <==> Placeable(zone, rows, local)
  {
    CandidatesArePreimages(zone, local);
    var candidates := UtcCandidates(zone, local);
    if candidates != [] {
      assert candidates[0] in candidates && Wall(zone, candidates[0]) == local;
    }
    if |candidates| == 2 {
      assert candidates[1] in candidates && Wall(zone, candidates[0] + 3600) == local;
    }
    if t :| Wall(zone, t) == local == Wall(zone, t + 3600) {
      assert t in candidates && t + 3600 in candidates;
    }
  }

  /** The instants whose labels the rows carry. */
  function Ends(zone: Zone, rows: seq<Raw>): (s: set<int>)
    ensures forall t :: t in s <==> Wall(zone, t) in Labels(rows)
  {
    var s := set local, t | local in Labels(rows) && t in UtcCandidates(zone, local) :: t;
    assert forall t :: t in s <==> Wall(zone, t) in Labels(rows) by {
      forall t ensures t in s <==> Wall(zone, t) in Labels(rows) {
        CandidatesArePreimages(zone, Wall(zone, t));
        if t in s {
          var local :| local in Labels(rows) && t in UtcCandidates(zone, local);
          CandidatesArePreimages(zone, local);
        }
      }
    }
    s
  }

  /** The label was shown an hour earlier too. */
  predicate IsRepeat(zone: Zone, t: int) {
    Wall(zone, t - 3600) == Wall(zone, t)
  }

  /** The row an instant takes: the first one of its label, the second one when the label is shown for the second time. */
  function RowFor(zone: Zone, rows: seq<Raw>, t: int): Raw
    requires Wall(zone, t) in Labels(rows)
  {
    var occurrences := Occurrences(rows, Wall(zone, t));
    LabelOccurs(rows, Wall(zone, t));
    if IsRepeat(zone, t) && |occurrences| > 1 then occurrences[1] else occurrences[0]
  }

  lemma LabelOccurs(rows: seq<Raw>, local: int)
    requires local in Labels(rows)
    ensures |Occurrences(rows, local)| > 0
  {
    var row :| row in rows && row.localEnd == local;
    assert row in Occurrences(rows, local);
  }

  function IntervalAt(channel: Channel, row: Raw, end: int): Interval {
    Interval(channel, end - QUARTER, end, row.value, row.quality, row.sourceDay)
  }

  function IntervalsAt(zone: Zone, rows: seq<Raw>, channel: Channel, ends: seq<int>): (s: seq<Interval>)
    requires forall t :: t in ends ==> Wall(zone, t) in Labels(rows)
    ensures |s| == |ends|
    ensures forall i :: 0 <= i < |s| ==> s[i] == IntervalAt(channel, RowFor(zone, rows, ends[i]), ends[i])
  {
    seq(|ends|, i requires 0 <= i < |ends| => IntervalAt(channel, RowFor(zone, rows, ends[i]), ends[i]))
  }

  /** One interval for every instant denoted, in the order of time. */
  function Normalized(zone: Zone, rows: seq<Raw>, channel: Channel): seq<Interval> {
    IntervalsAt(zone, rows, channel, Ascending(Ends(zone, rows)))
  }

  // _normalize_intervals

  /** The pairs of row and instant of one label: in order when it is repeated, all at the one instant otherwise. */
  function Assigned(occurrences: seq<Raw>, candidates: seq<int>): (pairs: seq<(Raw, int)>)
    requires |candidates| == 1 || (|candidates| == 2 && |occurrences| == 2)
    ensures |pairs| == |occurrences|
    ensures forall j :: 0 <= j < |pairs| ==>
              pairs[j] == (occurrences[j], if |candidates| == 2 then candidates[j] else candidates[0])
  {
    seq(|occurrences|, j requires 0 <= j < |occurrences| =>
      (occurrences[j], if |candidates| == 2 then candidates[j] else candidates[0]))
  }

  ghost predicate NoConflict(pairs: seq<(Raw, int)>) {
    forall j, k :: 0 <= j < k < |pairs| && pairs[j].1 == pairs[k].1 ==> SameReading(pairs[j].0, pairs[k].0)
  }

  /** The first pair of its instant. */
  ghost predicate IsFirst(pairs: seq<(Raw, int)>, j: int) {
    0 <= j < |pairs| && forall k :: 0 <= k < j ==> pairs[k].1 != pairs[j].1
  }

  ghost predicate Names(pairs: seq<(Raw, int)>, t: int) {
    exists j :: 0 <= j < |pairs| && pairs[j].1 == t
  }

  lemma NamesStep(pairs: seq<(Raw, int)>, n: nat, t: int)
    requires n < |pairs|
    ensures Names(pairs[..n + 1], t) <==> Names(pairs[..n], t) || pairs[n].1 == t
  {
    var all := pairs[..n + 1];
    if Names(all, t) {
      var j :| 0 <= j < |all| && all[j].1 == t;
      assert j < n ==> pairs[..n][j].1 == t;
    }
    if Names(pairs[..n], t) {
      var j :| 0 <= j < n && pairs[..n][j].1 == t;
      assert all[j].1 == t;
    }
    assert all[n] == pairs[n];
  }

  lemma FirstStep(pairs: seq<(Raw, int)>, n: nat, j: int)
    requires n < |pairs| && IsFirst(pairs[..n + 1], j)
    ensures pairs[..n + 1][j] == pairs[j]
    ensures if j < n then IsFirst(pairs[..n], j) && pairs[..n][j] == pairs[j] else j == n && !Names(pairs[..n], pairs[n].1)
  {
    var all := pairs[..n + 1];
    assert forall k :: 0 <= k < n ==> pairs[..n][k] == all[k];
  }

  /** `placed` adds to `records` the intervals of the first pairs. */
  ghost predicate Placed(records: map<int, Interval>, pairs: seq<(Raw, int)>, channel: Channel, placed: map<int, Interval>) {
    && (forall t :: t in placed <==> t in records || Names(pairs, t))
    && (forall t :: t in records ==> placed[t] == records[t])
    && (forall j :: IsFirst(pairs, j) ==>
          pairs[j].1 in placed && placed[pairs[j].1] == IntervalAt(channel, pairs[j].0, pairs[j].1))
  }

  lemma {:induction false} FirstOf(pairs: seq<(Raw, int)>, j: nat) returns (i: nat)
    requires j < |pairs|
    ensures i <= j && IsFirst(pairs, i) && pairs[i].1 == pairs[j].1
    decreases j
  {
    if k :| 0 <= k < j && pairs[k].1 == pairs[j].1 {
      i := FirstOf(pairs, k);
    } else {
      i := j;
    }
  }

  lemma PlacedStep(records: map<int, Interval>, pairs: seq<(Raw, int)>, channel: Channel, n: nat,
                   placed: map<int, Interval>, placed': map<int, Interval>)
    requires n < |pairs| && Placed(records, pairs[..n], channel, placed)
    requires forall j :: 0 <= j < |pairs| ==> pairs[j].1 !in records
    requires placed' == if pairs[n].1 in placed then placed
                        else placed[pairs[n].1 := IntervalAt(channel, pairs[n].0, pairs[n].1)]
    ensures Placed(records, pairs[..n + 1], channel, placed')
  {
    forall t ensures t in placed' <==> t in records || Names(pairs[..n + 1], t) {
      NamesStep(pairs, n, t);
    }
    var all := pairs[..n + 1];
    forall j | IsFirst(all, j)
      ensures all[j].1 in placed' && placed'[all[j].1] == IntervalAt(channel, all[j].0, all[j].1)
    {
      FirstStep(pairs, n, j);
    }
  }

  lemma NothingPlaced(records: map<int, Interval>, channel: Channel)
    ensures Placed(records, [], channel, records)
  {
  }

  /** The inner loop: the rows of one label, at instants that have no record yet. */
  method PlaceRows(records: map<int, Interval>, pairs: seq<(Raw, int)>, channel: Channel)
    returns (r: Result<map<int, Interval>, CsvError>)
    requires forall j :: 0 <= j < |pairs| ==> pairs[j].1 !in records
    ensures r.Success? <==> NoConflict(pairs)
    ensures r.Success? ==> Placed(records, pairs, channel, r.value)
    ensures r.Failure? ==> r.error == DuplicateConflict
  {
    var placed := records;
    var n := 0;
    NothingPlaced(records, channel);
    assert pairs[..0] == [];
    while n < |pairs|
      invariant 0 <= n <= |pairs|
      invariant Placed(records, pairs[..n], channel, placed)
      invariant NoConflict(pairs[..n])
    {
      var (raw, end) := pairs[n];
      var record := IntervalAt(channel, raw, end);
      var next := if end in placed then placed else placed[end := record];
      PlacedStep(records, pairs, channel, n, placed, next);
      ConflictStep(records, pairs, channel, n, placed);
      if end in placed && (placed[end].value != record.value || placed[end].quality != record.quality) {
        return Failure(DuplicateConflict);
      }
      placed := next;
      n := n + 1;
    }
    assert pairs[..n] == pairs;
    r := Success(placed);
  }

  lemma StoredReading(records: map<int, Interval>, pairs: seq<(Raw, int)>, channel: Channel, n: nat, j: nat,
                      placed: map<int, Interval>)
    requires j < n < |pairs| && Placed(records, pairs[..n], channel, placed) && NoConflict(pairs[..n])
    ensures pairs[j].1 in placed
    ensures placed[pairs[j].1].value == pairs[j].0.value && placed[pairs[j].1].quality == pairs[j].0.quality
  {
    var front := pairs[..n];
    assert front[j] == pairs[j];
    var i := FirstOf(front, j);
    assert i == j || SameReading(front[i].0, front[j].0);
  }

  lemma NoConflictStep(pairs: seq<(Raw, int)>, n: nat)
    requires n < |pairs| && NoConflict(pairs[..n])
    requires forall j :: 0 <= j < n && pairs[j].1 == pairs[n].1 ==> SameReading(pairs[j].0, pairs[n].0)
    ensures NoConflict(pairs[..n + 1])
  {
    var front, all := pairs[..n], pairs[..n + 1];
    forall j, k | 0 <= j < k < |all| && all[j].1 == all[k].1 ensures SameReading(all[j].0, all[k].0) {
      assert all[j] == pairs[j] && front[j] == pairs[j];
      if k < n { assert front[k] == pairs[k]; }
    }
  }

  lemma ConflictStep(records: map<int, Interval>, pairs: seq<(Raw, int)>, channel: Channel, n: nat, placed: map<int, Interval>)
    requires n < |pairs| && Placed(records, pairs[..n], channel, placed) && NoConflict(pairs[..n])
    requires pairs[n].1 !in records
    ensures var (raw, end) := pairs[n];
            var fits := end !in placed || (placed[end].value == raw.value && placed[end].quality == raw.quality);
            (fits ==> NoConflict(pairs[..n + 1])) && (!fits ==> !NoConflict(pairs))
  {
    var (raw, end) := pairs[n];
    forall j | 0 <= j < n && pairs[j].1 == end
      ensures end in placed && placed[end].value == pairs[j].0.value && placed[end].quality == pairs[j].0.quality
    {
      StoredReading(records, pairs, channel, n, j, placed);
    }
    if end !in placed || (placed[end].value == raw.value && placed[end].quality == raw.quality) {
      NoConflictStep(pairs, n);
    } else {
      var j :| 0 <= j < n && pairs[..n][j].1 == end;
      assert pairs[j].1 == end;
    }
  }

  /** The pair that places an instant of a label carries the row meant for it. */
  lemma RowOfCandidate(zone: Zone, rows: seq<Raw>, local: int, t: int)
    requires local in Labels(rows) && Wall(zone, t) == local
    requires |UtcCandidates(zone, local)| == 2 ==> |Occurrences(rows, local)| == 2
    ensures var candidates := UtcCandidates(zone, local);
            && (|candidates| == 1 || |candidates| == 2)
            && var pairs := Assigned(Occurrences(rows, local), candidates);
               var j := if t == candidates[0] then 0 else 1;
               IsFirst(pairs, j) && pairs[j] == (RowFor(zone, rows, t), t)
  {
    var candidates := UtcCandidates(zone, local);
    CandidatesArePreimages(zone, local);
    LabelOccurs(rows, local);
    assert IsRepeat(zone, t) <==> t - 3600 in candidates;
    var pairs := Assigned(Occurrences(rows, local), candidates);
    assert t in candidates;
    assert t == candidates[0] || (|candidates| == 2 && t == candidates[1]);
  }

  lemma PairsAtCandidates(zone: Zone, rows: seq<Raw>, local: int, t: int)
    requires local in Labels(rows)
    requires |UtcCandidates(zone, local)| == 1 || (|UtcCandidates(zone, local)| == 2 && |Occurrences(rows, local)| == 2)
    ensures Names(Assigned(Occurrences(rows, local), UtcCandidates(zone, local)), t) <==> Wall(zone, t) == local
  {
    var candidates := UtcCandidates(zone, local);
    CandidatesArePreimages(zone, local);
    var pairs := Assigned(Occurrences(rows, local), candidates);
    if Wall(zone, t) == local {
      RowOfCandidate(zone, rows, local, t);
    }
    if Names(pairs, t) {
      var j :| 0 <= j < |pairs| && pairs[j].1 == t;
      assert t in candidates;
    }
  }

  /** The rows of a label conflict exactly when its fault says so. */
  lemma ConflictIsFault(zone: Zone, rows: seq<Raw>, local: int)
    requires |UtcCandidates(zone, local)| == 1 || (|UtcCandidates(zone, local)| == 2 && |Occurrences(rows, local)| == 2)
    ensures NoConflict(Assigned(Occurrences(rows, local), UtcCandidates(zone, local))) <==> FaultOf(zone, rows, local).None?
    ensures FaultOf(zone, rows, local).Some? ==> FaultOf(zone, rows, local).value == DuplicateConflict
  {
    var candidates, occurrences := UtcCandidates(zone, local), Occurrences(rows, local);
    CandidatesArePreimages(zone, local);
    var pairs := Assigned(occurrences, candidates);
    if |candidates| == 1 {
      if NoConflict(pairs) {
        forall a, b | a in occurrences && b in occurrences ensures SameReading(a, b) {
          var j :| 0 <= j < |occurrences| && occurrences[j] == a;
          var k :| 0 <= k < |occurrences| && occurrences[k] == b;
          assert pairs[j].0 == a && pairs[k].0 == b;
          if j < k { assert SameReading(pairs[j].0, pairs[k].0); }
          if k < j { assert SameReading(pairs[k].0, pairs[j].0); }
        }
      }
      if forall a, b :: a in occurrences && b in occurrences ==> SameReading(a, b) {
        forall j, k | 0 <= j < k < |pairs| && pairs[j].1 == pairs[k].1 ensures SameReading(pairs[j].0, pairs[k].0) {
          assert occurrences[j] in occurrences && occurrences[k] in occurrences;
        }
      }
    }
  }

  /** The records are those of the labels `done`, none of which has a fault. */
  ghost predicate RecordsOf(zone: Zone, rows: seq<Raw>, channel: Channel, done: set<int>, records: map<int, Interval>) {
    && done <= Labels(rows)
    && (forall local :: local in done ==> FaultOf(zone, rows, local).None?)
    && (forall t :: t in records <==> Wall(zone, t) in done)
    && (forall t :: t in records ==> records[t] == IntervalAt(channel, RowFor(zone, rows, t), t))
  }

  lemma LabelPlaced(zone: Zone, rows: seq<Raw>, channel: Channel, done: set<int>, records: map<int, Interval>, local: int,
                    placed: map<int, Interval>)
    requires RecordsOf(zone, rows, channel, done, records) && local in Labels(rows) && local !in done
    requires |UtcCandidates(zone, local)| == 1 || (|UtcCandidates(zone, local)| == 2 && |Occurrences(rows, local)| == 2)
    requires FaultOf(zone, rows, local).None?
    requires Placed(records, Assigned(Occurrences(rows, local), UtcCandidates(zone, local)), channel, placed)
    ensures RecordsOf(zone, rows, channel, done + {local}, placed)
  {
    var pairs := Assigned(Occurrences(rows, local), UtcCandidates(zone, local));
    forall t ensures t in placed <==> Wall(zone, t) in done + {local} {
      PairsAtCandidates(zone, rows, local, t);
    }
    forall t | t in placed ensures placed[t] == IntervalAt(channel, RowFor(zone, rows, t), t) {
      if t !in records {
        RowOfCandidate(zone, rows, local, t);
      }
    }
  }

  /** The labels in the order of their first rows, with the rows of each. */
  ghost predicate Grouped(rows: seq<Raw>, order: seq<int>, grouped: map<int, seq<Raw>>) {
    && (forall local :: local in order <==> local in Labels(rows))
    && (forall i, j :: 0 <= i < j < |order| ==> order[i] != order[j])
    && (forall local :: local in grouped <==> local in order)
    && (forall local :: local in grouped ==> grouped[local] == Occurrences(rows, local))
  }

  method GroupByLabel(rows: seq<Raw>) returns (order: seq<int>, grouped: map<int, seq<Raw>>)
    ensures Grouped(rows, order, grouped)
  {
    order, grouped := [], map[];
    var i := 0;
    while i < |rows|
      invariant 0 <= i <= |rows|
      invariant Grouped(rows[..i], order, grouped)
    {
      var row := rows[i];
      ghost var order0, grouped0 := order, grouped;
      if row.localEnd !in grouped {
        order := order + [row.localEnd];
        grouped := grouped[row.localEnd := [row]];
      } else {
        grouped := grouped[row.localEnd := grouped[row.localEnd] + [row]];
      }
      GroupedStep(rows[..i], row, order0, grouped0, order, grouped);
      TakeNext(rows, i, row);
      i := i + 1;
    }
    assert rows[..i] == rows;
  }

  lemma GroupedStep(before: seq<Raw>, row: Raw, order: seq<int>, grouped: map<int, seq<Raw>>,
                    order': seq<int>, grouped': map<int, seq<Raw>>)
    requires Grouped(before, order, grouped)
    requires order' == if row.localEnd in grouped then order else order + [row.localEnd]
    requires grouped' == grouped[row.localEnd :=
                           if row.localEnd in grouped then grouped[row.localEnd] + [row] else [row]]
    ensures Grouped(before + [row], order', grouped')
  {
    LabelsGrow(before, row);
    if row.localEnd !in grouped {
      NoOccurrence(before, row.localEnd);
    }
    forall local
      ensures local in order' <==> local in order || local == row.localEnd
    {
    }
    forall local | local in grouped'
      ensures grouped'[local] == Occurrences(before + [row], local)
    {
      if local == row.localEnd {
        assert grouped'[local] == Occurrences(before, local) + [row];
      } else {
        assert grouped'[local] == grouped[local] == Occurrences(before, local) + [];
      }
    }
  }

  lemma LabelsGrow(before: seq<Raw>, row: Raw)
    ensures Labels(before + [row]) == Labels(before) + {row.localEnd}
    ensures forall local :: Occurrences(before + [row], local)
                         == Occurrences(before, local) + if row.localEnd == local then [row] else []
  {
    var rows := before + [row];
    assert rows[..|rows| - 1] == before;
    forall local ensures local in Labels(rows) <==> local in Labels(before) + {row.localEnd} {
      if local in Labels(before) {
        var r :| r in before && r.localEnd == local;
        assert r in rows;
      }
    }
    assert row in rows;
  }

  lemma NoOccurrence(rows: seq<Raw>, local: int)
    requires local !in Labels(rows)
    ensures Occurrences(rows, local) == []
  {
    HeadIsMember(Occurrences(rows, local));
  }

  /** The labels handled so far are the first n. */
  ghost predicate DoneOf(order: seq<int>, n: nat, done: set<int>) {
    n <= |order| && forall local :: local in done <==> local in order[..n]
  }

  lemma NextLabel(rows: seq<Raw>, order: seq<int>, grouped: map<int, seq<Raw>>, n: nat, done: set<int>)
    requires Grouped(rows, order, grouped) && DoneOf(order, n, done) && n < |order|
    ensures order[n] !in done && DoneOf(order, n + 1, done + {order[n]})
    ensures order[n] in Labels(rows) && order[n] in grouped && grouped[order[n]] == Occurrences(rows, order[n])
  {
    assert order[n] in order;
    TakeNext(order, n, order[n]);
  }

  lemma AllLabels(rows: seq<Raw>, order: seq<int>, grouped: map<int, seq<Raw>>, done: set<int>)
    requires Grouped(rows, order, grouped) && DoneOf(order, |order|, done)
    ensures AllDone(done, Labels(rows))
  {
    assert order[..|order|] == order;
  }

  method NormalizeIntervals(zone: Zone, rows: seq<Raw>, channel: Channel) returns (r: Result<seq<Interval>, CsvError>)
    ensures r.Success? <==> Normalizable(zone, rows)
    ensures r.Success? ==> r.value == Normalized(zone, rows, channel)
    ensures r.Failure? ==> exists local :: local in Labels(rows) && FaultOf(zone, rows, local) == Some(r.error)
  {
    var order, grouped := GroupByLabel(rows);
    var records: map<int, Interval> := map[];
    ghost var done: set<int> := {};
    var i := 0;
    while i < |order|
      invariant 0 <= i <= |order|
      invariant DoneOf(order, i, done)
      invariant RecordsOf(zone, rows, channel, done, records)
    {
      var local := order[i];
      NextLabel(rows, order, grouped, i, done);
      var occurrences, candidates := grouped[local], UtcCandidates(zone, local);
      CandidatesArePreimages(zone, local);
      if candidates == [] {
        return Failure(TimestampInvalid);
      }
      if |candidates| == 2 && |occurrences| != 2 {
        return Failure(TimestampAmbiguous);
      }
      var pairs := Assigned(occurrences, candidates);
      FreshInstants(zone, rows, channel, done, records, local);
      ConflictIsFault(zone, rows, local);
      var placed := PlaceRows(records, pairs, channel);
      if placed.Failure? {
        return Failure(placed.error);
      }
      LabelPlaced(zone, rows, channel, done, records, local, placed.value);
      records := placed.value;
      done := done + {local};
      i := i + 1;
    }
    AllLabels(rows, order, grouped, done);
    SortedRecords(zone, rows, channel, done, records);
    r := Success(Sorted(records));
  }

  lemma FreshInstants(zone: Zone, rows: seq<Raw>, channel: Channel, done: set<int>, records: map<int, Interval>, local: int)
    requires RecordsOf(zone, rows, channel, done, records) && local !in done
    requires |UtcCandidates(zone, local)| == 1 || (|UtcCandidates(zone, local)| == 2 && |Occurrences(rows, local)| == 2)
    ensures var pairs := Assigned(Occurrences(rows, local), UtcCandidates(zone, local));
            forall j :: 0 <= j < |pairs| ==> pairs[j].1 !in records
  {
    var pairs := Assigned(Occurrences(rows, local), UtcCandidates(zone, local));
    CandidatesArePreimages(zone, local);
    forall j | 0 <= j < |pairs| ensures pairs[j].1 !in records {
      assert pairs[j].1 in UtcCandidates(zone, local);
    }
  }

  function Listed(records: map<int, Interval>, ends: seq<int>): (s: seq<Interval>)
    requires forall i :: 0 <= i < |ends| ==> ends[i] in records
    ensures |s| == |ends| && forall i :: 0 <= i < |s| ==> s[i] == records[ends[i]]
  {
    seq(|ends|, i requires 0 <= i < |ends| => records[ends[i]])
  }

  function Sorted(records: map<int, Interval>): seq<Interval> {
    var ends := Ascending(records.Keys);
    AllAreKeys(records, ends);
    Listed(records, ends)
  }

  lemma AllAreKeys(records: map<int, Interval>, ends: seq<int>)
    requires ends == Ascending(records.Keys)
    ensures forall i :: 0 <= i < |ends| ==> ends[i] in records
  {
    forall i | 0 <= i < |ends| ensures ends[i] in records {
      assert ends[i] in ends;
    }
  }

  lemma SortedRecords(zone: Zone, rows: seq<Raw>, channel: Channel, done: set<int>, records: map<int, Interval>)
    requires RecordsOf(zone, rows, channel, done, records) && AllDone(done, Labels(rows))
    ensures Normalizable(zone, rows)
    ensures Sorted(records) == Normalized(zone, rows, channel)
  {
    AscendingUnique(Ascending(records.Keys), Ascending(Ends(zone, rows)));
    AllAreKeys(records, Ascending(records.Keys));
    ListedRecords(zone, rows, channel, done, records, Ascending(records.Keys));
  }

  ghost predicate AllDone(done: set<int>, labels: set<int>) {
    forall local :: local in done <==> local in labels
  }

  lemma ListedRecords(zone: Zone, rows: seq<Raw>, channel: Channel, done: set<int>, records: map<int, Interval>, ends: seq<int>)
    requires RecordsOf(zone, rows, channel, done, records)
    requires forall i :: 0 <= i < |ends| ==> ends[i] in records
    ensures Listed(records, ends) == IntervalsAt(zone, rows, channel, ends)
  {
  }
}
