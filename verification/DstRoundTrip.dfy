/** Intervals written as wall clock labels, in order, come back from the normalisation as they were. */
module DstRoundTrip {
  import opened Prelude
  import opened Measurements
  import opened Zone
  import opened DstNormalisation

  datatype Reading = Reading(end: int, sourceDay: int, value: Option<int>, quality: Quality)

  function Written(zone: Zone, readings: seq<Reading>): (rows: seq<Raw>)
    ensures |rows| == |readings|
    ensures forall i :: 0 <= i < |rows| ==>
              rows[i] == Raw(Wall(zone, readings[i].end), readings[i].sourceDay, readings[i].value, readings[i].quality)
  {
    seq(|readings|, i requires 0 <= i < |readings| =>
      Raw(Wall(zone, readings[i].end), readings[i].sourceDay, readings[i].value, readings[i].quality))
  }

  function EndsOf(readings: seq<Reading>): (s: seq<int>)
    ensures |s| == |readings| && forall i :: 0 <= i < |s| ==> s[i] == readings[i].end
  {
    seq(|readings|, i requires 0 <= i < |readings| => readings[i].end)
  }

  ghost predicate Chronological(readings: seq<Reading>) {
    StrictlyAscending(EndsOf(readings))
  }

  function Recovered(readings: seq<Reading>, channel: Channel): (s: seq<Interval>)
    ensures |s| == |readings|
    ensures forall i :: 0 <= i < |s| ==>
              s[i] == Interval(channel, readings[i].end - QUARTER, readings[i].end, readings[i].value,
                               readings[i].quality, readings[i].sourceDay)
  {
    seq(|readings|, i requires 0 <= i < |readings| =>
      Interval(channel, readings[i].end - QUARTER, readings[i].end, readings[i].value, readings[i].quality,
               readings[i].sourceDay))
  }

  /** Of a label that the clock shows twice, both instants are there or neither is. */
  ghost predicate BothInstants(zone: Zone, readings: seq<Reading>) {
    forall i, t :: 0 <= i < |readings| && Wall(zone, t) == Wall(zone, readings[i].end) ==> t in EndsOf(readings)
  }

  // Occurrences of a label, by index

  lemma {:induction false} OccursNever(rows: seq<Raw>, local: int)
    requires forall k :: 0 <= k < |rows| ==> rows[k].localEnd != local
    ensures Occurrences(rows, local) == []
  {
    if rows != [] {
      OccursNever(rows[..|rows| - 1], local);
    }
  }

  lemma {:induction false} OccursOnce(rows: seq<Raw>, local: int, i: nat)
    requires i < |rows|
    requires forall k :: 0 <= k < |rows| ==> (rows[k].localEnd == local <==> k == i)
    ensures Occurrences(rows, local) == [rows[i]]
  {
    var front := rows[..|rows| - 1];
    if i == |rows| - 1 {
      OccursNever(front, local);
    } else {
      OccursOnce(front, local, i);
    }
  }

  lemma {:induction false} OccursTwice(rows: seq<Raw>, local: int, i: nat, j: nat)
    requires i < j < |rows|
    requires forall k :: 0 <= k < |rows| ==> (rows[k].localEnd == local <==> k == i || k == j)
    ensures Occurrences(rows, local) == [rows[i], rows[j]]
  {
    var front := rows[..|rows| - 1];
    if j == |rows| - 1 {
      OccursOnce(front, local, i);
    } else {
      OccursTwice(front, local, i, j);
    }
  }

  lemma IndexOf(readings: seq<Reading>, t: int) returns (i: nat)
    requires t in EndsOf(readings)
    ensures i < |readings| && readings[i].end == t
  {
    i :| 0 <= i < |readings| && EndsOf(readings)[i] == t;
  }

  lemma SameInstant(readings: seq<Reading>, i: nat, j: nat)
    requires Chronological(readings) && i < |readings| && j < |readings| && readings[i].end == readings[j].end
    ensures i == j
  {
    assert EndsOf(readings)[i] == EndsOf(readings)[j];
  }

  /** The label of a reading whose instant is the only one to show it. */
  lemma SingleLabel(zone: Zone, readings: seq<Reading>, i: nat)
    requires Chronological(readings) && i < |readings|
    requires forall j :: 0 <= j < |readings| && Wall(zone, readings[j].end) == Wall(zone, readings[i].end) ==>
               readings[j].end == readings[i].end
    ensures Occurrences(Written(zone, readings), Wall(zone, readings[i].end)) == [Written(zone, readings)[i]]
  {
    var rows := Written(zone, readings);
    forall k | 0 <= k < |rows| ensures rows[k].localEnd == Wall(zone, readings[i].end) <==> k == i {
      if rows[k].localEnd == Wall(zone, readings[i].end) {
        SameInstant(readings, i, k);
      }
    }
    OccursOnce(rows, Wall(zone, readings[i].end), i);
  }

  /** The label of two readings an hour apart. */
  lemma DoubleLabel(zone: Zone, readings: seq<Reading>, i: nat, j: nat)
    requires Chronological(readings) && i < |readings| && j < |readings|
    requires readings[j].end == readings[i].end + 3600
    requires Wall(zone, readings[j].end) == Wall(zone, readings[i].end)
    ensures Occurrences(Written(zone, readings), Wall(zone, readings[i].end))
         == [Written(zone, readings)[i], Written(zone, readings)[j]]
  {
    var rows := Written(zone, readings);
    var local := Wall(zone, readings[i].end);
    Before(readings, i, j);
    forall k | 0 <= k < |rows| ensures rows[k].localEnd == local <==> k == i || k == j {
      if rows[k].localEnd == local {
        assert readings[k].end == readings[i].end || readings[k].end == readings[j].end;
        if readings[k].end == readings[i].end { SameInstant(readings, i, k); } else { SameInstant(readings, j, k); }
      }
    }
    OccursTwice(rows, local, i, j);
  }

  lemma Before(readings: seq<Reading>, i: nat, j: nat)
    requires Chronological(readings) && i < |readings| && j < |readings| && readings[i].end < readings[j].end
    ensures i < j
  {
    assert EndsOf(readings)[i] < EndsOf(readings)[j];
  }

  lemma LabelWritten(zone: Zone, readings: seq<Reading>, i: nat)
    requires i < |readings|
    ensures Wall(zone, readings[i].end) in Labels(Written(zone, readings))
  {
    assert Written(zone, readings)[i] in Written(zone, readings);
  }

  /** A reading comes back, and its label has no fault. */
  lemma ReadingReturns(zone: Zone, readings: seq<Reading>, i: nat)
    requires Chronological(readings) && BothInstants(zone, readings) && i < |readings|
    ensures FaultOf(zone, Written(zone, readings), Wall(zone, readings[i].end)).None?
    ensures Wall(zone, readings[i].end) in Labels(Written(zone, readings))
    ensures RowFor(zone, Written(zone, readings), readings[i].end) == Written(zone, readings)[i]
  {
    var t := readings[i].end;
    var local := Wall(zone, t);
    var candidates := UtcCandidates(zone, local);
    CandidatesArePreimages(zone, local);
    LabelWritten(zone, readings, i);
    assert t in candidates;
    assert IsRepeat(zone, t) <==> t - 3600 in candidates;
    if |candidates| == 1 {
      SingleLabel(zone, readings, i);
    } else if t == candidates[0] {
      var j := IndexOf(readings, t + 3600) by { assert t + 3600 in candidates; }
      DoubleLabel(zone, readings, i, j);
    } else {
      var j := IndexOf(readings, t - 3600) by { assert t - 3600 in candidates; }
      DoubleLabel(zone, readings, j, i);
    }
  }

  lemma EndIsReading(zone: Zone, readings: seq<Reading>, t: int)
    requires BothInstants(zone, readings)
    ensures t in EndsOf(readings) <==> Wall(zone, t) in Labels(Written(zone, readings))
  {
    var rows := Written(zone, readings);
    if t in EndsOf(readings) {
      var i := IndexOf(readings, t);
      LabelWritten(zone, readings, i);
    }
    if Wall(zone, t) in Labels(rows) {
      var row :| row in rows && row.localEnd == Wall(zone, t);
      var i :| 0 <= i < |rows| && rows[i] == row;
      assert Wall(zone, t) == Wall(zone, readings[i].end);
    }
  }

  lemma EndsAreReadings(zone: Zone, readings: seq<Reading>)
    requires Chronological(readings) && BothInstants(zone, readings)
    ensures Ascending(Ends(zone, Written(zone, readings))) == EndsOf(readings)
  {
    var ends := Ends(zone, Written(zone, readings));
    forall t ensures t in EndsOf(readings) <==> t in ends {
      EndIsReading(zone, readings, t);
    }
    AscendingUnique(Ascending(ends), EndsOf(readings));
  }

  lemma AllReturn(zone: Zone, readings: seq<Reading>, channel: Channel, rows: seq<Raw>, ends: seq<int>)
    requires Chronological(readings) && BothInstants(zone, readings)
    requires rows == Written(zone, readings) && ends == EndsOf(readings)
    requires forall t :: t in ends ==> Wall(zone, t) in Labels(rows)
    ensures IntervalsAt(zone, rows, channel, ends) == Recovered(readings, channel)
  {
    var intervals, recovered := IntervalsAt(zone, rows, channel, ends), Recovered(readings, channel);
    forall i | 0 <= i < |readings|
      ensures intervals[i] == recovered[i]
    {
      ReadingReturns(zone, readings, i);
      assert RowFor(zone, rows, ends[i]) == rows[i];
    }
    assert intervals == recovered;
  }

  /** Written in order with both instants of every repeated label, readings are recovered as they were. */
  lemma RoundTrip(zone: Zone, readings: seq<Reading>, channel: Channel)
    requires Chronological(readings) && BothInstants(zone, readings)
    ensures Normalizable(zone, Written(zone, readings))
    ensures Normalized(zone, Written(zone, readings), channel) == Recovered(readings, channel)
  {
    NoFault(zone, readings);
    EndsAreReadings(zone, readings);
    AllReturn(zone, readings, channel, Written(zone, readings), EndsOf(readings));
  }

  lemma NoFault(zone: Zone, readings: seq<Reading>)
    requires Chronological(readings) && BothInstants(zone, readings)
    ensures Normalizable(zone, Written(zone, readings))
  {
    var rows := Written(zone, readings);
    forall local | local in Labels(rows) ensures FaultOf(zone, rows, local).None? {
      var row :| row in rows && row.localEnd == local;
      var i :| 0 <= i < |rows| && rows[i] == row;
      ReadingReturns(zone, readings, i);
    }
  }

  /** A list in the order of time is refused exactly when it holds one instant of a repeated label but not the other. */
  lemma RoundTripExactly(zone: Zone, readings: seq<Reading>)
    requires Chronological(readings)
    ensures Normalizable(zone, Written(zone, readings)) <==> BothInstants(zone, readings)
  {
    var rows := Written(zone, readings);
    if BothInstants(zone, readings) {
      RoundTrip(zone, readings, GridImport);
    } else {
      var i, t :| 0 <= i < |readings| && Wall(zone, t) == Wall(zone, readings[i].end) && t !in EndsOf(readings);
      OtherInstantMissing(zone, readings, i, t);
      LabelWritten(zone, readings, i);
    }
  }

  lemma OtherInstantMissing(zone: Zone, readings: seq<Reading>, i: nat, t: int)
    requires Chronological(readings) && i < |readings|
    requires Wall(zone, t) == Wall(zone, readings[i].end) && t !in EndsOf(readings)
    ensures FaultOf(zone, Written(zone, readings), Wall(zone, readings[i].end)) == Some(TimestampAmbiguous)
  {
    var local := Wall(zone, t);
    var candidates := UtcCandidates(zone, local);
    CandidatesArePreimages(zone, local);
    assert EndsOf(readings)[i] in EndsOf(readings);
    forall j | 0 <= j < |readings| && Wall(zone, readings[j].end) == local ensures readings[j].end == readings[i].end {
      assert EndsOf(readings)[j] in EndsOf(readings);
      assert readings[j].end in candidates && readings[i].end in candidates && t in candidates;
    }
    SingleLabel(zone, readings, i);
  }
}
