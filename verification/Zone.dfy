/** A time zone that alternates between +1 h and +2 h, as Europe/Prague does, with the fold rule of PEP 495. */
module Zone {
  import opened Prelude
  import opened Measurements

  /** The UTC instants of the clock changes, in order; the first one starts the summer time of +2 h. */
  type Zone = seq<int>

  /** The UTC offset in force at an instant: that of the last change at or before it. */
  function Offset(zone: Zone, t: int): (o: int)
    ensures o == 3600 || o == 7200
  {
    if zone == [] then 3600
    else if zone[|zone| - 1] <= t then (if |zone| % 2 == 1 then 7200 else 3600)
    else Offset(zone[..|zone| - 1], t)
  }

  /** The wall clock at an instant. */
  function Wall(zone: Zone, t: int): int {
    t + Offset(zone, t)
  }

  /** The instant a wall clock label denotes: fold 0 takes a change to happen at its later label, fold 1 at its earlier. */
  function Aware(zone: Zone, local: int, fold: bool): int {
    local - Offset(zone, local - if fold then 3600 else 7200)
  }

  /** The instants of both folds that show the label, in order. */
  function UtcCandidates(zone: Zone, local: int): seq<int> {
    var early, late := Aware(zone, local, false), Aware(zone, local, true);
    if early == late then (if Wall(zone, early) == local then [early] else [])
    else
      var lower, upper := if early < late then early else late, if early < late then late else early;
      (if Wall(zone, lower) == local then [lower] else []) + (if Wall(zone, upper) == local then [upper] else [])
  }

  /** The candidates of a label are exactly the instants at which the wall clock shows it. */
  lemma CandidatesArePreimages(zone: Zone, local: int)
    ensures var c := UtcCandidates(zone, local);
            && (forall t :: t in c <==> Wall(zone, t) == local)
            && (|c| == 0 || |c| == 1 || (|c| == 2 && c[1] == c[0] + 3600))
  {
    forall t | Wall(zone, t) == local ensures t in UtcCandidates(zone, local) {
      assert t == local - 7200 || t == local - 3600;
    }
  }

  /** Changes far enough apart for every label to see at most one of them. */
  ghost predicate Spaced(zone: Zone) {
    forall i, j :: 0 <= i < j < |zone| ==> zone[i] + 7200 <= zone[j]
  }

  lemma {:induction false} OffsetBetween(zone: Zone, i: nat, t: int)
    requires Spaced(zone) && i <= |zone|
    requires i > 0 ==> zone[i - 1] <= t
    requires i < |zone| ==> t < zone[i]
    ensures Offset(zone, t) == if i % 2 == 1 then 7200 else 3600
  {
    if i < |zone| {
      assert t < zone[|zone| - 1];
      OffsetBetween(zone[..|zone| - 1], i, t);
    }
  }

  /** A label skipped in spring has no instant, one repeated in autumn has the two an hour apart. */
  lemma LabelsAtChange(zone: Zone, i: nat, local: int)
    requires Spaced(zone) && i < |zone| && zone[i] + 3600 <= local < zone[i] + 7200
    ensures i % 2 == 0 ==> UtcCandidates(zone, local) == []
    ensures i % 2 == 1 ==> UtcCandidates(zone, local) == [local - 7200, local - 3600]
  {
    OffsetBetween(zone, i, local - 7200);
    OffsetBetween(zone, i + 1, local - 3600);
  }

  /** The number of changes at or before an instant. */
  function Changes(zone: Zone, t: int): nat {
    if zone == [] then 0
    else if zone[|zone| - 1] <= t then |zone|
    else Changes(zone[..|zone| - 1], t)
  }

  lemma {:induction false} ChangesBound(zone: Zone, t: int)
    requires Spaced(zone)
    ensures var n := Changes(zone, t);
            n <= |zone| && (n > 0 ==> zone[n - 1] <= t) && (n < |zone| ==> t < zone[n])
  {
    if zone != [] && t < zone[|zone| - 1] {
      ChangesBound(zone[..|zone| - 1], t);
    }
  }

  /** Every other label has exactly one instant. */
  lemma LabelsElsewhere(zone: Zone, local: int)
    requires Spaced(zone)
    requires forall i :: 0 <= i < |zone| ==> !(zone[i] + 3600 <= local < zone[i] + 7200)
    ensures |UtcCandidates(zone, local)| == 1
  {
    var n := Changes(zone, local - 7200);
    ChangesBound(zone, local - 7200);
    OffsetBetween(zone, n, local - 7200);
    OffsetBetween(zone, n, local - 3600);
  }

  /** Where the offset differs, a change lies between. */
  lemma {:induction false} ChangeBetween(zone: Zone, a: int, b: int)
    requires a < b && Offset(zone, a) != Offset(zone, b)
    ensures exists i :: 0 <= i < |zone| && a < zone[i] <= b
  {
    var n := |zone| - 1;
    if zone[n] <= a {
      assert false;
    } else if b < zone[n] {
      ChangeBetween(zone[..n], a, b);
      var i :| 0 <= i < n && a < zone[i] <= b;
    }
  }

  /** All changes happen at 01:00 UTC, as the European rule has it. */
  ghost predicate EuropeanRule(zone: Zone) {
    forall i :: 0 <= i < |zone| ==> zone[i] % 86400 == 3600
  }

  /** The instant of local midnight at the start of a day. */
  function Midnight(zone: Zone, day: int): int {
    Aware(zone, 86400 * day, false)
  }

  /** Local midnight is never skipped or repeated: it separates the instants of the two days. */
  lemma MidnightSeparates(zone: Zone, day: int, t: int)
    requires EuropeanRule(zone)
    ensures Wall(zone, t) > 86400 * day <==> t > Midnight(zone, day)
    ensures Wall(zone, t) == 86400 * day <==> t == Midnight(zone, day)
  {
    var l := 86400 * day;
    var m := Midnight(zone, day);
    if Offset(zone, l - 7200) != Offset(zone, l - 3600) {
      ChangeBetween(zone, l - 7200, l - 3600);
      var i :| 0 <= i < |zone| && l - 7200 < zone[i] <= l - 3600;
      NoChangeNearMidnight(zone, day, i);
    }
    assert Wall(zone, m) == l;
    if t != m && Offset(zone, t) != Offset(zone, m) {
      var lo, hi := if t < m then t else m, if t < m then m else t;
      if hi - lo <= 3600 {
        ChangeBetween(zone, lo, hi);
        var i :| 0 <= i < |zone| && lo < zone[i] <= hi;
        NoChangeNearMidnight(zone, day, i);
      }
    }
  }

  lemma NoChangeNearMidnight(zone: Zone, day: int, i: nat)
    requires EuropeanRule(zone) && i < |zone|
    ensures zone[i] <= 86400 * day - 82800 || zone[i] >= 86400 * day + 3600
  {
    var k := zone[i] / 86400;
    assert zone[i] == 86400 * k + 3600;
    assert k < day || k >= day;
  }
}
