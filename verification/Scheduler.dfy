/** The worker's schedule: two clocks and one shared retry (sync_worker.py). Times are seconds of a monotonic clock. */
module Scheduler {
  import opened Prelude

  const TRANSIENT_RETRY_SECONDS: seq<int> := [300, 900, 1800, 3600]
  const CONSERVATIVE_RETRY_SECONDS: int := 3600

  datatype Category = Transient | AuthenticationSecurity | DeterministicOrUnclassified

  function RetryCategory(code: Option<string>): Category {
    if code == Some("auth_connect_failed") || code == Some("auth_operation_timeout") then Transient
    else if code == Some("data_probe_auth_failed") || (code.Some? && "auth_" <= code.value) then AuthenticationSecurity
    else DeterministicOrUnclassified
  }

  function RetryDelay(code: Option<string>, failures: int): (delay: int)
    ensures 300 <= delay <= 3600
    ensures RetryCategory(code) != Transient ==> delay == 3600
    ensures RetryCategory(code) == Transient && failures >= 4 ==> delay == 3600
  {
    if RetryCategory(code) == Transient then
      var index := if failures - 1 < 0 then 0 else failures - 1;
      TRANSIENT_RETRY_SECONDS[if index < 3 then index else 3]
    else CONSERVATIVE_RETRY_SECONDS
  }

  /** Transient failures wait 5, 15, 30 and then 60 minutes; security and unclassified ones an hour at once. */
  lemma DelayTable(code: Option<string>)
    ensures code in {Some("auth_connect_failed"), Some("auth_operation_timeout")} ==>
              && RetryDelay(code, 1) == 300 && RetryDelay(code, 2) == 900 && RetryDelay(code, 3) == 1800
              && forall n :: n >= 4 ==> RetryDelay(code, n) == 3600
    ensures code !in {Some("auth_connect_failed"), Some("auth_operation_timeout")} ==> forall n :: RetryDelay(code, n) == 3600
  {
  }

  datatype Kind = Current | Historical

  datatype Retry = Retry(kind: Kind, at: int)

  datatype State = State(nextCurrent: int, nextHistorical: int, retry: Option<Retry>, failures: nat)

  /** One turn of the loop: the clock it reads, and, should it run, how the attempt ends and when. */
  datatype Turn = Turn(time: int, succeeded: bool, code: Option<string>, completed: int)

  datatype Intervals = Intervals(current: int, historical: int)

  /** The kind a turn at this time runs; None when it waits. */
  function Decide(s: State, time: int): Option<Kind> {
    if s.retry.Some? then (if time < s.retry.value.at then None else Some(s.retry.value.kind))
    else if time < (if s.nextCurrent < s.nextHistorical then s.nextCurrent else s.nextHistorical) then None
    else Some(if s.nextCurrent <= time then Current else Historical)
  }

  function Completed(s: State, kind: Kind, t: Turn, every: Intervals): State {
    if !t.succeeded then
      s.(retry := Some(Retry(kind, t.completed + RetryDelay(t.code, s.failures + 1))), failures := s.failures + 1)
    else
      match kind
      case Current => State(t.completed + every.current, s.nextHistorical, None, 0)
      case Historical => State(s.nextCurrent, t.completed + every.historical, None, 0)
  }

  function Step(s: State, t: Turn, every: Intervals): State {
    var kind := Decide(s, t.time);
    if kind.None? then s else Completed(s, kind.value, t, every)
  }

  function After(start: int, turns: seq<Turn>, every: Intervals, n: nat): State
    requires n <= |turns|
  {
    if n == 0 then State(start, start, None, 0)
    else Step(After(start, turns, every, n - 1), turns[n - 1], every)
  }

  /** What turn n does. */
  function Ran(start: int, turns: seq<Turn>, every: Intervals, n: nat): Option<Kind>
    requires n < |turns|
  {
    Decide(After(start, turns, every, n), turns[n].time)
  }

  function RanAll(start: int, turns: seq<Turn>, every: Intervals): (log: seq<Option<Kind>>)
    ensures |log| == |turns| && forall n :: 0 <= n < |log| ==> log[n] == Ran(start, turns, every, n)
  {
    seq(|turns|, n requires 0 <= n < |turns| => Ran(start, turns, every, n))
  }

  /** The loop, fed with the readings of its turns. */
  method Run(start: int, turns: seq<Turn>, every: Intervals) returns (log: seq<Option<Kind>>)
    ensures log == RanAll(start, turns, every)
  {
    log := [];
    var nextCurrent, nextHistorical := start, start;
    var retryKind: Option<Kind> := None;
    var retryAt := 0;
    var failures := 0;
    var n := 0;
    while n < |turns|
      invariant 0 <= n <= |turns|
      invariant log == RanAll(start, turns, every)[..n]
      invariant After(start, turns, every, n)
             == State(nextCurrent, nextHistorical, if retryKind.None? then None else Some(Retry(retryKind.value, retryAt)), failures)
    {
      var turn := turns[n];
      var deadline := if retryKind.Some? then retryAt
                      else if nextCurrent < nextHistorical then nextCurrent else nextHistorical;
      var kind := if retryKind.Some? then retryKind.value else if nextCurrent <= turn.time then Current else Historical;
      if turn.time < deadline {
        log := log + [None];
      } else {
        log := log + [Some(kind)];
        if turn.succeeded {
          failures := 0;
          retryKind := None;
          if kind == Current {
            nextCurrent := turn.completed + every.current;
          } else {
            nextHistorical := turn.completed + every.historical;
          }
        } else {
          failures := failures + 1;
          retryKind := Some(kind);
          retryAt := turn.completed + RetryDelay(turn.code, failures);
        }
      }
      n := n + 1;
    }
  }

  // What runs when

  function Due(s: State, kind: Kind): int {
    match kind
    case Current => s.nextCurrent
    case Historical => s.nextHistorical
  }

  /** A kind runs only when it is the pending retry, or when nothing is to be retried and its own time has come. */
  lemma RunsOnlyWhenDue(start: int, turns: seq<Turn>, every: Intervals, n: nat, kind: Kind)
    requires n < |turns| && Ran(start, turns, every, n) == Some(kind)
    ensures var s := After(start, turns, every, n);
            if s.retry.Some? then s.retry.value.kind == kind && s.retry.value.at <= turns[n].time
            else Due(s, kind) <= turns[n].time
  {
  }

  /** A turn waits exactly when neither is the case for any kind. */
  lemma WaitsOnlyWhenNothingIsDue(start: int, turns: seq<Turn>, every: Intervals, n: nat)
    requires n < |turns|
    ensures var s := After(start, turns, every, n);
            Ran(start, turns, every, n).None? <==>
            if s.retry.Some? then turns[n].time < s.retry.value.at
            else turns[n].time < s.nextCurrent && turns[n].time < s.nextHistorical
  {
  }

  ghost predicate NothingRan(start: int, turns: seq<Turn>, every: Intervals, i: nat, j: nat)
    requires j <= |turns|
  {
    forall k :: i <= k < j ==> Ran(start, turns, every, k).None?
  }

  lemma {:induction false} IdleKeepsState(start: int, turns: seq<Turn>, every: Intervals, i: nat, j: nat)
    requires i <= j <= |turns| && NothingRan(start, turns, every, i, j)
    ensures After(start, turns, every, j) == After(start, turns, every, i)
  {
    if i < j {
      IdleKeepsState(start, turns, every, i, j - 1);
      assert Ran(start, turns, every, j - 1).None?;
    }
  }

  /** After a failure nothing runs before the retry time, 5 to 60 minutes after it; then the same kind does. */
  lemma RetryComesFirst(start: int, turns: seq<Turn>, every: Intervals, i: nat, j: nat)
    requires i < j < |turns|
    requires Ran(start, turns, every, i).Some? && !turns[i].succeeded
    requires NothingRan(start, turns, every, i + 1, j) && Ran(start, turns, every, j).Some?
    ensures Ran(start, turns, every, j) == Ran(start, turns, every, i)
    ensures var delay := RetryDelay(turns[i].code, FailuresInARow(start, turns, every, i + 1));
            turns[j].time >= turns[i].completed + delay && 300 <= delay <= 3600
  {
    IdleKeepsState(start, turns, every, i + 1, j);
    FailuresAreCounted(start, turns, every, i + 1);
    FailuresAreCounted(start, turns, every, i);
  }

  /**
   * A due historical run waits for one current-day run at most: after it, the next turn is historical exactly when
   * the loop reads its clock within the interval of the current-day runs.
   */
  lemma HistoricalWaitsOnce(start: int, turns: seq<Turn>, every: Intervals, i: nat)
    requires i + 1 < |turns| && turns[i].time <= turns[i].completed <= turns[i + 1].time
    requires After(start, turns, every, i).retry.None? && After(start, turns, every, i).nextHistorical <= turns[i].time
    requires turns[i].succeeded
    ensures Ran(start, turns, every, i).Some?
    ensures Ran(start, turns, every, i) == Some(Current) ==>
              (Ran(start, turns, every, i + 1) == Some(Historical) <==> turns[i + 1].time < turns[i].completed + every.current)
  {
    assert After(start, turns, every, i + 1) == Step(After(start, turns, every, i), turns[i], every);
  }

  /** The number of failures in a row that the retry delay is computed from. */
  function FailuresInARow(start: int, turns: seq<Turn>, every: Intervals, n: nat): nat
    requires n <= |turns|
  {
    if n == 0 then 0
    else if Ran(start, turns, every, n - 1).None? then FailuresInARow(start, turns, every, n - 1)
    else if turns[n - 1].succeeded then 0
    else FailuresInARow(start, turns, every, n - 1) + 1
  }

  lemma {:induction false} FailuresAreCounted(start: int, turns: seq<Turn>, every: Intervals, n: nat)
    requires n <= |turns|
    ensures After(start, turns, every, n).failures == FailuresInARow(start, turns, every, n)
    ensures After(start, turns, every, n).retry.Some? <==> FailuresInARow(start, turns, every, n) > 0
  {
    if n > 0 {
      FailuresAreCounted(start, turns, every, n - 1);
    }
  }

  // The schedule by what ran before

  function IntervalOf(every: Intervals, kind: Kind): int {
    match kind
    case Current => every.current
    case Historical => every.historical
  }

  /** When a kind is due: its interval after the end of its last successful run, or the start. */
  function DueAt(start: int, turns: seq<Turn>, every: Intervals, n: nat, kind: Kind): int
    requires n <= |turns|
  {
    if n == 0 then start
    else if Ran(start, turns, every, n - 1) == Some(kind) && turns[n - 1].succeeded then
      turns[n - 1].completed + IntervalOf(every, kind)
    else DueAt(start, turns, every, n - 1, kind)
  }

  /** The retry that the last failure calls for, unless a success came after it. */
  function RetryAfter(start: int, turns: seq<Turn>, every: Intervals, n: nat): Option<Retry>
    requires n <= |turns|
  {
    if n == 0 then None
    else
      match Ran(start, turns, every, n - 1)
      case None => RetryAfter(start, turns, every, n - 1)
      case Some(kind) =>
        if turns[n - 1].succeeded then None
        else Some(Retry(kind, turns[n - 1].completed
                              + RetryDelay(turns[n - 1].code, FailuresInARow(start, turns, every, n - 1) + 1)))
  }

  lemma {:induction false} StateByLog(start: int, turns: seq<Turn>, every: Intervals, n: nat)
    requires n <= |turns|
    ensures After(start, turns, every, n)
         == State(DueAt(start, turns, every, n, Current), DueAt(start, turns, every, n, Historical),
                  RetryAfter(start, turns, every, n), FailuresInARow(start, turns, every, n))
  {
    if n > 0 {
      StateByLog(start, turns, every, n - 1);
      var s, turn := After(start, turns, every, n - 1), turns[n - 1];
      match Ran(start, turns, every, n - 1)
      case None => assert After(start, turns, every, n) == s;
      case Some(kind) => assert After(start, turns, every, n) == Completed(s, kind, turn, every);
    }
  }

  /** A pending retry comes first, alone and not early; else the current day if it is due; else the history if it is due. */
  lemma RanExactly(start: int, turns: seq<Turn>, every: Intervals, n: nat)
    requires n < |turns|
    ensures var retry, time := RetryAfter(start, turns, every, n), turns[n].time;
            Ran(start, turns, every, n) ==
            if retry.Some? then (if retry.value.at <= time then Some(retry.value.kind) else None)
            else if DueAt(start, turns, every, n, Current) <= time then Some(Current)
            else if DueAt(start, turns, every, n, Historical) <= time then Some(Historical)
            else None
  {
    StateByLog(start, turns, every, n);
  }

  /** After turn i the kind does not run before turn j. */
  ghost predicate NotRun(start: int, turns: seq<Turn>, every: Intervals, i: nat, j: nat, kind: Kind)
    requires j <= |turns|
  {
    forall k :: i < k < j ==> Ran(start, turns, every, k) != Some(kind)
  }

  lemma {:induction false} DueSince(start: int, turns: seq<Turn>, every: Intervals, i: nat, n: nat, kind: Kind)
    requires i < n <= |turns| && NotRun(start, turns, every, i, n, kind)
    requires Ran(start, turns, every, i) == Some(kind) && turns[i].succeeded
    ensures DueAt(start, turns, every, n, kind) == turns[i].completed + IntervalOf(every, kind)
    ensures RetryAfter(start, turns, every, n).Some? ==> RetryAfter(start, turns, every, n).value.kind != kind
  {
    if i < n - 1 {
      DueSince(start, turns, every, i, n - 1, kind);
      assert Ran(start, turns, every, n - 1) != Some(kind);
    }
  }

  /** After a success a kind rests for its own interval, counted from the end of the run. */
  lemma IntervalKept(start: int, turns: seq<Turn>, every: Intervals, i: nat, j: nat, kind: Kind)
    requires i < j < |turns| && NotRun(start, turns, every, i, j, kind)
    requires Ran(start, turns, every, i) == Some(kind) && turns[i].succeeded
    requires Ran(start, turns, every, j) == Some(kind)
    ensures turns[j].time >= turns[i].completed + match kind case Current => every.current case Historical => every.historical
  {
    DueSince(start, turns, every, i, j, kind);
    RanExactly(start, turns, every, j);
  }

  /**
   * And it rests no longer: with no failure to make good, a turn at or after that time runs the current day if that is
   * due, and if not the history.
   */
  lemma IntervalSuffices(start: int, turns: seq<Turn>, every: Intervals, i: nat, n: nat, kind: Kind)
    requires i < n < |turns| && NotRun(start, turns, every, i, n, kind)
    requires Ran(start, turns, every, i) == Some(kind) && turns[i].succeeded
    requires FailuresInARow(start, turns, every, n) == 0
    requires turns[n].time >= turns[i].completed + match kind case Current => every.current case Historical => every.historical
    ensures Ran(start, turns, every, n).Some?
    ensures kind == Current ==> Ran(start, turns, every, n) == Some(Current)
    ensures kind == Historical ==>
              (Ran(start, turns, every, n) == Some(Historical) <==> turns[n].time < DueAt(start, turns, every, n, Current))
  {
    DueSince(start, turns, every, i, n, kind);
    StateByLog(start, turns, every, n);
    FailuresAreCounted(start, turns, every, n);
    RanExactly(start, turns, every, n);
  }
}
