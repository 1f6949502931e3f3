/** The in-memory event broker: one retained event, at most two waiting threads, a condition variable (event_broker.py). */
module EventBroker {
  import opened Prelude
  import opened EventCursor

  const MAX_EVENT_WAITERS: int := 2

  datatype SyncEvent = SyncEvent(kind: string, result: string, revision: Option<string>)

  datatype Cursor = Cursor(generation: string, sequence: nat)

  /** A thread inside wait_for: the sequence number it has seen, and whether it was notified since it went to sleep. */
  datatype Waiter = Waiter(seen: nat, notified: bool)

  datatype State = State(generation: string, sequence: nat, latest: Option<SyncEvent>, closed: bool, waiters: int,
                         asleep: map<int, Waiter>)

  datatype Answer =
    | StateReset(cursor: Cursor) | SyncFinished(cursor: Cursor, event: Option<SyncEvent>)
    | TimedOut | Stopping | WaiterLimit | Exhausted | Sleeps | Done

  /** The atomic sections: what runs between taking the condition's lock and giving it up. */
  datatype Section =
    | Publish(event: SyncEvent)
    | Enter(thread: int, cursor: Option<Cursor>)
    | Wake(thread: int, timedOut: bool)
    | Close

  function Notified(asleep: map<int, Waiter>): map<int, Waiter> {
    map t | t in asleep :: asleep[t].(notified := true)
  }

  function Own(s: State): Cursor {
    Cursor(s.generation, s.sequence)
  }

  function DoPublish(s: State, event: SyncEvent): (State, Answer) {
    if s.closed then (s, Stopping)
    else if s.sequence == MAX_SEQUENCE then (s, Exhausted)
    else (s.(sequence := s.sequence + 1, latest := Some(event), asleep := Notified(s.asleep)), Done)
  }

  function DoEnter(s: State, thread: int, cursor: Option<Cursor>): (State, Answer) {
    if thread in s.asleep then (s, Sleeps)
    else if s.closed then (s, Stopping)
    else if cursor.None? || cursor.value.generation != s.generation || cursor.value.sequence > s.sequence then
      (s, StateReset(Own(s)))
    else if cursor.value.sequence < s.sequence then (s, SyncFinished(Own(s), s.latest))
    else if s.waiters >= MAX_EVENT_WAITERS then (s, WaiterLimit)
    else (s.(waiters := s.waiters + 1, asleep := s.asleep[thread := Waiter(cursor.value.sequence, false)]), Sleeps)
  }

  /** A sleeping thread gets the lock back, notified, timed out or spuriously, and evaluates its predicate. */
  function DoWake(s: State, thread: int, timedOut: bool): (State, Answer) {
    if thread !in s.asleep then (s, Done)
    else
      var left := s.(waiters := s.waiters - 1, asleep := s.asleep - {thread});
      if s.closed then (left, Stopping)
      else if s.sequence != s.asleep[thread].seen then (left, SyncFinished(Own(s), s.latest))
      else if timedOut then (left, TimedOut)
      else (s.(asleep := s.asleep[thread := Waiter(s.asleep[thread].seen, false)]), Sleeps)
  }

  function Step(s: State, a: Section): (State, Answer) {
    match a
    case Publish(event) => DoPublish(s, event)
    case Enter(thread, cursor) => DoEnter(s, thread, cursor)
    case Wake(thread, timedOut) => DoWake(s, thread, timedOut)
    case Close => (s.(closed := true, asleep := Notified(s.asleep)), Done)
  }

  /** The waiter count is the number of sleeping threads, at most two; nobody sleeps through what it waits for. */
  ghost predicate Valid(s: State) {
    && s.waiters == |s.asleep| && s.waiters <= MAX_EVENT_WAITERS
    && s.sequence <= MAX_SEQUENCE
    && (s.latest.None? <==> s.sequence == 0)
    && (forall t :: t in s.asleep ==> s.asleep[t].seen <= s.sequence)
    && (forall t :: t in s.asleep && (s.closed || s.asleep[t].seen < s.sequence) ==> s.asleep[t].notified)
  }

  lemma WakeKeepsValid(s: State, thread: int, timedOut: bool)
    requires Valid(s)
    ensures Valid(DoWake(s, thread, timedOut).0)
  {
    if thread in s.asleep {
      LeavingCounts(s.asleep, thread);
      SameCount(s.asleep, s.asleep[thread := Waiter(s.asleep[thread].seen, false)]);
    }
  }

  lemma EnterKeepsValid(s: State, thread: int, cursor: Option<Cursor>)
    requires Valid(s)
    ensures Valid(DoEnter(s, thread, cursor).0)
  {
    if thread !in s.asleep && cursor.Some? {
      EnteringCounts(s.asleep, thread, Waiter(cursor.value.sequence, false));
    }
  }

  lemma NotifyKeepsValid(s: State, a: Section)
    requires Valid(s) && (a.Publish? || a.Close?)
    ensures Valid(Step(s, a).0)
  {
    SameCount(s.asleep, Notified(s.asleep));
  }

  lemma StepKeepsValid(s: State, a: Section)
    requires Valid(s)
    ensures Valid(Step(s, a).0)
  {
    match a
    case Wake(thread, timedOut) => WakeKeepsValid(s, thread, timedOut);
    case Enter(thread, cursor) => EnterKeepsValid(s, thread, cursor);
    case _ => NotifyKeepsValid(s, a);
  }

  lemma LeavingCounts(m: map<int, Waiter>, t: int)
    requires t in m
    ensures |m - {t}| == |m| - 1
  {
    assert (m - {t}).Keys == m.Keys - {t};
  }

  lemma EnteringCounts(m: map<int, Waiter>, t: int, w: Waiter)
    requires t !in m
    ensures |m[t := w]| == |m| + 1
  {
    assert m[t := w].Keys == m.Keys + {t};
  }

  lemma SameCount(m: map<int, Waiter>, n: map<int, Waiter>)
    requires forall t :: t in m <==> t in n
    ensures |m| == |n|
  {
    forall t ensures t in m.Keys <==> t in n.Keys {
      assert t in m <==> t in n;
    }
    assert m.Keys == n.Keys;
    assert |m.Keys| == |n.Keys|;
  }

  // The broker object

  class Broker {
    const generation: string
    var sequence: nat
    var latest: Option<SyncEvent>
    var closed: bool
    var waiters: int
    // The threads inside wait_for, which the condition variable keeps.
    var asleep: map<int, Waiter>

    function Current(): State
      reads this
    {
      State(generation, sequence, latest, closed, waiters, asleep)
    }

    constructor (generation: string)
      ensures Current() == State(generation, 0, None, false, 0, map[]) && Valid(Current())
    {
      this.generation := generation;
      sequence, latest, closed, waiters, asleep := 0, None, false, 0, map[];
    }

    method NotifyAll()
      modifies this`asleep
      ensures asleep == Notified(old(asleep))
    {
      asleep := Notified(asleep);
    }

    method PublishEvent(event: SyncEvent) returns (r: Answer)
      requires Valid(Current())
      modifies this
      ensures (Current(), r) == DoPublish(old(Current()), event) && Valid(Current())
    {
      StepKeepsValid(Current(), Publish(event));
      if closed {
        return Stopping;
      }
      if sequence == MAX_SEQUENCE {
        return Exhausted;
      }
      sequence := sequence + 1;
      latest := Some(event);
      NotifyAll();
      r := Done;
    }

    /** wait, up to the point where the thread goes to sleep or returns. */
    method EnterWait(thread: int, cursor: Option<Cursor>) returns (r: Answer)
      requires Valid(Current()) && thread !in asleep
      modifies this
      ensures (Current(), r) == DoEnter(old(Current()), thread, cursor) && Valid(Current())
    {
      StepKeepsValid(Current(), Enter(thread, cursor));
      if closed {
        return Stopping;
      }
      if cursor.None? || cursor.value.generation != generation || cursor.value.sequence > sequence {
        return StateReset(Cursor(generation, sequence));
      }
      if cursor.value.sequence < sequence {
        return SyncFinished(Cursor(generation, sequence), latest);
      }
      if waiters >= MAX_EVENT_WAITERS {
        return WaiterLimit;
      }
      waiters := waiters + 1;
      asleep := asleep[thread := Waiter(cursor.value.sequence, false)];
      r := Sleeps;
    }

    /** wait, from the point where the sleeping thread gets the lock back. */
    method ResumeWait(thread: int, timedOut: bool) returns (r: Answer)
      requires Valid(Current()) && thread in asleep
      modifies this
      ensures (Current(), r) == DoWake(old(Current()), thread, timedOut) && Valid(Current())
    {
      StepKeepsValid(Current(), Wake(thread, timedOut));
      var seen := asleep[thread].seen;
      if !closed && sequence == seen && !timedOut {
        asleep := asleep[thread := Waiter(seen, false)];
        return Sleeps;
      }
      asleep := asleep - {thread};
      waiters := waiters - 1;
      if closed {
        return Stopping;
      }
      if sequence != seen {
        return SyncFinished(Cursor(generation, sequence), latest);
      }
      r := TimedOut;
    }

    method CloseBroker()
      requires Valid(Current())
      modifies this
      ensures Current() == Step(old(Current()), Close).0 && Valid(Current())
    {
      StepKeepsValid(Current(), Close);
      closed := true;
      NotifyAll();
    }
  }

  // Every run

  function After(generation: string, run: seq<Section>, n: nat): State
    requires n <= |run|
  {
    if n == 0 then State(generation, 0, None, false, 0, map[]) else Step(After(generation, run, n - 1), run[n - 1]).0
  }

  function AnswerAt(generation: string, run: seq<Section>, n: nat): Answer
    requires n < |run|
  {
    Step(After(generation, run, n), run[n]).1
  }

  /** The events that were accepted in the first n sections. */
  function Published(generation: string, run: seq<Section>, n: nat): seq<SyncEvent>
    requires n <= |run|
  {
    if n == 0 then []
    else
      var before := Published(generation, run, n - 1);
      if run[n - 1].Publish? && AnswerAt(generation, run, n - 1) == Done then before + [run[n - 1].event] else before
  }

  lemma {:induction false} RunIsValid(generation: string, run: seq<Section>, n: nat)
    requires n <= |run|
    ensures Valid(After(generation, run, n))
    ensures After(generation, run, n).generation == generation
  {
    if n > 0 {
      RunIsValid(generation, run, n - 1);
      StepKeepsValid(After(generation, run, n - 1), run[n - 1]);
    }
  }

  /** No thread stays asleep without a notification once the sequence has passed its cursor or the broker is closed. */
  lemma NobodySleepsThrough(generation: string, run: seq<Section>, n: nat, thread: int)
    requires n <= |run| && thread in After(generation, run, n).asleep && !After(generation, run, n).asleep[thread].notified
    ensures !After(generation, run, n).closed
    ensures After(generation, run, n).sequence == After(generation, run, n).asleep[thread].seen
  {
    RunIsValid(generation, run, n);
  }

  lemma WaitersAreThreads(generation: string, run: seq<Section>, n: nat)
    requires n <= |run|
    ensures After(generation, run, n).waiters == |After(generation, run, n).asleep| <= 2
  {
    RunIsValid(generation, run, n);
  }

  lemma SectionCounts(s: State, a: Section)
    ensures var (after, answer) := Step(s, a);
            if a.Publish? && answer == Done then after.sequence == s.sequence + 1 && after.latest == Some(a.event)
            else after.sequence == s.sequence && after.latest == s.latest
  {
  }

  /** The sequence number counts the accepted events and the retained event is the last of them. */
  lemma {:induction false} SequenceCounts(generation: string, run: seq<Section>, n: nat)
    requires n <= |run|
    ensures var s, events := After(generation, run, n), Published(generation, run, n);
            s.sequence == |events| && s.latest == if events == [] then None else Some(events[|events| - 1])
  {
    if n > 0 {
      SequenceCounts(generation, run, n - 1);
      SectionCounts(After(generation, run, n - 1), run[n - 1]);
    }
  }

  lemma {:induction false} PublishedGrows(generation: string, run: seq<Section>, i: nat, n: nat)
    requires i <= n <= |run|
    ensures Published(generation, run, i) <= Published(generation, run, n)
  {
    if i < n {
      PublishedGrows(generation, run, i, n - 1);
    }
  }

  /** The sequence number that a section asks to go beyond. */
  function AskedOf(s: State, a: Section): Option<nat> {
    match a
    case Enter(_, cursor) =>
      if cursor.Some? && cursor.value.generation == s.generation && cursor.value.sequence <= s.sequence then
        Some(cursor.value.sequence)
      else None
    case Wake(thread, _) => if thread in s.asleep then Some(s.asleep[thread].seen) else None
    case _ => None
  }

  function Asked(generation: string, run: seq<Section>, n: nat): Option<nat>
    requires n < |run|
  {
    AskedOf(After(generation, run, n), run[n])
  }

  lemma FinishedIsLatest(s: State, a: Section, events: seq<SyncEvent>)
    requires Valid(s) && Step(s, a).1.SyncFinished?
    requires s.sequence == |events| && s.latest == if events == [] then None else Some(events[|events| - 1])
    ensures events != [] && Step(s, a).1 == SyncFinished(Cursor(s.generation, |events|), Some(events[|events| - 1]))
    ensures AskedOf(s, a).Some? && AskedOf(s, a).value < |events|
  {
  }

  /** A returned event belongs to the number in its cursor, is the latest one, and is later than what was asked from. */
  lemma AnswerIsLatest(generation: string, run: seq<Section>, n: nat)
    requires n < |run| && AnswerAt(generation, run, n).SyncFinished?
    ensures var events := Published(generation, run, n);
            && events != []
            && AnswerAt(generation, run, n) == SyncFinished(Cursor(generation, |events|), Some(events[|events| - 1]))
            && Asked(generation, run, n).Some? && Asked(generation, run, n).value < |events|
  {
    RunIsValid(generation, run, n);
    SequenceCounts(generation, run, n);
    FinishedIsLatest(After(generation, run, n), run[n], Published(generation, run, n));
  }

  predicate Gives(answer: Answer, cursor: Cursor) {
    (answer.StateReset? || answer.SyncFinished?) && answer.cursor == cursor
  }

  /** A cursor that was handed out is never answered with a reset. */
  lemma CursorStaysGood(generation: string, run: seq<Section>, i: nat, n: nat, cursor: Cursor)
    requires i < n < |run| && Gives(AnswerAt(generation, run, i), cursor)
    requires run[n].Enter? && run[n].cursor == Some(cursor)
    requires run[n].thread !in After(generation, run, n).asleep && !After(generation, run, n).closed
    ensures Asked(generation, run, n) == Some(cursor.sequence) && !AnswerAt(generation, run, n).StateReset?
  {
    RunIsValid(generation, run, n);
    CursorIsOwn(generation, run, i, n, cursor);
    EnterOwnCursor(After(generation, run, n), run[n], cursor);
  }

  /** And it is answered at once with the latest event if there is a later one. */
  lemma CursorGetsLatest(generation: string, run: seq<Section>, i: nat, n: nat, cursor: Cursor)
    requires i < n < |run| && Gives(AnswerAt(generation, run, i), cursor)
    requires run[n].Enter? && run[n].cursor == Some(cursor)
    requires run[n].thread !in After(generation, run, n).asleep && !After(generation, run, n).closed
    requires cursor.sequence < |Published(generation, run, n)|
    ensures AnswerAt(generation, run, n).SyncFinished?
    ensures AnswerAt(generation, run, n).cursor == Cursor(generation, |Published(generation, run, n)|)
    ensures AnswerAt(generation, run, n).event
         == Some(Published(generation, run, n)[|Published(generation, run, n)| - 1])
  {
    RunIsValid(generation, run, n);
    CursorIsOwn(generation, run, i, n, cursor);
    SequenceCounts(generation, run, n);
    EnterOwnCursor(After(generation, run, n), run[n], cursor);
    AnswerIsLatest(generation, run, n);
  }

  /** A cursor that was handed out stays at or below the sequence number. */
  lemma CursorIsOwn(generation: string, run: seq<Section>, i: nat, n: nat, cursor: Cursor)
    requires i < n < |run| && Gives(AnswerAt(generation, run, i), cursor)
    ensures cursor.generation == generation && cursor.sequence <= After(generation, run, n).sequence
  {
    CursorGiven(generation, run, i, cursor);
    PublishedGrows(generation, run, i, n);
    SequenceCounts(generation, run, n);
  }

  lemma CursorGiven(generation: string, run: seq<Section>, i: nat, cursor: Cursor)
    requires i < |run| && Gives(AnswerAt(generation, run, i), cursor)
    ensures cursor == Cursor(generation, |Published(generation, run, i)|)
  {
    RunIsValid(generation, run, i);
    SequenceCounts(generation, run, i);
    OwnGiven(After(generation, run, i), run[i], cursor);
  }

  lemma OwnGiven(s: State, a: Section, cursor: Cursor)
    requires Gives(Step(s, a).1, cursor)
    ensures cursor == Own(s)
  {
  }

  lemma EnterOwnCursor(s: State, a: Section, cursor: Cursor)
    requires a.Enter? && a.cursor == Some(cursor) && a.thread !in s.asleep && !s.closed
    requires cursor.generation == s.generation && cursor.sequence <= s.sequence
    ensures AskedOf(s, a) == Some(cursor.sequence) && !Step(s, a).1.StateReset?
    ensures cursor.sequence < s.sequence ==> Step(s, a).1.SyncFinished?
  {
  }

  /** The sections at which a client got its cursors, each asked for with the one before. */
  ghost predicate Follows(generation: string, run: seq<Section>, at: seq<nat>) {
    && (forall k :: 0 <= k < |at| ==> at[k] < |run|)
    && (forall k :: 0 < k < |at| ==>
          && AnswerAt(generation, run, at[k]).SyncFinished?
          && Asked(generation, run, at[k]) == Some(SequenceGiven(generation, run, at[k - 1])))
  }

  function SequenceGiven(generation: string, run: seq<Section>, n: nat): nat
    requires n < |run|
  {
    match AnswerAt(generation, run, n)
    case StateReset(cursor) => cursor.sequence
    case SyncFinished(cursor, _) => cursor.sequence
    case _ => 0
  }

  /** A client that follows its cursors within a generation sees strictly increasing sequence numbers. */
  lemma {:induction false} FollowerAdvances(generation: string, run: seq<Section>, at: seq<nat>, i: nat, j: nat)
    requires Follows(generation, run, at) && i < j < |at|
    ensures SequenceGiven(generation, run, at[i]) < SequenceGiven(generation, run, at[j])
  {
    AnswerIsLatest(generation, run, at[j]);
    if i < j - 1 {
      FollowerAdvances(generation, run, at, i, j - 1);
    }
  }

  // Who is answered what

  /** The broker is closed exactly after a close. */
  lemma {:induction false} ClosedByClose(generation: string, run: seq<Section>, n: nat)
    requires n <= |run|
    ensures After(generation, run, n).closed <==> exists k :: 0 <= k < n && run[k].Close?
  {
    if n > 0 {
      ClosedByClose(generation, run, n - 1);
      if run[n - 1].Close? {
        assert After(generation, run, n).closed;
      } else {
        assert After(generation, run, n).closed == After(generation, run, n - 1).closed;
      }
    }
  }

  /** An event is accepted exactly while no close came before it and numbers are left. */
  lemma AcceptedExactly(generation: string, run: seq<Section>, n: nat)
    requires n < |run| && run[n].Publish?
    ensures AnswerAt(generation, run, n)
         == if exists k :: 0 <= k < n && run[k].Close? then Stopping
            else if |Published(generation, run, n)| < MAX_SEQUENCE then Done else Exhausted
  {
    ClosedByClose(generation, run, n);
    SequenceCounts(generation, run, n);
    RunIsValid(generation, run, n);
  }

  /** A client without a cursor, with one of another broker or from the future is told where to start. */
  lemma ResetExactly(generation: string, run: seq<Section>, n: nat)
    requires n < |run| && run[n].Enter? && run[n].thread !in After(generation, run, n).asleep
    requires !After(generation, run, n).closed
    ensures AnswerAt(generation, run, n).StateReset? <==>
            run[n].cursor.None? || run[n].cursor.value.generation != generation
            || run[n].cursor.value.sequence > |Published(generation, run, n)|
    ensures AnswerAt(generation, run, n).StateReset? ==>
              AnswerAt(generation, run, n) == StateReset(Cursor(generation, |Published(generation, run, n)|))
  {
    SequenceCounts(generation, run, n);
    RunIsValid(generation, run, n);
  }

  /** With the current cursor a client is turned away exactly while two others sleep; otherwise it goes to sleep. */
  lemma SleepsExactly(generation: string, run: seq<Section>, n: nat, thread: int)
    requires n < |run| && run[n] == Enter(thread, Some(Cursor(generation, |Published(generation, run, n)|)))
    requires thread !in After(generation, run, n).asleep && !After(generation, run, n).closed
    ensures AnswerAt(generation, run, n) == WaiterLimit <==> |After(generation, run, n).asleep| == 2
    ensures AnswerAt(generation, run, n) == WaiterLimit ==> After(generation, run, n + 1) == After(generation, run, n)
    ensures AnswerAt(generation, run, n) != WaiterLimit ==>
              && AnswerAt(generation, run, n) == Sleeps
              && After(generation, run, n + 1).asleep
              == After(generation, run, n).asleep[thread := Waiter(|Published(generation, run, n)|, false)]
  {
    SequenceCounts(generation, run, n);
    RunIsValid(generation, run, n);
  }

  /** The thread went to sleep in section i and has been asleep since. */
  ghost predicate AsleepSince(generation: string, run: seq<Section>, i: nat, n: nat, thread: int) {
    && i < n <= |run| && run[i] == Enter(thread, Some(Cursor(generation, |Published(generation, run, i)|)))
    && thread !in After(generation, run, i).asleep
    && forall k :: i < k <= n ==> thread in After(generation, run, k).asleep
  }

  lemma {:induction false} SeenSinceThen(generation: string, run: seq<Section>, i: nat, n: nat, thread: int)
    requires AsleepSince(generation, run, i, n, thread)
    ensures After(generation, run, n).asleep[thread].seen == |Published(generation, run, i)|
  {
    assert thread in After(generation, run, n).asleep;
    if i < n - 1 {
      SeenSinceThen(generation, run, i, n - 1, thread);
      SleeperKeepsNumber(After(generation, run, n - 1), run[n - 1], thread);
    } else {
      FallsAsleepAt(After(generation, run, i), run[i], thread);
    }
  }

  lemma SleeperKeepsNumber(s: State, a: Section, thread: int)
    requires thread in s.asleep && thread in Step(s, a).0.asleep
    ensures Step(s, a).0.asleep[thread].seen == s.asleep[thread].seen
  {
  }

  lemma FallsAsleepAt(s: State, a: Section, thread: int)
    requires a.Enter? && a.thread == thread && a.cursor.Some?
    requires thread !in s.asleep && thread in Step(s, a).0.asleep
    ensures Step(s, a).0.asleep[thread].seen == a.cursor.value.sequence
  {
  }

  /**
   * A thread that gets the lock back leaves with the latest event exactly when one was accepted since it went to sleep,
   * unless the broker was closed; without one it leaves exactly when it has timed out, and sleeps on otherwise.
   */
  lemma WakesExactly(generation: string, run: seq<Section>, i: nat, n: nat, thread: int, timedOut: bool)
    requires n < |run| && run[n] == Wake(thread, timedOut) && AsleepSince(generation, run, i, n, thread)
    ensures var before, events := Published(generation, run, i), Published(generation, run, n);
            AnswerAt(generation, run, n) ==
            if exists k :: 0 <= k < n && run[k].Close? then Stopping
            else if |before| < |events| then SyncFinished(Cursor(generation, |events|), Some(events[|events| - 1]))
            else if timedOut then TimedOut else Sleeps
    ensures thread in After(generation, run, n + 1).asleep <==> AnswerAt(generation, run, n) == Sleeps
    ensures AnswerAt(generation, run, n) == Sleeps ==> !After(generation, run, n + 1).asleep[thread].notified
  {
    SeenSinceThen(generation, run, i, n, thread);
    ClosedByClose(generation, run, n);
    SequenceCounts(generation, run, n);
    RunIsValid(generation, run, n);
    PublishedGrows(generation, run, i, n);
    WakeDecides(After(generation, run, n), thread, timedOut);
  }

  lemma WakeDecides(s: State, thread: int, timedOut: bool)
    requires thread in s.asleep
    ensures var (after, answer) := DoWake(s, thread, timedOut);
            && answer == (if s.closed then Stopping
                          else if s.sequence != s.asleep[thread].seen then SyncFinished(Own(s), s.latest)
                          else if timedOut then TimedOut else Sleeps)
            && (thread in after.asleep <==> answer == Sleeps)
            && (answer == Sleeps ==> !after.asleep[thread].notified)
  {
  }

  /** An accepted event and a close wake everybody up. */
  lemma AllNotified(generation: string, run: seq<Section>, n: nat, thread: int)
    requires n < |run| && (run[n].Close? || (run[n].Publish? && AnswerAt(generation, run, n) == Done))
    requires thread in After(generation, run, n).asleep
    ensures thread in After(generation, run, n + 1).asleep && After(generation, run, n + 1).asleep[thread].notified
  {
    RunIsValid(generation, run, n);
    NobodyElseMoves(After(generation, run, n), run[n], thread);
    RunIsValid(generation, run, n + 1);
  }

  /** Only its own wake-up takes a thread from its sleep. */
  lemma NobodyElseMoves(s: State, a: Section, thread: int)
    requires thread in s.asleep && !(a.Wake? && a.thread == thread)
    ensures thread in Step(s, a).0.asleep
    ensures Step(s, a).0.asleep[thread] == s.asleep[thread] || Step(s, a).0.asleep[thread] == s.asleep[thread].(notified := true)
  {
  }

  /** Everyone who enters a closed broker is turned away. */
  lemma ClosedRefuses(generation: string, run: seq<Section>, n: nat)
    requires n < |run| && run[n].Enter? && run[n].thread !in After(generation, run, n).asleep
    ensures AnswerAt(generation, run, n) == Stopping <==> exists k :: 0 <= k < n && run[k].Close?
  {
    ClosedByClose(generation, run, n);
  }
}
