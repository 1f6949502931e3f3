/** The durable backfill checkpoint and the worker that advances it (dataset_store.py, sync_worker.py). Days are integers. */
module Backfill {
  import opened Prelude

  const BACKFILL_CHUNK_DAYS: int := 31
  const BACKFILL_MAX_CHUNKS_PER_CYCLE: nat := 2
  const CORRECTION_OVERLAP_DAYS: int := 3

  datatype Checkpoint = Checkpoint(requested: int, next: int, complete: bool)

  datatype CheckpointError = InvalidRange | Stale

  // The store's two transactions

  function PrepareSyncState(row: Option<Checkpoint>, historyStart: int, latest: int): Checkpoint {
    match row
    case None => Checkpoint(historyStart, historyStart, historyStart > latest)
    case Some(c) =>
      if historyStart < c.requested then Checkpoint(historyStart, historyStart, historyStart > latest)
      else if historyStart > c.requested then
        var next := if c.next < historyStart then historyStart else c.next;
        Checkpoint(historyStart, next, c.complete || next > latest)
      else c
  }

  function AdvanceSyncState(row: Option<Checkpoint>, expectedStart: int, exclusiveEnd: int, latest: int)
    : Result<Checkpoint, CheckpointError>
  {
    if exclusiveEnd <= expectedStart || exclusiveEnd > latest + 1 then Failure(InvalidRange)
    else if row.None? || row.value.next != expectedStart || row.value.complete then Failure(Stale)
    else Success(Checkpoint(row.value.requested, exclusiveEnd, exclusiveEnd > latest))
  }

  /** A prepare keeps exactly the days that the new range shares with what the checkpoint has passed, and a completion. */
  lemma PrepareKeeps(row: Option<Checkpoint>, historyStart: int, latest: int)
    requires row.Some? ==> row.value.requested <= row.value.next
    ensures var c := PrepareSyncState(row, historyStart, latest);
            && c.requested == historyStart <= c.next
            && DaysOf(historyStart, c.next)
               == (if row.Some? && row.value.requested <= historyStart then DaysOf(historyStart, row.value.next) else {})
            && (c.complete <==>
                  if row.Some? && row.value.requested == historyStart then row.value.complete
                  else c.next > latest || (row.Some? && row.value.requested < historyStart && row.value.complete))
  {
    var c := PrepareSyncState(row, historyStart, latest);
    forall d
      ensures d in DaysOf(historyStart, c.next) <==>
              row.Some? && row.value.requested <= historyStart && d in DaysOf(historyStart, row.value.next)
    {
    }
  }

  /** An advance is accepted exactly from the open checkpoint, within the latest day, and completes exactly by reaching it. */
  lemma AdvancesExactly(row: Option<Checkpoint>, start: int, end: int, latest: int)
    ensures var r := AdvanceSyncState(row, start, end, latest);
            && (r.Success? <==> start < end <= latest + 1 && row.Some? && !row.value.complete && row.value.next == start)
            && (r == Failure(InvalidRange) <==> !(start < end <= latest + 1))
            && (r.Success? ==> r.value.requested == row.value.requested && r.value.next == end)
            && (r.Success? ==> (r.value.complete <==> end == latest + 1))
  {
  }

  // Coverage over all runs

  /** What can happen to the checkpoint: a collection ends (with or without its advance), or a worker prepares. */
  datatype Event =
    | Prepare(historyStart: int, latest: int)
    | Chunk(start: int, end: int, latest: int, succeeded: bool, checkpointLost: bool)

  datatype History = History(row: Option<Checkpoint>, covered: set<int>)

  function DaysOf(start: int, end: int): (days: set<int>)
    ensures forall d :: d in days <==> start <= d < end
    decreases end - start
  {
    if start >= end then {} else {start} + DaysOf(start + 1, end)
  }

  function Step(h: History, e: Event): History {
    match e
    case Prepare(historyStart, latest) => h.(row := Some(PrepareSyncState(h.row, historyStart, latest)))
    case Chunk(start, end, latest, succeeded, checkpointLost) =>
      if !succeeded then h
      else
        var committed := h.(covered := h.covered + DaysOf(start, end));
        var advanced := AdvanceSyncState(h.row, start, end, latest);
        if checkpointLost || advanced.Failure? then committed else committed.(row := Some(advanced.value))
  }

  function After(run: seq<Event>): History {
    if run == [] then History(None, {}) else Step(After(run[..|run| - 1]), run[|run| - 1])
  }

  ghost predicate Covers(covered: set<int>, start: int, end: int) {
    forall d :: start <= d < end ==> d in covered
  }

  /** The checkpoint never runs ahead of what was collected. */
  ghost predicate Sound(row: Option<Checkpoint>, covered: set<int>) {
    row.Some? ==> row.value.requested <= row.value.next && Covers(covered, row.value.requested, row.value.next)
  }

  lemma StepKeepsSound(h: History, e: Event)
    requires Sound(h.row, h.covered)
    ensures Sound(Step(h, e).row, Step(h, e).covered)
  {
  }

  /** After any run, every day from the requested start up to the checkpoint was collected successfully. */
  lemma CheckpointIsCovered(run: seq<Event>)
    ensures var h := After(run);
            h.row.Some? ==> h.row.value.requested <= h.row.value.next
                            && forall d :: h.row.value.requested <= d < h.row.value.next ==> d in h.covered
  {
    SoundAfter(run);
  }

  lemma {:induction false} SoundAfter(run: seq<Event>)
    ensures Sound(After(run).row, After(run).covered)
  {
    if run != [] {
      SoundAfter(run[..|run| - 1]);
      StepKeepsSound(After(run[..|run| - 1]), run[|run| - 1]);
    }
  }

  // A single worker under a clock that does not go back

  /** An open backfill has days to collect. */
  predicate Open(row: Option<Checkpoint>, latest: int) {
    row.Some? && !row.value.complete ==> row.value.next <= latest
  }

  lemma PreparedIsOpen(row: Option<Checkpoint>, historyStart: int, before: int, latest: int)
    requires Open(row, before) && before <= latest
    ensures Open(Some(PrepareSyncState(row, historyStart, latest)), latest)
  {
  }

  function ChunkEnd(start: int, latest: int): int {
    if start + BACKFILL_CHUNK_DAYS < latest + 1 then start + BACKFILL_CHUNK_DAYS else latest + 1
  }

  /** The chunk after an open checkpoint is accepted by the store exactly when there is a day left to collect. */
  lemma ChunkIsAccepted(c: Checkpoint, latest: int)
    requires !c.complete
    ensures AdvanceSyncState(Some(c), c.next, ChunkEnd(c.next, latest), latest).Success? <==> c.next <= latest
  {
  }

  /** Chunks that succeed one after another under one latest day. */
  function Chunked(c: Checkpoint, latest: int, chunks: nat): Checkpoint {
    if chunks == 0 then c
    else
      var before := Chunked(c, latest, chunks - 1);
      var advanced := AdvanceSyncState(Some(before), before.next, ChunkEnd(before.next, latest), latest);
      if advanced.Success? then advanced.value else before
  }

  /** The days left are a termination measure: n chunks take 31 days each, and the last one completes the backfill. */
  lemma {:induction false} ChunksTerminate(c: Checkpoint, latest: int, chunks: nat)
    requires !c.complete && c.next <= latest
    ensures var left, after := latest + 1 - c.next, Chunked(c, latest, chunks);
            && after.requested == c.requested
            && latest + 1 - after.next == (if 31 * chunks < left then left - 31 * chunks else 0)
            && (after.complete <==> 31 * chunks >= left)
  {
    if chunks > 0 {
      ChunksTerminate(c, latest, chunks - 1);
    }
  }

  // The correction after completion

  /** Where a correction of the last `days` days starts, but not before the requested start unless that is in the future. */
  function OverlapStart(requested: int, latest: int, days: int): int {
    var start := if requested < latest - (days - 1) then latest - (days - 1) else requested;
    if start > latest then latest else start
  }

  /** A correction that succeeded: its latest day and how many days it reaches back. */
  datatype Correction = Correction(latest: int, days: int)

  function Corrected(covered: set<int>, requested: int, cs: seq<Correction>): set<int> {
    if cs == [] then covered
    else
      var c := cs[|cs| - 1];
      Corrected(covered, requested, cs[..|cs| - 1]) + DaysOf(OverlapStart(requested, c.latest, c.days), c.latest + 1)
  }

  ghost predicate Forward(cs: seq<Correction>) {
    && (forall i :: 0 <= i < |cs| ==> cs[i].days >= 1)
    && (forall i, j :: 0 <= i < j < |cs| ==> cs[i].latest <= cs[j].latest)
  }

  /** The last covered day before the first gap: a correction moves it only when it reaches back to it. */
  function Frontier(until: int, cs: seq<Correction>): int {
    if cs == [] then until
    else
      var before, c := Frontier(until, cs[..|cs| - 1]), cs[|cs| - 1];
      if before < c.latest <= before + c.days then c.latest else before
  }

  /** `until` is the last day before the first gap of what was requested. */
  ghost predicate FirstGap(covered: set<int>, requested: int, until: int) {
    requested - 1 <= until && Covers(covered, requested, until + 1) && until + 1 !in covered
  }

  lemma {:induction false} CorrectionsContinue(covered: set<int>, requested: int, until: int, cs: seq<Correction>)
    requires FirstGap(covered, requested, until) && Forward(cs)
    requires cs != [] ==> forall d :: d in covered ==> d <= cs[0].latest
    ensures FirstGap(Corrected(covered, requested, cs), requested, Frontier(until, cs))
    ensures cs != [] ==> forall d :: d in Corrected(covered, requested, cs) ==> d <= cs[|cs| - 1].latest
  {
    if cs != [] {
      CorrectionsContinue(covered, requested, until, cs[..|cs| - 1]);
    }
  }

  /** No correction came more than three days after `until` and after the one before it. */
  predicate InTime(until: int, cs: seq<Correction>) {
    cs != [] ==>
      && InTime(until, cs[..|cs| - 1])
      && cs[|cs| - 1].latest - (if |cs| > 1 && cs[|cs| - 2].latest > until then cs[|cs| - 2].latest else until) <= 3
  }

  lemma {:induction false} FrontierInTime(until: int, cs: seq<Correction>)
    requires Forward(cs) && forall i :: 0 <= i < |cs| ==> cs[i].days == CORRECTION_OVERLAP_DAYS
    requires cs != []
    ensures InTime(until, cs) ==> Frontier(until, cs) == if cs[|cs| - 1].latest > until then cs[|cs| - 1].latest else until
    ensures !InTime(until, cs) ==> Frontier(until, cs) < cs[|cs| - 1].latest - CORRECTION_OVERLAP_DAYS
  {
    var init := cs[..|cs| - 1];
    if init == [] {
      assert Frontier(until, init) == until && InTime(until, init);
    } else {
      FrontierInTime(until, init);
      assert init[|init| - 1] == cs[|cs| - 2];
    }
  }

  /** Complete does not mean covered up to the latest day: ten days away leave a gap that no later cycle of the run fills. */
  lemma CompleteIsNotCovered()
    ensures var run := [Prepare(0, 0), Chunk(0, 1, 0, true, false), Prepare(0, 10), Chunk(8, 11, 10, true, true)];
            var h := After(run);
            h.row.Some? && h.row.value.complete && 5 !in h.covered
  {
    var r1 := [Prepare(0, 0)];
    var r2 := r1 + [Chunk(0, 1, 0, true, false)];
    var r3 := r2 + [Prepare(0, 10)];
    var r4 := r3 + [Chunk(8, 11, 10, true, true)];
    assert r4[..3] == r3 && r3[..2] == r2 && r2[..1] == r1 && r1[..0] == [];
    assert After(r1) == History(Some(Checkpoint(0, 0, false)), {});
    assert After(r2) == Step(After(r1), Chunk(0, 1, 0, true, false));
    assert After(r2).row == Some(Checkpoint(0, 1, true)) && 5 !in After(r2).covered;
    assert After(r3) == Step(After(r2), Prepare(0, 10));
    assert After(r3).row == Some(Checkpoint(0, 1, true)) && 5 !in After(r3).covered;
    assert After(r4) == Step(After(r3), Chunk(8, 11, 10, true, true));
    assert r4 == [Prepare(0, 0), Chunk(0, 1, 0, true, false), Prepare(0, 10), Chunk(8, 11, 10, true, true)];
  }

  // The worker

  /** One attempt to collect [start, end). */
  datatype Attempt = Attempt(start: int, end: int, succeeded: bool)

  datatype Outcome = Outcome(succeeded: bool, internal: bool)

  /** Contiguous successful attempts of 1 to 31 days that tile [start, end). */
  ghost predicate Tiles(made: seq<Attempt>, start: int, end: int)
    decreases |made|
  {
    if made == [] then start == end
    else
      && made[0].start == start && made[0].succeeded && 1 <= made[0].end - made[0].start <= 31
      && Tiles(made[1..], made[0].end, end)
  }

  lemma {:induction false} TilesJoin(a: seq<Attempt>, b: seq<Attempt>, start: int, middle: int, end: int)
    requires Tiles(a, start, middle) && Tiles(b, middle, end)
    ensures Tiles(a + b, start, end)
    decreases |a|
  {
    if a == [] {
      assert a + b == b;
    } else {
      TilesJoin(a[1..], b, a[0].end, middle, end);
      assert (a + b)[1..] == a[1..] + b;
    }
  }

  lemma TilesGrow(made: seq<Attempt>, start: int, middle: int, next: Attempt)
    requires Tiles(made, start, middle) && next.start == middle && next.succeeded && 1 <= next.end - next.start <= 31
    ensures Tiles(made + [next], start, next.end)
  {
    assert [next][1..] == [];
    TilesJoin(made, [next], start, middle, next.end);
  }

  lemma {:induction false} TilesInside(made: seq<Attempt>, start: int, end: int)
    requires Tiles(made, start, end)
    ensures start <= end
    ensures forall i :: 0 <= i < |made| ==>
              made[i].succeeded && start <= made[i].start && 1 <= made[i].end - made[i].start <= 31 && made[i].end <= end
    decreases |made|
  {
    if made != [] {
      TilesInside(made[1..], made[0].end, end);
    }
  }

  class CheckpointStore {
    var row: Option<Checkpoint>
    ghost var covered: set<int>

    constructor ()
      ensures row == None && covered == {} && Valid()
    {
      row, covered := None, {};
    }

    ghost predicate Valid()
      reads this
    {
      Sound(row, covered)
    }

    method Prepare(historyStart: int, latest: int) returns (c: Checkpoint)
      requires Valid()
      modifies this
      ensures Valid() && row == Some(c) && c == PrepareSyncState(old(row), historyStart, latest) && covered == old(covered)
    {
      if row.None? {
        row := Some(Checkpoint(historyStart, historyStart, historyStart > latest));
      } else {
        var requested, next, complete := row.value.requested, row.value.next, row.value.complete;
        if historyStart < requested {
          requested := historyStart;
          next := historyStart;
          complete := next > latest;
        } else if historyStart > requested {
          requested := historyStart;
          next := if next < historyStart then historyStart else next;
          complete := complete || next > latest;
        }
        if historyStart != row.value.requested {
          row := Some(Checkpoint(requested, next, complete));
        }
      }
      c := row.value;
    }

    method Advance(expectedStart: int, exclusiveEnd: int, latest: int) returns (r: Result<Checkpoint, CheckpointError>)
      requires Valid() && Covers(covered, expectedStart, exclusiveEnd)
      modifies this
      ensures Valid() && covered == old(covered)
      ensures r == AdvanceSyncState(old(row), expectedStart, exclusiveEnd, latest)
      ensures row == if r.Success? then Some(r.value) else old(row)
    {
      if exclusiveEnd <= expectedStart || exclusiveEnd > latest + 1 {
        return Failure(InvalidRange);
      }
      if row.None? || row.value.next != expectedStart || row.value.complete {
        return Failure(Stale);
      }
      row := Some(Checkpoint(row.value.requested, exclusiveEnd, exclusiveEnd > latest));
      r := Success(row.value);
    }

    /** A successful collection commits its days. */
    method Collect(start: int, end: int, succeeds: bool) returns (a: Attempt)
      requires Valid()
      modifies this`covered
      ensures Valid() && a == Attempt(start, end, succeeds)
      ensures covered == if succeeds then old(covered) + DaysOf(start, end) else old(covered)
    {
      if succeeds {
        covered := covered + DaysOf(start, end);
      }
      a := Attempt(start, end, succeeds);
    }
  }

  /** What the environment answers to the k-th chunk: a stop, the collection, the storage, the clock. */
  datatype Oracle = Oracle(stopped: bool, collected: bool, stored: bool, currentIsDue: bool)

  datatype Cycle = Cycle(historyStart: Option<int>, latest: int, answers: seq<Oracle>)

  /** A cycle that was worked: all its attempts, those that moved the checkpoint, the row it left and what it reported. */
  datatype Turn = Turn(cycle: Cycle, made: seq<Attempt>, tiles: seq<Attempt>, row: Option<Checkpoint>, outcome: Outcome)

  /** The days that the attempts committed. */
  function Committed(made: seq<Attempt>): set<int> {
    if made == [] then {}
    else
      var last := made[|made| - 1];
      Committed(made[..|made| - 1]) + if last.succeeded then DaysOf(last.start, last.end) else {}
  }

  /** 1 to 31 days, none after the latest day. */
  predicate InRange(a: Attempt, latest: int) {
    1 <= a.end - a.start <= BACKFILL_CHUNK_DAYS && a.end <= latest + 1
  }

  /** Nothing keeps the i-th chunk of a cycle from being started: neither a stop nor the current day, due since the last one. */
  predicate Starts(answers: seq<Oracle>, i: nat) {
    i < |answers| && !answers[i].stopped && (i > 0 ==> !answers[i - 1].currentIsDue)
  }

  /** Full chunks, as long as they may be started, are collected and stored and the backfill is not complete. */
  ghost predicate ChunksDone(row: Checkpoint, latest: int, answers: seq<Oracle>, made: seq<Attempt>, tiles: seq<Attempt>) {
    && |tiles| <= |made| <= |answers| && made[..|tiles|] == tiles
    && (forall i :: 0 <= i < |made| ==>
          && made[i] == Attempt(made[i].start, ChunkEnd(made[i].start, latest), answers[i].collected) && Starts(answers, i)
          && (answers[i].collected && answers[i].stored <==> i < |tiles|))
    && (|made| == |tiles| ==> row.complete || !Starts(answers, |made|))
    && (|made| > |tiles| ==> |made| == |tiles| + 1 && made[|tiles|].start == row.next)
  }

  /** One cycle: without a history start the latest day, after completion the overlap, otherwise chunks from the checkpoint. */
  ghost predicate CycleDone(before: Option<Checkpoint>, turn: Turn)
    requires |turn.cycle.answers| == BACKFILL_MAX_CHUNKS_PER_CYCLE
  {
    match turn.cycle.historyStart
    case None =>
      turn.made == [Attempt(turn.cycle.latest, turn.cycle.latest + 1, turn.cycle.answers[0].collected)]
      && turn.tiles == [] && turn.row == before && turn.outcome == Outcome(turn.cycle.answers[0].collected, false)
    case Some(historyStart) =>
      var latest, made, tiles := turn.cycle.latest, turn.made, turn.tiles;
      var prepared := PrepareSyncState(before, historyStart, latest);
      && turn.row.Some? && turn.row.value.requested == prepared.requested
      && if prepared.complete then
           && made == [Attempt(OverlapStart(prepared.requested, latest, CORRECTION_OVERLAP_DAYS), latest + 1,
                               turn.cycle.answers[0].collected)]
           && tiles == [] && turn.row.value == prepared && turn.outcome == Outcome(turn.cycle.answers[0].collected, false)
         else
           && Tiles(tiles, prepared.next, turn.row.value.next)
           && (forall i :: 0 <= i < |made| ==> InRange(made[i], latest) && prepared.requested <= made[i].start)
           && ChunksDone(turn.row.value, latest, turn.cycle.answers, made, tiles)
           && turn.outcome == Outcome(made != [] && |made| == |tiles|, made == [])
  }

  lemma CommittedGrows(made: seq<Attempt>, a: Attempt)
    ensures Committed(made + [a]) == Committed(made) + if a.succeeded then DaysOf(a.start, a.end) else {}
    ensures Committed([a]) == if a.succeeded then DaysOf(a.start, a.end) else {}
  {
    assert (made + [a])[..|made|] == made && [a][..0] == [];
  }

  /** Chunks so far, all of them collected and stored. */
  ghost predicate Going(prepared: Checkpoint, state: Checkpoint, latest: int, answers: seq<Oracle>, made: seq<Attempt>) {
    && |made| <= |answers| && state.requested == prepared.requested && state.next <= latest + 1
    && Tiles(made, prepared.next, state.next)
    && forall i :: 0 <= i < |made| ==>
         && made[i] == Attempt(made[i].start, ChunkEnd(made[i].start, latest), answers[i].collected)
         && Starts(answers, i) && answers[i].collected && answers[i].stored
  }

  lemma ChunkGoes(prepared: Checkpoint, state: Checkpoint, latest: int, answers: seq<Oracle>,
                  made: seq<Attempt>, next: Attempt)
    requires Going(prepared, state, latest, answers, made) && Starts(answers, |made|) && state.next <= latest
    requires next == Attempt(state.next, ChunkEnd(state.next, latest), answers[|made|].collected)
    requires answers[|made|].collected && answers[|made|].stored
    ensures Going(prepared, Checkpoint(state.requested, next.end, next.end > latest), latest, answers, made + [next])
  {
    TilesGrow(made, prepared.next, state.next, next);
  }

  /** Why the loop ends: `last` is the chunk that was not collected or not stored, if there is one. */
  ghost predicate Ended(state: Checkpoint, latest: int, answers: seq<Oracle>, tiles: seq<Attempt>, last: seq<Attempt>) {
    if last == [] then state.complete || !Starts(answers, |tiles|)
    else
      && Starts(answers, |tiles|) && state.next <= latest
      && last == [Attempt(state.next, ChunkEnd(state.next, latest), answers[|tiles|].collected)]
      && !(answers[|tiles|].collected && answers[|tiles|].stored)
  }

  lemma ChunksEnd(prepared: Checkpoint, state: Checkpoint, latest: int, answers: seq<Oracle>,
                  tiles: seq<Attempt>, last: seq<Attempt>)
    requires Going(prepared, state, latest, answers, tiles) && Ended(state, latest, answers, tiles, last)
    requires prepared.requested <= prepared.next && |answers| == BACKFILL_MAX_CHUNKS_PER_CYCLE
    ensures ChunksDone(state, latest, answers, tiles + last, tiles)
    ensures forall i :: 0 <= i < |tiles + last| ==>
              InRange((tiles + last)[i], latest) && prepared.requested <= (tiles + last)[i].start
    ensures forall i :: 0 <= i < |tiles| ==> tiles[i].succeeded
  {
    TilesInside(tiles, prepared.next, state.next);
  }

  lemma ChunksAreCycle(before: Option<Checkpoint>, cycle: Cycle, state: Checkpoint, tiles: seq<Attempt>, last: seq<Attempt>)
    requires cycle.historyStart.Some? && |cycle.answers| == BACKFILL_MAX_CHUNKS_PER_CYCLE
    requires var prepared := PrepareSyncState(before, cycle.historyStart.value, cycle.latest);
             !prepared.complete && prepared.requested <= prepared.next && Going(prepared, state, cycle.latest, cycle.answers, tiles)
    requires Ended(state, cycle.latest, cycle.answers, tiles, last)
    ensures CycleDone(before, Turn(cycle, tiles + last, tiles, Some(state), Outcome(tiles + last != [] && last == [], tiles + last == [])))
    ensures forall i :: 0 <= i < |tiles| ==> tiles[i].succeeded
  {
    ChunksEnd(PrepareSyncState(before, cycle.historyStart.value, cycle.latest), state, cycle.latest, cycle.answers, tiles, last);
  }

  /** One chunk: its collection and, when that succeeds, the advance of the checkpoint, which can only fail to be stored. */
  method CollectChunk(store: CheckpointStore, state: Checkpoint, latest: int, answer: Oracle)
    returns (attempt: Attempt, advanced: Option<Checkpoint>)
    requires store.Valid() && store.row == Some(state) && !state.complete && state.next <= latest
    modifies store
    ensures store.Valid() && attempt == Attempt(state.next, ChunkEnd(state.next, latest), answer.collected)
    ensures store.covered == old(store.covered) + if answer.collected then DaysOf(attempt.start, attempt.end) else {}
    ensures advanced == if answer.collected && answer.stored
                        then Some(Checkpoint(state.requested, attempt.end, attempt.end > latest)) else None
    ensures store.row == if advanced.Some? then advanced else old(store.row)
  {
    var start := state.next;
    var end := if start + BACKFILL_CHUNK_DAYS < latest + 1 then start + BACKFILL_CHUNK_DAYS else latest + 1;
    attempt := store.Collect(start, end, answer.collected);
    advanced := None;
    if attempt.succeeded && answer.stored {
      var r := store.Advance(start, end, latest);
      advanced := Some(r.value);
    }
  }

  /** The chunks of one cycle, from the prepared checkpoint. */
  method BackfillChunks(store: CheckpointStore, prepared: Checkpoint, latest: int, answers: seq<Oracle>)
    returns (r: Outcome, made: seq<Attempt>, ghost tiles: seq<Attempt>, ghost last: seq<Attempt>)
    requires store.Valid() && |answers| == BACKFILL_MAX_CHUNKS_PER_CYCLE
    requires store.row == Some(prepared) && !prepared.complete && prepared.next <= latest
    modifies store
    ensures store.Valid() && Open(store.row, latest) && store.row.Some?
    ensures Going(prepared, store.row.value, latest, answers, tiles) && made == tiles + last
    ensures Ended(store.row.value, latest, answers, tiles, last)
    ensures store.covered == old(store.covered) + Committed(made)
    ensures r == Outcome(made != [] && last == [], made == [])
  {
    made, tiles, last := [], [], [];
    var state, chunk, failed := prepared, 0, false;
    while chunk < BACKFILL_MAX_CHUNKS_PER_CYCLE
      invariant 0 <= chunk <= BACKFILL_MAX_CHUNKS_PER_CYCLE
      invariant store.Valid() && store.row == Some(state) && Open(store.row, latest)
      invariant chunk < BACKFILL_MAX_CHUNKS_PER_CYCLE ==>
                  !state.complete && (chunk > 0 ==> !answers[chunk - 1].currentIsDue)
      invariant |made| == chunk && made == tiles && last == [] && !failed && Going(prepared, state, latest, answers, made)
      invariant store.covered == old(store.covered) + Committed(made)
    {
      if answers[chunk].stopped {
        break;
      }
      var attempt, advanced := CollectChunk(store, state, latest, answers[chunk]);
      CommittedGrows(made, attempt);
      made := made + [attempt];
      if advanced.None? {
        failed, last := true, [attempt];
        break;
      }
      ChunkGoes(prepared, state, latest, answers, tiles, attempt);
      tiles := tiles + [attempt];
      state := advanced.value;
      chunk := chunk + 1;
      if state.complete || answers[chunk - 1].currentIsDue {
        break;
      }
    }
    r := Outcome(made != [] && !failed, made == []);
  }

  /** The chunks of a cycle, after its prepare. */
  method BackfillCycle(store: CheckpointStore, ghost before: Option<Checkpoint>, prepared: Checkpoint, cycle: Cycle)
    returns (r: Outcome, made: seq<Attempt>, ghost tiles: seq<Attempt>)
    requires store.Valid() && store.row == Some(prepared) && |cycle.answers| == BACKFILL_MAX_CHUNKS_PER_CYCLE
    requires cycle.historyStart.Some? && prepared == PrepareSyncState(before, cycle.historyStart.value, cycle.latest)
    requires !prepared.complete && prepared.next <= cycle.latest
    modifies store
    ensures store.Valid() && Open(store.row, cycle.latest)
    ensures CycleDone(before, Turn(cycle, made, tiles, store.row, r))
    ensures store.covered == old(store.covered) + Committed(made)
    ensures r.succeeded ==> made != [] && forall i :: 0 <= i < |made| ==> made[i].succeeded
  {
    ghost var last;
    r, made, tiles, last := BackfillChunks(store, prepared, cycle.latest, cycle.answers);
    ChunksAreCycle(before, cycle, store.row.value, tiles, last);
    assert tiles + [] == tiles;
  }

  /** A single attempt up to the latest day. */
  method CollectDays(store: CheckpointStore, start: int, latest: int, succeeds: bool) returns (r: Outcome, made: seq<Attempt>)
    requires store.Valid()
    modifies store`covered
    ensures store.Valid() && made == [Attempt(start, latest + 1, succeeds)] && r == Outcome(succeeds, false)
    ensures store.covered == old(store.covered) + Committed(made)
  {
    var attempt := store.Collect(start, latest + 1, succeeds);
    CommittedGrows([], attempt);
    r, made := Outcome(attempt.succeeded, false), [attempt];
  }

  /** One scheduled cycle; `made` are its attempts, of which `tiles` moved the checkpoint. */
  method ScheduledCycle(store: CheckpointStore, cycle: Cycle) returns (r: Outcome, made: seq<Attempt>, ghost tiles: seq<Attempt>)
    requires store.Valid() && |cycle.answers| == BACKFILL_MAX_CHUNKS_PER_CYCLE && Open(store.row, cycle.latest)
    modifies store
    ensures store.Valid() && Open(store.row, cycle.latest)
    ensures CycleDone(old(store.row), Turn(cycle, made, tiles, store.row, r))
    ensures store.covered == old(store.covered) + Committed(made)
    ensures r.succeeded ==> made != [] && forall i :: 0 <= i < |made| ==> made[i].succeeded
  {
    tiles := [];
    if cycle.historyStart.None? {
      r, made := CollectDays(store, cycle.latest, cycle.latest, cycle.answers[0].collected);
    } else {
      PreparedIsOpen(store.row, cycle.historyStart.value, cycle.latest, cycle.latest);
      var state := store.Prepare(cycle.historyStart.value, cycle.latest);
      if state.complete {
        var start := if state.requested < cycle.latest - (CORRECTION_OVERLAP_DAYS - 1)
                     then cycle.latest - (CORRECTION_OVERLAP_DAYS - 1) else state.requested;
        if start > cycle.latest {
          start := cycle.latest;
        }
        r, made := CollectDays(store, start, cycle.latest, cycle.answers[0].collected);
      } else {
        r, made, tiles := BackfillCycle(store, old(store.row), state, cycle);
      }
    }
  }

  // Runs of one worker

  function RowAfter(run: seq<Turn>): Option<Checkpoint> {
    if run == [] then None else run[|run| - 1].row
  }

  function CoveredAfter(run: seq<Turn>): set<int> {
    if run == [] then {} else CoveredAfter(run[..|run| - 1]) + Committed(run[|run| - 1].made)
  }

  /** A run from an empty store in which the latest day does not go back. */
  ghost predicate Worked(run: seq<Turn>) {
    run != [] ==>
      var before, turn := run[..|run| - 1], run[|run| - 1];
      && Worked(before) && (before != [] ==> before[|before| - 1].cycle.latest <= turn.cycle.latest)
      && |turn.cycle.answers| == BACKFILL_MAX_CHUNKS_PER_CYCLE && CycleDone(RowAfter(before), turn)
  }

  lemma WorkedGrows(run: seq<Turn>, turn: Turn)
    requires Worked(run) && |turn.cycle.answers| == BACKFILL_MAX_CHUNKS_PER_CYCLE && CycleDone(RowAfter(run), turn)
    requires run != [] ==> run[|run| - 1].cycle.latest <= turn.cycle.latest
    ensures Worked(run + [turn]) && RowAfter(run + [turn]) == turn.row
    ensures CoveredAfter(run + [turn]) == CoveredAfter(run) + Committed(turn.made)
  {
    assert (run + [turn])[..|run|] == run;
  }

  method WorkCycle(store: CheckpointStore, cycle: Cycle, ghost run: seq<Turn>) 
    returns (r: Outcome, ghost longer: seq<Turn>)
    requires store.Valid() && |cycle.answers| == BACKFILL_MAX_CHUNKS_PER_CYCLE && Open(store.row, cycle.latest)
    requires Worked(run) && store.row == RowAfter(run) && store.covered == CoveredAfter(run)
    requires run != [] ==> run[|run| - 1].cycle.latest <= cycle.latest
    modifies store
    ensures store.Valid() && Open(store.row, cycle.latest)
    ensures Worked(longer) && store.row == RowAfter(longer) && store.covered == CoveredAfter(longer)
    ensures |longer| == |run| + 1 && longer[..|run|] == run && longer[|run|].cycle == cycle && longer[|run|].outcome == r
  {
    var made;
    ghost var tiles;
    r, made, tiles := ScheduledCycle(store, cycle);
    ghost var turn := Turn(cycle, made, tiles, store.row, r);
    WorkedGrows(run, turn);
    longer := run + [turn];
  }

  /** The worker's cycles one after another. */
  method RunCycles(cycles: seq<Cycle>) returns (store: CheckpointStore, outcomes: seq<Outcome>, ghost run: seq<Turn>)
    requires forall n :: 0 <= n < |cycles| ==> |cycles[n].answers| == BACKFILL_MAX_CHUNKS_PER_CYCLE
    requires forall n, k :: 0 <= n < k < |cycles| ==> cycles[n].latest <= cycles[k].latest
    ensures |run| == |outcomes| == |cycles|
    ensures forall n :: 0 <= n < |cycles| ==> run[n].cycle == cycles[n] && run[n].outcome == outcomes[n]
    ensures Worked(run) && store.row == RowAfter(run) && store.covered == CoveredAfter(run)
  {
    store := new CheckpointStore();
    outcomes, run := [], [];
    for i := 0 to |cycles|
      invariant fresh(store) && store.Valid()
      invariant |run| == |outcomes| == i
      invariant forall n :: 0 <= n < i ==> run[n].cycle == cycles[n] && run[n].outcome == outcomes[n]
      invariant Worked(run) && store.row == RowAfter(run) && store.covered == CoveredAfter(run)
      invariant i < |cycles| ==> Open(store.row, cycles[i].latest)
    {
      var r;
      r, run := WorkCycle(store, cycles[i], run);
      outcomes := outcomes + [r];
    }
  }

  /** The checkpoint from which the chunks of a cycle continue: as prepared, or as it was when there is no history start. */
  function StartOf(before: Option<Checkpoint>, cycle: Cycle): Option<Checkpoint> {
    if cycle.historyStart.None? then before else Some(PrepareSyncState(before, cycle.historyStart.value, cycle.latest))
  }

  lemma CycleTiles(before: Option<Checkpoint>, turn: Turn)
    requires |turn.cycle.answers| == BACKFILL_MAX_CHUNKS_PER_CYCLE && CycleDone(before, turn) && turn.row.Some?
    ensures var start := StartOf(before, turn.cycle);
            && start.Some? && turn.row.value.requested == start.value.requested
            && Tiles(turn.tiles, start.value.next, turn.row.value.next) && start.value.next <= turn.row.value.next
  {
    TilesInside(turn.tiles, StartOf(before, turn.cycle).value.next, turn.row.value.next);
  }

  /** The chunks in a row that led to the checkpoint: where they began, and whether that was the requested start. */
  datatype Progress = Progress(base: int, whole: bool, chunks: seq<Attempt>)

  /** The first prepare and every change of the history start begin anew, at the checkpoint that this prepares. */
  function ProgressAfter(run: seq<Turn>): Progress {
    if run == [] then Progress(0, false, [])
    else
      var before, cycle, tiles := run[..|run| - 1], run[|run| - 1].cycle, run[|run| - 1].tiles;
      var row := RowAfter(before);
      if cycle.historyStart.None? || (row.Some? && row.value.requested == cycle.historyStart.value) then
        var p := ProgressAfter(before);
        p.(chunks := p.chunks + tiles)
      else
        Progress(StartOf(row, cycle).value.next, row.None? || cycle.historyStart.value < row.value.requested, tiles)
  }

  /** The successful chunks since the last rebase tile everything from where it began up to the checkpoint. */
  lemma {:induction false} ChunksTile(run: seq<Turn>)
    requires Worked(run) && RowAfter(run).Some?
    ensures var p, row := ProgressAfter(run), RowAfter(run).value;
            && Tiles(p.chunks, p.base, row.next)
            && row.requested <= p.base <= row.next
            && (p.whole ==> p.base == row.requested)
  {
    var before, turn := run[..|run| - 1], run[|run| - 1];
    var row := RowAfter(before);
    CycleTiles(row, turn);
    if turn.cycle.historyStart.None? || (row.Some? && row.value.requested == turn.cycle.historyStart.value) {
      ChunksTile(before);
      var p := ProgressAfter(before);
      TilesJoin(p.chunks, turn.tiles, p.base, row.value.next, turn.row.value.next);
    } else {
      if row.Some? {
        ChunksTile(before);
      }
      PreparedFrom(row, turn.cycle.historyStart.value, turn.cycle.latest);
    }
  }

  lemma PreparedFrom(row: Option<Checkpoint>, historyStart: int, latest: int)
    requires row.Some? ==> row.value.requested <= row.value.next
    ensures var c := PrepareSyncState(row, historyStart, latest);
            c.requested <= c.next && (row.None? || historyStart < row.value.requested ==> c.next == c.requested)
  {
  }

  lemma AttemptInCycle(before: Option<Checkpoint>, turn: Turn, i: nat)
    requires |turn.cycle.answers| == BACKFILL_MAX_CHUNKS_PER_CYCLE && CycleDone(before, turn) && i < |turn.made|
    ensures InRange(turn.made[i], turn.cycle.latest)
    ensures turn.cycle.historyStart.Some? ==> turn.row.Some?
    ensures turn.cycle.historyStart.Some? && turn.row.value.requested <= turn.cycle.latest ==>
              turn.row.value.requested <= turn.made[i].start
  {
  }

  /** Every attempt of every cycle is 1 to 31 days long and within the requested start and the latest day. */
  lemma {:induction false} AttemptsInRange(run: seq<Turn>, n: nat, i: nat)
    requires Worked(run) && n < |run| && i < |run[n].made|
    ensures InRange(run[n].made[i], run[n].cycle.latest)
    ensures run[n].cycle.historyStart.Some? ==> run[n].row.Some?
    ensures run[n].cycle.historyStart.Some? && run[n].row.value.requested <= run[n].cycle.latest ==>
              run[n].row.value.requested <= run[n].made[i].start
  {
    if n < |run| - 1 {
      AttemptsInRange(run[..|run| - 1], n, i);
    } else {
      AttemptInCycle(RowAfter(run[..n]), run[n], i);
    }
  }

  /** The cycle finds an open backfill. */
  predicate Backfills(before: Option<Checkpoint>, cycle: Cycle) {
    cycle.historyStart.Some? && !PrepareSyncState(before, cycle.historyStart.value, cycle.latest).complete
  }

  /**
   * A cycle reports success exactly when it tried something and all of it was collected and, in a backfill, stored; an
   * internal failure exactly when it tried nothing.
   */
  lemma {:induction false} OutcomesAreTrue(run: seq<Turn>, n: nat)
    requires Worked(run) && n < |run|
    ensures var turn := run[n];
            && |turn.made| <= 2 == |turn.cycle.answers|
            && (turn.outcome.internal <==> turn.made == [])
            && (turn.outcome.succeeded <==>
                  && turn.made != []
                  && forall i :: 0 <= i < |turn.made| ==>
                       turn.cycle.answers[i].collected && (Backfills(RowAfter(run[..n]), turn.cycle) ==> turn.cycle.answers[i].stored))
  {
    if n < |run| - 1 {
      OutcomesAreTrue(run[..|run| - 1], n);
      assert run[..|run| - 1][..n] == run[..n];
    } else {
      OutcomeOfCycle(RowAfter(run[..n]), run[n]);
    }
  }

  lemma OutcomeOfCycle(before: Option<Checkpoint>, turn: Turn)
    requires |turn.cycle.answers| == BACKFILL_MAX_CHUNKS_PER_CYCLE && CycleDone(before, turn)
    ensures |turn.made| <= 2 && (turn.outcome.internal <==> turn.made == [])
    ensures turn.outcome.succeeded <==>
              && turn.made != []
              && forall i :: 0 <= i < |turn.made| ==>
                   turn.cycle.answers[i].collected && (Backfills(before, turn.cycle) ==> turn.cycle.answers[i].stored)
  {
    if Backfills(before, turn.cycle) && |turn.made| > |turn.tiles| {
      assert !(turn.cycle.answers[|turn.tiles|].collected && turn.cycle.answers[|turn.tiles|].stored);
    }
  }

  /** The history start stays the requested one, or is not given at all, in all cycles after the n-th, which completed. */
  ghost predicate Settled(run: seq<Turn>, n: nat)
    requires n <= |run|
  {
    && RowAfter(run[..n]).Some? && RowAfter(run[..n]).value.complete
    && forall k :: n <= k < |run| ==> run[k].cycle.historyStart in {None, Some(RowAfter(run[..n]).value.requested)}
  }

  /** The correction of a cycle after completion, when it succeeded. */
  function CorrectionOf(turn: Turn): seq<Correction> {
    if turn.made == [] || !turn.made[0].succeeded then []
    else [Correction(turn.cycle.latest, if turn.cycle.historyStart.None? then 1 else CORRECTION_OVERLAP_DAYS)]
  }

  /** The corrections after the n-th cycle that succeeded. */
  function Corrections(run: seq<Turn>, n: nat): seq<Correction> {
    if |run| <= n then [] else Corrections(run[..|run| - 1], n) + CorrectionOf(run[|run| - 1])
  }

  lemma CompleteCycle(before: Option<Checkpoint>, turn: Turn, covered: set<int>)
    requires |turn.cycle.answers| == BACKFILL_MAX_CHUNKS_PER_CYCLE && CycleDone(before, turn)
    requires before.Some? && before.value.complete && turn.cycle.historyStart in {None, Some(before.value.requested)}
    ensures turn.row == before
    ensures covered + Committed(turn.made) == Corrected(covered, before.value.requested, CorrectionOf(turn))
  {
    assert |turn.made| == 1;
    CommittedGrows([], turn.made[0]);
    assert turn.made == [turn.made[0]];
    var cs := CorrectionOf(turn);
    assert cs != [] ==> cs[..0] == [];
  }

  lemma CorrectedGrows(covered: set<int>, requested: int, cs: seq<Correction>, more: seq<Correction>)
    requires |more| <= 1
    ensures Corrected(Corrected(covered, requested, cs), requested, more) == Corrected(covered, requested, cs + more)
  {
    if more == [] {
      assert cs + more == cs;
    } else {
      assert (cs + more)[..|cs|] == cs && more[..0] == [];
    }
  }

  lemma {:induction false} CorrectionsInRun(run: seq<Turn>, n: nat)
    requires Worked(run) && n <= |run| && Settled(run, n)
    ensures RowAfter(run) == RowAfter(run[..n])
    ensures CoveredAfter(run) == Corrected(CoveredAfter(run[..n]), RowAfter(run[..n]).value.requested, Corrections(run, n))
  {
    if n == |run| {
      assert run[..n] == run;
    } else {
      var before, turn := run[..|run| - 1], run[|run| - 1];
      assert before[..n] == run[..n];
      CorrectionsInRun(before, n);
      CompleteCycle(RowAfter(before), turn, CoveredAfter(before));
      CorrectedGrows(CoveredAfter(run[..n]), RowAfter(run[..n]).value.requested, Corrections(before, n), CorrectionOf(turn));
    }
  }

  /** Corrections come in order. */
  lemma {:induction false} CorrectionsForward(run: seq<Turn>, n: nat)
    requires Worked(run)
    ensures Forward(Corrections(run, n))
    ensures forall i :: 0 <= i < |Corrections(run, n)| ==> Corrections(run, n)[i].latest <= run[|run| - 1].cycle.latest
  {
    if n < |run| {
      CorrectionsForward(run[..|run| - 1], n);
    }
  }

  /** None comes before the latest day of anything that was collected earlier. */
  lemma {:induction false} CorrectionsAfter(run: seq<Turn>, n: nat, d: int)
    requires Worked(run) && n <= |run| && d in CoveredAfter(run[..n])
    ensures forall i :: 0 <= i < |Corrections(run, n)| ==> d <= Corrections(run, n)[i].latest
  {
    if n < |run| {
      assert run[..|run| - 1][..n] == run[..n];
      CorrectionsAfter(run[..|run| - 1], n, d);
      CoveredStays(run, n, d);
      NothingFromTheFuture(run, d);
    }
  }

  lemma {:induction false} CoveredStays(run: seq<Turn>, n: nat, d: int)
    requires n <= |run| && d in CoveredAfter(run[..n])
    ensures d in CoveredAfter(run)
  {
    if n == |run| {
      assert run[..n] == run;
    } else {
      assert run[..|run| - 1][..n] == run[..n];
      CoveredStays(run[..|run| - 1], n, d);
    }
  }

  lemma {:induction false} NothingFromTheFuture(run: seq<Turn>, d: int)
    requires Worked(run) && d in CoveredAfter(run)
    ensures run != [] && d <= run[|run| - 1].cycle.latest
  {
    var before, turn := run[..|run| - 1], run[|run| - 1];
    if d in CoveredAfter(before) {
      NothingFromTheFuture(before, d);
    } else {
      forall i | 0 <= i < |turn.made|
        ensures InRange(turn.made[i], turn.cycle.latest)
      {
        AttemptInCycle(RowAfter(before), turn, i);
      }
      CommittedInTime(turn.made, turn.cycle.latest, d);
    }
  }

  lemma {:induction false} CommittedInTime(made: seq<Attempt>, latest: int, d: int)
    requires (forall i :: 0 <= i < |made| ==> InRange(made[i], latest)) && d in Committed(made)
    ensures d <= latest
  {
    if d in Committed(made[..|made| - 1]) {
      CommittedInTime(made[..|made| - 1], latest, d);
    }
  }

  /** After completion the first gap in what was requested is where the successful corrections leave it. */
  lemma GapInRun(run: seq<Turn>, n: nat, until: int)
    requires Worked(run) && n <= |run| && Settled(run, n)
    requires FirstGap(CoveredAfter(run[..n]), RowAfter(run[..n]).value.requested, until)
    ensures RowAfter(run) == RowAfter(run[..n])
    ensures FirstGap(CoveredAfter(run), RowAfter(run).value.requested, Frontier(until, Corrections(run, n)))
  {
    CorrectionsInRun(run, n);
    CorrectionsForward(run, n);
    forall d | d in CoveredAfter(run[..n])
      ensures Corrections(run, n) != [] ==> d <= Corrections(run, n)[0].latest
    {
      CorrectionsAfter(run, n, d);
    }
    CorrectionsContinue(CoveredAfter(run[..n]), RowAfter(run[..n]).value.requested, until, Corrections(run, n));
  }

  /** Complete means covered up to the last correction exactly when none of them came more than three days late. */
  lemma CompleteMeansCovered(run: seq<Turn>, n: nat, until: int)
    requires Worked(run) && n <= |run| && Settled(run, n) && Corrections(run, n) != []
    requires forall k :: n <= k < |run| ==> run[k].cycle.historyStart.Some?
    requires FirstGap(CoveredAfter(run[..n]), RowAfter(run[..n]).value.requested, until)
    ensures RowAfter(run).Some? && RowAfter(run).value.complete
    ensures var cs := Corrections(run, n);
            Covers(CoveredAfter(run), RowAfter(run).value.requested, cs[|cs| - 1].latest + 1) <==> InTime(until, cs)
  {
    GapInRun(run, n, until);
    CompleteInTime(run, n, until);
    var cs := Corrections(run, n);
    GapDecides(CoveredAfter(run), RowAfter(run).value.requested, Frontier(until, cs), cs[|cs| - 1].latest);
  }

  lemma CompleteInTime(run: seq<Turn>, n: nat, until: int)
    requires Worked(run) && n <= |run| && Corrections(run, n) != []
    requires forall k :: n <= k < |run| ==> run[k].cycle.historyStart.Some?
    ensures var cs := Corrections(run, n);
            Frontier(until, cs) >= cs[|cs| - 1].latest <==> InTime(until, cs)
  {
    CorrectionsForward(run, n);
    DaysOfCorrections(run, n);
    FrontierInTime(until, Corrections(run, n));
  }

  lemma GapDecides(covered: set<int>, requested: int, until: int, latest: int)
    requires FirstGap(covered, requested, until)
    ensures Covers(covered, requested, latest + 1) <==> latest <= until
  {
    if Covers(covered, requested, latest + 1) {
      assert !(requested <= until + 1 < latest + 1);
    }
  }

  lemma {:induction false} DaysOfCorrections(run: seq<Turn>, n: nat)
    requires forall k :: n <= k < |run| ==> run[k].cycle.historyStart.Some?
    ensures forall i :: 0 <= i < |Corrections(run, n)| ==> Corrections(run, n)[i].days == CORRECTION_OVERLAP_DAYS
  {
    if n < |run| {
      DaysOfCorrections(run[..|run| - 1], n);
    }
  }
}
