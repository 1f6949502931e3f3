/** Every run of the store: commits with fresh revisions, interleaved with recorded attempts and page requests. */
module DatasetHistory {
  import opened Prelude
  import opened Measurements
  import opened DatasetStore
  import opened Pagination

  datatype Op =
    | Commit(records: seq<Row>, collectedAt: int, revision: string)
    | Attempt(at: int)

  const EMPTY: Db := Db(map[], None, None)

  function Step(db: Db, op: Op): Db {
    match op
    case Commit(records, collectedAt, revision) => Committed(db, records, collectedAt, revision)
    case Attempt(at) => db.(lastAttempt := Some(at))
  }

  /** The database after the first n operations of a run. */
  function StateAt(run: seq<Op>, n: nat): Db
    requires n <= |run|
  {
    if n == 0 then EMPTY else Step(StateAt(run, n - 1), run[n - 1])
  }

  /** Records satisfy the constraints of the table and every commit draws a revision of its own. */
  ghost predicate ValidRun(run: seq<Op>) {
    && (forall i :: 0 <= i < |run| && run[i].Commit? ==> forall row :: row in run[i].records ==> row.Sound())
    && (forall i, j :: 0 <= i < j < |run| && run[i].Commit? && run[j].Commit? ==> run[i].revision != run[j].revision)
  }

  lemma {:induction false} RunIsConsistent(run: seq<Op>, n: nat)
    requires ValidRun(run) && n <= |run|
    ensures Consistent(StateAt(run, n))
  {
    if n > 0 {
      RunIsConsistent(run, n - 1);
      var op := run[n - 1];
      if op.Commit? {
        CommitIsConsistent(StateAt(run, n - 1), op.records, op.collectedAt, op.revision);
      }
    }
  }

  /** The revision shown is that of a commit of the past. */
  lemma {:induction false} RevisionComesFromCommit(run: seq<Op>, n: nat)
    requires n <= |run| && StateAt(run, n).metadata.Some?
    ensures exists i :: 0 <= i < n && run[i].Commit? && run[i].revision == StateAt(run, n).metadata.value.revision
  {
    if !run[n - 1].Commit? {
      RevisionComesFromCommit(run, n - 1);
    }
  }

  /** Whenever a run shows a revision, it shows the same table and the same metadata under it. */
  lemma {:induction false} RevisionNamesOneTable(run: seq<Op>, i: nat, j: nat)
    requires ValidRun(run) && i <= |run| && j <= |run|
    ensures Agree(StateAt(run, i), StateAt(run, j))
    decreases i + j, i > j
  {
    var a, b := StateAt(run, i), StateAt(run, j);
    if i > j {
      RevisionNamesOneTable(run, j, i);
    } else if i < j && a.metadata.Some? {
      RevisionComesFromCommit(run, i);
      if run[j - 1].Commit? {
        assert b.metadata.value.revision != a.metadata.value.revision;
      } else {
        RevisionNamesOneTable(run, i, j - 1);
      }
    }
  }

  /** The requests of a client, request n reaching the run after moments[n] of its operations. */
  function Served(run: seq<Op>, moments: seq<nat>): (served: seq<Option<Db>>)
    requires forall n :: 0 <= n < |moments| ==> moments[n] <= |run|
    ensures |served| == |moments|
    ensures forall n :: 0 <= n < |served| ==> served[n] == Some(StateAt(run, moments[n]))
  {
    seq(|moments|, n requires 0 <= n < |moments| => Some(StateAt(run, moments[n])))
  }

  /** For every interleaving of commits and attempts with the requests, the page loop may be trusted. */
  lemma EveryInterleavingAgrees(run: seq<Op>, moments: seq<nat>)
    requires ValidRun(run) && |moments| > 0
    requires forall n :: 0 <= n < |moments| ==> moments[n] <= |run|
    ensures var served := Served(run, moments);
            Consistent(served[0].value) && AgreeAll(served[0].value, served)
  {
    var served := Served(run, moments);
    RunIsConsistent(run, moments[0]);
    forall n | 0 <= n < |served| ensures Agree(served[0].value, served[n].value) {
      RevisionNamesOneTable(run, moments[0], moments[n]);
    }
  }

  /** The client against a run: what it returns is one committed revision, the one its first request saw. */
  method ReadDuring(run: seq<Op>, moments: seq<nat>, start: int, end: int) returns (r: Result<Snapshot, ClientError>)
    requires ValidRun(run)
    requires forall n :: 0 <= n < |moments| ==> moments[n] <= |run|
    ensures r.Success? ==>
              && |moments| > 0 && StateAt(run, moments[0]).metadata.Some?
              && r.value == SnapshotOf(StateAt(run, moments[0]), start, end)
    ensures |moments| >= 12 && Readable(StateAt(run, moments[0]), start, end) ==>
              (forall n :: 0 <= n < |moments| ==> moments[n] == moments[0]) ==> r.Success?
  {
    if |moments| > 0 {
      EveryInterleavingAgrees(run, moments);
    }
    var served := Served(run, moments);
    r := ReadSnapshot(start, end, served);
    if |moments| > 0 && Readable(served[0].value, start, end) {
      Capacity(served[0].value.table, start, end);
    }
  }

  /** A snapshot is exactly the rows of the range that are not invalid, each once, in strict (start, channel) order. */
  lemma SnapshotMeaning(db: Db, start: int, end: int)
    requires db.metadata.Some? && SoundTable(db.table)
    ensures var values := SnapshotOf(db, start, end).values;
            && StrictlyAscending(Positions(values))
            && forall row :: row in values <==>
                 row.Id() in db.table && db.table[row.Id()] == row && start <= row.start < end && row.quality != Invalid
  {
    var listing := Listing(db.table, start, end);
    var rows := RowsIn(db.table, start, end);
    forall i | 0 <= i < |rows| ensures Positions(rows)[i] == listing[i] {
      assert listing[i] in listing;
      KeyAtPosition(listing[i]);
    }
    forall i | 0 <= i < |rows| ensures start <= rows[i].start && rows[i].end <= end + QUARTER {
      assert listing[i] in listing;
    }
    VisibleInOrder(rows, start, end + QUARTER);
    forall row ensures row in Visible(rows) <==>
      row.Id() in db.table && db.table[row.Id()] == row && start <= row.start < end && row.quality != Invalid
    {
      VisibleMembers(rows, row);
      ListedRow(db.table, start, end, row);
    }
  }

  lemma ListedRow(table: Table, start: int, end: int, row: Row)
    requires SoundTable(table)
    ensures row in RowsIn(table, start, end) <==>
            row.Id() in table && table[row.Id()] == row && start <= row.start < end
  {
    var listing := Listing(table, start, end);
    var rows := RowsIn(table, start, end);
    if row in rows {
      var i :| 0 <= i < |rows| && rows[i] == row;
      assert listing[i] in listing;
    }
    if row.Id() in table && table[row.Id()] == row && start <= row.start < end {
      PositionIsOrder(row.Id(), row.Id());
      assert Position(row.Id()) in PositionsIn(table, start, end);
      assert Position(row.Id()) in listing;
      var i :| 0 <= i < |listing| && listing[i] == Position(row.Id());
      assert rows[i] == row;
    }
  }
}
