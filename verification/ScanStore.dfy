/** The scan rows of one pull request and every atomic change made to them:
    src/queue/scan.processor.ts and src/queue/scan-queue.service.ts. */
module ScanStore {
  import opened Seqs
  import opened Findings

  datatype ScanStatus = Queued | Running | Done | Failed | Superseded

  datatype Trigger = Webhook | Manual | Rescan

  /** A scan row. `asked` is the trigger the enqueue was called with, `trigger` the one it stored. */
  datatype ScanRow = ScanRow(
    sha: string,
    attempt: nat,
    status: ScanStatus,
    trigger: Trigger,
    asked: Trigger,
    ruleset: string,
    tiers: seq<string>)

  /** Scan rows, the batches of static finding rows committed for each, and the pull request's
      latestScanId. */
  datatype Db = Db(scans: map<ScanId, ScanRow>, batches: map<ScanId, seq<seq<Row>>>, latest: Option<ScanId>)

  predicate IsInFlight(status: ScanStatus) {
    status == Queued || status == Running
  }

  predicate InFlight(db: Db, id: ScanId) {
    id in db.scans && IsInFlight(db.scans[id].status)
  }

  function Batches(db: Db, id: ScanId): seq<seq<Row>> {
    if id in db.batches then db.batches[id] else []
  }

  function SetStatus(db: Db, id: ScanId, status: ScanStatus): Db
    requires id in db.scans
  {
    db.(scans := db.scans[id := db.scans[id].(status := status)])
  }

  // ----- the conditional updates -----

  /** Claim: QUEUED or RUNNING becomes RUNNING. */
  function Claim(db: Db, id: ScanId): Db {
    if InFlight(db, id) then SetStatus(db, id, Running) else db
  }

  predicate CanCommit(db: Db, id: ScanId) {
    id in db.scans && db.scans[id].status == Running
  }

  /** Commit: only a scan still RUNNING becomes DONE, gets its rows and moves latestScanId. */
  function Commit(db: Db, id: ScanId, rows: seq<Row>): Db {
    if CanCommit(db, id)
    then SetStatus(db, id, Done).(batches := db.batches[id := Batches(db, id) + [rows]], latest := Some(id))
    else db
  }

  /** Final failure: only a scan in flight becomes FAILED and moves latestScanId. */
  function Fail(db: Db, id: ScanId): Db {
    if InFlight(db, id) then SetStatus(db, id, Failed).(latest := Some(id)) else db
  }

  function SupersededRow(row: ScanRow): ScanRow {
    if IsInFlight(row.status) then row.(status := Superseded) else row
  }

  /** Every listed scan still in flight becomes SUPERSEDED. */
  function Supersede(db: Db, ids: set<ScanId>): Db {
    db.(scans := map id | id in db.scans :: if id in ids then SupersededRow(db.scans[id]) else db.scans[id])
  }

  function Create(db: Db, id: ScanId, row: ScanRow): Db {
    db.(scans := db.scans[id := row])
  }

  /** The unconditional update after a failed queue add. */
  function FailUnqueued(db: Db, id: ScanId): Db {
    if id in db.scans then SetStatus(db, id, Failed) else db
  }

  // ----- what the updates keep -----

  /** Rows are there exactly for DONE scans, written by exactly one commit, and latestScanId only
      names a DONE or FAILED scan. */
  ghost predicate DbOk(db: Db) {
    && (forall id :: |Batches(db, id)| == if id in db.scans && db.scans[id].status == Done then 1 else 0)
    && (db.latest.Some? ==> db.latest.value in db.scans && IsSettled(db.scans[db.latest.value].status))
  }

  predicate IsSettled(status: ScanStatus) {
    status == Done || status == Failed
  }

  /** How one row may change: it keeps what it is about; once out of flight it never returns, nor
      becomes DONE; DONE and FAILED stay. */
  predicate RowMoves(before: ScanRow, after: ScanRow) {
    && after == before.(status := after.status)
    && (!IsInFlight(before.status) ==> !IsInFlight(after.status) && (after.status == Done ==> before.status == Done))
    && (IsSettled(before.status) ==> after.status == before.status)
  }

  /** Every scan moves forward, and no committed batch is lost. */
  ghost predicate Moves(before: Db, after: Db) {
    && (forall id :: id in before.scans ==> id in after.scans && RowMoves(before.scans[id], after.scans[id]))
    && (forall id :: Batches(before, id) <= Batches(after, id))
  }

  lemma RowMovesTrans(a: ScanRow, b: ScanRow, c: ScanRow)
    requires RowMoves(a, b) && RowMoves(b, c)
    ensures RowMoves(a, c)
  {
  }

  lemma ClaimKeeps(db: Db, id: ScanId)
    requires DbOk(db)
    ensures DbOk(Claim(db, id)) && Moves(db, Claim(db, id))
  {
  }

  lemma CommitKeeps(db: Db, id: ScanId, rows: seq<Row>)
    requires DbOk(db)
    ensures DbOk(Commit(db, id, rows)) && Moves(db, Commit(db, id, rows))
  {
  }

  lemma FailKeeps(db: Db, id: ScanId)
    requires DbOk(db)
    ensures DbOk(Fail(db, id)) && Moves(db, Fail(db, id))
  {
  }

  lemma SupersedeKeeps(db: Db, ids: set<ScanId>)
    requires DbOk(db)
    ensures DbOk(Supersede(db, ids)) && Moves(db, Supersede(db, ids))
  {
    forall id | id in db.scans
      ensures RowMoves(db.scans[id], Supersede(db, ids).scans[id])
      ensures Supersede(db, ids).scans[id].status == Done <==> db.scans[id].status == Done
    {
    }
  }

  lemma CreateKeeps(db: Db, id: ScanId, row: ScanRow)
    requires DbOk(db) && id !in db.scans && row.status == Queued
    ensures DbOk(Create(db, id, row)) && Moves(db, Create(db, id, row))
  {
  }

  /** The unconditional update keeps all this exactly when the scan is not DONE. */
  lemma FailUnqueuedKeepsIff(db: Db, id: ScanId)
    requires DbOk(db) && id in db.scans
    ensures (DbOk(FailUnqueued(db, id)) && Moves(db, FailUnqueued(db, id))) <==> db.scans[id].status != Done
  {
    var after := FailUnqueued(db, id);
    if db.scans[id].status == Done {
      assert !RowMoves(db.scans[id], after.scans[id]);
    }
  }

  lemma MovesReflexive(db: Db)
    ensures Moves(db, db)
  {
  }

  // ----- the tables -----

  /** The unique constraint on (sha, attempt). */
  ghost predicate UniqueAttempts(db: Db) {
    forall a, b :: a in db.scans && b in db.scans && SameAttempt(db.scans[a], db.scans[b]) ==> a == b
  }

  predicate SameAttempt(a: ScanRow, b: ScanRow) {
    a.sha == b.sha && a.attempt == b.attempt
  }

  predicate Taken(db: Db, row: ScanRow) {
    exists id :: id in db.scans && SameAttempt(db.scans[id], row)
  }

  /** Only statuses change. */
  ghost predicate SameScans(before: Db, after: Db) {
    && after.scans.Keys == before.scans.Keys
    && forall id :: id in before.scans ==> SameAttempt(before.scans[id], after.scans[id])
  }

  lemma SameScansStayUnique(before: Db, after: Db)
    requires SameScans(before, after) && UniqueAttempts(before)
    ensures UniqueAttempts(after)
  {
    forall a, b | a in after.scans && b in after.scans && SameAttempt(after.scans[a], after.scans[b])
      ensures a == b
    {
      assert SameAttempt(before.scans[a], after.scans[a]) && SameAttempt(before.scans[b], after.scans[b]);
    }
  }

  /** The tables, updated in place. Each method is one statement or one transaction, and each keeps the
      invariant and only moves scans forward; the unconditional update does so exactly when the scan is
      not DONE. */
  class Tables {
    var scans: map<ScanId, ScanRow>
    var batches: map<ScanId, seq<seq<Row>>>
    var latest: Option<ScanId>

    ghost function State(): Db
      reads this
    {
      Db(scans, batches, latest)
    }

    ghost predicate Valid()
      reads this
    {
      DbOk(State()) && UniqueAttempts(State())
    }

    constructor ()
      ensures Valid() && State() == Db(map[], map[], None)
    {
      scans, batches, latest := map[], map[], None;
    }

    method ClaimScan(id: ScanId) returns (count: nat)
      requires Valid()
      modifies this
      ensures Valid() && Moves(old(State()), State()) && State() == Claim(old(State()), id)
      ensures count == if InFlight(old(State()), id) then 1 else 0
      ensures count == 1 ==> id in scans && scans[id].status == Running
    {
      ClaimKeeps(State(), id);
      SameScansStayUnique(State(), Claim(State(), id));
      count := 0;
      if id in scans && (scans[id].status == Queued || scans[id].status == Running) {
        scans := scans[id := scans[id].(status := Running)];
        count := 1;
      }
    }

    method CommitScan(id: ScanId, rows: seq<Row>) returns (committed: bool)
      requires Valid()
      modifies this
      ensures Valid() && Moves(old(State()), State()) && State() == Commit(old(State()), id, rows)
      ensures committed == CanCommit(old(State()), id)
      ensures committed ==> Batches(State(), id) == [rows] && latest == Some(id)
    {
      CommitKeeps(State(), id, rows);
      SameScansStayUnique(State(), Commit(State(), id, rows));
      if id !in scans || scans[id].status != Running {
        return false;
      }
      scans := scans[id := scans[id].(status := Done)];
      var earlier := if id in batches then batches[id] else [];
      batches := batches[id := earlier + [rows]];
      latest := Some(id);
      return true;
    }

    method FailScan(id: ScanId) returns (finalized: bool)
      requires Valid()
      modifies this
      ensures Valid() && Moves(old(State()), State()) && State() == Fail(old(State()), id)
      ensures finalized == InFlight(old(State()), id)
      ensures !InFlight(State(), id) && batches == old(batches)
    {
      FailKeeps(State(), id);
      SameScansStayUnique(State(), Fail(State(), id));
      if id !in scans || !(scans[id].status == Queued || scans[id].status == Running) {
        return false;
      }
      scans := scans[id := scans[id].(status := Failed)];
      latest := Some(id);
      return true;
    }

    method ListInFlight() returns (ids: set<ScanId>)
      ensures forall id :: id in ids <==> InFlight(State(), id)
    {
      ids := set id | id in scans && (scans[id].status == Queued || scans[id].status == Running);
    }

    /** Afterwards none of the listed scans is in flight; every other row, and every result, is as it was. */
    method SupersedeScans(ids: set<ScanId>)
      requires Valid()
      modifies this
      ensures Valid() && Moves(old(State()), State()) && State() == Supersede(old(State()), ids)
      ensures forall id :: InFlight(State(), id) <==> InFlight(old(State()), id) && id !in ids
      ensures forall id :: id in scans && (id !in ids || !InFlight(old(State()), id)) ==>
                             id in old(scans) && scans[id] == old(scans)[id]
      ensures batches == old(batches) && latest == old(latest)
    {
      SupersedeKeeps(State(), ids);
      SameScansStayUnique(State(), Supersede(State(), ids));
      scans := map id | id in scans :: if id in ids then SupersededRow(scans[id]) else scans[id];
    }

    /** A new scan, unless its attempt of that sha is there already. */
    method CreateScan(id: ScanId, row: ScanRow) returns (created: bool)
      requires Valid() && id !in scans && row.status == Queued
      modifies this
      ensures Valid() && Moves(old(State()), State())
      ensures created <==> !Taken(old(State()), row)
      ensures State() == if created then Create(old(State()), id, row) else old(State())
      ensures forall k :: InFlight(State(), k) <==> InFlight(old(State()), k) || (created && k == id)
    {
      if exists k :: k in scans && SameAttempt(scans[k], row) {
        MovesReflexive(State());
        return false;
      }
      CreateKeeps(State(), id, row);
      scans := scans[id := row];
      return true;
    }

    /** Keeps the invariant, and moves scans forward, exactly when the scan is not DONE. */
    method FailUnqueuedScan(id: ScanId)
      requires Valid()
      modifies this
      ensures State() == FailUnqueued(old(State()), id)
      ensures Valid() && Moves(old(State()), State()) <==> id !in old(scans) || old(scans)[id].status != Done
      ensures !InFlight(State(), id) && batches == old(batches) && latest == old(latest)
    {
      MovesReflexive(State());
      SameScansStayUnique(State(), FailUnqueued(State(), id));
      if id in scans {
        FailUnqueuedKeepsIff(State(), id);
        scans := scans[id := scans[id].(status := Failed)];
      }
    }
  }
}
