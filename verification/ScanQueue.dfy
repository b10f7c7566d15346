/**
 * One enqueue, and one run of a worker, from start to end with nobody in between:
 * src/queue/scan-queue.service.ts and src/queue/scan.processor.ts. What happens when
 * others are in between is the matter of ScanProtocol.
 */
module ScanQueue {
  import opened Seqs
  import opened Findings
  import opened ScanStore
  import opened ScanProtocol

  /** The scan of the sha with the highest attempt. */
  method FindLatest(db: Tables, sha: string) returns (latest: Option<ScanRow>, at: ScanId)
    ensures IsLatestForSha(db.State(), sha, latest)
    ensures latest.Some? ==> at in db.scans && db.scans[at] == latest.value
  {
    latest, at := None, 0;
    var todo := db.scans.Keys;
    while todo != {}
      invariant todo <= db.scans.Keys
      invariant LatestOf(db.scans, db.scans.Keys - todo, sha, latest)
      invariant latest.Some? ==> at in db.scans && db.scans[at] == latest.value
      decreases |todo|
    {
      EmptyIfNone(todo);
      var id :| id in todo;
      var row := db.scans[id];
      if row.sha == sha && (latest.None? || row.attempt > latest.value.attempt) {
        latest, at := Some(row), id;
      }
      todo := todo - {id};
    }
  }

  ghost predicate LatestOf(scans: map<ScanId, ScanRow>, seen: set<ScanId>, sha: string, latest: Option<ScanRow>) {
    match latest
    case None => forall id :: id in scans && id in seen ==> scans[id].sha != sha
    case Some(row) =>
      && row.sha == sha
      && forall id :: id in scans && id in seen && scans[id].sha == sha ==> scans[id].attempt <= row.attempt
  }

  lemma EmptyIfNone(s: set<ScanId>)
    ensures (forall id :: id !in s) ==> s == {}
  {
    if forall id :: id !in s {
      assert s == {};
    }
  }

  datatype EnqueueResult = Deduplicated(scan: ScanId) | Enqueued(scan: ScanId) | NotQueued(scan: ScanId)

  /** What is left of the queue when the waiting jobs of superseded scans are taken out. */
  function WithoutWaiting(queue: map<ScanId, Job>, ids: set<ScanId>): map<ScanId, Job> {
    map id | id in queue && !(id in ids && queue[id].state in {Waiting, Delayed}) :: queue[id]
  }

  /** Cancels what is in flight: waiting jobs are removed, every scan in flight is superseded. */
  method CancelPending(db: Tables, queue0: map<ScanId, Job>) returns (queue: map<ScanId, Job>, ghost ids: set<ScanId>)
    requires db.Valid()
    modifies db
    ensures db.Valid() && Moves(old(db.State()), db.State())
    ensures forall id :: id in ids <==> InFlight(old(db.State()), id)
    ensures forall id :: !InFlight(db.State(), id)
    ensures db.State() == Supersede(old(db.State()), ids) && queue == WithoutWaiting(queue0, ids)
  {
    var inFlight := db.ListInFlight();
    ids := inFlight;
    queue := queue0;
    var todo := inFlight;
    while todo != {}
      invariant db.Valid() && db.State() == old(db.State())
      invariant todo <= inFlight && queue == WithoutWaiting(queue0, inFlight - todo)
      decreases |todo|
    {
      EmptyIfNone(todo);
      var id :| id in todo;
      if id in queue && queue[id].state in {Waiting, Delayed} {
        queue := queue - {id};
      }
      todo := todo - {id};
    }
    db.SupersedeScans(inFlight);
  }

  /**
   * One request to scan. A webhook for a sha whose latest scan still stands is answered with that
   * scan and changes nothing. Otherwise whatever was in flight is superseded, and the new scan is
   * the only one in flight; or, when the queue refuses the job, it has failed and none is.
   */
  method EnqueueScan(
    db: Tables, queue0: map<ScanId, Job>, id: ScanId, sha: string, asked: Trigger, ruleset: string, tiers: seq<string>,
    queueIsUp: bool)
    returns (result: EnqueueResult, queue: map<ScanId, Job>, ghost latest: Option<ScanRow>)
    requires db.Valid() && id !in db.scans
    modifies db
    ensures db.Valid() && Moves(old(db.State()), db.State())
    ensures IsLatestForSha(old(db.State()), sha, latest)
    ensures result.Deduplicated? <==> IsDuplicate(asked, latest, ruleset, tiers)
    ensures result.Deduplicated? ==> db.State() == old(db.State()) && queue == queue0 &&
                                     result.scan in db.scans && Some(db.scans[result.scan]) == latest
    ensures !result.Deduplicated? ==> result.scan == id && id in db.scans
    ensures result.Enqueued? ==> queueIsUp && id in queue && queue[id] == Job(Waiting, 0) &&
                                 db.scans[id] == NewRow(MakeRequest(sha, asked, latest, ruleset, tiers))
    ensures result.Enqueued? ==> forall k :: InFlight(db.State(), k) <==> k == id
    ensures result.NotQueued? ==> !queueIsUp && db.scans[id].status == Failed
    ensures result.NotQueued? ==> forall k :: !InFlight(db.State(), k)
  {
    var latestForSha, at := FindLatest(db, sha);
    latest := latestForSha;
    if IsDuplicate(asked, latestForSha, ruleset, tiers) {
      MovesReflexive(db.State());
      return Deduplicated(at), queue0, latest;
    }
    var row := NewRow(MakeRequest(sha, asked, latestForSha, ruleset, tiers));
    NextAttemptIsNew(db.State(), sha, latestForSha, row);
    ghost var before := db.State();
    ghost var ids;
    queue, ids := CancelPending(db, queue0);
    ghost var cleared := db.State();
    SupersedeKeepsAttempts(before, cleared, row);
    var created := db.CreateScan(id, row);
    ghost var inserted := db.State();
    MovesTrans(before, cleared, inserted);
    if queueIsUp {
      queue := queue[id := Job(Waiting, 0)];
      return Enqueued(id), queue, latest;
    }
    db.FailUnqueuedScan(id);
    MovesTrans(before, inserted, db.State());
    return NotQueued(id), queue, latest;
  }

  lemma NextAttemptIsNew(db: Db, sha: string, latest: Option<ScanRow>, row: ScanRow)
    requires IsLatestForSha(db, sha, latest)
    requires row.sha == sha && row.attempt == (if latest.Some? then latest.value.attempt else 0) + 1
    ensures !Taken(db, row)
  {
  }

  lemma SupersedeKeepsAttempts(before: Db, after: Db, row: ScanRow)
    requires Moves(before, after) && after.scans.Keys == before.scans.Keys && !Taken(before, row)
    ensures !Taken(after, row)
  {
    forall id | id in after.scans
      ensures !SameAttempt(after.scans[id], row)
    {
      assert id in before.scans.Keys && RowMoves(before.scans[id], after.scans[id]);
      assert !SameAttempt(before.scans[id], row);
    }
  }

  lemma MovesTrans(a: Db, b: Db, c: Db)
    requires Moves(a, b) && Moves(b, c)
    ensures Moves(a, c)
  {
    forall id | id in a.scans
      ensures id in c.scans && RowMoves(a.scans[id], c.scans[id])
    {
      RowMovesTrans(a.scans[id], b.scans[id], c.scans[id]);
    }
    forall id
      ensures Batches(a, id) <= Batches(c, id)
    {
      assert Batches(a, id) <= Batches(b, id) && Batches(b, id) <= Batches(c, id);
    }
  }

  // ------------------------------------------------------------------ one run of a worker

  datatype Outcome = Skipped | Thrown | Committed

  /** One run of the job: it skips a scan that is not in flight, leaves a crashed one RUNNING for the
      retry, and otherwise commits its rows, once. */
  method Process(db: Tables, id: ScanId, rows: seq<Row>, crashes: bool) returns (outcome: Outcome)
    requires db.Valid()
    modifies db
    ensures db.Valid() && Moves(old(db.State()), db.State())
    ensures outcome.Skipped? <==> !InFlight(old(db.State()), id)
    ensures outcome.Skipped? ==> db.State() == old(db.State())
    ensures outcome.Thrown? ==> crashes && id in db.scans && db.scans[id].status == Running && db.latest == old(db.latest)
    ensures outcome.Committed? ==> !crashes && id in db.scans && db.scans[id].status == Done && db.latest == Some(id)
    ensures Batches(db.State(), id) == Batches(old(db.State()), id) + if outcome.Committed? then [rows] else []
  {
    ghost var before := db.State();
    var claimed := db.ClaimScan(id);
    if claimed == 0 {
      return Skipped;
    }
    if crashes {
      return Thrown;
    }
    ghost var between := db.State();
    var committed := db.CommitScan(id, rows);
    MovesTrans(before, between, db.State());
    return Committed;
  }
}
