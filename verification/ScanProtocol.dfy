/** The scan job protocol of one pull request: enqueue calls one after the other, standalone
    cancellations and any number of workers interleaved freely, one database step at a time.
    src/queue/scan-queue.service.ts and src/queue/scan.processor.ts. */
module ScanProtocol {
  import opened Seqs
  import opened Findings
  import opened ScanStore

  type WorkerId = int

  const MAX_ATTEMPTS := 3

  /** "Prioritized" is not told apart from Waiting: a worker may pick up either, a cancellation removes both. */
  datatype JobState = Waiting | Delayed | Active | Completed | Dead

  datatype Job = Job(state: JobState, attemptsMade: nat)

  /** Where a worker stands in `process` or `onFailed`, and for which scan. */
  datatype Worker =
    | Idle
    | Picked(scan: ScanId)
    | Working(scan: ScanId)
    | Finishing(scan: ScanId)
    | Finalizing(scan: ScanId)

  /** The row an enqueue is about to write. */
  datatype Request = Request(sha: string, attempt: nat, trigger: Trigger, asked: Trigger, ruleset: string, tiers: seq<string>)

  /** Where the enqueue call stands. */
  datatype Enqueue =
    | NoEnqueue
    | ReadLatest(sha: string, asked: Trigger, ruleset: string, latest: Option<ScanRow>)
    | Chosen(request: Request)
    | Listed(request: Request, ids: set<ScanId>)
    | Cleared(request: Request)
    | Created(unqueued: ScanId)
    | AddFailed(unqueued: ScanId)

  datatype System = System(db: Db, queue: map<ScanId, Job>, workers: map<WorkerId, Worker>, enqueue: Enqueue)

  const EMPTY := System(Db(map[], map[], None), map[], map[], NoEnqueue)

  function WorkerAt(s: System, w: WorkerId): Worker {
    if w in s.workers then s.workers[w] else Idle
  }

  // ----- what the enqueue decides -----

  /** Equally many tiers, and each of the first list is in the second. The tiers of the second are not
      looked up in the first, so with duplicates the answer may depend on the order: ["s", "s"] passes
      against ["s", "ai"], but not the other way round. */
  predicate SameTiers(a: seq<string>, b: seq<string>) {
    |a| == |b| && forall k :: 0 <= k < |a| ==> a[k] in b
  }

  predicate IsStale(latest: ScanRow, ruleset: string, tiers: seq<string>) {
    latest.status == Done && (latest.ruleset != ruleset || !SameTiers(latest.tiers, tiers))
  }

  predicate IsDuplicate(asked: Trigger, latest: Option<ScanRow>, ruleset: string, tiers: seq<string>) {
    && asked == Webhook && latest.Some?
    && latest.value.status in {Queued, Running, Done}
    && !IsStale(latest.value, ruleset, tiers)
  }

  function MakeRequest(sha: string, asked: Trigger, latest: Option<ScanRow>, ruleset: string, tiers: seq<string>): Request {
    Request(sha,
            (if latest.Some? then latest.value.attempt else 0) + 1,
            if asked == Webhook && latest.Some? && IsStale(latest.value, ruleset, tiers) then Rescan else asked,
            asked, ruleset, tiers)
  }

  function NewRow(r: Request): ScanRow {
    ScanRow(r.sha, r.attempt, Queued, r.trigger, r.asked, r.ruleset, r.tiers)
  }

  /** The scan of this sha with the highest attempt. */
  ghost predicate IsLatestForSha(db: Db, sha: string, latest: Option<ScanRow>) {
    match latest
    case None => forall id :: id in db.scans ==> db.scans[id].sha != sha
    case Some(row) =>
      && (exists id :: id in db.scans && db.scans[id] == row)
      && row.sha == sha
      && forall id :: id in db.scans && db.scans[id].sha == sha ==> db.scans[id].attempt <= row.attempt
  }

  /** The unique constraint on (repository, pull, sha, attempt). */
  predicate Conflicts(db: Db, r: Request) {
    Taken(db, NewRow(r))
  }

  // ----- steps -----

  datatype Step =
    | StartEnqueue(sha: string, asked: Trigger, ruleset: string, latest: Option<ScanRow>)
    | Decide(tiers: seq<string>)
    | ListPending
    | RemoveJob(id: ScanId)
    | SupersedeListed
    | Insert(id: ScanId)
    | AddJob
    | AddFails(leavesJob: bool)
    | MarkUnqueued
    | Abandon
    | CancelElsewhere(ids: set<ScanId>)
    | Pick(w: WorkerId, id: ScanId)
    | ClaimIt(w: WorkerId)
    | CommitIt(w: WorkerId, rows: seq<Row>)
    | Complete(w: WorkerId)
    | Throw(w: WorkerId, unrecoverable: bool)
    | Finalize(w: WorkerId)
    | Vanish(w: WorkerId)
    | StalledOut(w: WorkerId, id: ScanId)

  /** One step of the enqueue call, or of a cancellation elsewhere. */
  ghost predicate EnqueueStep(s: System, step: Step, s': System) {
    match step
    case StartEnqueue(sha, asked, ruleset, latest) =>
      s.enqueue.NoEnqueue? && IsLatestForSha(s.db, sha, latest)
      && s' == s.(enqueue := ReadLatest(sha, asked, ruleset, latest))
    case Decide(tiers) =>
      s.enqueue.ReadLatest?
      && var e := s.enqueue;
         s' == s.(enqueue := if IsDuplicate(e.asked, e.latest, e.ruleset, tiers) then NoEnqueue
                             else Chosen(MakeRequest(e.sha, e.asked, e.latest, e.ruleset, tiers)))
    case ListPending =>
      s.enqueue.Chosen?
      && s' == s.(enqueue := Listed(s.enqueue.request, set id | id in s.db.scans && InFlight(s.db, id)))
    case RemoveJob(id) =>
      s.enqueue.Listed? && id in s.enqueue.ids && id in s.queue && s.queue[id].state in {Waiting, Delayed}
      && s' == s.(queue := s.queue - {id})
    case SupersedeListed =>
      s.enqueue.Listed?
      && s' == s.(db := Supersede(s.db, s.enqueue.ids), enqueue := Cleared(s.enqueue.request))
    case Insert(id) =>
      s.enqueue.Cleared? && id !in s.db.scans
      && s' == if Conflicts(s.db, s.enqueue.request) then s.(enqueue := NoEnqueue)
               else s.(db := Create(s.db, id, NewRow(s.enqueue.request)), enqueue := Created(id))
    case AddJob =>
      s.enqueue.Created?
      && s' == s.(queue := s.queue[s.enqueue.unqueued := Job(Waiting, 0)], enqueue := NoEnqueue)
    case AddFails(leavesJob) =>
      s.enqueue.Created?
      && s' == s.(queue := if leavesJob then s.queue[s.enqueue.unqueued := Job(Waiting, 0)] else s.queue,
                  enqueue := AddFailed(s.enqueue.unqueued))
    case MarkUnqueued =>
      s.enqueue.AddFailed?
      && s' == s.(db := FailUnqueued(s.db, s.enqueue.unqueued), enqueue := NoEnqueue)
    case Abandon => s' == s.(enqueue := NoEnqueue)
    case CancelElsewhere(ids) => s' == s.(db := Supersede(s.db, ids))
    case _ => false
  }

  function SetWorker(s: System, w: WorkerId, worker: Worker): System {
    s.(workers := s.workers[w := worker])
  }

  function SetJob(s: System, id: ScanId, state: JobState, attemptsMade: nat): System {
    s.(queue := s.queue[id := Job(state, attemptsMade)])
  }

  function AttemptsMade(s: System, id: ScanId): nat {
    if id in s.queue then s.queue[id].attemptsMade else 0
  }

  /** One step of a worker. A waiting, delayed or stalled job may be picked; a stalled one by a
      second worker while the first is still at it. */
  ghost predicate WorkerStep(s: System, step: Step, s': System) {
    match step
    case Pick(w, id) =>
      WorkerAt(s, w).Idle? && id in s.queue && s.queue[id].state in {Waiting, Delayed, Active}
      && s' == SetWorker(SetJob(s, id, Active, s.queue[id].attemptsMade), w, Picked(id))
    case ClaimIt(w) =>
      WorkerAt(s, w).Picked?
      && var id := WorkerAt(s, w).scan;
         s' == if InFlight(s.db, id) then SetWorker(s, w, Working(id)).(db := Claim(s.db, id))
               else SetWorker(SetJob(s, id, Completed, AttemptsMade(s, id)), w, Idle)
    case CommitIt(w, rows) =>
      WorkerAt(s, w).Working?
      && var id := WorkerAt(s, w).scan;
         s' == if CanCommit(s.db, id) then SetWorker(s, w, Finishing(id)).(db := Commit(s.db, id, rows))
               else SetWorker(SetJob(s, id, Completed, AttemptsMade(s, id)), w, Idle)
    case Complete(w) =>
      WorkerAt(s, w).Finishing?
      && s' == SetWorker(SetJob(s, WorkerAt(s, w).scan, Completed, AttemptsMade(s, WorkerAt(s, w).scan)), w, Idle)
    case Throw(w, unrecoverable) =>
      (WorkerAt(s, w).Picked? || WorkerAt(s, w).Working? || WorkerAt(s, w).Finishing?)
      && var id := WorkerAt(s, w).scan;
         var made := AttemptsMade(s, id) + 1;
         s' == if unrecoverable || made >= MAX_ATTEMPTS then SetWorker(SetJob(s, id, Dead, made), w, Finalizing(id))
               else SetWorker(SetJob(s, id, Delayed, made), w, Idle)
    case Finalize(w) =>
      WorkerAt(s, w).Finalizing?
      && s' == SetWorker(s, w, Idle).(db := Fail(s.db, WorkerAt(s, w).scan))
    case Vanish(w) => s' == SetWorker(s, w, Idle)
    case StalledOut(w, id) =>
      WorkerAt(s, w).Idle? && id in s.queue && s.queue[id].state == Active
      && s' == SetWorker(SetJob(s, id, Dead, s.queue[id].attemptsMade), w, Finalizing(id))
    case _ => false
  }

  ghost predicate Next(s: System, step: Step, s': System) {
    EnqueueStep(s, step, s') || WorkerStep(s, step, s')
  }

  /** A failed queue add leaves no job behind. */
  predicate CleanAdd(step: Step) {
    step.AddFails? ==> !step.leavesJob
  }

  // ----- one scan in flight -----

  ghost predicate AtMostOneInFlight(db: Db) {
    forall a, b :: InFlight(db, a) && InFlight(db, b) ==> a == b
  }

  /** What is in flight, seen from where the enqueue stands. */
  ghost predicate FlightOk(s: System) {
    && AtMostOneInFlight(s.db)
    && (s.enqueue.Listed? ==> forall id :: InFlight(s.db, id) ==> id in s.enqueue.ids)
    && (s.enqueue.Cleared? ==> forall id :: !InFlight(s.db, id))
  }

  // ----- attempts -----

  ghost predicate AttemptsOk(db: Db) {
    && (forall id :: id in db.scans ==> db.scans[id].attempt >= 1)
    && UniqueAttempts(db)
    && (forall a :: a in db.scans && db.scans[a].attempt > 1 ==> HasPrevious(db, db.scans[a].sha, db.scans[a].attempt))
  }

  ghost predicate HasPrevious(db: Db, sha: string, attempt: nat) {
    exists b :: b in db.scans && db.scans[b].sha == sha && db.scans[b].attempt == attempt - 1
  }

  /** A webhook may start another attempt after this one. */
  predicate AllowsNext(row: ScanRow, ruleset: string, tiers: seq<string>) {
    row.status == Failed || row.status == Superseded || IsStale(row, ruleset, tiers)
  }

  /** Every attempt a webhook added came after one it was allowed to follow. */
  ghost predicate FollowUpsOk(db: Db) {
    forall a, b :: a in db.scans && b in db.scans && IsFollowUp(db.scans[a], db.scans[b]) ==>
      AllowsNext(db.scans[a], db.scans[b].ruleset, db.scans[b].tiers)
  }

  predicate IsFollowUp(before: ScanRow, after: ScanRow) {
    before.sha == after.sha && after.attempt == before.attempt + 1 && after.asked == Webhook
  }

  /** The request is for the next attempt of its sha. */
  ghost predicate RequestOk(db: Db, r: Request) {
    && (forall id :: id in db.scans && db.scans[id].sha == r.sha ==> db.scans[id].attempt < r.attempt)
    && r.attempt >= 1
    && (r.attempt > 1 ==> HasPrevious(db, r.sha, r.attempt))
    && (forall id :: id in db.scans && IsFollowUp(db.scans[id], NewRow(r)) ==> AllowsNext(db.scans[id], r.ruleset, r.tiers))
  }

  /** What the enqueue read is still the latest of its sha, give or take its status. */
  ghost predicate LatestOk(db: Db, sha: string, latest: Option<ScanRow>) {
    match latest
    case None => forall id :: id in db.scans ==> db.scans[id].sha != sha
    case Some(row) =>
      && row.sha == sha
      && (exists id :: id in db.scans && RowMoves(row, db.scans[id]))
      && forall id :: id in db.scans && db.scans[id].sha == sha ==> db.scans[id].attempt <= row.attempt
  }

  function RequestOf(e: Enqueue): Option<Request> {
    match e
    case Chosen(r) => Some(r)
    case Listed(r, _) => Some(r)
    case Cleared(r) => Some(r)
    case _ => None
  }

  ghost predicate AskedOk(s: System) {
    && AttemptsOk(s.db) && FollowUpsOk(s.db)
    && (s.enqueue.ReadLatest? ==> LatestOk(s.db, s.enqueue.sha, s.enqueue.latest))
    && (RequestOf(s.enqueue).Some? ==> RequestOk(s.db, RequestOf(s.enqueue).value))
  }

  // ----- scans without a job -----

  function Unqueued(e: Enqueue): Option<ScanId> {
    match e
    case Created(id) => Some(id)
    case AddFailed(id) => Some(id)
    case _ => None
  }

  function ScanOf(w: Worker): Option<ScanId> {
    if w.Idle? then None else Some(w.scan)
  }

  /** Jobs and workers are about scans that exist; no job and no worker is about the scan the
      enqueue has created and not queued, which is therefore QUEUED or SUPERSEDED. */
  ghost predicate JobsOk(s: System) {
    && (forall id :: id in s.queue ==> id in s.db.scans && Unqueued(s.enqueue) != Some(id))
    && (forall w :: w in s.workers && ScanOf(s.workers[w]).Some? ==>
          ScanOf(s.workers[w]).value in s.db.scans && Unqueued(s.enqueue) != ScanOf(s.workers[w]))
    && (Unqueued(s.enqueue).Some? ==>
          var id := Unqueued(s.enqueue).value;
          id in s.db.scans && (s.db.scans[id].status == Queued || s.db.scans[id].status == Superseded))
  }

  ghost predicate Inv(s: System) {
    DbOk(s.db) && FlightOk(s) && AskedOk(s) && JobsOk(s)
  }

  lemma InitOk()
    ensures Inv(EMPTY)
  {
  }

  // ----- the tables -----

  /** Same scans, each moved forward. */
  ghost predicate Advances(before: Db, after: Db) {
    after.scans.Keys == before.scans.Keys && Moves(before, after)
  }

  lemma AdvanceShrinksFlight(before: Db, after: Db)
    requires Advances(before, after)
    ensures forall id :: InFlight(after, id) ==> InFlight(before, id)
  {
    forall id | InFlight(after, id)
      ensures InFlight(before, id)
    {
      assert id in before.scans.Keys;
      assert RowMoves(before.scans[id], after.scans[id]);
    }
  }

  lemma WorkerStepAdvances(s: System, step: Step, s': System)
    requires DbOk(s.db) && WorkerStep(s, step, s')
    ensures DbOk(s'.db) && Advances(s.db, s'.db) && s'.enqueue == s.enqueue
  {
    match step
    case ClaimIt(w) => ClaimKeeps(s.db, WorkerAt(s, w).scan);
    case CommitIt(w, rows) => CommitKeeps(s.db, WorkerAt(s, w).scan, rows);
    case Finalize(w) => FailKeeps(s.db, WorkerAt(s, w).scan);
    case _ =>
  }

  lemma EnqueueStepAdvances(s: System, step: Step, s': System)
    requires DbOk(s.db) && JobsOk(s) && EnqueueStep(s, step, s') && !step.Insert?
    ensures DbOk(s'.db) && Advances(s.db, s'.db)
  {
    match step
    case SupersedeListed => SupersedeKeeps(s.db, s.enqueue.ids);
    case CancelElsewhere(ids) => SupersedeKeeps(s.db, ids);
    case MarkUnqueued => FailUnqueuedKeepsIff(s.db, s.enqueue.unqueued);
    case _ =>
  }

  lemma InsertMoves(s: System, step: Step, s': System)
    requires DbOk(s.db) && EnqueueStep(s, step, s') && step.Insert?
    ensures DbOk(s'.db) && Moves(s.db, s'.db)
  {
    CreateKeeps(s.db, step.id, NewRow(s.enqueue.request));
  }

  // ----- flight -----

  lemma EnqueueKeepsFlight(s: System, step: Step, s': System)
    requires Inv(s) && EnqueueStep(s, step, s')
    ensures FlightOk(s')
  {
    if step.Insert? {
      if !Conflicts(s.db, s.enqueue.request) {
        forall a | InFlight(s'.db, a)
          ensures a == step.id
        {
          assert a != step.id ==> InFlight(s.db, a);
        }
      }
    } else {
      EnqueueStepAdvances(s, step, s');
      AdvanceShrinksFlight(s.db, s'.db);
      if step.SupersedeListed? {
        forall id
          ensures !InFlight(s'.db, id)
        {
          assert InFlight(s'.db, id) ==> InFlight(s.db, id);
        }
      }
    }
  }

  lemma WorkerKeepsFlight(s: System, step: Step, s': System)
    requires Inv(s) && WorkerStep(s, step, s')
    ensures FlightOk(s')
  {
    WorkerStepAdvances(s, step, s');
    AdvanceShrinksFlight(s.db, s'.db);
  }

  // ----- attempts -----

  lemma AdvanceKeepsAttempts(before: Db, after: Db)
    requires Advances(before, after) && AttemptsOk(before)
    ensures AttemptsOk(after)
  {
    forall id | id in after.scans
      ensures id in before.scans && RowMoves(before.scans[id], after.scans[id])
    {
      assert id in before.scans.Keys;
    }
    forall a | a in after.scans && after.scans[a].attempt > 1
      ensures HasPrevious(after, after.scans[a].sha, after.scans[a].attempt)
    {
      AdvanceKeepsPrevious(before, after, after.scans[a].sha, after.scans[a].attempt);
    }
  }

  lemma AdvanceKeepsPrevious(before: Db, after: Db, sha: string, attempt: nat)
    requires Moves(before, after) && HasPrevious(before, sha, attempt)
    ensures HasPrevious(after, sha, attempt)
  {
    var b :| b in before.scans && before.scans[b].sha == sha && before.scans[b].attempt == attempt - 1;
    assert RowMoves(before.scans[b], after.scans[b]);
  }

  lemma AllowsNextStays(before: ScanRow, after: ScanRow, ruleset: string, tiers: seq<string>)
    requires RowMoves(before, after) && AllowsNext(before, ruleset, tiers)
    ensures AllowsNext(after, ruleset, tiers)
  {
  }

  lemma AdvanceKeepsFollowUps(before: Db, after: Db)
    requires Advances(before, after) && FollowUpsOk(before)
    ensures FollowUpsOk(after)
  {
    forall a, b | a in after.scans && b in after.scans && IsFollowUp(after.scans[a], after.scans[b])
      ensures AllowsNext(after.scans[a], after.scans[b].ruleset, after.scans[b].tiers)
    {
      assert a in before.scans.Keys && b in before.scans.Keys;
      assert RowMoves(before.scans[a], after.scans[a]) && RowMoves(before.scans[b], after.scans[b]);
      assert IsFollowUp(before.scans[a], before.scans[b]);
      AllowsNextStays(before.scans[a], after.scans[a], after.scans[b].ruleset, after.scans[b].tiers);
    }
  }

  lemma AdvanceKeepsRequest(before: Db, after: Db, r: Request)
    requires Advances(before, after) && RequestOk(before, r)
    ensures RequestOk(after, r)
  {
    forall id | id in after.scans
      ensures id in before.scans && RowMoves(before.scans[id], after.scans[id])
    {
      assert id in before.scans.Keys;
    }
    if r.attempt > 1 {
      AdvanceKeepsPrevious(before, after, r.sha, r.attempt);
    }
    forall id | id in after.scans && IsFollowUp(after.scans[id], NewRow(r))
      ensures AllowsNext(after.scans[id], r.ruleset, r.tiers)
    {
      AllowsNextStays(before.scans[id], after.scans[id], r.ruleset, r.tiers);
    }
  }

  lemma AdvanceKeepsLatest(before: Db, after: Db, sha: string, latest: Option<ScanRow>)
    requires Advances(before, after) && LatestOk(before, sha, latest)
    ensures LatestOk(after, sha, latest)
  {
    forall id | id in after.scans
      ensures id in before.scans && RowMoves(before.scans[id], after.scans[id])
    {
      assert id in before.scans.Keys;
    }
    if latest.Some? {
      var id :| id in before.scans && RowMoves(latest.value, before.scans[id]);
      RowMovesTrans(latest.value, before.scans[id], after.scans[id]);
    }
  }

  lemma AdvanceKeepsAsked(s: System, s': System)
    requires AskedOk(s) && Advances(s.db, s'.db)
    ensures AttemptsOk(s'.db) && FollowUpsOk(s'.db)
    ensures s'.enqueue == s.enqueue ==> AskedOk(s')
    ensures RequestOf(s'.enqueue) == RequestOf(s.enqueue) && !s'.enqueue.ReadLatest? ==> AskedOk(s')
    ensures RequestOf(s'.enqueue).None? && !s'.enqueue.ReadLatest? ==> AskedOk(s')
  {
    AdvanceKeepsAttempts(s.db, s'.db);
    AdvanceKeepsFollowUps(s.db, s'.db);
    if RequestOf(s.enqueue).Some? {
      AdvanceKeepsRequest(s.db, s'.db, RequestOf(s.enqueue).value);
    }
    if s.enqueue.ReadLatest? {
      AdvanceKeepsLatest(s.db, s'.db, s.enqueue.sha, s.enqueue.latest);
    }
  }

  /** A request made from the latest scan of its sha is for the next attempt; a webhook's only when
      the latest scan allows one. */
  lemma DecidedRequestOk(db: Db, sha: string, asked: Trigger, latest: Option<ScanRow>, ruleset: string, tiers: seq<string>)
    requires AttemptsOk(db) && LatestOk(db, sha, latest) && !IsDuplicate(asked, latest, ruleset, tiers)
    ensures RequestOk(db, MakeRequest(sha, asked, latest, ruleset, tiers))
  {
    var r := MakeRequest(sha, asked, latest, ruleset, tiers);
    if latest.Some? {
      var last :| last in db.scans && RowMoves(latest.value, db.scans[last]);
      assert HasPrevious(db, sha, r.attempt);
      forall id | id in db.scans && IsFollowUp(db.scans[id], NewRow(r))
        ensures AllowsNext(db.scans[id], ruleset, tiers)
      {
        assert SameAttempt(db.scans[id], db.scans[last]);
        AllowsNextStays(latest.value, db.scans[last], ruleset, tiers);
      }
    }
  }

  lemma NextAttemptIsFree(db: Db, r: Request)
    requires RequestOk(db, r)
    ensures !Conflicts(db, r)
  {
  }

  lemma InsertKeepsAttempts(db: Db, id: ScanId, r: Request)
    requires AttemptsOk(db) && RequestOk(db, r) && id !in db.scans
    ensures AttemptsOk(Create(db, id, NewRow(r)))
  {
    var after := Create(db, id, NewRow(r));
    forall a | a in after.scans && after.scans[a].attempt > 1
      ensures HasPrevious(after, after.scans[a].sha, after.scans[a].attempt)
    {
      assert HasPrevious(db, after.scans[a].sha, after.scans[a].attempt);
      var b :| b in db.scans && db.scans[b].sha == after.scans[a].sha && db.scans[b].attempt == after.scans[a].attempt - 1;
      assert after.scans[b] == db.scans[b];
    }
  }

  lemma InsertKeepsFollowUps(db: Db, id: ScanId, r: Request)
    requires AttemptsOk(db) && FollowUpsOk(db) && RequestOk(db, r) && id !in db.scans
    ensures FollowUpsOk(Create(db, id, NewRow(r)))
  {
  }

  lemma LatestIsOk(db: Db, sha: string, latest: Option<ScanRow>)
    requires IsLatestForSha(db, sha, latest)
    ensures LatestOk(db, sha, latest)
  {
  }

  /** With enqueues serialised the insert always succeeds. */
  lemma InsertSucceeds(s: System, step: Step, s': System)
    requires AskedOk(s) && EnqueueStep(s, step, s') && step.Insert?
    ensures s.enqueue.Cleared? && step.id !in s.db.scans
    ensures s' == s.(db := Create(s.db, step.id, NewRow(s.enqueue.request)), enqueue := Created(step.id))
  {
    assert RequestOk(s.db, s.enqueue.request);
    NextAttemptIsFree(s.db, s.enqueue.request);
  }

  lemma InsertKeepsAsked(s: System, step: Step, s': System)
    requires AskedOk(s) && EnqueueStep(s, step, s') && step.Insert?
    ensures AskedOk(s')
  {
    InsertSucceeds(s, step, s');
    hide EnqueueStep;
    assert RequestOk(s.db, s.enqueue.request);
    InsertKeepsAttempts(s.db, step.id, s.enqueue.request);
    InsertKeepsFollowUps(s.db, step.id, s.enqueue.request);
    hide AttemptsOk, FollowUpsOk, RequestOk, Create, NewRow;
  }

  lemma StartKeepsAsked(s: System, step: Step, s': System)
    requires AskedOk(s) && EnqueueStep(s, step, s') && step.StartEnqueue?
    ensures AskedOk(s')
  {
    LatestIsOk(s.db, step.sha, step.latest);
    hide AttemptsOk, FollowUpsOk, LatestOk;
  }

  lemma DecideKeepsAsked(s: System, step: Step, s': System)
    requires AskedOk(s) && EnqueueStep(s, step, s') && step.Decide?
    ensures AskedOk(s')
  {
    var e := s.enqueue;
    if !IsDuplicate(e.asked, e.latest, e.ruleset, step.tiers) {
      DecidedRequestOk(s.db, e.sha, e.asked, e.latest, e.ruleset, step.tiers);
    }
    hide AttemptsOk, FollowUpsOk, RequestOk, IsDuplicate, MakeRequest;
  }

  lemma EnqueueKeepsAsked(s: System, step: Step, s': System)
    requires Inv(s) && EnqueueStep(s, step, s')
    ensures AskedOk(s')
  {
    assert DbOk(s.db) && JobsOk(s) && AskedOk(s);
    if step.Insert? {
      InsertKeepsAsked(s, step, s');
    } else if step.StartEnqueue? {
      StartKeepsAsked(s, step, s');
    } else if step.Decide? {
      DecideKeepsAsked(s, step, s');
    } else {
      EnqueueStepAdvances(s, step, s');
      RequestGoesOn(s, step, s');
      hide *;
      AdvanceKeepsAsked(s, s');
    }
  }

  /** Between the decision and the insert an enqueue keeps its request. */
  lemma RequestGoesOn(s: System, step: Step, s': System)
    requires EnqueueStep(s, step, s') && !step.Insert? && !step.StartEnqueue? && !step.Decide?
    ensures || s'.enqueue == s.enqueue
            || (!s'.enqueue.ReadLatest? &&
                (RequestOf(s'.enqueue) == RequestOf(s.enqueue) || RequestOf(s'.enqueue).None?))
  {
  }

  lemma WorkerKeepsAsked(s: System, step: Step, s': System)
    requires Inv(s) && WorkerStep(s, step, s')
    ensures AskedOk(s')
  {
    WorkerStepAdvances(s, step, s');
    AdvanceKeepsAsked(s, s');
  }

  // ----- jobs -----

  lemma InsertKeepsJobs(s: System, step: Step, s': System)
    requires Inv(s) && EnqueueStep(s, step, s') && step.Insert?
    ensures JobsOk(s')
  {
    InsertSucceeds(s, step, s');
    hide EnqueueStep, AskedOk, FlightOk, DbOk;
  }

  lemma SupersedingKeepsJobs(s: System, step: Step, s': System)
    requires JobsOk(s) && EnqueueStep(s, step, s') && (step.CancelElsewhere? || step.SupersedeListed?)
    ensures JobsOk(s')
  {
    assert s'.db.scans.Keys == s.db.scans.Keys;
  }

  lemma AddKeepsJobs(s: System, step: Step, s': System)
    requires JobsOk(s) && EnqueueStep(s, step, s') && (step.AddJob? || step.AddFails?) && CleanAdd(step)
    ensures JobsOk(s')
  {
  }

  /** Neither a scan nor a job appears, and no scan is left without one. */
  lemma QuietKeepsJobs(s: System, step: Step, s': System)
    requires JobsOk(s) && EnqueueStep(s, step, s') && !step.Insert?
    requires !step.CancelElsewhere? && !step.SupersedeListed? && !step.AddJob? && !step.AddFails?
    ensures JobsOk(s')
  {
    assert s'.db.scans.Keys == s.db.scans.Keys;
    assert s'.workers == s.workers && s'.queue.Keys <= s.queue.Keys;
    assert Unqueued(s'.enqueue).Some? ==> s' == s.(queue := s'.queue);
    hide EnqueueStep;
  }

  lemma EnqueueKeepsJobs(s: System, step: Step, s': System)
    requires Inv(s) && EnqueueStep(s, step, s') && CleanAdd(step)
    ensures JobsOk(s')
  {
    assert JobsOk(s) && AskedOk(s);
    hide EnqueueStep, JobsOk, DbOk, FlightOk, AskedOk, CleanAdd;
    if step.Insert? {
      InsertKeepsJobs(s, step, s');
    } else if step.CancelElsewhere? || step.SupersedeListed? {
      SupersedingKeepsJobs(s, step, s');
    } else if step.AddJob? || step.AddFails? {
      AddKeepsJobs(s, step, s');
    } else {
      QuietKeepsJobs(s, step, s');
    }
  }

  /** The scan a worker step is about. */
  function ScanOfStep(s: System, step: Step): Option<ScanId> {
    match step
    case Pick(w, id) => Some(id)
    case StalledOut(w, id) => Some(id)
    case ClaimIt(w) => ScanOf(WorkerAt(s, w))
    case CommitIt(w, _) => ScanOf(WorkerAt(s, w))
    case Complete(w) => ScanOf(WorkerAt(s, w))
    case Throw(w, _) => ScanOf(WorkerAt(s, w))
    case Finalize(w) => ScanOf(WorkerAt(s, w))
    case _ => None
  }

  function WorkerOfStep(step: Step): WorkerId {
    match step
    case Pick(w, _) => w
    case StalledOut(w, _) => w
    case ClaimIt(w) => w
    case CommitIt(w, _) => w
    case Complete(w) => w
    case Throw(w, _) => w
    case Finalize(w) => w
    case Vanish(w) => w
    case _ => 0
  }

  /** A worker step touches the row and the job of its own scan, and its own worker. */
  ghost predicate TouchesOnly(s: System, s': System, x: Option<ScanId>, w: WorkerId) {
    && s'.enqueue == s.enqueue && s'.db.scans.Keys == s.db.scans.Keys
    && (forall id :: id in s.db.scans && Some(id) != x ==> s'.db.scans[id] == s.db.scans[id])
    && (forall id :: id in s'.queue ==> id in s.queue || Some(id) == x)
    && (forall v :: v in s'.workers && v != w ==> v in s.workers && s'.workers[v] == s.workers[v])
    && (w in s'.workers ==> ScanOf(s'.workers[w]).None? || ScanOf(s'.workers[w]) == x)
  }

  lemma WorkerTouchesOnly(s: System, step: Step, s': System)
    requires WorkerStep(s, step, s') && DbOk(s.db)
    ensures TouchesOnly(s, s', ScanOfStep(s, step), WorkerOfStep(step))
  {
    WorkerStepAdvances(s, step, s');
  }

  lemma TouchingKeepsJobs(s: System, s': System, x: Option<ScanId>, w: WorkerId)
    requires JobsOk(s) && TouchesOnly(s, s', x, w)
    requires x.Some? ==> x.value in s.db.scans && Unqueued(s.enqueue) != x
    ensures JobsOk(s')
  {
  }

  lemma WorkerKeepsJobs(s: System, step: Step, s': System)
    requires Inv(s) && WorkerStep(s, step, s')
    ensures JobsOk(s')
  {
    var x := ScanOfStep(s, step);
    assert x.Some? ==> x.value in s.db.scans && Unqueued(s.enqueue) != x by {
      if !step.Pick? && !step.StalledOut? && x.Some? {
        assert WorkerOfStep(step) in s.workers && ScanOf(s.workers[WorkerOfStep(step)]) == x;
      }
    }
    WorkerTouchesOnly(s, step, s');
    TouchingKeepsJobs(s, s', x, WorkerOfStep(step));
  }

  lemma NextKeepsInv(s: System, step: Step, s': System)
    requires Inv(s) && Next(s, step, s') && CleanAdd(step)
    ensures Inv(s') && Moves(s.db, s'.db)
  {
    if WorkerStep(s, step, s') {
      WorkerStepAdvances(s, step, s');
      WorkerKeepsFlight(s, step, s');
      WorkerKeepsAsked(s, step, s');
      WorkerKeepsJobs(s, step, s');
    } else {
      if step.Insert? {
        InsertMoves(s, step, s');
      } else {
        EnqueueStepAdvances(s, step, s');
      }
      EnqueueKeepsFlight(s, step, s');
      EnqueueKeepsAsked(s, step, s');
      EnqueueKeepsJobs(s, step, s');
    }
  }

  // ----- runs -----

  /** A run from nothing, in any interleaving; failed queue adds leave no job. */
  ghost predicate IsRun(states: seq<System>, steps: seq<Step>) {
    && |states| == |steps| + 1 && states[0] == EMPTY
    && forall k :: 0 <= k < |steps| ==> Next(states[k], steps[k], states[k + 1]) && CleanAdd(steps[k])
  }

  lemma {:induction false} RunKeepsInv(states: seq<System>, steps: seq<Step>, k: nat)
    requires IsRun(states, steps) && k < |states|
    ensures Inv(states[k])
    decreases k
  {
    if k == 0 {
      InitOk();
    } else {
      RunKeepsInv(states, steps, k - 1);
      NextKeepsInv(states[k - 1], steps[k - 1], states[k]);
    }
  }

  /** The row of `id` has moved as rows may, and its batches have only been added to. */
  ghost predicate Forward(s: System, s': System, id: ScanId) {
    && id in s.db.scans && id in s'.db.scans && RowMoves(s.db.scans[id], s'.db.scans[id])
    && Batches(s.db, id) <= Batches(s'.db, id)
  }

  lemma ForwardTrans(s: System, t: System, u: System, id: ScanId)
    requires Forward(s, t, id) && Forward(t, u, id)
    ensures Forward(s, u, id)
  {
    RowMovesTrans(s.db.scans[id], t.db.scans[id], u.db.scans[id]);
  }

  lemma ForwardHas(s: System, s': System, id: ScanId)
    requires Forward(s, s', id)
    ensures id in s'.db.scans
  {
  }

  lemma NextIsForward(s: System, step: Step, s': System, id: ScanId)
    requires Inv(s) && Next(s, step, s') && CleanAdd(step) && id in s.db.scans
    ensures Forward(s, s', id)
  {
    NextKeepsInv(s, step, s');
  }

  lemma RunStepIsForward(states: seq<System>, steps: seq<Step>, k: nat, id: ScanId)
    requires IsRun(states, steps) && k < |steps| && id in states[k].db.scans
    ensures Forward(states[k], states[k + 1], id)
  {
    RunKeepsInv(states, steps, k);
    hide Inv, Forward, CleanAdd;
    NextIsForward(states[k], steps[k], states[k + 1], id);
  }

  lemma {:induction false} RunMoves(states: seq<System>, steps: seq<Step>, i: nat, j: nat, id: ScanId)
    requires IsRun(states, steps) && i <= j < |states| && id in states[i].db.scans
    ensures Forward(states[i], states[j], id)
    decreases j
  {
    if i < j {
      assert |states| == |steps| + 1;
      hide *;
      RunMoves(states, steps, i, j - 1, id);
      ForwardHas(states[i], states[j - 1], id);
      RunStepIsForward(states, steps, j - 1, id);
      ForwardTrans(states[i], states[j - 1], states[j], id);
    }
  }

  // ----- main results, in every interleaving -----

  /** A scan has static finding rows only when it is DONE, and then from exactly one commit. */
  lemma ExactlyOneCommit(states: seq<System>, steps: seq<Step>, k: nat, id: ScanId)
    requires IsRun(states, steps) && k < |states|
    ensures |Batches(states[k].db, id)|
         == if id in states[k].db.scans && states[k].db.scans[id].status == Done then 1 else 0
  {
    RunKeepsInv(states, steps, k);
  }

  /** Once out of QUEUED and RUNNING a scan never returns there, and becomes DONE never again; DONE and
      FAILED are never left; the batch a commit wrote stays. */
  lemma StatusOnlyMovesForward(states: seq<System>, steps: seq<Step>, i: nat, j: nat, id: ScanId)
    requires IsRun(states, steps) && i <= j < |states| && id in states[i].db.scans
    ensures id in states[j].db.scans
    ensures var (before, after) := (states[i].db.scans[id].status, states[j].db.scans[id].status);
            && (!IsInFlight(before) ==> !IsInFlight(after))
            && (!IsInFlight(before) && before != Done ==> after != Done)
            && (before == Done ==> after == Done)
            && (before == Failed ==> after == Failed)
            && (before == Done ==> Batches(states[j].db, id) == Batches(states[i].db, id))
  {
    RunMoves(states, steps, i, j, id);
    RunKeepsInv(states, steps, i);
    RunKeepsInv(states, steps, j);
  }

  predicate IsDone(db: Db, id: ScanId) {
    id in db.scans && db.scans[id].status == Done
  }

  /** A scan only ever appears QUEUED. */
  lemma NewScansAreQueued(s: System, step: Step, s': System, id: ScanId)
    requires Inv(s) && Next(s, step, s') && id in s'.db.scans && id !in s.db.scans
    ensures s'.db.scans[id].status == Queued
  {
    if WorkerStep(s, step, s') {
      WorkerStepAdvances(s, step, s');
    } else if step.Insert? {
      InsertSucceeds(s, step, s');
    } else {
      EnqueueStepAdvances(s, step, s');
    }
  }

  /** While a scan stays in flight no other scan becomes DONE, and none appears. */
  lemma NoOtherBecomesDone(states: seq<System>, steps: seq<Step>, k: nat, id: ScanId, other: ScanId)
    requires IsRun(states, steps) && k < |steps|
    requires InFlight(states[k].db, id) && InFlight(states[k + 1].db, id)
    ensures IsDone(states[k].db, other) <==> IsDone(states[k + 1].db, other)
  {
    RunKeepsInv(states, steps, k);
    if other in states[k].db.scans {
      RunStepIsForward(states, steps, k, other);
      if IsInFlight(states[k].db.scans[other].status) {
        OneScanInFlight(states, steps, k, id, other);
      }
    } else if other in states[k + 1].db.scans {
      NewScansAreQueued(states[k], steps[k], states[k + 1], other);
    }
  }

  lemma InFlightBetween(states: seq<System>, steps: seq<Step>, i: nat, k: nat, j: nat, id: ScanId)
    requires IsRun(states, steps) && i <= k <= j < |states|
    requires InFlight(states[i].db, id) && InFlight(states[j].db, id)
    ensures InFlight(states[k].db, id)
  {
    StatusOnlyMovesForward(states, steps, i, k, id);
    StatusOnlyMovesForward(states, steps, k, j, id);
  }

  lemma {:induction false} DoneStaysAsRead(
    states: seq<System>, steps: seq<Step>, i: nat, j: nat, id: ScanId, other: ScanId)
    requires IsRun(states, steps) && i <= j < |states|
    requires InFlight(states[i].db, id) && InFlight(states[j].db, id)
    ensures IsDone(states[i].db, other) <==> IsDone(states[j].db, other)
    decreases j
  {
    if i < j {
      assert |states| == |steps| + 1;
      hide *;
      InFlightBetween(states, steps, i, j - 1, j, id);
      DoneStaysAsRead(states, steps, i, j - 1, id, other);
      NoOtherBecomesDone(states, steps, j - 1, id, other);
    }
  }

  /** What a worker reads after its claim is what is there when its commit succeeds: the same scans are
      DONE, with the same rows. So a scan's reads and its commit may be taken as one step. */
  lemma CommitSeesWhatWasRead(states: seq<System>, steps: seq<Step>, i: nat, j: nat, id: ScanId, other: ScanId)
    requires IsRun(states, steps) && i <= j < |states|
    requires InFlight(states[i].db, id) && CanCommit(states[j].db, id)
    ensures IsDone(states[i].db, other) <==> IsDone(states[j].db, other)
    ensures Batches(states[i].db, other) == Batches(states[j].db, other)
  {
    DoneStaysAsRead(states, steps, i, j, id, other);
    ExactlyOneCommit(states, steps, i, other);
    ExactlyOneCommit(states, steps, j, other);
    if other in states[i].db.scans {
      RunMoves(states, steps, i, j, other);
    }
  }

  /** latestScanId only ever names a DONE or FAILED scan. */
  lemma LatestIsSettled(states: seq<System>, steps: seq<Step>, k: nat)
    requires IsRun(states, steps) && k < |states| && states[k].db.latest.Some?
    ensures states[k].db.latest.value in states[k].db.scans
    ensures states[k].db.scans[states[k].db.latest.value].status in {Done, Failed}
  {
    RunKeepsInv(states, steps, k);
  }

  lemma OneScanInFlight(states: seq<System>, steps: seq<Step>, k: nat, a: ScanId, b: ScanId)
    requires IsRun(states, steps) && k < |states|
    requires InFlight(states[k].db, a) && InFlight(states[k].db, b)
    ensures a == b
  {
    RunKeepsInv(states, steps, k);
  }

  /** Below any attempt of a sha there is each lower one from 1. */
  lemma {:induction false} AttemptsAreConsecutive(db: Db, id: ScanId, n: nat)
    requires AttemptsOk(db) && id in db.scans && 1 <= n <= db.scans[id].attempt
    ensures exists b :: b in db.scans && db.scans[b].sha == db.scans[id].sha && db.scans[b].attempt == n
    decreases db.scans[id].attempt
  {
    if n < db.scans[id].attempt {
      assert HasPrevious(db, db.scans[id].sha, db.scans[id].attempt);
      var b :| b in db.scans && db.scans[b].sha == db.scans[id].sha && db.scans[b].attempt == db.scans[id].attempt - 1;
      AttemptsAreConsecutive(db, b, n);
    }
  }

  /** In every state of a run the attempts of a sha are consecutive from 1, each there once. */
  lemma RunAttemptsAreConsecutive(states: seq<System>, steps: seq<Step>, k: nat, id: ScanId, n: nat)
    requires IsRun(states, steps) && k < |states|
    requires id in states[k].db.scans && 1 <= n <= states[k].db.scans[id].attempt
    ensures exists b :: b in states[k].db.scans && states[k].db.scans[b].sha == states[k].db.scans[id].sha
                        && states[k].db.scans[b].attempt == n
    ensures forall a, b ::
              (a in states[k].db.scans && b in states[k].db.scans
               && SameAttempt(states[k].db.scans[a], states[k].db.scans[b])) ==> a == b
  {
    RunKeepsInv(states, steps, k);
    AttemptsAreConsecutive(states[k].db, id, n);
  }

  /** Serialised enqueues never run into the unique constraint, whatever the workers do meanwhile:
      from the decision on, the attempt asked for is free, and it is the next one of its sha. */
  lemma RequestNeverConflicts(states: seq<System>, steps: seq<Step>, k: nat)
    requires IsRun(states, steps) && k < |states| && RequestOf(states[k].enqueue).Some?
    ensures var r := RequestOf(states[k].enqueue).value;
            !Conflicts(states[k].db, r) && (r.attempt > 1 ==> HasPrevious(states[k].db, r.sha, r.attempt))
  {
    RunKeepsInv(states, steps, k);
    NextAttemptIsFree(states[k].db, RequestOf(states[k].enqueue).value);
  }

  ghost predicate OnlyWebhooks(steps: seq<Step>) {
    forall k :: 0 <= k < |steps| && steps[k].StartEnqueue? ==> steps[k].asked == Webhook
  }

  ghost predicate AllAskedByWebhook(s: System) {
    && RowsAskedByWebhook(s.db)
    && (s.enqueue.ReadLatest? ==> s.enqueue.asked == Webhook)
    && (RequestOf(s.enqueue).Some? ==> RequestOf(s.enqueue).value.asked == Webhook)
  }

  ghost predicate RowsAskedByWebhook(db: Db) {
    forall id :: id in db.scans ==> db.scans[id].asked == Webhook
  }

  lemma AdvanceKeepsWebhook(before: Db, after: Db)
    requires Advances(before, after) && RowsAskedByWebhook(before)
    ensures RowsAskedByWebhook(after)
  {
    forall id | id in after.scans
      ensures after.scans[id].asked == Webhook
    {
      assert id in before.scans.Keys;
      assert RowMoves(before.scans[id], after.scans[id]);
    }
  }

  lemma InsertKeepsWebhook(s: System, step: Step, s': System)
    requires EnqueueStep(s, step, s') && step.Insert? && AllAskedByWebhook(s)
    ensures AllAskedByWebhook(s')
  {
  }

  lemma EnqueueKeepsWebhook(s: System, step: Step, s': System)
    requires DbOk(s.db) && JobsOk(s) && EnqueueStep(s, step, s') && !step.Insert? && AllAskedByWebhook(s)
    requires step.StartEnqueue? ==> step.asked == Webhook
    ensures AllAskedByWebhook(s')
  {
    EnqueueStepAdvances(s, step, s');
    AdvanceKeepsWebhook(s.db, s'.db);
  }

  lemma NextKeepsWebhook(s: System, step: Step, s': System)
    requires Inv(s) && Next(s, step, s') && AllAskedByWebhook(s) && (step.StartEnqueue? ==> step.asked == Webhook)
    ensures AllAskedByWebhook(s')
  {
    if WorkerStep(s, step, s') {
      WorkerStepAdvances(s, step, s');
      AdvanceKeepsWebhook(s.db, s'.db);
    } else if step.Insert? {
      InsertKeepsWebhook(s, step, s');
    } else {
      EnqueueKeepsWebhook(s, step, s');
    }
  }

  lemma {:induction false} RunKeepsWebhook(states: seq<System>, steps: seq<Step>, k: nat)
    requires IsRun(states, steps) && OnlyWebhooks(steps) && k < |states|
    ensures AllAskedByWebhook(states[k])
    decreases k
  {
    if k > 0 {
      RunKeepsWebhook(states, steps, k - 1);
      RunKeepsInv(states, steps, k - 1);
      NextKeepsWebhook(states[k - 1], steps[k - 1], states[k]);
    }
  }

  /** In webhook-only runs every attempt but the last of its sha is FAILED, SUPERSEDED, or DONE under
      a ruleset or tier set the next attempt no longer has. */
  lemma EarlierAttemptsAreOver(states: seq<System>, steps: seq<Step>, k: nat, a: ScanId, later: ScanId)
    requires IsRun(states, steps) && OnlyWebhooks(steps) && k < |states|
    requires a in states[k].db.scans && later in states[k].db.scans
    requires states[k].db.scans[a].sha == states[k].db.scans[later].sha
    requires states[k].db.scans[a].attempt < states[k].db.scans[later].attempt
    ensures exists b :: b in states[k].db.scans
                        && states[k].db.scans[b].sha == states[k].db.scans[a].sha
                        && states[k].db.scans[b].attempt == states[k].db.scans[a].attempt + 1
                        && AllowsNext(states[k].db.scans[a], states[k].db.scans[b].ruleset, states[k].db.scans[b].tiers)
  {
    RunKeepsInv(states, steps, k);
    RunKeepsWebhook(states, steps, k);
    var db := states[k].db;
    AttemptsAreConsecutive(db, later, db.scans[a].attempt + 1);
    var b :| b in db.scans && db.scans[b].sha == db.scans[a].sha && db.scans[b].attempt == db.scans[a].attempt + 1;
    assert IsFollowUp(db.scans[a], db.scans[b]);
  }

  // ----- why a failed queue add must leave no job -----

  /** A run in which failed adds may leave a job. */
  ghost predicate IsLooseRun(states: seq<System>, steps: seq<Step>) {
    && |states| == |steps| + 1 && states[0] == EMPTY
    && forall k :: 0 <= k < |steps| ==> Next(states[k], steps[k], states[k + 1])
  }

  lemma {:induction false} Extend(states: seq<System>, steps: seq<Step>, step: Step, s': System)
    requires IsLooseRun(states, steps) && Next(states[|steps|], step, s')
    ensures IsLooseRun(states + [s'], steps + [step])
  {
  }

  const FIRST_REQUEST := MakeRequest("sha", Webhook, None, "r1", [])

  /** An enqueue on an empty pull request, up to a failed add that did leave the job. */
  lemma {:induction false} AddLeavesJob() returns (states: seq<System>, steps: seq<Step>)
    ensures IsLooseRun(states, steps)
    ensures states[|steps|] == System(Db(map[1 := NewRow(FIRST_REQUEST)], map[], None),
                                      map[1 := Job(Waiting, 0)], map[], AddFailed(1))
  {
    states, steps := [EMPTY], [];
    var s := EMPTY.(enqueue := ReadLatest("sha", Webhook, "r1", None));
    Extend(states, steps, StartEnqueue("sha", Webhook, "r1", None), s);
    states, steps := states + [s], steps + [StartEnqueue("sha", Webhook, "r1", None)];
    s := EMPTY.(enqueue := Chosen(FIRST_REQUEST));
    Extend(states, steps, Decide([]), s);
    states, steps := states + [s], steps + [Decide([])];
    s := EMPTY.(enqueue := Listed(FIRST_REQUEST, {}));
    assert (set id | id in EMPTY.db.scans && InFlight(EMPTY.db, id)) == {};
    Extend(states, steps, ListPending, s);
    states, steps := states + [s], steps + [ListPending];
    s := EMPTY.(enqueue := Cleared(FIRST_REQUEST));
    assert Supersede(EMPTY.db, {}) == EMPTY.db;
    Extend(states, steps, SupersedeListed, s);
    states, steps := states + [s], steps + [SupersedeListed];
    s := EMPTY.(db := Create(EMPTY.db, 1, NewRow(FIRST_REQUEST)), enqueue := Created(1));
    Extend(states, steps, Insert(1), s);
    states, steps := states + [s], steps + [Insert(1)];
    s := s.(queue := map[1 := Job(Waiting, 0)], enqueue := AddFailed(1));
    Extend(states, steps, AddFails(true), s);
    states, steps := states + [s], steps + [AddFails(true)];
  }

  /** Otherwise a worker can finish the scan before the enqueue marks it, and DONE is left. */
  lemma {:induction false} LeftoverJobLosesDone() returns (states: seq<System>, steps: seq<Step>)
    ensures IsLooseRun(states, steps) && |steps| > 0
    ensures 1 in states[|steps| - 1].db.scans && states[|steps| - 1].db.scans[1].status == Done
    ensures 1 in states[|steps|].db.scans && states[|steps|].db.scans[1].status == Failed
  {
    states, steps := AddLeavesJob();
    var s := SetWorker(SetJob(states[|steps|], 1, Active, 0), 0, Picked(1));
    Extend(states, steps, Pick(0, 1), s);
    states, steps := states + [s], steps + [Pick(0, 1)];
    s := SetWorker(s, 0, Working(1)).(db := Claim(s.db, 1));
    Extend(states, steps, ClaimIt(0), s);
    states, steps := states + [s], steps + [ClaimIt(0)];
    s := SetWorker(s, 0, Finishing(1)).(db := Commit(s.db, 1, []));
    Extend(states, steps, CommitIt(0, []), s);
    states, steps := states + [s], steps + [CommitIt(0, [])];
    s := s.(db := FailUnqueued(s.db, 1), enqueue := NoEnqueue);
    Extend(states, steps, MarkUnqueued, s);
    states, steps := states + [s], steps + [MarkUnqueued];
  }
}
