/**
 server/refresh_worker.py: manual refreshes go through a FIFO queue to one worker thread; a map from
 normalised query to job avoids queueing the same query twice, and a bounded history keeps finished jobs.
 Every critical section is one atomic step; a run is any interleaving of steps.
 */
module RefreshWorkers {
  import opened Common

  type JobId = string

  datatype JobState = Queued | Running | Done | Failed

  datatype Job = Job(query: string, normalized: string, state: JobState, stage: string, progress: int,
                     budget: int, depth: int, force: bool)
  {
    predicate Active() { state == Queued || state == Running }
  }

  /** Where the worker thread is: waiting, between get() and the first critical section, or running a job. */
  datatype Worker = Idle | Got(id: JobId) | Busy(id: JobId)

  /** `accepted` and `finished` are history variables: every job ever queued and every job ever completed, in order. */
  datatype State = State(
    jobs: map<JobId, Job>,
    queryToJob: map<string, JobId>,
    queue: seq<JobId>,
    history: seq<JobId>,
    worker: Worker,
    accepted: seq<JobId>,
    finished: seq<JobId>)

  const INITIAL := State(map[], map[], [], [], Idle, [], [])

  /** The jobs that are not finished, in order of arrival. */
  function Pending(s: State): seq<JobId> {
    (if s.worker == Idle then [] else [s.worker.id]) + s.queue
  }

  // ---- Steps ----

  datatype Request = Request(id: JobId, query: string, normalized: string, force: bool, budget: int, depth: int)

  function NewJob(r: Request): Job {
    Job(r.query, r.normalized, Queued, "queued", 0, r.budget, r.depth, r.force)
  }

  /** The job an unforced enqueue is answered with instead of queueing another one. */
  function Duplicate(s: State, r: Request): Option<JobId> {
    if r.normalized in s.queryToJob && !r.force
       && s.queryToJob[r.normalized] in s.jobs && s.jobs[s.queryToJob[r.normalized]].Active()
    then Some(s.queryToJob[r.normalized]) else None
  }

  function Enqueue(s: State, r: Request): State {
    if Duplicate(s, r).Some? then s
    else
      s.(jobs := s.jobs[r.id := NewJob(r)],
         queryToJob := s.queryToJob[r.normalized := r.id],
         queue := s.queue + [r.id],
         accepted := s.accepted + [r.id])
  }

  function Get(s: State): State
    requires s.queue != []
  {
    s.(worker := Got(s.queue[0]), queue := s.queue[1..])
  }

  function Start(s: State): State
    requires s.worker.Got? && s.worker.id in s.jobs
  {
    var id := s.worker.id;
    s.(worker := Busy(id), jobs := s.jobs[id := s.jobs[id].(state := Running, stage := "starting")])
  }

  function StageProgress(stage: string): Option<int> {
    if stage == "starting" then Some(5)
    else if stage == "frontier_start" then Some(10)
    else if stage == "frontier_complete" then Some(20)
    else if stage == "crawl_start" then Some(30)
    else if stage == "crawl_complete" then Some(55)
    else if stage == "normalize_start" then Some(65)
    else if stage == "normalize_complete" then Some(75)
    else if stage == "index_start" then Some(85)
    else if stage == "index_complete" then Some(95)
    else if stage == "index_skipped" then Some(95)
    else if stage == "frontier_empty" then Some(90)
    else None
  }

  function Advance(progress: int, stage: string): int {
    if StageProgress(stage).Some? then Max(progress, StageProgress(stage).value) else progress
  }

  function Progress(s: State, stage: string): State
    requires s.worker.Busy? && s.worker.id in s.jobs
  {
    var id := s.worker.id;
    var job := s.jobs[id];
    if job.state == Failed then s
    else s.(jobs := s.jobs[id := job.(stage := stage, progress := Advance(job.progress, stage))])
  }

  function Completed(job: Job, ok: bool): Job {
    if ok then job.(state := Done, stage := "complete", progress := 100)
    else job.(state := Failed, stage := "error", progress := Max(job.progress, 1))
  }

  /** deque(maxlen = maxHistory).append */
  function Remember(history: seq<JobId>, id: JobId, maxHistory: nat): seq<JobId> {
    LastN(history + [id], maxHistory)
  }

  function Forget(queryToJob: map<string, JobId>, normalized: string, id: JobId): map<string, JobId> {
    if normalized != "" && normalized in queryToJob && queryToJob[normalized] == id
    then queryToJob - {normalized} else queryToJob
  }

  function Finish(s: State, ok: bool, maxHistory: nat): State
    requires s.worker.Busy? && s.worker.id in s.jobs
  {
    var id := s.worker.id;
    s.(jobs := s.jobs[id := Completed(s.jobs[id], ok)],
       history := Remember(s.history, id, maxHistory),
       queryToJob := Forget(s.queryToJob, s.jobs[id].normalized, id),
       worker := Idle,
       finished := s.finished + [id])
  }

  datatype Op = EnqueueOp(request: Request) | GetOp | StartOp | ProgressOp(stage: string) | FinishOp(ok: bool)

  /** A step that is not possible in s leaves s as it is. Job ids are drawn fresh; blank queries are refused. */
  function Step(s: State, op: Op, maxHistory: nat): State {
    match op
    case EnqueueOp(r) => if r.id in s.jobs || r.id == "" || r.normalized == "" then s else Enqueue(s, r)
    case GetOp => if s.worker == Idle && s.queue != [] then Get(s) else s
    case StartOp => if s.worker.Got? && s.worker.id in s.jobs then Start(s) else s
    case ProgressOp(stage) => if s.worker.Busy? && s.worker.id in s.jobs then Progress(s, stage) else s
    case FinishOp(ok) => if s.worker.Busy? && s.worker.id in s.jobs then Finish(s, ok, maxHistory) else s
  }

  function Run(ops: seq<Op>, maxHistory: nat): State {
    if ops == [] then INITIAL else Step(Run(ops[..|ops| - 1], maxHistory), ops[|ops| - 1], maxHistory)
  }

  // ---- The invariant ----

  /** The last of ids that was created for the query. */
  function LastFor(jobs: map<JobId, Job>, ids: seq<JobId>, normalized: string): Option<JobId> {
    if ids == [] then None
    else
      var last := ids[|ids| - 1];
      if last in jobs && jobs[last].normalized == normalized then Some(last)
      else LastFor(jobs, ids[..|ids| - 1], normalized)
  }

  function Lookup(m: map<string, JobId>, key: string): Option<JobId> {
    if key in m then Some(m[key]) else None
  }

  ghost predicate JobStates(s: State) {
    && (forall id :: id in s.jobs ==> id in s.accepted)
    && (forall id :: id in s.accepted ==> id in s.jobs && s.jobs[id].normalized != "" && 0 <= s.jobs[id].progress <= 100)
    && (forall id :: id in s.queue ==> id in s.jobs && s.jobs[id].state == Queued)
    && (forall id :: id in s.finished ==> id in s.jobs && !s.jobs[id].Active())
    && (s.worker.Got? ==> s.worker.id in s.jobs && s.jobs[s.worker.id].state == Queued)
    && (s.worker.Busy? ==> s.worker.id in s.jobs && s.jobs[s.worker.id].state == Running)
  }

  /** First in, first out: what was accepted is what is finished, then what the worker has, then the queue. */
  ghost predicate Fifo(s: State) {
    Distinct(s.accepted) && s.accepted == s.finished + Pending(s)
  }

  /** The map sends each query to the last of the pending jobs created for it. */
  ghost predicate MapIsLast(queryToJob: map<string, JobId>, jobs: map<JobId, Job>, pending: seq<JobId>) {
    forall n :: Lookup(queryToJob, n) == LastFor(jobs, pending, n)
  }

  ghost predicate Inv(s: State, maxHistory: nat) {
    JobStates(s) && Fifo(s) && MapIsLast(s.queryToJob, s.jobs, Pending(s)) && s.history == LastN(s.finished, maxHistory)
  }

  // ---- Lemmas about LastFor ----

  lemma {:induction false} LastForFrame(jobs: map<JobId, Job>, jobs': map<JobId, Job>, ids: seq<JobId>, n: string)
    requires forall id :: id in ids ==> id in jobs && id in jobs' && jobs[id].normalized == jobs'[id].normalized
    ensures LastFor(jobs, ids, n) == LastFor(jobs', ids, n)
  {
    if ids != [] {
      LastForFrame(jobs, jobs', ids[..|ids| - 1], n);
    }
  }

  /** Dropping the oldest id matters only if it was the only one for the query. */
  lemma {:induction false} LastForDropFirst(jobs: map<JobId, Job>, ids: seq<JobId>, n: string)
    requires ids != [] && Distinct(ids) && ids[0] in jobs
    ensures LastFor(jobs, ids[1..], n)
            == if LastFor(jobs, ids, n) == Some(ids[0]) then None else LastFor(jobs, ids, n)
    decreases |ids|
  {
    var front := ids[..|ids| - 1];
    if |ids| > 1 {
      assert ids[1..][..|ids| - 2] == front[1..];
      LastForDropFirst(jobs, front, n);
    }
  }

  lemma {:induction false} LastForIsLast(jobs: map<JobId, Job>, ids: seq<JobId>, n: string)
    ensures var last := LastFor(jobs, ids, n);
            && (last.Some? ==> last.value in ids && last.value in jobs && jobs[last.value].normalized == n)
            && (last.None? ==> forall id :: id in ids && id in jobs ==> jobs[id].normalized != n)
  {
    if ids != [] {
      LastForIsLast(jobs, ids[..|ids| - 1], n);
      SplitLast(ids);
    }
  }

  // ---- The three things that happen to the map ----

  lemma MapAfterCreate(m: map<string, JobId>, jobs: map<JobId, Job>, pending: seq<JobId>, id: JobId, job: Job)
    requires MapIsLast(m, jobs, pending)
    requires id !in jobs && forall x :: x in pending ==> x in jobs
    ensures MapIsLast(m[job.normalized := id], jobs[id := job], pending + [id])
  {
    var m', jobs', pending' := m[job.normalized := id], jobs[id := job], pending + [id];
    assert pending'[..|pending|] == pending;
    forall n ensures Lookup(m', n) == LastFor(jobs', pending', n) {
      LastForFrame(jobs, jobs', pending, n);
      assert Lookup(m, n) == LastFor(jobs, pending, n);
    }
  }

  lemma MapAfterUpdate(m: map<string, JobId>, jobs: map<JobId, Job>, pending: seq<JobId>, id: JobId, job: Job)
    requires MapIsLast(m, jobs, pending)
    requires id in jobs && job.normalized == jobs[id].normalized && forall x :: x in pending ==> x in jobs
    ensures MapIsLast(m, jobs[id := job], pending)
  {
    forall n ensures Lookup(m, n) == LastFor(jobs[id := job], pending, n) {
      LastForFrame(jobs, jobs[id := job], pending, n);
      assert Lookup(m, n) == LastFor(jobs, pending, n);
    }
  }

  /** Forgetting the finished job is right because it was the oldest pending one. */
  lemma MapAfterFinish(m: map<string, JobId>, jobs: map<JobId, Job>, pending: seq<JobId>)
    requires MapIsLast(m, jobs, pending)
    requires pending != [] && Distinct(pending) && pending[0] in jobs && jobs[pending[0]].normalized != ""
    ensures MapIsLast(Forget(m, jobs[pending[0]].normalized, pending[0]), jobs, pending[1..])
  {
    var normalized := jobs[pending[0]].normalized;
    forall n ensures Lookup(Forget(m, normalized, pending[0]), n) == LastFor(jobs, pending[1..], n) {
      assert Lookup(m, n) == LastFor(jobs, pending, n);
      LastForDropFirst(jobs, pending, n);
      LastForIsLast(jobs, pending, n);
    }
  }

  // ---- Every step keeps the invariant ----

  lemma PendingJobsExist(s: State, maxHistory: nat)
    requires Inv(s, maxHistory)
    ensures forall id :: id in Pending(s) ==> id in s.jobs
  {
    assert forall id :: id in Pending(s) ==> id in s.accepted;
  }

  lemma EnqueueKeepsInv(s: State, r: Request, maxHistory: nat)
    requires Inv(s, maxHistory) && r.id !in s.jobs && r.normalized != ""
    ensures Inv(Enqueue(s, r), maxHistory)
  {
    if Duplicate(s, r).None? {
      assert r.id !in s.accepted;
      PendingJobsExist(s, maxHistory);
      MapAfterCreate(s.queryToJob, s.jobs, Pending(s), r.id, NewJob(r));
      assert Pending(Enqueue(s, r)) == Pending(s) + [r.id];
    }
  }

  lemma GetKeepsInv(s: State, maxHistory: nat)
    requires Inv(s, maxHistory) && s.worker == Idle && s.queue != []
    ensures Inv(Get(s), maxHistory)
  {
    assert s.queue == [s.queue[0]] + s.queue[1..];
    assert Pending(Get(s)) == Pending(s);
  }

  /** Start and Progress change one pending job, and not its query. */
  lemma UpdateKeepsInv(s: State, t: State, id: JobId, maxHistory: nat)
    requires Inv(s, maxHistory) && id in s.jobs && id in t.jobs && id !in s.finished && id !in s.queue
    requires t == s.(jobs := s.jobs[id := t.jobs[id]], worker := t.worker)
    requires t.worker == Busy(id) && Pending(t) == Pending(s)
    requires t.jobs[id].state == Running && t.jobs[id].normalized == s.jobs[id].normalized
    requires 0 <= t.jobs[id].progress <= 100
    ensures Inv(t, maxHistory)
  {
    PendingJobsExist(s, maxHistory);
    MapAfterUpdate(s.queryToJob, s.jobs, Pending(s), id, t.jobs[id]);
  }

  lemma WorkerHoldsNewJob(s: State, maxHistory: nat)
    requires Inv(s, maxHistory) && s.worker != Idle
    ensures s.worker.id !in s.finished && s.worker.id !in s.queue && s.worker.id in s.accepted
    ensures Distinct(Pending(s)) && Pending(s) == [s.worker.id] + s.queue
  {
    assert s.accepted == s.finished + ([s.worker.id] + s.queue);
    DistinctMiddle(s.finished, s.worker.id, s.queue);
  }

  lemma RememberKeepsLast(finished: seq<JobId>, id: JobId, maxHistory: nat)
    ensures Remember(LastN(finished, maxHistory), id, maxHistory) == LastN(finished + [id], maxHistory)
  {
  }

  lemma FinishKeepsMap(s: State, ok: bool, maxHistory: nat)
    requires Inv(s, maxHistory) && s.worker.Busy? && s.worker.id in s.jobs
    ensures var t := Finish(s, ok, maxHistory); MapIsLast(t.queryToJob, t.jobs, Pending(t))
  {
    var id := s.worker.id;
    WorkerHoldsNewJob(s, maxHistory);
    PendingJobsExist(s, maxHistory);
    MapAfterFinish(s.queryToJob, s.jobs, Pending(s));
    assert Pending(s)[1..] == s.queue;
    assert Pending(Finish(s, ok, maxHistory)) == s.queue;
    MapAfterUpdate(Forget(s.queryToJob, s.jobs[id].normalized, id), s.jobs, s.queue, id, Completed(s.jobs[id], ok));
  }

  lemma FinishKeepsJobs(s: State, ok: bool, maxHistory: nat)
    requires JobStates(s) && s.worker.Busy? && s.worker.id !in s.queue && s.worker.id in s.accepted
    ensures JobStates(Finish(s, ok, maxHistory))
  {
  }

  lemma FinishKeepsInv(s: State, ok: bool, maxHistory: nat)
    requires Inv(s, maxHistory) && s.worker.Busy? && s.worker.id in s.jobs
    ensures Inv(Finish(s, ok, maxHistory), maxHistory)
  {
    WorkerHoldsNewJob(s, maxHistory);
    FinishKeepsJobs(s, ok, maxHistory);
    FinishKeepsMap(s, ok, maxHistory);
    RememberKeepsLast(s.finished, s.worker.id, maxHistory);
    assert s.finished + [s.worker.id] + s.queue == s.finished + ([s.worker.id] + s.queue);
    assert Pending(Finish(s, ok, maxHistory)) == s.queue;
  }

  lemma StepKeepsInv(s: State, op: Op, maxHistory: nat)
    requires Inv(s, maxHistory)
    ensures Inv(Step(s, op, maxHistory), maxHistory)
  {
    if s.worker != Idle {
      WorkerHoldsNewJob(s, maxHistory);
    }
    match op
    case EnqueueOp(r) => if r.id !in s.jobs && r.normalized != "" { EnqueueKeepsInv(s, r, maxHistory); }
    case GetOp => if s.worker == Idle && s.queue != [] { GetKeepsInv(s, maxHistory); }
    case StartOp => if s.worker.Got? { UpdateKeepsInv(s, Start(s), s.worker.id, maxHistory); }
    case ProgressOp(stage) => if s.worker.Busy? { UpdateKeepsInv(s, Progress(s, stage), s.worker.id, maxHistory); }
    case FinishOp(ok) => if s.worker.Busy? { FinishKeepsInv(s, ok, maxHistory); }
  }

  /** The invariant holds in every reachable state. */
  lemma {:induction false} RunKeepsInv(ops: seq<Op>, maxHistory: nat)
    ensures Inv(Run(ops, maxHistory), maxHistory)
  {
    if ops != [] {
      RunKeepsInv(ops[..|ops| - 1], maxHistory);
      StepKeepsInv(Run(ops[..|ops| - 1], maxHistory), ops[|ops| - 1], maxHistory);
    }
  }

  // ---- What the protocol promises ----

  ghost predicate ActiveFor(s: State, id: JobId, normalized: string) {
    id in s.jobs && s.jobs[id].Active() && s.jobs[id].normalized == normalized
  }

  lemma ActiveIsPending(s: State, maxHistory: nat)
    requires Inv(s, maxHistory)
    ensures forall id :: id in s.jobs && s.jobs[id].Active() ==> id in Pending(s)
    ensures forall id :: id in Pending(s) ==> id in s.jobs && s.jobs[id].Active()
  {
    forall id | id in s.jobs && s.jobs[id].Active() ensures id in Pending(s) {
      assert id in s.accepted && id !in s.finished;
    }
  }

  /** A query is a key of the map exactly while some job for it is queued or running. */
  lemma KeyIffActive(ops: seq<Op>, maxHistory: nat, normalized: string)
    ensures var s := Run(ops, maxHistory);
            normalized in s.queryToJob <==> exists id :: ActiveFor(s, id, normalized)
  {
    var s := Run(ops, maxHistory);
    RunKeepsInv(ops, maxHistory);
    ActiveIsPending(s, maxHistory);
    LastForIsLast(s.jobs, Pending(s), normalized);
    assert Lookup(s.queryToJob, normalized) == LastFor(s.jobs, Pending(s), normalized);
    if normalized in s.queryToJob {
      assert ActiveFor(s, s.queryToJob[normalized], normalized);
    }
  }

  lemma {:induction false} LastForIsLatest(jobs: map<JobId, Job>, ids: seq<JobId>, n: string, i: nat) returns (j: nat)
    requires i < |ids| && ids[i] in jobs && jobs[ids[i]].normalized == n
    ensures i <= j < |ids| && LastFor(jobs, ids, n) == Some(ids[j])
  {
    var last := ids[|ids| - 1];
    if last in jobs && jobs[last].normalized == n {
      j := |ids| - 1;
    } else {
      j := LastForIsLatest(jobs, ids[..|ids| - 1], n, i);
    }
  }

  lemma AcceptedTail(s: State, m: nat)
    requires Fifo(s) && m < |Pending(s)|
    ensures |s.accepted| == |s.finished| + |Pending(s)| && s.accepted[|s.finished| + m] == Pending(s)[m]
  {
  }

  lemma ActiveIsNotFinished(s: State, maxHistory: nat, i: nat)
    requires Inv(s, maxHistory) && i < |s.accepted| && s.accepted[i] in s.jobs && s.jobs[s.accepted[i]].Active()
    ensures |s.finished| <= i < |s.finished| + |Pending(s)|
  {
    assert forall k :: 0 <= k < |s.finished| ==> s.accepted[k] == s.finished[k] && s.finished[k] in s.finished;
  }

  lemma LastAcceptedFor(s: State, maxHistory: nat, normalized: string, i: nat) returns (j: nat)
    requires Inv(s, maxHistory) && i < |s.accepted| && ActiveFor(s, s.accepted[i], normalized)
    ensures i <= j < |s.accepted| && Lookup(s.queryToJob, normalized) == Some(s.accepted[j])
  {
    ActiveIsNotFinished(s, maxHistory, i);
    AcceptedTail(s, i - |s.finished|);
    var m := LastForIsLatest(s.jobs, Pending(s), normalized, i - |s.finished|);
    AcceptedTail(s, m);
    j := |s.finished| + m;
    assert Lookup(s.queryToJob, normalized) == LastFor(s.jobs, Pending(s), normalized);
  }

  /** The map's value is an active job for the query, and no active job for it was accepted later. */
  lemma ValueIsLastCreated(ops: seq<Op>, maxHistory: nat, normalized: string, i: nat) returns (j: nat)
    requires var s := Run(ops, maxHistory); i < |s.accepted| && ActiveFor(s, s.accepted[i], normalized)
    ensures var s := Run(ops, maxHistory);
            && i <= j < |s.accepted|
            && normalized in s.queryToJob && s.queryToJob[normalized] == s.accepted[j]
            && ActiveFor(s, s.accepted[j], normalized)
  {
    var s := Run(ops, maxHistory);
    RunKeepsInv(ops, maxHistory);
    j := LastAcceptedFor(s, maxHistory, normalized, i);
    assert ActiveFor(s, s.accepted[j], normalized) by {
      ActiveIsPending(s, maxHistory);
      LastForIsLast(s.jobs, Pending(s), normalized);
      assert Lookup(s.queryToJob, normalized) == LastFor(s.jobs, Pending(s), normalized);
    }
  }

  /** Jobs finish in the order they were accepted, and the history is the end of that sequence, without repeats. */
  lemma FinishedInOrder(ops: seq<Op>, maxHistory: nat)
    ensures var s := Run(ops, maxHistory);
            && s.finished <= s.accepted
            && Distinct(s.finished)
            && s.history == LastN(s.finished, maxHistory)
            && (s.worker == Idle && s.queue == [] ==> s.finished == s.accepted)
  {
    RunKeepsInv(ops, maxHistory);
    var s := Run(ops, maxHistory);
    assert forall i :: 0 <= i < |s.finished| ==> s.finished[i] == s.accepted[i];
    if s.worker == Idle && s.queue == [] {
      assert s.finished + [] == s.finished;
    }
  }

  /** Once finished, a job stays as it is; progress never goes back; nothing accepted or finished is forgotten. */
  lemma StepIsMonotone(s: State, op: Op, maxHistory: nat)
    requires Inv(s, maxHistory)
    ensures var t := Step(s, op, maxHistory);
            && s.accepted <= t.accepted && s.finished <= t.finished
            && (forall id :: id in s.jobs ==> id in t.jobs && s.jobs[id].progress <= t.jobs[id].progress)
            && (forall id :: id in s.finished ==> id in s.jobs && id in t.jobs && t.jobs[id] == s.jobs[id])
  {
    if s.worker != Idle {
      WorkerHoldsNewJob(s, maxHistory);
    }
  }

  // ---- De-duplication ----

  ghost predicate OneJobPerQuery(jobs: map<JobId, Job>, pending: seq<JobId>) {
    forall i, j :: 0 <= i < j < |pending| && pending[i] in jobs && pending[j] in jobs ==>
      jobs[pending[i]].normalized != jobs[pending[j]].normalized
  }

  ghost predicate Unforced(ops: seq<Op>) {
    forall i :: 0 <= i < |ops| && ops[i].EnqueueOp? ==> !ops[i].request.force
  }

  lemma CreateKeepsOneJob(jobs: map<JobId, Job>, pending: seq<JobId>, id: JobId, job: Job)
    requires OneJobPerQuery(jobs, pending) && LastFor(jobs, pending, job.normalized) == None
    requires id !in jobs && forall x :: x in pending ==> x in jobs
    ensures OneJobPerQuery(jobs[id := job], pending + [id])
  {
    LastForIsLast(jobs, pending, job.normalized);
    assert forall i :: 0 <= i < |pending| ==> pending[i] in pending;
  }

  lemma EnqueueKeepsOneJob(s: State, r: Request, maxHistory: nat)
    requires Inv(s, maxHistory) && !r.force && r.id !in s.jobs
    requires OneJobPerQuery(s.jobs, Pending(s))
    ensures OneJobPerQuery(Enqueue(s, r).jobs, Pending(Enqueue(s, r)))
  {
    if Duplicate(s, r).None? {
      PendingJobsExist(s, maxHistory);
      ActiveIsPending(s, maxHistory);
      LastForIsLast(s.jobs, Pending(s), r.normalized);
      assert Lookup(s.queryToJob, r.normalized) == LastFor(s.jobs, Pending(s), r.normalized);
      CreateKeepsOneJob(s.jobs, Pending(s), r.id, NewJob(r));
      assert Pending(Enqueue(s, r)) == Pending(s) + [r.id];
    }
  }

  lemma SuffixKeepsOneJob(jobs: map<JobId, Job>, jobs': map<JobId, Job>, pending: seq<JobId>, from: nat)
    requires OneJobPerQuery(jobs, pending) && from <= |pending|
    requires forall x :: x in pending ==> x in jobs && x in jobs' && jobs'[x].normalized == jobs[x].normalized
    ensures OneJobPerQuery(jobs', pending[from..])
  {
    assert forall i :: 0 <= i < |pending| ==> pending[i] in pending;
  }

  lemma GetKeepsPending(s: State)
    requires s.worker == Idle && s.queue != []
    ensures Pending(Get(s)) == Pending(s)
  {
    assert [s.queue[0]] + s.queue[1..] == s.queue;
    assert [] + s.queue == s.queue;
  }

  lemma PendingTail(s: State)
    requires s.worker != Idle
    ensures Pending(s)[1..] == s.queue
  {
  }

  /** Apart from an accepted enqueue, a step leaves the pending jobs as they are or takes off the oldest. */
  lemma PendingAfterStep(s: State, op: Op, maxHistory: nat) returns (from: nat)
    requires Inv(s, maxHistory) && !op.EnqueueOp?
    ensures from <= |Pending(s)| && Pending(Step(s, op, maxHistory)) == Pending(s)[from..]
  {
    var t := Step(s, op, maxHistory);
    from := if op.FinishOp? && s.worker.Busy? then 1 else 0;
    if from == 1 {
      PendingTail(s);
      assert t.worker == Idle && t.queue == s.queue && [] + t.queue == t.queue;
    } else {
      if op.GetOp? && s.worker == Idle && s.queue != [] {
        GetKeepsPending(s);
      }
      assert Pending(t) == Pending(s) == Pending(s)[0..];
    }
  }

  lemma StepKeepsQueries(s: State, op: Op, maxHistory: nat)
    requires Inv(s, maxHistory) && !op.EnqueueOp?
    ensures forall x :: x in s.jobs ==>
              x in Step(s, op, maxHistory).jobs && Step(s, op, maxHistory).jobs[x].normalized == s.jobs[x].normalized
  {
  }

  lemma StepKeepsOneJob(s: State, op: Op, maxHistory: nat)
    requires Inv(s, maxHistory) && (op.EnqueueOp? ==> !op.request.force)
    requires OneJobPerQuery(s.jobs, Pending(s))
    ensures var t := Step(s, op, maxHistory); OneJobPerQuery(t.jobs, Pending(t))
  {
    if op.EnqueueOp? {
      if op.request.id !in s.jobs { EnqueueKeepsOneJob(s, op.request, maxHistory); }
    } else {
      var from := PendingAfterStep(s, op, maxHistory);
      StepKeepsQueries(s, op, maxHistory);
      PendingJobsExist(s, maxHistory);
      SuffixKeepsOneJob(s.jobs, Step(s, op, maxHistory).jobs, Pending(s), from);
    }
  }

  /** As long as nothing is forced, no query has two jobs queued or running at once. */
  lemma {:induction false} UnforcedRunsHaveOneJobPerQuery(ops: seq<Op>, maxHistory: nat)
    requires Unforced(ops)
    ensures var s := Run(ops, maxHistory);
            forall n, a, b :: ActiveFor(s, a, n) && ActiveFor(s, b, n) ==> a == b
    ensures var s := Run(ops, maxHistory); OneJobPerQuery(s.jobs, Pending(s))
  {
    var s := Run(ops, maxHistory);
    if ops != [] {
      var front := ops[..|ops| - 1];
      UnforcedRunsHaveOneJobPerQuery(front, maxHistory);
      RunKeepsInv(front, maxHistory);
      StepKeepsOneJob(Run(front, maxHistory), ops[|ops| - 1], maxHistory);
    }
    RunKeepsInv(ops, maxHistory);
    ActiveIsPending(s, maxHistory);
  }

  // ---- status() ----

  /** What a status request for a query is answered with. */
  function StatusByQuery(s: State, normalized: string): Option<JobId> {
    if normalized in s.queryToJob && s.queryToJob[normalized] in s.jobs then Some(s.queryToJob[normalized])
    else LastFor(s.jobs, s.history, normalized)
  }

  /**
   The answer names a job for that query: the last-created active one, or else the latest finished one among
   the last maxHistory; there is no answer exactly when neither exists.
   */
  lemma StatusIsLatest(ops: seq<Op>, maxHistory: nat, normalized: string)
    ensures var s := Run(ops, maxHistory);
            var pending := LastFor(s.jobs, Pending(s), normalized);
            StatusByQuery(s, normalized)
            == if pending.Some? then pending else LastFor(s.jobs, LastN(s.finished, maxHistory), normalized)
  {
    var s := Run(ops, maxHistory);
    RunKeepsInv(ops, maxHistory);
    assert Lookup(s.queryToJob, normalized) == LastFor(s.jobs, Pending(s), normalized);
    LastForIsLast(s.jobs, Pending(s), normalized);
  }

  // ---- What each operation does ----

  /** An unforced request is a duplicate exactly when an active job for its query exists, and is answered with one. */
  lemma DuplicateIffActive(s: State, r: Request, maxHistory: nat)
    requires Inv(s, maxHistory)
    ensures Duplicate(s, r).Some? <==> !r.force && exists id :: ActiveFor(s, id, r.normalized)
    ensures Duplicate(s, r).Some? ==> ActiveFor(s, Duplicate(s, r).value, r.normalized)
  {
    ActiveIsPending(s, maxHistory);
    LastForIsLast(s.jobs, Pending(s), r.normalized);
    var last := Lookup(s.queryToJob, r.normalized);
    assert last == LastFor(s.jobs, Pending(s), r.normalized);
    if id :| ActiveFor(s, id, r.normalized) {
      assert id in Pending(s) && last.Some?;
    }
    if last.Some? {
      assert ActiveFor(s, last.value, r.normalized);
    }
  }

  /**
   A request with a new id is accepted if and only if it is forced or its query has no active job. Accepted, it
   adds one queued job with what was asked for, at the end of the queue; otherwise nothing changes.
   */
  lemma EnqueueAcceptsIff(ops: seq<Op>, maxHistory: nat, r: Request)
    requires r.id !in Run(ops, maxHistory).jobs && r.id != "" && r.normalized != ""
    ensures var s, t := Run(ops, maxHistory), Step(Run(ops, maxHistory), EnqueueOp(r), maxHistory);
            if r.force || !exists id :: ActiveFor(s, id, r.normalized) then
              t == s.(jobs := s.jobs[r.id := Job(r.query, r.normalized, Queued, "queued", 0, r.budget, r.depth, r.force)],
                      queryToJob := s.queryToJob[r.normalized := r.id],
                      queue := s.queue + [r.id], accepted := s.accepted + [r.id])
            else t == s
  {
    RunKeepsInv(ops, maxHistory);
    DuplicateIffActive(Run(ops, maxHistory), r, maxHistory);
  }

  lemma StartRuns(s: State, maxHistory: nat, id: JobId)
    requires s.worker == Got(id) && id in s.jobs
    ensures Step(s, StartOp, maxHistory)
            == s.(worker := Busy(id), jobs := s.jobs[id := s.jobs[id].(state := Running, stage := "starting")])
  {
  }

  /** A job that ran is done or failed as the crawl went. */
  lemma FinishEnds(s: State, maxHistory: nat, id: JobId, ok: bool)
    requires s.worker == Busy(id) && id in s.jobs
    ensures var t := Step(s, FinishOp(ok), maxHistory);
            && t.worker == Idle && t.queue == s.queue && t.finished == s.finished + [id]
            && t.jobs == s.jobs[id := t.jobs[id]] && t.jobs[id].state == (if ok then Done else Failed)
            && t.jobs[id].progress == (if ok then 100 else Max(1, s.jobs[id].progress))
  {
  }

  /** An idle worker with work to do takes the oldest job, runs it and finishes it, done or failed as the crawl went. */
  lemma OldestJobFinishes(ops: seq<Op>, maxHistory: nat, ok: bool)
    requires Run(ops, maxHistory).worker == Idle && Run(ops, maxHistory).queue != []
    ensures var s := Run(ops, maxHistory);
            var id, got := s.queue[0], Step(s, GetOp, maxHistory);
            var running := Step(got, StartOp, maxHistory);
            var t := Step(running, FinishOp(ok), maxHistory);
            && got == s.(worker := Got(id), queue := s.queue[1..])
            && id in s.jobs && running == got.(worker := Busy(id), jobs := running.jobs)
            && running.jobs == s.jobs[id := s.jobs[id].(state := Running, stage := "starting")]
            && t.worker == Idle && t.queue == s.queue[1..] && t.finished == s.finished + [id]
            && id in t.jobs && t.jobs == s.jobs[id := t.jobs[id]] && t.jobs[id].state == (if ok then Done else Failed)
            && t.jobs[id].progress == (if ok then 100 else Max(1, s.jobs[id].progress))
  {
    var s := Run(ops, maxHistory);
    var id := s.queue[0];
    assert id in s.jobs by {
      RunKeepsInv(ops, maxHistory);
      PendingJobsExist(s, maxHistory);
      assert id in Pending(s);
    }
    var got := Step(s, GetOp, maxHistory);
    assert got == s.(worker := Got(id), queue := s.queue[1..]);
    StartRuns(got, maxHistory, id);
    FinishEnds(Step(got, StartOp, maxHistory), maxHistory, id, ok);
  }

  /** The stages of a refresh in the order in which the pipeline reports them. */
  const PIPELINE: seq<string> :=
    ["starting", "frontier_start", "frontier_complete", "crawl_start", "crawl_complete",
     "normalize_start", "normalize_complete", "index_start", "index_complete"]

  /** Each stage of the pipeline is further on than the one before, from 5 to 95. */
  lemma PipelineAscends(i: nat, j: nat)
    requires i < j < |PIPELINE|
    ensures StageProgress(PIPELINE[i]).Some? && StageProgress(PIPELINE[j]).Some?
    ensures 5 <= StageProgress(PIPELINE[i]).value < StageProgress(PIPELINE[j]).value <= 95
    ensures StageProgress("starting") == Some(5) && StageProgress("index_complete") == StageProgress("index_skipped") == Some(95)
  {
  }

  /** A stage that is known brings the running job at least as far, and no further than it was or the stage says. */
  lemma ProgressReaches(ops: seq<Op>, maxHistory: nat, stage: string)
    requires Run(ops, maxHistory).worker.Busy?
    ensures var s, t := Run(ops, maxHistory), Step(Run(ops, maxHistory), ProgressOp(stage), maxHistory);
            var id := s.worker.id;
            && id in s.jobs && t == s.(jobs := s.jobs[id := t.jobs[id]]) && t.jobs[id].stage == stage
            && t.jobs[id].state == Running
            && (match StageProgress(stage)
                case None => t.jobs[id].progress == s.jobs[id].progress
                case Some(p) => t.jobs[id].progress >= p && t.jobs[id].progress >= s.jobs[id].progress
                                && (t.jobs[id].progress == p || t.jobs[id].progress == s.jobs[id].progress))
  {
    RunKeepsInv(ops, maxHistory);
  }

  // ---- The object ----

  datatype Reply = Rejected | Existing(id: JobId) | Created(id: JobId)

  const DEFAULT_FRONTIER_DEPTH := 4

  class RefreshWorker {
    const maxHistory: nat
    const focusedBudget: int
    const normalize: string -> string
    var jobs: map<JobId, Job>
    var queryToJob: map<string, JobId>
    var queue: seq<JobId>
    var history: seq<JobId>
    var worker: Worker
    ghost var accepted: seq<JobId>
    ghost var finished: seq<JobId>

    ghost function View(): State
      reads this
    {
      State(jobs, queryToJob, queue, history, worker, accepted, finished)
    }

    constructor (maxHistory: nat, focusedBudget: int, normalize: string -> string)
      ensures View() == INITIAL
      ensures this.maxHistory == maxHistory && this.focusedBudget == focusedBudget && this.normalize == normalize
    {
      this.maxHistory, this.focusedBudget, this.normalize := maxHistory, focusedBudget, normalize;
      jobs, queryToJob, queue, history, worker := map[], map[], [], [], Idle;
      accepted, finished := [], [];
    }

    /** `id` is the drawn uuid, or the id of a resumed job; both are new to this process. */
    method EnqueueQuery(id: JobId, query: string, force: bool, budget: Option<int>, depth: Option<int>)
      returns (reply: Reply)
      requires id !in jobs && id != ""
      modifies this
      ensures var bad := normalize(query) == "" || (budget.Some? && budget.value <= 0) || (depth.Some? && depth.value <= 0);
              var request := Request(id, query, normalize(query), force,
                                     if budget.Some? then budget.value else Max(1, focusedBudget),
                                     if depth.Some? then depth.value else DEFAULT_FRONTIER_DEPTH);
              var duplicate := Duplicate(old(View()), request);
              && View() == (if bad then old(View()) else Step(old(View()), EnqueueOp(request), maxHistory))
              && reply == (if bad then Rejected else if duplicate.Some? then Existing(duplicate.value) else Created(id))
      ensures Inv(old(View()), maxHistory) && reply != Rejected ==>
                && (reply == Created(id) <==> force || !exists x :: ActiveFor(old(View()), x, normalize(query)))
                && (reply.Existing? ==> !force && ActiveFor(old(View()), reply.id, normalize(query)))
      ensures reply == Created(id) ==> queue == old(queue) + [id] && accepted == old(accepted) + [id]
      ensures reply != Created(id) ==> View() == old(View())
    {
      if Inv(View(), maxHistory) {
        DuplicateIffActive(View(), Request(id, query, normalize(query), force, 0, 0), maxHistory);
      }
      var normalized := normalize(query);
      if normalized == "" { return Rejected; }
      if budget.Some? && budget.value <= 0 { return Rejected; }
      if depth.Some? && depth.value <= 0 { return Rejected; }
      var effectiveBudget := if budget.Some? then budget.value else Max(1, focusedBudget);
      var frontierDepth := if depth.Some? then depth.value else DEFAULT_FRONTIER_DEPTH;
      if normalized in queryToJob && !force {
        var existing := queryToJob[normalized];
        if existing in jobs && jobs[existing].Active() {
          return Existing(existing);
        }
      }
      jobs := jobs[id := Job(query, normalized, Queued, "queued", 0, effectiveBudget, frontierDepth, force)];
      queryToJob := queryToJob[normalized := id];
      queue := queue + [id];
      accepted := accepted + [id];
      reply := Created(id);
    }

    /** queue.get() in the worker loop; it blocks while the queue is empty. */
    method GetJob()
      requires worker == Idle && queue != []
      modifies this
      ensures View() == Step(old(View()), GetOp, maxHistory)
    {
      worker, queue := Got(queue[0]), queue[1..];
    }

    /** The first critical section of _run_job. */
    method StartJob()
      requires worker.Got?
      modifies this
      ensures old(worker.id) in old(jobs) ==> View() == Step(old(View()), StartOp, maxHistory)
      ensures old(worker.id) !in old(jobs) ==> View() == old(View()).(worker := Idle)
    {
      var id := worker.id;
      if id !in jobs {
        worker := Idle;
        return;
      }
      jobs := jobs[id := jobs[id].(state := Running, stage := "starting")];
      worker := Busy(id);
    }

    /** _handle_progress */
    method HandleProgress(stage: string)
      requires worker.Busy?
      modifies this
      ensures View() == Step(old(View()), ProgressOp(stage), maxHistory)
    {
      var id := worker.id;
      if id !in jobs || jobs[id].state == Failed { return; }
      var job := jobs[id].(stage := stage);
      var increment := StageProgress(stage);
      if increment.Some? {
        job := job.(progress := Max(job.progress, increment.value));
      }
      jobs := jobs[id := job];
    }

    /** The last critical section of _run_job, or _mark_error when the crawl raised. */
    method FinishJob(ok: bool)
      requires worker.Busy? && worker.id in jobs
      modifies this
      ensures View() == Step(old(View()), FinishOp(ok), maxHistory)
    {
      var id := worker.id;
      var job := jobs[id];
      if ok {
        job := job.(state := Done, stage := "complete", progress := 100);
      } else {
        job := job.(state := Failed, stage := "error", progress := Max(job.progress, 1));
      }
      jobs := jobs[id := job];
      history := history + [id];
      if |history| > maxHistory {
        history := history[|history| - maxHistory..];
      }
      if job.normalized != "" && job.normalized in queryToJob && queryToJob[job.normalized] == id {
        queryToJob := queryToJob - {job.normalized};
      }
      finished := finished + [id];
      worker := Idle;
    }

    /** status(query = ...) */
    method Status(query: string) returns (id: Option<JobId>)
      ensures id == StatusByQuery(View(), normalize(query))
    {
      var normalized := normalize(query);
      if normalized in queryToJob && queryToJob[normalized] in jobs {
        return Some(queryToJob[normalized]);
      }
      assert history[..|history|] == history;
      var i := |history|;
      while i > 0
        invariant 0 <= i <= |history|
        invariant LastFor(jobs, history, normalized) == LastFor(jobs, history[..i], normalized)
      {
        assert history[..i][..i - 1] == history[..i - 1];
        i := i - 1;
        if history[i] in jobs && jobs[history[i]].normalized == normalized {
          return Some(history[i]);
        }
      }
      id := None;
    }
  }
}
