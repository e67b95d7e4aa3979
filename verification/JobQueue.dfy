/**
 One abstract job queue, and the two backends that implement it. Each backend
 method is proved to be an operation of the abstract queue.
 */
module JobQueue {
  import opened Prelude
  import opened RetryBackoff

  type JobId = Uuid

  datatype JobStatus = Pending | Running | Completed | Failed | Retrying

  datatype JobEnvelope = JobEnvelope(
    id: JobId,
    jobType: string,
    payload: string,
    status: JobStatus,
    attempts: nat,
    maxAttempts: nat,
    runAt: int,
    error: Option<string>)

  // ── The abstract queue ─────────────────────────────────────────────────────

  datatype Phase = Queued | InProgress | Succeeded | GivenUp

  datatype Job = Job(phase: Phase, attempts: nat, maxAttempts: nat)

  type Queue = map<JobId, Job>

  function Added(q: Queue, env: JobEnvelope): Queue {
    q[env.id := Job(PhaseOf(env.status), env.attempts, env.maxAttempts)]
  }

  function Taken(q: Queue, id: JobId): Queue
    requires id in q
  {
    q[id := q[id].(phase := InProgress, attempts := q[id].attempts + 1)]
  }

  /** A worker reports the outcome of a job it took; the retry decision depends on the queue alone. */
  function Settled(q: Queue, id: JobId, succeeded: bool): Queue {
    if id !in q then q
    else if succeeded then q[id := q[id].(phase := Succeeded)]
    else q[id := q[id].(phase := if ShouldRetry(q[id].attempts, q[id].maxAttempts) then Queued else GivenUp)]
  }

  function QueuedJobs(q: Queue): set<JobId> {
    set id | id in q && q[id].phase == Queued
  }

  function PhaseOf(status: JobStatus): Phase {
    match status
    case Pending => Queued
    case Retrying => Queued
    case Running => InProgress
    case Completed => Succeeded
    case Failed => GivenUp
  }

  // ── In-memory backend ──────────────────────────────────────────────────────

  ghost predicate DistinctIds(s: seq<JobEnvelope>) {
    forall i, j :: 0 <= i < j < |s| ==> s[i].id != s[j].id
  }

  ghost function Ids(s: seq<JobEnvelope>): set<JobId> {
    set i | 0 <= i < |s| :: s[i].id
  }

  /** The entries of the channel and the sends waiting for room are exactly the queued jobs. */
  ghost predicate QueuedIn(s: seq<JobEnvelope>, blocked: map<JobId, JobEnvelope>, jobs: Queue) {
    && DistinctIds(s)
    && Ids(s) !! blocked.Keys
    && (forall i :: 0 <= i < |s| ==> s[i].id in jobs && jobs[s[i].id] == Job(Queued, s[i].attempts, s[i].maxAttempts))
    && (forall id :: id in blocked ==>
          blocked[id].id == id && id in jobs && jobs[id] == Job(Queued, blocked[id].attempts, blocked[id].maxAttempts))
    && (forall id :: id in jobs && jobs[id].phase == Queued ==> id in Ids(s) + blocked.Keys)
  }

  /** The in-flight map holds exactly the jobs being worked on. */
  ghost predicate RunningIn(m: map<JobId, JobEnvelope>, jobs: Queue) {
    && (forall id :: id in m ==>
          m[id].id == id && id in jobs && jobs[id] == Job(InProgress, m[id].attempts, m[id].maxAttempts))
    && (forall id :: id in jobs && jobs[id].phase == InProgress ==> id in m)
  }

  lemma IdsAppend(s: seq<JobEnvelope>, env: JobEnvelope)
    ensures Ids(s + [env]) == Ids(s) + {env.id}
  {
    assert forall i :: 0 <= i < |s| ==> (s + [env])[i] == s[i];
    assert (s + [env])[|s|] == env;
  }

  lemma IdsTail(s: seq<JobEnvelope>)
    requires s != [] && DistinctIds(s)
    ensures Ids(s[1..]) == Ids(s) - {s[0].id}
  {
    forall id | id in Ids(s) && id != s[0].id
      ensures id in Ids(s[1..])
    {
      var i :| 0 <= i < |s| && s[i].id == id;
      assert s[1..][i - 1] == s[i];
    }
  }

  lemma {:induction false} CountIds(s: seq<JobEnvelope>)
    requires DistinctIds(s)
    ensures |Ids(s)| == |s|
  {
    if s == [] {
      assert Ids(s) == {};
    } else {
      CountIds(s[1..]);
      IdsTail(s);
      assert s[0].id in Ids(s);
    }
  }

  class ChannelBackend {
    const capacity: nat
    var buffer: seq<JobEnvelope>
    /** Envelopes whose `send` is waiting for room. */
    var blocked: map<JobId, JobEnvelope>
    var inFlight: map<JobId, JobEnvelope>
    /** Every job ever enqueued; the real backend forgets the finished ones. */
    ghost var jobs: Queue

    ghost predicate Valid()
      reads this
    {
      && |buffer| <= capacity
      && QueuedIn(buffer, blocked, jobs)
      && RunningIn(inFlight, jobs)
    }

    constructor (capacity: nat)
      ensures Valid() && jobs == map[] && this.capacity == capacity
    {
      this.capacity := capacity;
      buffer, blocked, inFlight, jobs := [], map[], map[], map[];
    }

    /** The `send` of `enqueue` and `fail`: it takes a place, or waits for one. */
    method Send(env: JobEnvelope)
      requires Valid() && (env.id in jobs ==> jobs[env.id].phase != Queued) && env.id !in inFlight
      modifies this`buffer, this`blocked, this`jobs
      ensures Valid() && jobs == old(jobs)[env.id := Job(Queued, env.attempts, env.maxAttempts)]
      ensures if old(|buffer| < capacity)
              then buffer == old(buffer) + [env] && blocked == old(blocked)
              else buffer == old(buffer) && blocked == old(blocked)[env.id := env]
    {
      IdsAppend(buffer, env);
      if |buffer| < capacity {
        buffer := buffer + [env];
      } else {
        blocked := blocked[env.id := env];
      }
      jobs := jobs[env.id := Job(Queued, env.attempts, env.maxAttempts)];
    }

    /** A waiting `send` completes; no job changes its phase. */
    method Unblock(id: JobId)
      requires Valid() && id in blocked && |buffer| < capacity
      modifies this`buffer, this`blocked
      ensures Valid()
      ensures buffer == old(buffer) + [old(blocked)[id]] && blocked == old(blocked) - {id}
    {
      IdsAppend(buffer, blocked[id]);
      buffer, blocked := buffer + [blocked[id]], blocked - {id};
    }

    method Enqueue(env: JobEnvelope)
      requires Valid() && env.id !in jobs && env.status == Pending
      modifies this`buffer, this`blocked, this`jobs
      ensures Valid() && jobs == Added(old(jobs), env)
      ensures if old(|buffer| < capacity)
              then buffer == old(buffer) + [env] && blocked == old(blocked)
              else buffer == old(buffer) && blocked == old(blocked)[env.id := env]
    {
      Send(env);
    }

    /** The queued jobs, but for those whose `send` still waits for room. */
    method PendingCount() returns (n: nat)
      requires Valid()
      ensures n == |buffer| && n + |blocked| == |QueuedJobs(jobs)|
    {
      CountIds(buffer);
      assert QueuedJobs(jobs) == Ids(buffer) + blocked.Keys;
      assert |blocked| == |blocked.Keys|;
      n := |buffer|;
    }

    /** First in, first out; nothing to give exactly when nothing is pending. */
    method Dequeue() returns (r: Option<JobEnvelope>)
      requires Valid()
      modifies this`buffer, this`inFlight, this`jobs
      ensures Valid()
      ensures r.None? <==> old(buffer) == []
      ensures r.None? ==> buffer == old(buffer) && jobs == old(jobs) && inFlight == old(inFlight)
      ensures r.Some? ==>
                var env := r.value;
                && env == old(buffer)[0].(attempts := old(buffer)[0].attempts + 1, status := Running)
                && buffer == old(buffer)[1..]
                && env.id in old(jobs) && old(jobs)[env.id].phase == Queued
                && jobs == Taken(old(jobs), env.id)
                && inFlight == old(inFlight)[env.id := env]
    {
      if buffer == [] {
        return None;
      }
      var env := buffer[0];
      env := env.(attempts := env.attempts + 1, status := Running);
      IdsTail(buffer);
      buffer := buffer[1..];
      inFlight := inFlight[env.id := env];
      jobs := Taken(jobs, env.id);
      r := Some(env);
    }

    /** Forgets the job; an id not in flight is ignored. */
    method Acknowledge(id: JobId)
      requires Valid()
      modifies this`inFlight, this`jobs
      ensures Valid() && inFlight == old(inFlight) - {id}
      ensures jobs == if id in old(inFlight) then Settled(old(jobs), id, true) else old(jobs)
    {
      if id in inFlight {
        jobs := Settled(jobs, id, true);
      }
      inFlight := inFlight - {id};
    }

    /** Sends the job again when a retry is asked for and attempts remain; an id not in flight is ignored. */
    method Fail(id: JobId, error: string, retryAt: Option<int>)
      requires Valid()
      modifies this
      ensures Valid() && inFlight == old(inFlight) - {id}
      ensures if id !in old(inFlight) then jobs == old(jobs)
              else
                var env := old(inFlight)[id];
                var phase := if retryAt.Some? && ShouldRetry(env.attempts, env.maxAttempts) then Queued else GivenUp;
                jobs == old(jobs)[id := Job(phase, env.attempts, env.maxAttempts)]
      ensures if || id !in old(inFlight) || retryAt.None?
                 || !ShouldRetry(old(inFlight)[id].attempts, old(inFlight)[id].maxAttempts)
              then buffer == old(buffer) && blocked == old(blocked)
              else
                var again := old(inFlight)[id].(status := Retrying, error := Some(error));
                if old(|buffer| < capacity)
                then buffer == old(buffer) + [again] && blocked == old(blocked)
                else buffer == old(buffer) && blocked == old(blocked)[id := again]
    {
      if id in inFlight {
        var env := inFlight[id];
        inFlight := inFlight - {id};
        jobs := jobs[id := Job(GivenUp, env.attempts, env.maxAttempts)];
        if retryAt.Some? && env.attempts < env.maxAttempts {
          Send(env.(status := Retrying, error := Some(error)));
        }
      } else {
        assert inFlight - {id} == inFlight;
      }
    }
  }

  // ── Database backend ───────────────────────────────────────────────────────

  datatype Row = Row(
    jobType: string,
    payload: string,
    status: JobStatus,
    attempts: nat,
    maxAttempts: nat,
    runAt: int,
    failedAt: Option<int>,
    error: Option<string>)

  datatype QueueError = DuplicateId

  /** The values bound by the `INSERT`. */
  function RowOf(env: JobEnvelope): Row {
    Row(env.jobType, env.payload, env.status, env.attempts, env.maxAttempts, env.runAt, None, env.error)
  }

  /** `status IN ('pending', 'retrying') AND run_at <= NOW()` */
  predicate IsDue(row: Row, now: int) {
    IsWaiting(row.status) && row.runAt <= now
  }

  predicate IsWaiting(status: JobStatus)
    ensures IsWaiting(status) <==> status != Running && status != Completed && status != Failed
  {
    status == Pending || status == Retrying
  }

  /** The envelope handed to a worker says what the row says. */
  predicate Agrees(env: JobEnvelope, row: Row) {
    && env.jobType == row.jobType && env.payload == row.payload && env.status == row.status
    && env.attempts == row.attempts && env.maxAttempts == row.maxAttempts
    && env.runAt == row.runAt && env.error == row.error
  }

  function Due(rows: map<JobId, Row>, now: int): set<JobId> {
    set id | id in rows && IsDue(rows[id], now)
  }

  ghost predicate EarliestDue(rows: map<JobId, Row>, now: int, id: JobId) {
    && id in Due(rows, now)
    && forall other :: other in Due(rows, now) ==> rows[id].runAt <= rows[other].runAt
  }

  function RowJobs(rows: map<JobId, Row>): Queue {
    map id | id in rows :: Job(PhaseOf(rows[id].status), rows[id].attempts, rows[id].maxAttempts)
  }

  lemma DueIsQueued(rows: map<JobId, Row>, now: int)
    ensures |Due(rows, now)| <= |QueuedJobs(RowJobs(rows))|
    ensures (forall id :: id in rows ==> rows[id].runAt <= now) ==> Due(rows, now) == QueuedJobs(RowJobs(rows))
  {
    SubsetSize(Due(rows, now), QueuedJobs(RowJobs(rows)));
  }

  lemma DueIsWaiting(rows: map<JobId, Row>, now: int)
    ensures Due(rows, now) == set id | id in rows && IsWaiting(rows[id].status) && rows[id].runAt <= now
  {
  }

  lemma NobodyDue(rows: map<JobId, Row>, now: int)
    ensures Due(rows, now) == {} <==> forall id :: id in rows && IsWaiting(rows[id].status) ==> now < rows[id].runAt
  {
    if Due(rows, now) != {} {
      var id :| id in Due(rows, now);
      assert IsWaiting(rows[id].status);
    } else {
      forall id | id in rows && IsWaiting(rows[id].status)
        ensures now < rows[id].runAt
      {
        assert id !in Due(rows, now);
      }
    }
  }

  lemma EarliestOfAll(rows: map<JobId, Row>, now: int, id: JobId)
    requires EarliestDue(rows, now, id)
    ensures IsWaiting(rows[id].status) && rows[id].runAt <= now
    ensures forall other :: other in rows && IsWaiting(rows[other].status) ==> rows[id].runAt <= rows[other].runAt
  {
    forall other | other in rows && IsWaiting(rows[other].status)
      ensures rows[id].runAt <= rows[other].runAt
    {
      assert rows[other].runAt <= now ==> other in Due(rows, now);
    }
  }

  /** `ORDER BY run_at ASC LIMIT 1`: some row with the least time. */
  method SelectEarliest(rows: map<JobId, Row>, now: int) returns (r: Option<JobId>)
    ensures r.None? <==> Due(rows, now) == {}
    ensures r.Some? ==> EarliestDue(rows, now, r.value)
  {
    var remaining := Due(rows, now);
    if remaining == {} {
      return None;
    }
    var best :| best in remaining;
    while remaining != {}
      invariant remaining <= Due(rows, now) && best in Due(rows, now)
      invariant forall id :: id in Due(rows, now) - remaining ==> rows[best].runAt <= rows[id].runAt
      decreases |remaining|
    {
      var id :| id in remaining;
      if rows[id].runAt < rows[best].runAt {
        best := id;
      }
      remaining := remaining - {id};
    }
    r := Some(best);
  }

  class DatabaseBackend {
    var rows: map<JobId, Row>

    constructor ()
      ensures rows == map[]
    {
      rows := map[];
    }

    method Enqueue(env: JobEnvelope) returns (r: Result<(), QueueError>)
      modifies this
      ensures if env.id in old(rows) then r == Err(DuplicateId) && rows == old(rows)
              else
                && r == Ok(()) && RowJobs(rows) == Added(RowJobs(old(rows)), env)
                && rows == old(rows)[env.id := RowOf(env)]
      ensures r.Ok? <==> env.id !in old(rows)
      ensures r.Ok? ==> rows.Keys == old(rows.Keys) + {env.id} && rows - {env.id} == old(rows)
      ensures r.Ok? ==> rows[env.id].jobType == env.jobType && rows[env.id].payload == env.payload
      ensures r.Ok? ==> rows[env.id].status == env.status && rows[env.id].runAt == env.runAt
      ensures r.Ok? ==> rows[env.id].attempts == env.attempts && rows[env.id].maxAttempts == env.maxAttempts
      ensures r.Ok? ==> rows[env.id].error == env.error && rows[env.id].failedAt == None
    {
      if env.id in rows {
        return Err(DuplicateId);
      }
      rows := rows[env.id := RowOf(env)];
      r := Ok(());
    }

    /** `COUNT(*)`, as a scan of the table. */
    method PendingCount(now: int) returns (n: nat)
      ensures n == |Due(rows, now)|
      ensures n == |set id | id in rows && IsWaiting(rows[id].status) && rows[id].runAt <= now|
      ensures n <= |QueuedJobs(RowJobs(rows))|
      ensures (forall id :: id in rows ==> rows[id].runAt <= now) ==> n == |QueuedJobs(RowJobs(rows))|
    {
      n := 0;
      var remaining := rows.Keys;
      ghost var counted: set<JobId> := {};
      while remaining != {}
        invariant remaining <= rows.Keys && counted == Due(rows, now) - remaining && n == |counted|
        decreases |remaining|
      {
        var id :| id in remaining;
        if IsDue(rows[id], now) {
          n := n + 1;
          counted := counted + {id};
        }
        remaining := remaining - {id};
      }
      assert counted == Due(rows, now);
      DueIsWaiting(rows, now);
      DueIsQueued(rows, now);
    }

    /** With no row locked by another worker: the earliest due job, or nothing exactly when none is pending. */
    method Dequeue(now: int) returns (r: Option<JobEnvelope>)
      modifies this
      ensures r.None? <==> |Due(old(rows), now)| == 0
      ensures r.None? ==> rows == old(rows)
      ensures r.Some? ==>
                var env := r.value;
                && EarliestDue(old(rows), now, env.id)
                && old(rows)[env.id].runAt <= now
                && RowJobs(old(rows))[env.id].phase == Queued
                && RowJobs(rows) == Taken(RowJobs(old(rows)), env.id) && env.id in rows
                && rows == old(rows)[env.id := old(rows)[env.id].(status := Running, attempts := env.attempts)]
                && Agrees(env, rows[env.id])
      ensures r.None? <==> forall id :: id in old(rows) && IsWaiting(old(rows)[id].status) ==> now < old(rows)[id].runAt
      ensures r.Some? ==>
                var env := r.value;
                && env.id in old(rows)
                && var row := old(rows)[env.id];
                   && IsWaiting(row.status) && row.runAt <= now
                   && env == JobEnvelope(env.id, row.jobType, row.payload, Running, row.attempts + 1, row.maxAttempts,
                                         row.runAt, row.error)
                   && (forall id :: id in old(rows) && IsWaiting(old(rows)[id].status) ==>
                         row.runAt <= old(rows)[id].runAt)
    {
      var chosen := SelectEarliest(rows, now);
      NobodyDue(rows, now);
      if chosen.None? {
        return None;
      }
      var id := chosen.value;
      var row := rows[id];
      EarliestOfAll(rows, now, id);
      var newAttempts := row.attempts + 1;
      rows := rows[id := row.(status := Running, attempts := newAttempts)];
      r := Some(JobEnvelope(id, row.jobType, row.payload, Running, newAttempts, row.maxAttempts, row.runAt, row.error));
    }

    /** `UPDATE ... WHERE id = ?`: an unknown id updates nothing. */
    method Acknowledge(id: JobId)
      modifies this
      ensures RowJobs(rows) == Settled(RowJobs(old(rows)), id, true)
      ensures rows == if id in old(rows) then old(rows)[id := old(rows)[id].(status := Completed)] else old(rows)
    {
      if id in rows {
        rows := rows[id := rows[id].(status := Completed)];
      }
    }

    method Fail(id: JobId, error: string, retryAt: Option<int>, now: int)
      modifies this
      ensures id !in old(rows) ==> rows == old(rows)
      ensures id in old(rows) ==>
                var phase := if retryAt.Some? then Queued else GivenUp;
                RowJobs(rows) == RowJobs(old(rows))[id := RowJobs(old(rows))[id].(phase := phase)]
      ensures id in old(rows) ==>
                var row := old(rows)[id].(error := Some(error));
                rows == old(rows)[id := if retryAt.Some? then row.(status := Retrying, runAt := retryAt.value)
                                        else row.(status := Failed, failedAt := Some(now))]
    {
      if id in rows {
        match retryAt {
          case Some(at) => rows := rows[id := rows[id].(status := Retrying, error := Some(error), runAt := at)];
          case None => rows := rows[id := rows[id].(status := Failed, error := Some(error), failedAt := Some(now))];
        }
      }
    }
  }

  /** What workers and producers do to the table. */
  datatype TableOp =
    | Insert(env: JobEnvelope)
    | Take(now: int)
    | Complete(id: JobId)
    | Report(id: JobId, error: string, retryAt: Option<int>, now: int)

  /** The row still says what was enqueued. */
  ghost predicate StandsAs(rows: map<JobId, Row>, env: JobEnvelope) {
    && env.id in rows
    && rows[env.id].jobType == env.jobType && rows[env.id].payload == env.payload
    && rows[env.id].status == env.status && rows[env.id].runAt == env.runAt
    && rows[env.id].attempts == env.attempts && rows[env.id].maxAttempts == env.maxAttempts
    && rows[env.id].error == env.error
  }

  /** One operation: job `env` stays as it is until it is given out, and no later job is given out before it. */
  method Perform(backend: DatabaseBackend, op: TableOp, ghost env: JobEnvelope) returns (out: Option<JobEnvelope>)
    requires StandsAs(backend.rows, env) && env.status == Pending
    requires op.Complete? || op.Report? ==> op.id != env.id
    modifies backend
    ensures out.Some? ==> op.Take?
    ensures op.Take? && env.runAt <= op.now ==> out.Some? && out.value.runAt <= env.runAt
    ensures if out.Some? && out.value.id == env.id
            then out.value == env.(attempts := env.attempts + 1, status := Running) && env.runAt <= op.now
            else StandsAs(backend.rows, env)
  {
    out := None;
    match op {
      case Insert(other) => var inserted := backend.Enqueue(other);
      case Take(now) => out := backend.Dequeue(now);
      case Complete(id) => backend.Acknowledge(id);
      case Report(id, error, retryAt, now) => backend.Fail(id, error, retryAt, now);
    }
  }

  /**
   Enqueues a job and follows the table through `ops`, which report on other jobs
   only, until a worker is given the job: as it was enqueued, and in its turn.
   `given` lists what each operation gave out.
   */
  method EnqueueUntilTaken(backend: DatabaseBackend, env: JobEnvelope, ops: seq<TableOp>)
    returns (taken: Option<JobEnvelope>, given: seq<Option<JobEnvelope>>)
    requires env.id !in backend.rows && env.status == Pending
    requires forall i :: 0 <= i < |ops| && (ops[i].Complete? || ops[i].Report?) ==> ops[i].id != env.id
    modifies backend
    ensures |given| <= |ops|
    ensures taken.Some? ==>
              && taken.value == env.(attempts := env.attempts + 1, status := Running)
              && given != [] && given[|given| - 1] == taken
              && ops[|given| - 1].Take? && env.runAt <= ops[|given| - 1].now
    ensures taken.None? ==> |given| == |ops| && StandsAs(backend.rows, env)
    ensures forall i :: 0 <= i < |given| && ops[i].Take? && env.runAt <= ops[i].now ==>
              given[i].Some? && given[i].value.runAt <= env.runAt
    ensures forall i :: 0 <= i < |given| && given[i].Some? && given[i].value.id == env.id ==>
              i == |given| - 1 && given[i] == taken
  {
    var r := backend.Enqueue(env);
    taken, given := None, [];
    while |given| < |ops| && taken.None?
      invariant |given| <= |ops|
      invariant taken.None? ==> StandsAs(backend.rows, env)
      invariant taken.Some? ==>
                  && taken.value == env.(attempts := env.attempts + 1, status := Running)
                  && given != [] && given[|given| - 1] == taken
                  && ops[|given| - 1].Take? && env.runAt <= ops[|given| - 1].now
      invariant forall i :: 0 <= i < |given| && ops[i].Take? && env.runAt <= ops[i].now ==>
                  given[i].Some? && given[i].value.runAt <= env.runAt
      invariant forall i :: 0 <= i < |given| && given[i].Some? && given[i].value.id == env.id ==>
                  i == |given| - 1 && given[i] == taken
      decreases |ops| - |given|
    {
      var out := Perform(backend, ops[|given|], env);
      if out.Some? && out.value.id == env.id {
        taken := out;
      }
      given := given + [out];
    }
  }

  // ── The worker on top of either backend ────────────────────────────────────

  /**
   What the spawned task does once the handler has returned. The envelope is the
   copy `Dequeue` gave out; the backend still holds the same one.
   */
  method SettleOnChannel(backend: ChannelBackend, env: JobEnvelope, succeeded: bool, error: string, retryDelay: nat,
                         now: int)
    requires backend.Valid() && env.id in backend.inFlight && backend.inFlight[env.id] == env
    modifies backend
    ensures backend.Valid() && backend.jobs == Settled(old(backend.jobs), env.id, succeeded)
    ensures backend.inFlight == old(backend.inFlight) - {env.id}
    ensures succeeded || env.attempts >= env.maxAttempts ==>
              backend.buffer == old(backend.buffer) && backend.blocked == old(backend.blocked)
    ensures !succeeded && env.attempts < env.maxAttempts ==>
              var again := env.(status := Retrying, error := Some(error));
              if old(|backend.buffer| < backend.capacity)
              then backend.buffer == old(backend.buffer) + [again] && backend.blocked == old(backend.blocked)
              else backend.buffer == old(backend.buffer) && backend.blocked == old(backend.blocked)[env.id := again]
  {
    if succeeded {
      backend.Acknowledge(env.id);
    } else {
      var retryAt := RetryAt(env.attempts, env.maxAttempts, retryDelay, now);
      backend.Fail(env.id, error, retryAt);
    }
  }

  method SettleOnDatabase(backend: DatabaseBackend, env: JobEnvelope, succeeded: bool, error: string,
                          retryDelay: nat, now: int)
    requires env.id in backend.rows
    requires backend.rows[env.id].attempts == env.attempts && backend.rows[env.id].maxAttempts == env.maxAttempts
    modifies backend
    ensures RowJobs(backend.rows) == Settled(RowJobs(old(backend.rows)), env.id, succeeded)
    ensures env.id in backend.rows
    ensures !succeeded && ShouldRetry(env.attempts, env.maxAttempts) ==>
              backend.rows[env.id].runAt == now + RetryDelay(retryDelay, env.attempts)
    ensures backend.rows - {env.id} == old(backend.rows) - {env.id}
    ensures var row, was := backend.rows[env.id], old(backend.rows)[env.id];
            if succeeded then row == was.(status := Completed)
            else if env.attempts < env.maxAttempts then
              row == was.(status := Retrying, error := Some(error), runAt := row.runAt)
            else row == was.(status := Failed, error := Some(error), failedAt := Some(now))
  {
    if succeeded {
      backend.Acknowledge(env.id);
    } else {
      var retryAt := RetryAt(env.attempts, env.maxAttempts, retryDelay, now);
      backend.Fail(env.id, error, retryAt, now);
    }
  }
}
