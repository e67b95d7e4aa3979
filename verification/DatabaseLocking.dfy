/**
 Any number of workers on the jobs table: locking the chosen row, updating it
 and committing are separate steps of each dequeue, and rows locked by others
 are skipped. An agent is one dequeue together with the job it yields.
 */
module DatabaseLocking {
  import opened Prelude
  import opened RetryBackoff
  import opened JobQueue

  type AgentId = nat

  datatype Agent =
    | Selected(id: JobId, attempts: nat)  // row locked, nothing written
    | Updated(id: JobId, attempts: nat)   // UPDATE issued, not committed
    | Working(id: JobId, attempts: nat, maxAttempts: nat)

  datatype State = State(
    rows: map<JobId, Row>,            // as committed
    locks: map<JobId, AgentId>,
    agents: map<AgentId, Agent>,
    holder: map<JobId, AgentId>,      // history: who has the job, from lock to outcome
    dequeues: map<JobId, nat>)        // history: committed dequeues

  const START := State(map[], map[], map[], map[], map[])

  datatype Step =
    | InsertJob(id: JobId, row: Row)
    | SelectForUpdate(agent: AgentId, id: JobId, now: int)
    | SelectNothing(agent: AgentId, now: int)
    | UpdateRow(agent: AgentId)
    | Commit(agent: AgentId)
    | Rollback(agent: AgentId)
    | FinishOk(agent: AgentId)
    | FinishErr(agent: AgentId, error: string, now: int)

  predicate InTransaction(s: State, a: AgentId) {
    a in s.agents && !s.agents[a].Working?
  }

  predicate IsWorking(s: State, a: AgentId) {
    a in s.agents && s.agents[a].Working?
  }

  /** Due rows that `SKIP LOCKED` does not skip. */
  function Available(s: State, now: int): set<JobId> {
    set id | id in s.rows && IsDue(s.rows[id], now) && id !in s.locks
  }

  ghost predicate Enabled(s: State, step: Step) {
    match step
    case InsertJob(id, row) => id !in s.rows && row.status == Pending && row.attempts == 0
    case SelectForUpdate(a, id, now) =>
      && a !in s.agents && id in Available(s, now)
      && forall other :: other in Available(s, now) ==> s.rows[id].runAt <= s.rows[other].runAt
    case SelectNothing(a, now) => a !in s.agents && Available(s, now) == {}
    case UpdateRow(a) => a in s.agents && s.agents[a].Selected?
    case Commit(a) => a in s.agents && s.agents[a].Updated?
    case Rollback(a) => InTransaction(s, a)
    // a plain UPDATE waits for whoever has the row locked
    case FinishOk(a) => IsWorking(s, a) && s.agents[a].id !in s.locks
    case FinishErr(a, _, _) => IsWorking(s, a) && s.agents[a].id !in s.locks
  }

  function WithStatus(rows: map<JobId, Row>, id: JobId, status: JobStatus): map<JobId, Row> {
    if id in rows then rows[id := rows[id].(status := status)] else rows
  }

  function Failing(rows: map<JobId, Row>, id: JobId, error: string, retryAt: Option<int>, now: int): map<JobId, Row> {
    if id !in rows then rows
    else
      match retryAt
      case Some(at) => rows[id := rows[id].(status := Retrying, error := Some(error), runAt := at)]
      case None => rows[id := rows[id].(status := Failed, error := Some(error), failedAt := Some(now))]
  }

  ghost function Apply(retryDelay: nat, s: State, step: Step): State
    requires Enabled(s, step)
  {
    match step
    case InsertJob(id, row) => s.(rows := s.rows[id := row], dequeues := s.dequeues[id := 0])
    case SelectForUpdate(a, id, _) =>
      s.(locks := s.locks[id := a], holder := s.holder[id := a],
         agents := s.agents[a := Selected(id, s.rows[id].attempts)])
    case SelectNothing(_, _) => s
    case UpdateRow(a) => s.(agents := s.agents[a := Updated(s.agents[a].id, s.agents[a].attempts + 1)])
    case Commit(a) =>
      var id, attempts := s.agents[a].id, s.agents[a].attempts;
      if id !in s.rows then s
      else
        s.(rows := s.rows[id := s.rows[id].(status := Running, attempts := attempts)],
           locks := s.locks - {id},
           dequeues := s.dequeues[id := (if id in s.dequeues then s.dequeues[id] else 0) + 1],
           agents := s.agents[a := Working(id, attempts, s.rows[id].maxAttempts)])
    case Rollback(a) =>
      var id := s.agents[a].id;
      s.(locks := s.locks - {id}, holder := s.holder - {id}, agents := s.agents - {a})
    case FinishOk(a) =>
      var id := s.agents[a].id;
      s.(rows := WithStatus(s.rows, id, Completed), holder := s.holder - {id}, agents := s.agents - {a})
    case FinishErr(a, error, now) =>
      var w := s.agents[a];
      s.(rows := Failing(s.rows, w.id, error, RetryAt(w.attempts, w.maxAttempts, retryDelay, now), now),
         holder := s.holder - {w.id}, agents := s.agents - {a})
  }

  ghost predicate Next(retryDelay: nat, s: State, step: Step, t: State) {
    Enabled(s, step) && t == Apply(retryDelay, s, step)
  }

  ghost predicate IsRun(retryDelay: nat, steps: seq<Step>, trace: seq<State>) {
    && |trace| == |steps| + 1
    && trace[0] == START
    && forall i :: 0 <= i < |steps| ==> Next(retryDelay, trace[i], steps[i], trace[i + 1])
  }

  // ── Invariant ──────────────────────────────────────────────────────────────

  predicate IsQueued(row: Row) {
    row.status == Pending || row.status == Retrying
  }

  /** An agent has its job to itself, and knows the row's number of attempts. */
  ghost predicate AgentOk(s: State, a: AgentId) {
    a in s.agents ==>
      var id := s.agents[a].id;
      && id in s.rows
      && id in s.holder && s.holder[id] == a
      && match s.agents[a]
         case Selected(_, n) => id in s.locks && s.locks[id] == a && IsQueued(s.rows[id]) && n == s.rows[id].attempts
         case Updated(_, n) => id in s.locks && s.locks[id] == a && IsQueued(s.rows[id]) && n == s.rows[id].attempts + 1
         case Working(_, n, m) =>
           id !in s.locks && s.rows[id].status == Running && n == s.rows[id].attempts && m == s.rows[id].maxAttempts
  }

  ghost predicate JobOk(s: State, id: JobId) {
    && (id in s.locks ==> id in s.holder && s.locks[id] == s.holder[id])
    && (id in s.holder ==> s.holder[id] in s.agents && s.agents[s.holder[id]].id == id)
    && (id in s.dequeues <==> id in s.rows)
    && (id in s.rows ==>
          var row := s.rows[id];
          && row.attempts == s.dequeues[id]
          && (IsQueued(row) ==> row.attempts < Allowance(row.maxAttempts))
          && row.attempts <= Allowance(row.maxAttempts)
          && (row.status == Running ==> row.attempts >= 1)
          && (row.status == Failed ==> row.attempts == Allowance(row.maxAttempts)))
  }

  ghost predicate Inv(s: State) {
    (forall a :: AgentOk(s, a)) && (forall id :: JobOk(s, id))
  }

  lemma AgentKept(d: nat, s: State, step: Step, a: AgentId)
    requires Inv(s) && Enabled(s, step)
    ensures AgentOk(Apply(d, s, step), a)
  {
    assert AgentOk(s, a);
    if a in s.agents {
      assert JobOk(s, s.agents[a].id);
    }
    match step {
      case SelectForUpdate(b, id, _) => assert JobOk(s, id);
      case Commit(b) => assert AgentOk(s, b);
      case Rollback(b) => assert AgentOk(s, b);
      case FinishOk(b) => assert AgentOk(s, b);
      case FinishErr(b, _, _) => assert AgentOk(s, b);
      case UpdateRow(b) => assert AgentOk(s, b);
      case _ =>
    }
  }

  lemma JobKept(d: nat, s: State, step: Step, id: JobId)
    requires Inv(s) && Enabled(s, step)
    ensures JobOk(Apply(d, s, step), id)
  {
    assert JobOk(s, id);
    match step {
      case Commit(b) => assert AgentOk(s, b);
      case Rollback(b) => assert AgentOk(s, b);
      case FinishOk(b) => assert AgentOk(s, b);
      case FinishErr(b, _, _) => assert AgentOk(s, b);
      case UpdateRow(b) => assert AgentOk(s, b);
      case _ =>
    }
  }

  lemma {:induction false} RunKeepsInv(d: nat, steps: seq<Step>, trace: seq<State>, n: nat)
    requires IsRun(d, steps, trace) && n <= |steps|
    ensures Inv(trace[n])
  {
    if n > 0 {
      RunKeepsInv(d, steps, trace, n - 1);
      assert Next(d, trace[n - 1], steps[n - 1], trace[n]);
      forall a
        ensures AgentOk(trace[n], a)
      {
        AgentKept(d, trace[n - 1], steps[n - 1], a);
      }
      forall id
        ensures JobOk(trace[n], id)
      {
        JobKept(d, trace[n - 1], steps[n - 1], id);
      }
    }
  }

  // ── Consequences ───────────────────────────────────────────────────────────

  /** Whatever the interleaving, no job is ever in the hands of two workers. */
  lemma NeverTwoWorkers(d: nat, steps: seq<Step>, trace: seq<State>, n: nat, a: AgentId, b: AgentId)
    requires IsRun(d, steps, trace) && n <= |steps|
    requires a in trace[n].agents && b in trace[n].agents && a != b
    ensures trace[n].agents[a].id != trace[n].agents[b].id
  {
    RunKeepsInv(d, steps, trace, n);
    assert AgentOk(trace[n], a) && AgentOk(trace[n], b);
  }

  /** The attempts column counts committed dequeues, within the job's allowance, which a failed job has used up. */
  lemma AttemptsCountDequeues(d: nat, steps: seq<Step>, trace: seq<State>, n: nat, id: JobId)
    requires IsRun(d, steps, trace) && n <= |steps| && id in trace[n].rows
    ensures var s := trace[n];
            && id in s.dequeues && s.rows[id].attempts == s.dequeues[id]
            && s.rows[id].attempts <= Allowance(s.rows[id].maxAttempts)
            && (s.rows[id].status == Failed ==> s.dequeues[id] == Allowance(s.rows[id].maxAttempts))
  {
    RunKeepsInv(d, steps, trace, n);
    assert JobOk(trace[n], id);
  }

  /** A worker reporting an outcome never finds its row locked, so the report never waits. */
  lemma OutcomesNeverWait(d: nat, steps: seq<Step>, trace: seq<State>, n: nat, a: AgentId, error: string, now: int)
    requires IsRun(d, steps, trace) && n <= |steps| && IsWorking(trace[n], a)
    ensures Enabled(trace[n], FinishOk(a)) && Enabled(trace[n], FinishErr(a, error, now))
  {
    RunKeepsInv(d, steps, trace, n);
    assert AgentOk(trace[n], a);
  }

  /** Locks only ever cover rows still waiting to be run. */
  lemma DequeueTakesEarliest(d: nat, steps: seq<Step>, trace: seq<State>, n: nat)
    requires IsRun(d, steps, trace) && n < |steps| && steps[n].SelectForUpdate?
    ensures var s, id, now := trace[n], steps[n].id, steps[n].now;
            && id in s.rows && s.rows[id].runAt <= now
            && (forall a :: a in s.agents ==> s.agents[a].id != id)
            && (forall other :: other in Due(s.rows, now) && s.rows[other].runAt < s.rows[id].runAt ==>
                  exists a :: a in s.agents && s.agents[a].id == other && InTransaction(s, a))
  {
    RunKeepsInv(d, steps, trace, n);
    var s, id, now := trace[n], steps[n].id, steps[n].now;
    assert Next(d, s, steps[n], trace[n + 1]);
    forall a | a in s.agents
      ensures s.agents[a].id != id
    {
      assert AgentOk(s, a);
    }
    forall other | other in Due(s.rows, now) && s.rows[other].runAt < s.rows[id].runAt
      ensures exists a :: a in s.agents && s.agents[a].id == other && InTransaction(s, a)
    {
      assert other !in Available(s, now);
      assert JobOk(s, other);
      assert AgentOk(s, s.locks[other]);
    }
  }

  /** What a reported outcome leaves in the table. */
  lemma OutcomeFields(d: nat, s: State, step: Step)
    requires Inv(s) && Enabled(s, step) && (step.FinishOk? || step.FinishErr?)
    ensures var id, t := s.agents[step.agent].id, Apply(d, s, step);
            && id in s.rows && id in t.rows && t.rows - {id} == s.rows - {id}
            && step.agent !in t.agents && id !in t.holder
            && var row, was := t.rows[id], s.rows[id];
               if step.FinishOk? then row == was.(status := Completed)
               else if was.attempts < was.maxAttempts then
                 row == was.(status := Retrying, error := Some(step.error),
                             runAt := step.now + RetryDelay(d, was.attempts))
               else row == was.(status := Failed, error := Some(step.error), failedAt := Some(step.now))
  {
    assert AgentOk(s, step.agent);
  }

  lemma RunAtKept(d: nat, s: State, step: Step, id: JobId)
    requires Inv(s) && Enabled(s, step) && id in s.rows
    requires !(step.FinishErr? && s.agents[step.agent].id == id)
    ensures id in Apply(d, s, step).rows && Apply(d, s, step).rows[id].runAt == s.rows[id].runAt
  {
  }

  /** Between two failures of a job its `run_at` stays as it is. */
  lemma {:induction false} RunAtStays(d: nat, steps: seq<Step>, trace: seq<State>, i: nat, j: nat, id: JobId)
    requires IsRun(d, steps, trace) && i <= j <= |steps| && id in trace[i].rows
    requires forall k :: i <= k < j && steps[k].FinishErr? && steps[k].agent in trace[k].agents ==>
               trace[k].agents[steps[k].agent].id != id
    ensures id in trace[j].rows && trace[j].rows[id].runAt == trace[i].rows[id].runAt
    decreases j
  {
    if i < j {
      RunAtStays(d, steps, trace, i, j - 1, id);
      RunKeepsInv(d, steps, trace, j - 1);
      assert Next(d, trace[j - 1], steps[j - 1], trace[j]);
      RunAtKept(d, trace[j - 1], steps[j - 1], id);
    }
  }

  /** A job that failed and is to be retried is not taken again before its retry time. */
  lemma RetryIsNotEarly(d: nat, steps: seq<Step>, trace: seq<State>, i: nat, j: nat, id: JobId)
    requires IsRun(d, steps, trace) && i < j < |steps|
    requires steps[i].FinishErr? && steps[i].agent in trace[i].agents && trace[i].agents[steps[i].agent].id == id
    requires steps[j].SelectForUpdate? && steps[j].id == id
    requires forall k :: i < k < j && steps[k].FinishErr? && steps[k].agent in trace[k].agents ==>
               trace[k].agents[steps[k].agent].id != id
    ensures id in trace[i].rows && ShouldRetry(trace[i].rows[id].attempts, trace[i].rows[id].maxAttempts)
    ensures steps[j].now >= steps[i].now + RetryDelay(d, trace[i].rows[id].attempts)
  {
    RunKeepsInv(d, steps, trace, i);
    RunKeepsInv(d, steps, trace, i + 1);
    assert AgentOk(trace[i], steps[i].agent);
    assert Next(d, trace[i], steps[i], trace[i + 1]);
    assert Next(d, trace[j], steps[j], trace[j + 1]);
    if ShouldRetry(trace[i].rows[id].attempts, trace[i].rows[id].maxAttempts) {
      RunAtStays(d, steps, trace, i + 1, j, id);
    } else {
      FailedStays(d, steps, trace, i + 1, j, id);
    }
  }

  /** A job given up is never taken again. */
  lemma {:induction false} FailedStays(d: nat, steps: seq<Step>, trace: seq<State>, i: nat, j: nat, id: JobId)
    requires IsRun(d, steps, trace) && i <= j <= |steps|
    requires id in trace[i].rows && trace[i].rows[id].status == Failed
    ensures id in trace[j].rows && trace[j].rows[id].status == Failed
    decreases j
  {
    if i < j {
      FailedStays(d, steps, trace, i, j - 1, id);
      RunKeepsInv(d, steps, trace, j - 1);
      var s, step := trace[j - 1], steps[j - 1];
      assert Next(d, s, step, trace[j]);
      if !step.InsertJob? {
        assert AgentOk(s, step.agent);
      }
    }
  }

  // ── Refinement of the abstract queue ───────────────────────────────────────

  /** The same abstract queue the in-memory backend implements; locking is invisible in it. */
  ghost function QueueStep(s: State, step: Step): Queue
    requires Enabled(s, step)
  {
    var q := RowJobs(s.rows);
    match step
    case InsertJob(id, row) => q[id := Job(Queued, 0, row.maxAttempts)]
    case Commit(a) => if s.agents[a].id in q then Taken(q, s.agents[a].id) else q
    case FinishOk(a) => Settled(q, s.agents[a].id, true)
    case FinishErr(a, _, _) => Settled(q, s.agents[a].id, false)
    case _ => q
  }

  lemma StepRefinesQueue(d: nat, s: State, step: Step)
    requires Inv(s) && Enabled(s, step)
    ensures RowJobs(Apply(d, s, step).rows) == QueueStep(s, step)
  {
    if !step.InsertJob? {
      assert AgentOk(s, step.agent);
    }
  }
}
