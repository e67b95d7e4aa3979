/**
 One worker on the in-memory backend, with its polling loop, its permits and the
 tasks it spawns all running concurrently. A retried job may have to wait for
 room in the channel while its task still holds a permit.
 */
module ChannelWorker {
  import opened Prelude
  import opened Sums
  import opened RetryBackoff
  import opened JobQueue

  datatype Loop = Polling | HoldingPermit | Draining | Stopped

  datatype Task =
    | Executing(job: JobEnvelope)
    | Resending(job: JobEnvelope)  // inside `fail`, waiting for `send`
    | Ending                   // backend informed, permit not yet released

  type TaskId = nat

  /** Where a job is; while a task works on it, which one. */
  datatype Place = InChannel | InFlight(task: TaskId) | BeingResent(task: TaskId) | Finished | Abandoned

  datatype Params = Params(capacity: nat, concurrency: nat)

  datatype State = State(
    loop: Loop,
    free: nat,
    buffer: seq<JobEnvelope>,
    inFlight: map<JobId, JobEnvelope>,
    tasks: map<TaskId, Task>,
    nextTask: TaskId,
    // history: where each job is, how often it ran, how often it may
    place: map<JobId, Place>,
    runs: map<JobId, nat>,
    limit: map<JobId, nat>)

  function Start(p: Params): State {
    State(Polling, p.concurrency, [], map[], map[], 0, map[], map[], map[])
  }

  datatype Step =
    | Enqueue(job: JobEnvelope)
    | AcquirePermit
    | TakeJob
    | FindNothing
    | FinishOk(task: TaskId)
    | FinishErr(task: TaskId, error: string)
    | Resend(task: TaskId)
    | EndTask(task: TaskId)
    | Shutdown
    | Drained

  function TaskOf(s: State, t: TaskId): Task {
    if t in s.tasks then s.tasks[t] else Ending
  }

  predicate Enabled(p: Params, s: State, step: Step) {
    match step
    case Enqueue(job) => job.id !in s.place && job.attempts == 0 && job.status == Pending && |s.buffer| < p.capacity
    case AcquirePermit => s.loop.Polling? && s.free > 0
    case TakeJob => s.loop.HoldingPermit? && s.buffer != []
    case FindNothing => s.loop.HoldingPermit? && s.buffer == []
    case FinishOk(t) => TaskOf(s, t).Executing?
    case FinishErr(t, _) => TaskOf(s, t).Executing?
    case Resend(t) => TaskOf(s, t).Resending? && |s.buffer| < p.capacity
    case EndTask(t) => t in s.tasks && s.tasks[t].Ending?
    case Shutdown => s.loop.Polling?
    case Drained => s.loop.Draining? && s.free >= p.concurrency
  }

  /** The backend's `fail`: its own copy decides, together with the worker's `retry`. */
  function BackendFail(s: State, t: TaskId, id: JobId, error: string, retry: bool): State {
    if id !in s.inFlight then s.(tasks := s.tasks[t := Ending])
    else
      var mine := s.inFlight[id];
      if retry && ShouldRetry(mine.attempts, mine.maxAttempts) then
        var again := mine.(status := Retrying, error := Some(error));
        s.(inFlight := s.inFlight - {id},
           tasks := s.tasks[t := Resending(again)], place := s.place[id := BeingResent(t)])
      else
        s.(inFlight := s.inFlight - {id}, tasks := s.tasks[t := Ending], place := s.place[id := Abandoned])
  }

  function Apply(p: Params, s: State, step: Step): State
    requires Enabled(p, s, step)
  {
    match step
    case Enqueue(job) =>
      s.(buffer := s.buffer + [job], place := s.place[job.id := InChannel],
         runs := s.runs[job.id := 0], limit := s.limit[job.id := job.maxAttempts])
    case AcquirePermit => s.(loop := HoldingPermit, free := s.free - 1)
    case TakeJob =>
      var e := s.buffer[0].(attempts := s.buffer[0].attempts + 1, status := Running);
      s.(loop := Polling, buffer := s.buffer[1..], inFlight := s.inFlight[e.id := e],
         tasks := s.tasks[s.nextTask := Executing(e)], nextTask := s.nextTask + 1,
         place := s.place[e.id := InFlight(s.nextTask)],
         runs := s.runs[e.id := (if e.id in s.runs then s.runs[e.id] else 0) + 1])
    case FindNothing => s.(loop := Polling, free := s.free + 1)
    case FinishOk(t) =>
      var id := s.tasks[t].job.id;
      s.(inFlight := s.inFlight - {id}, tasks := s.tasks[t := Ending], place := s.place[id := Finished])
    case FinishErr(t, error) =>
      var e := s.tasks[t].job;
      BackendFail(s, t, e.id, error, ShouldRetry(e.attempts, e.maxAttempts))
    case Resend(t) =>
      var e := s.tasks[t].job;
      s.(buffer := s.buffer + [e], tasks := s.tasks[t := Ending], place := s.place[e.id := InChannel])
    case EndTask(t) => s.(tasks := s.tasks - {t}, free := s.free + 1)
    case Shutdown => s.(loop := Draining)
    case Drained => s.(loop := Stopped)
  }

  ghost predicate Next(p: Params, s: State, step: Step, t: State) {
    Enabled(p, s, step) && t == Apply(p, s, step)
  }

  ghost predicate IsRun(p: Params, steps: seq<Step>, trace: seq<State>) {
    && |trace| == |steps| + 1
    && trace[0] == Start(p)
    && forall i :: 0 <= i < |steps| ==> Next(p, trace[i], steps[i], trace[i + 1])
  }

  // ── Invariants ─────────────────────────────────────────────────────────────

  ghost predicate PermitInv(p: Params, s: State) {
    && s.free + |s.tasks| + (if s.loop.HoldingPermit? then 1 else 0) == p.concurrency
    && (s.loop.Stopped? ==> s.tasks == map[])
  }

  predicate Placed(s: State, id: JobId, at: Place) {
    id in s.place && s.place[id] == at
  }

  /** An entry tells the truth about its job. */
  ghost predicate Truthful(s: State, e: JobEnvelope) {
    && e.id in s.runs && e.id in s.limit
    && e.attempts == s.runs[e.id] && e.maxAttempts == s.limit[e.id]
  }

  ghost predicate EntryOk(s: State, e: JobEnvelope) {
    Placed(s, e.id, InChannel) && Truthful(s, e) && e.attempts < Allowance(e.maxAttempts)
  }

  /** A task and the backend agree on the job, and no other task has it. */
  ghost predicate TaskOk(s: State, t: TaskId) {
    t in s.tasks ==>
      && t < s.nextTask
      && match s.tasks[t]
         case Executing(e) =>
           && e.id in s.inFlight && s.inFlight[e.id] == e && Placed(s, e.id, InFlight(t))
           && Truthful(s, e) && 1 <= e.attempts <= Allowance(e.maxAttempts)
         case Resending(e) =>
           && Placed(s, e.id, BeingResent(t))
           && Truthful(s, e) && 1 <= e.attempts < e.maxAttempts
         case Ending => true
  }

  /** A job really is where the history says, and has run within its allowance. */
  ghost predicate JobOk(s: State, id: JobId) {
    && (id in s.inFlight ==> id in s.place && s.place[id].InFlight?)
    && (id in s.place ==>
          && id in s.runs && id in s.limit
          && match s.place[id]
             case InChannel => id in Ids(s.buffer)
             case InFlight(t) => t in s.tasks && s.tasks[t].Executing? && s.tasks[t].job.id == id
             case BeingResent(t) => t in s.tasks && s.tasks[t].Resending? && s.tasks[t].job.id == id
             case Finished => 1 <= s.runs[id] <= Allowance(s.limit[id])
             case Abandoned => s.runs[id] == Allowance(s.limit[id]))
  }

  ghost predicate BufferInv(p: Params, s: State) {
    && |s.buffer| <= p.capacity
    && DistinctIds(s.buffer)
    && forall i :: 0 <= i < |s.buffer| ==> EntryOk(s, s.buffer[i])
  }

  ghost predicate Inv(p: Params, s: State) {
    && PermitInv(p, s)
    && BufferInv(p, s)
    && (forall t :: TaskOk(s, t))
    && (forall id :: JobOk(s, id))
  }

  lemma PermitKept(p: Params, s: State, step: Step)
    requires PermitInv(p, s) && TaskOk(s, s.nextTask) && Enabled(p, s, step)
    ensures PermitInv(p, Apply(p, s, step))
  {
    if step.EndTask? {
      assert |s.tasks - {step.task}| == |s.tasks| - 1;
    }
  }

  /** The jobs a step touches: at most one. */
  ghost function Subject(p: Params, s: State, step: Step): Option<JobId>
    requires Enabled(p, s, step)
  {
    match step
    case Enqueue(job) => Some(job.id)
    case TakeJob => Some(s.buffer[0].id)
    case FinishOk(t) => Some(s.tasks[t].job.id)
    case FinishErr(t, _) => Some(s.tasks[t].job.id)
    case Resend(t) => Some(s.tasks[t].job.id)
    case _ => None
  }

  lemma FailTouchesOneJob(s: State, t: TaskId, job: JobId, error: string, retry: bool, id: JobId)
    requires id != job
    ensures var u := BackendFail(s, t, job, error, retry);
            && (id in u.place <==> id in s.place) && (id in s.place ==> u.place[id] == s.place[id])
            && u.runs == s.runs && u.limit == s.limit
            && (id in u.inFlight <==> id in s.inFlight) && (id in s.inFlight ==> u.inFlight[id] == s.inFlight[id])
  {
  }

  lemma OthersUntouched(p: Params, s: State, step: Step, id: JobId)
    requires Enabled(p, s, step) && Subject(p, s, step) != Some(id)
    ensures var u := Apply(p, s, step);
            && (id in u.place <==> id in s.place) && (id in s.place ==> u.place[id] == s.place[id])
            && (id in u.runs <==> id in s.runs) && (id in s.runs ==> u.runs[id] == s.runs[id])
            && (id in u.limit <==> id in s.limit) && (id in s.limit ==> u.limit[id] == s.limit[id])
            && (id in u.inFlight <==> id in s.inFlight) && (id in s.inFlight ==> u.inFlight[id] == s.inFlight[id])
  {
    if step.FinishErr? {
      var e := s.tasks[step.task].job;
      FailTouchesOneJob(s, step.task, e.id, step.error, ShouldRetry(e.attempts, e.maxAttempts), id);
    }
  }

  lemma TaskKept(p: Params, s: State, step: Step, t: TaskId)
    requires Inv(p, s) && Enabled(p, s, step)
    ensures TaskOk(Apply(p, s, step), t)
  {
    assert TaskOk(s, t) && TaskOk(s, s.nextTask);
    if t in s.tasks && !s.tasks[t].Ending? && Subject(p, s, step) != Some(s.tasks[t].job.id) {
      OthersUntouched(p, s, step, s.tasks[t].job.id);
    }
    match step {
      case FinishErr(u, _) => assert TaskOk(s, u);
      case FinishOk(u) => assert TaskOk(s, u);
      case Resend(u) => assert TaskOk(s, u);
      case TakeJob => assert EntryOk(s, s.buffer[0]);
      case _ =>
    }
  }

  lemma JobKept(p: Params, s: State, step: Step, id: JobId)
    requires Inv(p, s) && Enabled(p, s, step)
    ensures JobOk(Apply(p, s, step), id)
  {
    assert JobOk(s, id) && TaskOk(s, s.nextTask);
    var u := Apply(p, s, step);
    if Subject(p, s, step) != Some(id) {
      OthersUntouched(p, s, step, id);
      match step {
        case Enqueue(_) => IdsAppend(s.buffer, u.buffer[|s.buffer|]);
        case Resend(_) => IdsAppend(s.buffer, u.buffer[|s.buffer|]);
        case TakeJob => IdsTail(s.buffer);
        case _ =>
      }
    } else {
      SubjectKept(p, s, step, id);
    }
  }

  lemma SubjectKept(p: Params, s: State, step: Step, id: JobId)
    requires Inv(p, s) && Enabled(p, s, step) && Subject(p, s, step) == Some(id)
    ensures JobOk(Apply(p, s, step), id)
  {
    assert JobOk(s, id);
    var u := Apply(p, s, step);
    match step {
      case Enqueue(_) => IdsAppend(s.buffer, u.buffer[|s.buffer|]);
      case Resend(t) => assert TaskOk(s, t); IdsAppend(s.buffer, u.buffer[|s.buffer|]);
      case TakeJob => assert EntryOk(s, s.buffer[0]);
      case FinishErr(t, _) => assert TaskOk(s, t);
      case FinishOk(t) => assert TaskOk(s, t);
    }
  }

  lemma BufferKept(p: Params, s: State, step: Step)
    requires Inv(p, s) && Enabled(p, s, step)
    ensures BufferInv(p, Apply(p, s, step))
  {
    var u := Apply(p, s, step);
    match step {
      case Enqueue(_) =>
        BufferGains(p, s, step, u.buffer[|s.buffer|]);
      case Resend(t) =>
        assert TaskOk(s, t);
        BufferGains(p, s, step, s.tasks[t].job);
      case TakeJob =>
        forall i | 0 <= i < |u.buffer|
          ensures EntryOk(u, u.buffer[i])
        {
          assert EntryOk(s, s.buffer[i + 1]);
        }
      case FinishErr(t, _) =>
        assert TaskOk(s, t);
        BufferStays(p, s, step);
      case FinishOk(t) =>
        assert TaskOk(s, t);
        BufferStays(p, s, step);
      case _ =>
    }
  }

  lemma BufferStays(p: Params, s: State, step: Step)
    requires Inv(p, s) && Enabled(p, s, step) && (step.FinishErr? || step.FinishOk?)
    requires TaskOk(s, step.task)
    ensures BufferInv(p, Apply(p, s, step))
  {
    var u := Apply(p, s, step);
    forall i | 0 <= i < |u.buffer|
      ensures EntryOk(u, u.buffer[i])
    {
      assert EntryOk(s, s.buffer[i]);
      OthersUntouched(p, s, step, s.buffer[i].id);
    }
  }

  lemma BufferGains(p: Params, s: State, step: Step, e: JobEnvelope)
    requires Inv(p, s) && Enabled(p, s, step) && (step.Enqueue? || step.Resend?)
    requires Apply(p, s, step).buffer == s.buffer + [e] && Subject(p, s, step) == Some(e.id)
    requires !Placed(s, e.id, InChannel) && EntryOk(Apply(p, s, step), e)
    ensures BufferInv(p, Apply(p, s, step))
  {
    var u := Apply(p, s, step);
    forall i | 0 <= i < |s.buffer|
      ensures s.buffer[i].id != e.id && EntryOk(u, s.buffer[i])
    {
      assert EntryOk(s, s.buffer[i]);
      OthersUntouched(p, s, step, s.buffer[i].id);
    }
  }

  lemma InvKept(p: Params, s: State, step: Step)
    requires Inv(p, s) && Enabled(p, s, step)
    ensures Inv(p, Apply(p, s, step))
  {
    var u := Apply(p, s, step);
    assert TaskOk(s, s.nextTask);
    PermitKept(p, s, step);
    BufferKept(p, s, step);
    forall t
      ensures TaskOk(u, t)
    {
      TaskKept(p, s, step, t);
    }
    forall id
      ensures JobOk(u, id)
    {
      JobKept(p, s, step, id);
    }
  }

  lemma {:induction false} RunKeepsInv(p: Params, steps: seq<Step>, trace: seq<State>, n: nat)
    requires IsRun(p, steps, trace) && n <= |steps|
    ensures Inv(p, trace[n])
  {
    if n > 0 {
      RunKeepsInv(p, steps, trace, n - 1);
      assert Next(p, trace[n - 1], steps[n - 1], trace[n]);
      InvKept(p, trace[n - 1], steps[n - 1]);
    }
  }

  // ── Conservation, permits, number of runs ──────────────────────────────────

  function Count(b: bool): nat {
    if b then 1 else 0
  }

  ghost predicate BeingResentNow(s: State, id: JobId) {
    exists t :: t in s.tasks && s.tasks[t].Resending? && s.tasks[t].job.id == id
  }

  /** In any run, an enqueued job is in exactly one place, and one that was not is nowhere. */
  lemma EveryJobInOnePlace(p: Params, steps: seq<Step>, trace: seq<State>, n: nat, id: JobId)
    requires IsRun(p, steps, trace) && n <= |steps|
    ensures var s := trace[n];
            Count(id in Ids(s.buffer)) + Count(id in s.inFlight) + Count(BeingResentNow(s, id))
            + Count(Placed(s, id, Finished)) + Count(Placed(s, id, Abandoned)) == Count(id in s.runs)
    ensures DistinctIds(trace[n].buffer)
  {
    RunKeepsInv(p, steps, trace, n);
    var s := trace[n];
    assert JobOk(s, id);
    PlacesMatch(p, s, id);
    HistoryKeys(p, steps, trace, n);
  }

  lemma PlacesMatch(p: Params, s: State, id: JobId)
    requires Inv(p, s)
    ensures id in Ids(s.buffer) <==> Placed(s, id, InChannel)
    ensures id in s.inFlight <==> id in s.place && s.place[id].InFlight?
    ensures BeingResentNow(s, id) <==> id in s.place && s.place[id].BeingResent?
  {
    assert JobOk(s, id);
    if id in Ids(s.buffer) {
      var i :| 0 <= i < |s.buffer| && s.buffer[i].id == id;
      assert EntryOk(s, s.buffer[i]);
    }
    if t :| t in s.tasks && s.tasks[t].Resending? && s.tasks[t].job.id == id {
      assert TaskOk(s, t);
    }
    if id in s.place && s.place[id].InFlight? {
      assert TaskOk(s, s.place[id].task);
    }
  }

  lemma {:induction false} HistoryKeys(p: Params, steps: seq<Step>, trace: seq<State>, n: nat)
    requires IsRun(p, steps, trace) && n <= |steps|
    ensures trace[n].place.Keys == trace[n].runs.Keys
  {
    if n > 0 {
      HistoryKeys(p, steps, trace, n - 1);
      RunKeepsInv(p, steps, trace, n - 1);
      var s, step := trace[n - 1], steps[n - 1];
      assert Next(p, s, step, trace[n]);
      if step.FinishErr? || step.FinishOk? || step.Resend? {
        assert TaskOk(s, step.task);
      }
      if step.TakeJob? {
        assert EntryOk(s, s.buffer[0]);
      }
    }
  }

  /** No job runs more often than it may; one that is given up has used every attempt. */
  lemma RunsAreBounded(p: Params, steps: seq<Step>, trace: seq<State>, n: nat, id: JobId)
    requires IsRun(p, steps, trace) && n <= |steps| && id in trace[n].place
    ensures var s := trace[n];
            && id in s.runs && id in s.limit
            && s.runs[id] <= Allowance(s.limit[id])
            && (s.place[id].Abandoned? ==> s.runs[id] == Allowance(s.limit[id]))
            && (s.place[id].Finished? ==> s.runs[id] >= 1)
            && (s.place[id].InChannel? || s.place[id].BeingResent? ==> s.runs[id] < Allowance(s.limit[id]))
  {
    RunKeepsInv(p, steps, trace, n);
    var s := trace[n];
    assert JobOk(s, id);
    match s.place[id] {
      case InChannel =>
        var i :| 0 <= i < |s.buffer| && s.buffer[i].id == id;
        assert EntryOk(s, s.buffer[i]);
      case InFlight(t) => assert TaskOk(s, t);
      case BeingResent(t) => assert TaskOk(s, t);
      case _ =>
    }
  }

  /** The backend's own check of the attempts never overrules the worker's decision. */
  lemma GuardsAgree(p: Params, s: State, t: TaskId, error: string)
    requires Inv(p, s) && TaskOf(s, t).Executing?
    ensures var e := s.tasks[t].job;
            && Placed(BackendFail(s, t, e.id, error, ShouldRetry(e.attempts, e.maxAttempts)), e.id,
                      if ShouldRetry(e.attempts, e.maxAttempts) then BeingResent(t) else Abandoned)
            && e.id in s.inFlight && s.inFlight[e.id] == e
  {
    assert TaskOk(s, t);
  }

  /** Permits are neither lost nor made, jobs run within them, and shutting down waits for every task. */
  lemma PermitsAndDrain(p: Params, steps: seq<Step>, trace: seq<State>, n: nat)
    requires IsRun(p, steps, trace) && n <= |steps|
    ensures var s := trace[n];
            && s.free + |s.tasks| + Count(s.loop.HoldingPermit?) == p.concurrency
            && |s.tasks| <= p.concurrency
            && (s.loop.Stopped? ==> s.tasks == map[] && s.inFlight == map[])
  {
    RunKeepsInv(p, steps, trace, n);
    var s := trace[n];
    if s.loop.Stopped? {
      forall id
        ensures id !in s.inFlight
      {
        assert JobOk(s, id);
      }
    }
  }

  // ── Refinement of the abstract queue ───────────────────────────────────────

  function PhaseAt(place: Place): Phase {
    match place
    case InChannel => Queued
    case BeingResent(_) => Queued
    case InFlight(_) => InProgress
    case Finished => Succeeded
    case Abandoned => GivenUp
  }

  function Abstract(s: State): Queue {
    map id | id in s.place && id in s.runs && id in s.limit :: Job(PhaseAt(s.place[id]), s.runs[id], s.limit[id])
  }

  /** What a step of the real system is in the abstract queue; most steps are invisible there. */
  ghost function QueueStep(s: State, step: Step): Queue {
    match step
    case Enqueue(job) => Added(Abstract(s), job)
    case TakeJob =>
      if s.buffer != [] && s.buffer[0].id in Abstract(s) then Taken(Abstract(s), s.buffer[0].id) else Abstract(s)
    case FinishOk(t) =>
      if TaskOf(s, t).Executing? then Settled(Abstract(s), s.tasks[t].job.id, true) else Abstract(s)
    case FinishErr(t, _) =>
      if TaskOf(s, t).Executing? then Settled(Abstract(s), s.tasks[t].job.id, false) else Abstract(s)
    case _ => Abstract(s)
  }

  lemma AbstractAt(s: State, id: JobId)
    ensures id in Abstract(s) <==> id in s.place && id in s.runs && id in s.limit
    ensures id in Abstract(s) ==> Abstract(s)[id] == Job(PhaseAt(s.place[id]), s.runs[id], s.limit[id])
  {
  }

  lemma SubjectRefines(p: Params, s: State, step: Step, id: JobId)
    requires Inv(p, s) && Enabled(p, s, step) && Subject(p, s, step) == Some(id)
    ensures var a, b := Abstract(Apply(p, s, step)), QueueStep(s, step);
            (id in a <==> id in b) && (id in a && id in b ==> a[id] == b[id])
  {
    AbstractAt(s, id);
    AbstractAt(Apply(p, s, step), id);
    assert JobOk(s, id);
    match step {
      case TakeJob => assert EntryOk(s, s.buffer[0]);
      case FinishOk(t) => assert TaskOk(s, t);
      case FinishErr(t, _) => assert TaskOk(s, t);
      case Resend(t) => assert TaskOk(s, t);
      case Enqueue(_) =>
    }
  }

  lemma OthersRefine(p: Params, s: State, step: Step, id: JobId)
    requires Inv(p, s) && Enabled(p, s, step) && Subject(p, s, step) != Some(id)
    ensures var a, b := Abstract(Apply(p, s, step)), QueueStep(s, step);
            (id in a <==> id in b) && (id in a && id in b ==> a[id] == b[id])
  {
    OthersUntouched(p, s, step, id);
    AbstractAt(s, id);
    AbstractAt(Apply(p, s, step), id);
  }

  /** Channel, tasks and worker together implement the abstract queue, step by step. */
  lemma StepRefinesQueue(p: Params, s: State, step: Step)
    requires Inv(p, s) && Enabled(p, s, step)
    ensures Abstract(Apply(p, s, step)) == QueueStep(s, step)
  {
    var a, b := Abstract(Apply(p, s, step)), QueueStep(s, step);
    forall id
      ensures (id in a <==> id in b) && (id in a && id in b ==> a[id] == b[id])
    {
      if Subject(p, s, step) == Some(id) {
        SubjectRefines(p, s, step, id);
      } else {
        OthersRefine(p, s, step, id);
      }
    }
  }

  // ── Progress ───────────────────────────────────────────────────────────────

  /** Steps that bring some job or task closer to its end. */
  predicate Works(step: Step) {
    step.TakeJob? || step.FinishOk? || step.FinishErr? || step.Resend? || step.EndTask?
  }

  ghost predicate Unfinished(s: State, id: JobId) {
    id in s.place && !s.place[id].Finished? && !s.place[id].Abandoned?
  }

  ghost function UnfinishedJobs(s: State): set<JobId> {
    set id | id in s.place && Unfinished(s, id)
  }

  function TaskWeight(t: Task): nat {
    match t
    case Executing(_) => 3
    case Resending(_) => 2
    case Ending => 1
  }

  ghost function TaskWeights(s: State): map<TaskId, nat> {
    map t | t in s.tasks :: TaskWeight(s.tasks[t])
  }

  /** Six units for every attempt a job has left. */
  ghost function RunsLeft(s: State): map<JobId, nat> {
    map id | id in s.runs && id in s.limit ::
      if s.runs[id] <= Allowance(s.limit[id]) then 6 * (Allowance(s.limit[id]) - s.runs[id]) else 0
  }

  ghost function Work(s: State): nat {
    Sum(RunsLeft(s)) + Sum(TaskWeights(s))
  }

  lemma TaskWeightChanges(s: State, u: State, t: TaskId, task: Task)
    requires u.tasks == s.tasks[t := task]
    ensures Sum(TaskWeights(u)) ==
            Sum(TaskWeights(s)) + TaskWeight(task) - if t in s.tasks then TaskWeight(s.tasks[t]) else 0
  {
    assert TaskWeights(u) == TaskWeights(s)[t := TaskWeight(task)];
    SumUpdate(TaskWeights(s), t, TaskWeight(task));
  }

  lemma OneRunLess(s: State, u: State, id: JobId)
    requires id in s.runs && id in s.limit && s.runs[id] < Allowance(s.limit[id])
    requires u.runs == s.runs[id := s.runs[id] + 1] && u.limit == s.limit
    ensures Sum(RunsLeft(u)) == Sum(RunsLeft(s)) - 6
  {
    assert RunsLeft(u) == RunsLeft(s)[id := RunsLeft(s)[id] - 6];
    SumUpdate(RunsLeft(s), id, RunsLeft(s)[id] - 6);
  }

  lemma TakeJobWorks(p: Params, s: State)
    requires Inv(p, s) && Enabled(p, s, TakeJob)
    ensures Work(Apply(p, s, TakeJob)) < Work(s)
  {
    var u := Apply(p, s, TakeJob);
    assert EntryOk(s, s.buffer[0]) && TaskOk(s, s.nextTask);
    OneRunLess(s, u, s.buffer[0].id);
    TaskWeightChanges(s, u, s.nextTask, u.tasks[s.nextTask]);
  }

  lemma TaskStepWorks(p: Params, s: State, step: Step)
    requires Enabled(p, s, step) && (step.FinishOk? || step.FinishErr? || step.Resend?)
    ensures Work(Apply(p, s, step)) < Work(s)
  {
    var u := Apply(p, s, step);
    assert u.runs == s.runs && u.limit == s.limit;
    assert RunsLeft(u) == RunsLeft(s);
    TaskWeightChanges(s, u, step.task, u.tasks[step.task]);
  }

  lemma EndTaskWorks(p: Params, s: State, t: TaskId)
    requires Inv(p, s) && Enabled(p, s, EndTask(t))
    ensures Work(Apply(p, s, EndTask(t))) < Work(s)
  {
    var u := Apply(p, s, EndTask(t));
    assert RunsLeft(u) == RunsLeft(s);
    assert TaskWeights(u) == TaskWeights(s) - {t};
    SumRemove(TaskWeights(s), t);
  }

  /** Without new jobs, the work left never grows, and every working step uses some up. */
  lemma WorkShrinks(p: Params, s: State, step: Step)
    requires Inv(p, s) && Enabled(p, s, step) && !step.Enqueue?
    ensures Works(step) ==> Work(Apply(p, s, step)) < Work(s)
    ensures !Works(step) ==> Work(Apply(p, s, step)) == Work(s)
  {
    if step.TakeJob? {
      TakeJobWorks(p, s);
    } else if step.EndTask? {
      EndTaskWorks(p, s, step.task);
    } else if Works(step) {
      TaskStepWorks(p, s, step);
    } else {
      var u := Apply(p, s, step);
      assert RunsLeft(u) == RunsLeft(s) && TaskWeights(u) == TaskWeights(s);
    }
  }

  function WorkingSteps(steps: seq<Step>, m: nat, n: nat): nat
    requires m <= n <= |steps|
  {
    if n == m then 0 else WorkingSteps(steps, m, n - 1) + Count(Works(steps[n - 1]))
  }

  /** Once nothing is enqueued any more, only so much can still happen. */
  lemma {:induction false} WorkRunsOut(p: Params, steps: seq<Step>, trace: seq<State>, m: nat, n: nat)
    requires IsRun(p, steps, trace) && m <= n <= |steps|
    requires forall i :: m <= i < n ==> !steps[i].Enqueue?
    ensures WorkingSteps(steps, m, n) + Work(trace[n]) <= Work(trace[m])
    decreases n
  {
    if m < n {
      WorkRunsOut(p, steps, trace, m, n - 1);
      RunStepShrinksWork(p, steps, trace, n - 1);
    }
  }

  lemma RunStepShrinksWork(p: Params, steps: seq<Step>, trace: seq<State>, n: nat)
    requires IsRun(p, steps, trace) && n < |steps| && !steps[n].Enqueue?
    ensures Work(trace[n + 1]) + Count(Works(steps[n])) <= Work(trace[n])
  {
    RunKeepsInv(p, steps, trace, n);
    assert Next(p, trace[n], steps[n], trace[n + 1]);
    WorkShrinks(p, trace[n], steps[n]);
  }
}
