/**
 When the worker on the in-memory backend gets stuck. A failed job that is to be
 retried waits for room in the channel while its task keeps its permit, so the
 channel and the permits together hold a definite number of jobs: one fewer can
 never get stuck, and that many can, whatever the two sizes are.
 */
module ChannelProgress {
  import opened Prelude
  import opened Sums
  import opened RetryBackoff
  import opened JobQueue
  import opened ChannelWorker

  // ── Counting the jobs of a stuck worker ────────────────────────────────────

  ghost predicate AllResending(s: State) {
    forall t :: t in s.tasks ==> s.tasks[t].Resending?
  }

  /** The channel is full, and every permit is held by a task that waits for room in it. */
  ghost predicate Jammed(p: Params, s: State) {
    |s.buffer| == p.capacity && |s.tasks| == p.concurrency && AllResending(s)
  }

  /** The jobs that the tasks `ts` are waiting to send again. */
  ghost function ResentBy(s: State, ts: set<TaskId>): set<JobId> {
    set t | t in ts && t in s.tasks && s.tasks[t].Resending? :: s.tasks[t].job.id
  }

  lemma {:induction false} ResentJobs(p: Params, s: State, ts: set<TaskId>)
    requires Inv(p, s) && ts <= s.tasks.Keys && AllResending(s)
    ensures |ResentBy(s, ts)| == |ts|
    decreases |ts|
  {
    if ts == {} {
      assert ResentBy(s, ts) == {};
    } else {
      var t :| t in ts;
      var id := s.tasks[t].job.id;
      ResentJobs(p, s, ts - {t});
      assert TaskOk(s, t);
      forall other | other in ts - {t}
        ensures s.tasks[other].job.id != id
      {
        assert TaskOk(s, other);
      }
      assert ResentBy(s, ts) == ResentBy(s, ts - {t}) + {id};
    }
  }

  lemma BufferedAreUnfinished(p: Params, s: State, id: JobId)
    requires Inv(p, s)
    ensures id in Ids(s.buffer) <==> Placed(s, id, InChannel)
  {
    assert JobOk(s, id);
    if i :| 0 <= i < |s.buffer| && s.buffer[i].id == id {
      assert EntryOk(s, s.buffer[i]);
    }
  }

  lemma ResentAreUnfinished(p: Params, s: State, id: JobId)
    requires Inv(p, s)
    ensures id in ResentBy(s, s.tasks.Keys) <==> id in s.place && s.place[id].BeingResent?
  {
    assert JobOk(s, id);
    if t :| t in s.tasks && s.tasks[t].Resending? && s.tasks[t].job.id == id {
      assert TaskOk(s, t);
    }
  }

  lemma UnfinishedAreHeld(p: Params, s: State, id: JobId)
    requires Inv(p, s) && AllResending(s)
    ensures id in UnfinishedJobs(s) <==> Placed(s, id, InChannel) || (id in s.place && s.place[id].BeingResent?)
  {
    assert JobOk(s, id);
  }

  /** When no task executes or ends, every unfinished job is in the channel or waiting to get back into it. */
  lemma WaitingJobs(p: Params, s: State)
    requires Inv(p, s) && AllResending(s)
    ensures |UnfinishedJobs(s)| == |s.buffer| + |s.tasks|
  {
    var queued, resent := Ids(s.buffer), ResentBy(s, s.tasks.Keys);
    CountIds(s.buffer);
    ResentJobs(p, s, s.tasks.Keys);
    forall id
      ensures id in UnfinishedJobs(s) <==> id in queued + resent
      ensures !(id in queued && id in resent)
    {
      BufferedAreUnfinished(p, s, id);
      ResentAreUnfinished(p, s, id);
      UnfinishedAreHeld(p, s, id);
    }
    assert UnfinishedJobs(s) == queued + resent && queued !! resent;
    assert |s.tasks| == |s.tasks.Keys|;
  }

  // ── While polling ──────────────────────────────────────────────────────────

  /** No job or task can be brought any further, not even after taking a permit. */
  ghost predicate Exhausted(p: Params, s: State) {
    && (forall step :: Works(step) ==> !Enabled(p, s, step))
    && (Enabled(p, s, AcquirePermit) ==> !Enabled(p, Apply(p, s, AcquirePermit), TakeJob))
  }

  ghost predicate Polls(s: State) {
    s.loop.Polling? || s.loop.HoldingPermit?
  }

  /** Nothing but room in the channel can be missing. */
  lemma IdleTasksWait(p: Params, s: State)
    requires forall step :: Works(step) ==> !Enabled(p, s, step)
    ensures AllResending(s)
    ensures s.tasks != map[] ==> |s.buffer| >= p.capacity
  {
    forall t | t in s.tasks
      ensures s.tasks[t].Resending? && |s.buffer| >= p.capacity
    {
      assert !Enabled(p, s, FinishOk(t)) && !Enabled(p, s, EndTask(t)) && !Enabled(p, s, Resend(t));
    }
    if s.tasks != map[] {
      var t :| t in s.tasks;
    }
  }

  /** With jobs or tasks left, the polling worker is stuck in exactly one kind of state. */
  lemma StuckIffJammed(p: Params, s: State)
    requires Inv(p, s) && Polls(s) && p.capacity > 0 && p.concurrency > 0
    ensures Exhausted(p, s) && (UnfinishedJobs(s) != {} || s.tasks != map[]) <==> Jammed(p, s)
    ensures Jammed(p, s) ==> |UnfinishedJobs(s)| == p.capacity + p.concurrency
  {
    if Exhausted(p, s) && (UnfinishedJobs(s) != {} || s.tasks != map[]) {
      IdleTasksWait(p, s);
      assert !Enabled(p, s, TakeJob);
    }
    if AllResending(s) {
      WaitingJobs(p, s);
    }
  }

  /**
   While the unfinished jobs are fewer than the channel and the permits hold
   together, some working step is possible, at most one permit away.
   */
  lemma NeverStuck(p: Params, s: State) returns (first: Step, second: Step)
    requires Inv(p, s) && Polls(s) && p.capacity > 0 && p.concurrency > 0
    requires UnfinishedJobs(s) != {} || s.tasks != map[]
    requires |UnfinishedJobs(s)| < p.capacity + p.concurrency
    ensures Enabled(p, s, first)
    ensures Works(first) || (first.AcquirePermit? && second.TakeJob? && Enabled(p, Apply(p, s, first), second))
  {
    StuckIffJammed(p, s);
    first, second := AcquirePermit, TakeJob;
    if step :| Works(step) && Enabled(p, s, step) {
      first := step;
    }
  }

  lemma UnfinishedNeverGrow(p: Params, s: State, step: Step)
    requires Inv(p, s) && Enabled(p, s, step) && !step.Enqueue?
    ensures UnfinishedJobs(Apply(p, s, step)) <= UnfinishedJobs(s)
  {
    forall id | id !in UnfinishedJobs(s)
      ensures id !in UnfinishedJobs(Apply(p, s, step))
    {
      if Subject(p, s, step) == Some(id) {
        assert if step.TakeJob? then EntryOk(s, s.buffer[0]) else TaskOk(s, step.task);
      } else {
        OthersUntouched(p, s, step, id);
      }
    }
  }

  /** From time `m` on the worker is polling, and nothing is enqueued or told to stop. */
  ghost predicate LeftAlone(steps: seq<Step>, trace: seq<State>, m: nat, n: nat)
    requires |trace| == |steps| + 1 && m <= n <= |steps|
  {
    Polls(trace[m]) && forall i :: m <= i < n ==> !steps[i].Enqueue? && !steps[i].Shutdown?
  }

  lemma {:induction false} LeftAloneKeeps(p: Params, steps: seq<Step>, trace: seq<State>, m: nat, n: nat)
    requires IsRun(p, steps, trace) && m <= n <= |steps| && LeftAlone(steps, trace, m, n)
    ensures Polls(trace[n]) && UnfinishedJobs(trace[n]) <= UnfinishedJobs(trace[m])
    decreases n
  {
    if m < n {
      LeftAloneKeeps(p, steps, trace, m, n - 1);
      RunKeepsInv(p, steps, trace, n - 1);
      assert Next(p, trace[n - 1], steps[n - 1], trace[n]);
      UnfinishedNeverGrow(p, trace[n - 1], steps[n - 1]);
    }
  }

  lemma DoneIsExhausted(p: Params, s: State)
    requires Inv(p, s) && UnfinishedJobs(s) == {} && s.tasks == map[]
    ensures Exhausted(p, s)
  {
    WaitingJobs(p, s);
  }

  /**
   A worker left alone with fewer jobs than channel and permits hold takes a
   bounded number of working steps, whatever the handlers answer, and has none
   left to take exactly when every job is settled and every task has ended.
   */
  lemma ExhaustedIffDone(p: Params, steps: seq<Step>, trace: seq<State>, m: nat, n: nat)
    requires IsRun(p, steps, trace) && m <= n <= |steps| && LeftAlone(steps, trace, m, n)
    requires p.capacity > 0 && p.concurrency > 0 && |UnfinishedJobs(trace[m])| < p.capacity + p.concurrency
    ensures WorkingSteps(steps, m, n) <= Work(trace[m])
    ensures Exhausted(p, trace[n]) <==> UnfinishedJobs(trace[n]) == {} && trace[n].tasks == map[]
  {
    WorkRunsOut(p, steps, trace, m, n);
    LeftAloneKeeps(p, steps, trace, m, n);
    RunKeepsInv(p, steps, trace, n);
    SubsetSize(UnfinishedJobs(trace[n]), UnfinishedJobs(trace[m]));
    StuckIffJammed(p, trace[n]);
    if UnfinishedJobs(trace[n]) == {} && trace[n].tasks == map[] {
      DoneIsExhausted(p, trace[n]);
    }
  }

  // ── While draining ─────────────────────────────────────────────────────────

  /** Shutdown waits for tasks in vain exactly when all of them wait for room in a full channel. */
  lemma DrainStuckIff(p: Params, s: State)
    requires Inv(p, s) && s.loop.Draining? && s.tasks != map[]
    ensures (forall step :: !Enabled(p, s, step)) <==> |s.buffer| == p.capacity && AllResending(s)
    ensures |s.buffer| == p.capacity && AllResending(s) ==> |UnfinishedJobs(s)| == p.capacity + |s.tasks|
  {
    assert |s.tasks| > 0;
    if forall step :: !Enabled(p, s, step) {
      IdleTasksWait(p, s);
    }
    if AllResending(s) {
      WaitingJobs(p, s);
    }
  }

  // ── Being stuck is for ever, and can happen at every size ──────────────────

  /** A jammed worker can be told to shut down, and that is all: it then drains for ever. */
  lemma {:induction false} JammedForEver(p: Params, steps: seq<Step>, trace: seq<State>, m: nat, n: nat)
    requires IsRun(p, steps, trace) && m <= n <= |steps|
    requires p.concurrency > 0 && Polls(trace[m]) && Jammed(p, trace[m])
    ensures trace[n] == trace[m] || trace[n] == trace[m].(loop := Draining)
    decreases n
  {
    if m < n {
      JammedForEver(p, steps, trace, m, n - 1);
      RunKeepsInv(p, steps, trace, m);
      assert Next(p, trace[n - 1], steps[n - 1], trace[n]);
      OnlyShutdownLeft(p, trace[n - 1], steps[n - 1]);
    }
  }

  lemma OnlyShutdownLeft(p: Params, s: State, step: Step)
    requires s.free == 0 < p.concurrency && |s.buffer| == p.capacity && AllResending(s)
    requires s.loop.Polling? || s.loop.Draining?
    requires Enabled(p, s, step)
    ensures step == Shutdown && s.loop.Polling?
  {
  }

  /** A run is extended by a step. */
  lemma RunExtends(p: Params, steps: seq<Step>, trace: seq<State>, step: Step)
    requires IsRun(p, steps, trace) && Enabled(p, trace[|steps|], step)
    ensures IsRun(p, steps + [step], trace + [Apply(p, trace[|steps|], step)])
  {
    var steps', trace' := steps + [step], trace + [Apply(p, trace[|steps|], step)];
    forall i | 0 <= i < |steps'|
      ensures Next(p, trace'[i], steps'[i], trace'[i + 1])
    {
      if i < |steps| {
        assert Next(p, trace[i], steps[i], trace[i + 1]);
      }
    }
  }

  /** Number `i` of the jobs used below; each may run twice. */
  function NthJob(i: nat): JobEnvelope {
    JobEnvelope(Uuid(i), "", "", Pending, 0, 2, 0, None)
  }

  /** `busy` tasks are executing and `queued` jobs wait in the channel; the jobs are the first so many. */
  ghost predicate Loaded(p: Params, s: State, busy: nat, queued: nat) {
    && s.loop.Polling? && s.free + busy == p.concurrency && |s.buffer| == queued
    && (forall t :: t in s.tasks ==>
          s.tasks[t].Executing? && s.tasks[t].job.attempts == 1 && s.tasks[t].job.maxAttempts == 2)
    && (forall id :: id in s.place ==> id.bits < busy + queued)
  }

  lemma OneMoreBusy(p: Params, s: State, busy: nat)
    requires Loaded(p, s, busy, 0) && busy < p.concurrency && p.capacity > 0
    ensures Enabled(p, s, Enqueue(NthJob(busy)))
    ensures var s1 := Apply(p, s, Enqueue(NthJob(busy)));
            Enabled(p, s1, AcquirePermit) && Enabled(p, Apply(p, s1, AcquirePermit), TakeJob)
    ensures var s1 := Apply(p, s, Enqueue(NthJob(busy)));
            Loaded(p, Apply(p, Apply(p, s1, AcquirePermit), TakeJob), busy + 1, 0)
  {
    assert s.buffer == [];
  }

  lemma {:induction false} AllBusy(p: Params, busy: nat) returns (steps: seq<Step>, trace: seq<State>)
    requires busy <= p.concurrency && p.capacity > 0
    ensures IsRun(p, steps, trace) && Loaded(p, trace[|steps|], busy, 0)
  {
    if busy == 0 {
      steps, trace := [], [Start(p)];
    } else {
      steps, trace := AllBusy(p, busy - 1);
      OneMoreBusy(p, trace[|steps|], busy - 1);
      steps, trace := Extended(p, steps, trace, Enqueue(NthJob(busy - 1)));
      steps, trace := Extended(p, steps, trace, AcquirePermit);
      steps, trace := Extended(p, steps, trace, TakeJob);
    }
  }

  lemma Extended(p: Params, steps: seq<Step>, trace: seq<State>, step: Step)
    returns (steps': seq<Step>, trace': seq<State>)
    requires IsRun(p, steps, trace) && Enabled(p, trace[|steps|], step)
    ensures IsRun(p, steps', trace') && |steps'| == |steps| + 1
    ensures trace'[|steps'|] == Apply(p, trace[|steps|], step)
  {
    RunExtends(p, steps, trace, step);
    steps', trace' := steps + [step], trace + [Apply(p, trace[|steps|], step)];
  }

  lemma {:induction false} AllQueued(p: Params, queued: nat) returns (steps: seq<Step>, trace: seq<State>)
    requires queued <= p.capacity && p.capacity > 0
    ensures IsRun(p, steps, trace) && Loaded(p, trace[|steps|], p.concurrency, queued)
  {
    if queued == 0 {
      steps, trace := AllBusy(p, p.concurrency);
    } else {
      steps, trace := AllQueued(p, queued - 1);
      steps, trace := Extended(p, steps, trace, Enqueue(NthJob(p.concurrency + queued - 1)));
    }
  }

  /** The tasks whose handlers have not returned yet. */
  ghost function StillExecuting(s: State): set<TaskId> {
    set t | t in s.tasks && s.tasks[t].Executing?
  }

  /** The tasks hold the permits, over a full channel, and will be or are being retried. */
  ghost predicate Failing(p: Params, s: State) {
    && s.loop.Polling? && s.free == 0 && |s.buffer| == p.capacity
    && forall t :: t in s.tasks ==>
         || s.tasks[t].Resending?
         || (s.tasks[t].Executing? && s.tasks[t].job.attempts < s.tasks[t].job.maxAttempts)
  }

  lemma OneMoreFails(p: Params, s: State, t: TaskId)
    requires Inv(p, s) && Failing(p, s) && t in StillExecuting(s)
    ensures var u := Apply(p, s, FinishErr(t, ""));
            Failing(p, u) && StillExecuting(u) == StillExecuting(s) - {t}
  {
    assert TaskOk(s, t);
  }

  lemma {:induction false} AllFail(p: Params, steps: seq<Step>, trace: seq<State>)
    returns (steps': seq<Step>, trace': seq<State>)
    requires IsRun(p, steps, trace) && Failing(p, trace[|steps|])
    ensures IsRun(p, steps', trace') && Polls(trace'[|steps'|]) && Jammed(p, trace'[|steps'|])
    decreases |StillExecuting(trace[|steps|])|
  {
    var s := trace[|steps|];
    RunKeepsInv(p, steps, trace, |steps|);
    if StillExecuting(s) == {} {
      assert forall t :: t in s.tasks ==> t !in StillExecuting(s);
      steps', trace' := steps, trace;
    } else {
      var t :| t in StillExecuting(s);
      OneMoreFails(p, s, t);
      steps', trace' := Extended(p, steps, trace, FinishErr(t, ""));
      steps', trace' := AllFail(p, steps', trace');
    }
  }

  /**
   Whatever the capacity and the concurrency: a run after which only shutdown can
   happen, with as many jobs unfinished as channel and permits hold together. So
   the bound of `NeverStuck` is sharp.
   */
  lemma FullChannelDeadlock(p: Params) returns (steps: seq<Step>, trace: seq<State>)
    requires p.capacity > 0 && p.concurrency > 0
    ensures IsRun(p, steps, trace)
    ensures Jammed(p, trace[|steps|]) && |UnfinishedJobs(trace[|steps|])| == p.capacity + p.concurrency
    ensures forall step :: Enabled(p, trace[|steps|], step) ==> step == Shutdown
  {
    steps, trace := AllQueued(p, p.capacity);
    steps, trace := AllFail(p, steps, trace);
    var s := trace[|steps|];
    RunKeepsInv(p, steps, trace, |steps|);
    StuckIffJammed(p, s);
    forall step | Enabled(p, s, step)
      ensures step == Shutdown
    {
      OnlyShutdownLeft(p, s, step);
    }
  }
}
