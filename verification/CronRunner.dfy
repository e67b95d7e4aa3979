/**
 The cron runner: sleep until the soonest slot, fire what is due, move each fired
 job to its next slot. The wall clock is arbitrary and may run backwards. Times
 are in milliseconds.
 */
module CronRunner {
  import opened Prelude

  type Instant = int

  /** `after(t)` is the next occurrence strictly after `t`, if there is one. */
  datatype Schedule = Schedule(after: Instant -> Option<Instant>) {
    function After(t: Instant): Option<Instant> {
      after(t)
    }
  }

  datatype ScheduledJob = ScheduledJob(name: string, schedule: Schedule, nextRun: Instant)

  datatype Entry = Entry(name: string, schedule: Schedule)

  /** One job handed to the queue: which, for which slot, and when. */
  datatype Firing = Firing(job: nat, slot: Instant, at: Instant)

  /** The clock as read before and after one sleep. */
  datatype Reading = Reading(before: Instant, after: Instant)

  const MAX_SLEEP: int := 3600 * 1000
  const NEVER_AGAIN: int := 52 * 100 * 7 * 24 * 3600 * 1000

  /** The schedule is that of the occurrences `occurs`. */
  ghost predicate Describes(occurs: iset<Instant>, s: Schedule) {
    forall t ::
      match s.After(t)
      case Some(n) => n in occurs && t < n && forall m :: m in occurs && t < m ==> n <= m
      case None => forall m :: m in occurs ==> m <= t
  }

  function NextSlot(s: Schedule, now: Instant): Instant {
    match s.After(now)
    case Some(n) => n
    case None => now + NEVER_AGAIN
  }

  function Advance(job: ScheduledJob, now: Instant): ScheduledJob {
    if job.nextRun > now then job else job.(nextRun := NextSlot(job.schedule, now))
  }

  /** The firings of the first `n` jobs for one reading of the clock, in order. */
  function Due(jobs: seq<ScheduledJob>, now: Instant, n: nat): seq<Firing>
    requires n <= |jobs|
  {
    if n == 0 then []
    else Due(jobs, now, n - 1) + if jobs[n - 1].nextRun > now then [] else [Firing(n - 1, jobs[n - 1].nextRun, now)]
  }

  function AdvanceAll(jobs: seq<ScheduledJob>, now: Instant): seq<ScheduledJob> {
    seq(|jobs|, i requires 0 <= i < |jobs| => Advance(jobs[i], now))
  }

  /** All firings of a run, reading by reading. */
  function Firings(jobs: seq<ScheduledJob>, readings: seq<Reading>): seq<Firing>
    decreases |readings|
  {
    if readings == [] then []
    else Due(jobs, readings[0].after, |jobs|) + Firings(AdvanceAll(jobs, readings[0].after), readings[1..])
  }

  class Scheduler {
    const jobs: array<ScheduledJob>
    ghost var fired: seq<Firing>

    /** Entries without an upcoming occurrence are left out. */
    constructor (entries: seq<Entry>, now: Instant)
      ensures fresh(jobs) && fired == []
      ensures jobs[..] == Registered(entries, now)
      ensures exists from :: Selects(entries, now, jobs[..], from)
    {
      RegisteredSelects(entries, now);
      var kept := Register(entries, now);
      var a := new ScheduledJob[|kept|](i requires 0 <= i < |kept| => kept[i]);
      jobs := a;
      fired := [];
      new;
      assert jobs[..] == kept;
    }

    /** How long to sleep: to the soonest slot, not into the past, and an hour at most. */
    method Wait(now: Instant) returns (wait: int)
      requires jobs.Length > 0
      ensures 0 <= wait <= 3_600_000
      ensures forall i :: 0 <= i < jobs.Length ==> wait <= Max(0, jobs[i].nextRun - now)
      ensures wait < MAX_SLEEP ==> exists i :: 0 <= i < jobs.Length && wait == Max(0, jobs[i].nextRun - now)
    {
      var soonest := 0;
      for i := 1 to jobs.Length
        invariant 0 <= soonest < jobs.Length
        invariant forall j :: 0 <= j < i ==> jobs[soonest].nextRun <= jobs[j].nextRun
      {
        if jobs[i].nextRun < jobs[soonest].nextRun {
          soonest := i;
        }
      }
      wait := Min(Max(0, jobs[soonest].nextRun - now), MAX_SLEEP);
    }

    /** The firing loop over all jobs. */
    method FireDue(now: Instant)
      modifies this`fired, jobs
      ensures jobs[..] == AdvanceAll(old(jobs[..]), now)
      ensures fired == old(fired) + Due(old(jobs[..]), now, jobs.Length)
      ensures forall i :: 0 <= i < jobs.Length ==>
                var was := old(jobs[..])[i];
                && jobs[i].name == was.name && jobs[i].schedule == was.schedule
                && jobs[i].nextRun == if now < was.nextRun then was.nextRun
                                      else match was.schedule.after(now)
                                           case Some(n) => n
                                           case None => now + 3_144_960_000_000
    {
      ghost var start := jobs[..];
      for i := 0 to jobs.Length
        invariant forall j :: 0 <= j < i ==> jobs[j] == Advance(start[j], now)
        invariant forall j :: i <= j < jobs.Length ==> jobs[j] == start[j]
        invariant fired == old(fired) + Due(start, now, i)
      {
        if jobs[i].nextRun <= now {
          fired := fired + [Firing(i, jobs[i].nextRun, now)];
          var next := jobs[i].schedule.After(now);
          match next {
            case Some(n) => jobs[i] := jobs[i].(nextRun := n);
            case None => jobs[i] := jobs[i].(nextRun := now + NEVER_AGAIN);
          }
        }
      }
    }

    /** The main loop, over the readings of the clock until shutdown; `waits` are the sleeps asked for. */
    method Run(readings: seq<Reading>) returns (waits: seq<int>)
      modifies this`fired, jobs
      ensures fired == old(fired) + Firings(old(jobs[..]), readings)
      ensures jobs.Length > 0 ==> |waits| == |readings| && WaitsFor(old(jobs[..]), readings, waits)
    {
      waits := [];
      if jobs.Length == 0 {
        NothingToFire(readings);
        return;
      }
      ghost var start := jobs[..];
      assert readings[0..] == readings;
      for k := 0 to |readings|
        invariant fired + Firings(jobs[..], readings[k..]) == old(fired) + Firings(start, readings)
        invariant |jobs[..]| == |start| && forall j :: 0 <= j < |start| ==> jobs[j] == JobAt(start, readings, j, k)
        invariant |waits| == k && WaitsFor(start, readings[..k], waits)
      {
        var wait := Wait(readings[k].before);
        OneMoreWait(start, readings, waits, wait, k);
        waits := waits + [wait];
        assert readings[k..][1..] == readings[k + 1..];
        FireDue(readings[k].after);
      }
      assert readings[..|readings|] == readings;
    }
  }

  lemma {:induction false} NothingToFire(readings: seq<Reading>)
    ensures Firings([], readings) == []
  {
    if readings != [] {
      assert AdvanceAll([], readings[0].after) == [];
      NothingToFire(readings[1..]);
    }
  }

  function Registered(entries: seq<Entry>, now: Instant): seq<ScheduledJob> {
    if entries == [] then []
    else
      var last := entries[|entries| - 1];
      var next := last.schedule.After(now);
      Registered(entries[..|entries| - 1], now) +
      if next.Some? then [ScheduledJob(last.name, last.schedule, next.value)] else []
  }

  /** The jobs are exactly the entries with an occurrence to come, in order; entry number `from[j]` became job `j`. */
  ghost predicate Selects(entries: seq<Entry>, now: Instant, jobs: seq<ScheduledJob>, from: seq<nat>) {
    && |from| == |jobs|
    && (forall i, j :: 0 <= i < j < |from| ==> from[i] < from[j])
    && (forall j :: 0 <= j < |from| ==> from[j] < |entries| && StandsFor(entries[from[j]], now, jobs[j]))
    && (forall i :: 0 <= i < |entries| ==> (i in from <==> entries[i].schedule.After(now).Some?))
  }

  ghost predicate StandsFor(entry: Entry, now: Instant, job: ScheduledJob) {
    job.name == entry.name && job.schedule == entry.schedule && entry.schedule.After(now) == Some(job.nextRun)
  }

  lemma RegisteredSelects(entries: seq<Entry>, now: Instant)
    ensures exists from :: Selects(entries, now, Registered(entries, now), from)
  {
    var from := Selection(entries, now);
  }

  lemma {:induction false} Selection(entries: seq<Entry>, now: Instant) returns (from: seq<nat>)
    ensures Selects(entries, now, Registered(entries, now), from)
  {
    from := [];
    if entries != [] {
      var n := |entries| - 1;
      from := Selection(entries[..n], now);
      assert entries == entries[..n] + [entries[n]];
      if entries[n].schedule.After(now).Some? {
        OneMoreKept(entries[..n], now, Registered(entries[..n], now), from, entries[n]);
        from := from + [n];
      } else {
        OneMoreSkipped(entries[..n], now, Registered(entries[..n], now), from, entries[n]);
      }
    }
  }

  lemma OneMoreKept(entries: seq<Entry>, now: Instant, jobs: seq<ScheduledJob>, from: seq<nat>, last: Entry)
    requires Selects(entries, now, jobs, from) && last.schedule.After(now).Some?
    ensures Selects(entries + [last], now,
                    jobs + [ScheduledJob(last.name, last.schedule, last.schedule.After(now).value)], from + [|entries|])
  {
    var all, job := entries + [last], ScheduledJob(last.name, last.schedule, last.schedule.After(now).value);
    var from', jobs' := from + [|entries|], jobs + [job];
    forall j | 0 <= j < |from'|
      ensures from'[j] < |all| && StandsFor(all[from'[j]], now, jobs'[j])
    {
      if j < |from| {
        assert StandsFor(entries[from[j]], now, jobs[j]);
      }
    }
    forall i | 0 <= i < |all|
      ensures i in from' <==> all[i].schedule.After(now).Some?
    {
      if i < |entries| {
        assert i in from <==> entries[i].schedule.After(now).Some?;
      }
    }
  }

  lemma OneMoreSkipped(entries: seq<Entry>, now: Instant, jobs: seq<ScheduledJob>, from: seq<nat>, last: Entry)
    requires Selects(entries, now, jobs, from) && last.schedule.After(now).None?
    ensures Selects(entries + [last], now, jobs, from)
  {
    forall i | 0 <= i < |entries + [last]|
      ensures i in from <==> (entries + [last])[i].schedule.After(now).Some?
    {
      if i < |entries| {
        assert i in from <==> entries[i].schedule.After(now).Some?;
      }
    }
  }

  /** A job that was kept first waits for the very next occurrence of its schedule. */
  lemma RegisteredWaitsForNext(occurs: iset<Instant>, entries: seq<Entry>, now: Instant, j: nat)
    requires j < |Registered(entries, now)| && Describes(occurs, Registered(entries, now)[j].schedule)
    ensures var slot := Registered(entries, now)[j].nextRun;
            now < slot && slot in occurs && forall m :: m in occurs && now < m ==> slot <= m
  {
    var from := Selection(entries, now);
    assert StandsFor(entries[from[j]], now, Registered(entries, now)[j]);
  }

  method Register(entries: seq<Entry>, now: Instant) returns (kept: seq<ScheduledJob>)
    ensures kept == Registered(entries, now)
    ensures exists from :: Selects(entries, now, kept, from)
  {
    RegisteredSelects(entries, now);
    kept := [];
    for i := 0 to |entries|
      invariant kept == Registered(entries[..i], now)
    {
      assert entries[..i + 1][..i] == entries[..i];
      var next := entries[i].schedule.After(now);
      if next.Some? {
        kept := kept + [ScheduledJob(entries[i].name, entries[i].schedule, next.value)];
      }
    }
    assert entries[..|entries|] == entries;
  }

  // ── One job over a whole run ───────────────────────────────────────────────

  /** The slot job `j` is waiting for just before reading number `k`. */
  function SlotAt(jobs: seq<ScheduledJob>, readings: seq<Reading>, j: nat, k: nat): Instant
    requires j < |jobs| && k <= |readings|
  {
    if k == 0 then jobs[j].nextRun
    else
      var waiting := SlotAt(jobs, readings, j, k - 1);
      if waiting > readings[k - 1].after then waiting else NextSlot(jobs[j].schedule, readings[k - 1].after)
  }

  /** The job itself at that moment. */
  function JobAt(jobs: seq<ScheduledJob>, readings: seq<Reading>, j: nat, k: nat): ScheduledJob
    requires j < |jobs| && k <= |readings|
  {
    jobs[j].(nextRun := SlotAt(jobs, readings, j, k))
  }

  predicate FiresAt(jobs: seq<ScheduledJob>, readings: seq<Reading>, j: nat, k: nat)
    requires j < |jobs| && k < |readings|
  {
    SlotAt(jobs, readings, j, k) <= readings[k].after
  }

  /** A firing moves the job to the next occurrence after the clock; anything else leaves it waiting. */
  lemma SlotStep(jobs: seq<ScheduledJob>, readings: seq<Reading>, j: nat, k: nat)
    requires j < |jobs| && k < |readings|
    ensures SlotAt(jobs, readings, j, k + 1) ==
              if FiresAt(jobs, readings, j, k) then NextSlot(jobs[j].schedule, readings[k].after)
              else SlotAt(jobs, readings, j, k)
  {
  }

  lemma {:induction false} SlotShift(jobs: seq<ScheduledJob>, readings: seq<Reading>, j: nat, k: nat)
    requires j < |jobs| && readings != [] && k < |readings|
    ensures SlotAt(AdvanceAll(jobs, readings[0].after), readings[1..], j, k) == SlotAt(jobs, readings, j, k + 1)
  {
    if k > 0 {
      SlotShift(jobs, readings, j, k - 1);
    } else {
      assert SlotAt(jobs, readings, j, 0) == jobs[j].nextRun;
    }
  }

  lemma {:induction false} DueContents(jobs: seq<ScheduledJob>, now: Instant, n: nat, f: Firing)
    requires n <= |jobs|
    ensures f in Due(jobs, now, n) <==>
              f.job < n && jobs[f.job].nextRun <= now && f == Firing(f.job, jobs[f.job].nextRun, now)
  {
    if n > 0 {
      DueContents(jobs, now, n - 1, f);
    }
  }

  /** One pass fires no job twice, and fires in the order of registration. */
  lemma {:induction false} DueInOrder(jobs: seq<ScheduledJob>, now: Instant, n: nat, a: nat, b: nat)
    requires n <= |jobs| && a < b < |Due(jobs, now, n)|
    ensures Due(jobs, now, n)[a].job < Due(jobs, now, n)[b].job < n
  {
    var f := Due(jobs, now, n)[b];
    DueContents(jobs, now, n, f);
    if b < |Due(jobs, now, n - 1)| {
      DueInOrder(jobs, now, n - 1, a, b);
    } else {
      assert f.job == n - 1;
      DueContents(jobs, now, n - 1, Due(jobs, now, n - 1)[a]);
    }
  }

  /** The log of a run holds exactly the firings of the single jobs. */
  lemma {:induction false} LogContents(jobs: seq<ScheduledJob>, readings: seq<Reading>, f: Firing)
    ensures f in Firings(jobs, readings) <==>
              f.job < |jobs| &&
              exists k :: 0 <= k < |readings| && FiresAt(jobs, readings, f.job, k) &&
                          f == Firing(f.job, SlotAt(jobs, readings, f.job, k), readings[k].after)
    decreases |readings|
  {
    if readings != [] {
      var advanced, rest := AdvanceAll(jobs, readings[0].after), readings[1..];
      DueContents(jobs, readings[0].after, |jobs|, f);
      LogContents(advanced, rest, f);
      if f.job < |jobs| {
        forall k | 0 <= k < |rest|
          ensures SlotAt(advanced, rest, f.job, k) == SlotAt(jobs, readings, f.job, k + 1)
        {
          SlotShift(jobs, readings, f.job, k);
        }
        if f in Firings(advanced, rest) {
          var k :| 0 <= k < |rest| && FiresAt(advanced, rest, f.job, k) &&
                   f == Firing(f.job, SlotAt(advanced, rest, f.job, k), rest[k].after);
          assert FiresAt(jobs, readings, f.job, k + 1);
        }
        if k :| 0 <= k < |readings| && FiresAt(jobs, readings, f.job, k) &&
                f == Firing(f.job, SlotAt(jobs, readings, f.job, k), readings[k].after)
        {
          if k > 0 {
            assert FiresAt(advanced, rest, f.job, k - 1);
          } else {
            assert SlotAt(jobs, readings, f.job, 0) == jobs[f.job].nextRun;
          }
        }
        if f in Due(jobs, readings[0].after, |jobs|) {
          assert FiresAt(jobs, readings, f.job, 0);
        }
      }
    }
  }

  ghost predicate Strict(s: Schedule) {
    forall t :: s.After(t).Some? ==> s.After(t).value > t
  }

  lemma {:induction false} SlotsGrow(jobs: seq<ScheduledJob>, readings: seq<Reading>, j: nat, i: nat, k: nat)
    requires j < |jobs| && i <= k <= |readings| && Strict(jobs[j].schedule)
    ensures SlotAt(jobs, readings, j, i) <= SlotAt(jobs, readings, j, k)
    decreases k
  {
    if i < k {
      SlotsGrow(jobs, readings, j, i, k - 1);
    }
  }

  lemma {:induction false} SlotsStayPast(jobs: seq<ScheduledJob>, readings: seq<Reading>, j: nat, i: nat, k: nat)
    requires j < |jobs| && i < k <= |readings| && Strict(jobs[j].schedule)
    requires FiresAt(jobs, readings, j, i)
    ensures readings[i].after < SlotAt(jobs, readings, j, k)
    decreases k
  {
    SlotStep(jobs, readings, j, k - 1);
    if i < k - 1 {
      SlotsStayPast(jobs, readings, j, i, k - 1);
    }
  }

  /** Whatever the clock does: a job never fires early, its slots strictly increase, and no slot fires twice. */
  lemma FiresOnceAndOnTime(jobs: seq<ScheduledJob>, readings: seq<Reading>, j: nat, i: nat, k: nat)
    requires j < |jobs| && i < k < |readings| && Strict(jobs[j].schedule)
    requires FiresAt(jobs, readings, j, i)
    ensures SlotAt(jobs, readings, j, i) <= readings[i].after < SlotAt(jobs, readings, j, k)
  {
    SlotsStayPast(jobs, readings, j, i, k);
  }

  /** An occurrence that was passed over without firing lies between a slot that fired and the clock read then. */
  lemma {:induction false} SkippedOnlyWhenLate(occurs: iset<Instant>, jobs: seq<ScheduledJob>,
                                               readings: seq<Reading>, j: nat, n: nat, m: Instant)
    requires j < |jobs| && n <= |readings| && Describes(occurs, jobs[j].schedule)
    requires m in occurs && jobs[j].nextRun <= m < SlotAt(jobs, readings, j, n)
    requires forall i :: 0 <= i < n && FiresAt(jobs, readings, j, i) ==> SlotAt(jobs, readings, j, i) != m
    ensures exists i :: 0 <= i < n && FiresAt(jobs, readings, j, i) &&
                        SlotAt(jobs, readings, j, i) < m <= readings[i].after
  {
    if m < SlotAt(jobs, readings, j, n - 1) {
      SkippedOnlyWhenLate(occurs, jobs, readings, j, n - 1, m);
    } else {
      assert FiresAt(jobs, readings, j, n - 1);
    }
  }

  lemma NextSlotOccurs(occurs: iset<Instant>, s: Schedule, now: Instant)
    requires Describes(occurs, s) && s.After(now).Some?
    ensures NextSlot(s, now) in occurs && NextSlot(s, now) > now
  {
  }

  /** Until its schedule runs out, a job waits for occurrences of that schedule only. */
  lemma {:induction false} SlotsAreOccurrences(occurs: iset<Instant>, jobs: seq<ScheduledJob>,
                                               readings: seq<Reading>, j: nat, n: nat)
    requires j < |jobs| && n <= |readings| && Describes(occurs, jobs[j].schedule)
    requires jobs[j].nextRun in occurs
    requires forall i :: 0 <= i < n && FiresAt(jobs, readings, j, i) ==> jobs[j].schedule.After(readings[i].after).Some?
    ensures SlotAt(jobs, readings, j, n) in occurs
  {
    if n > 0 {
      assert SlotAt(jobs, readings, j, n - 1) in occurs by {
        SlotsAreOccurrences(occurs, jobs, readings, j, n - 1);
      }
      OccurrenceStep(occurs, jobs, readings, j, n - 1);
    }
  }

  /** In particular from the registration on. */
  lemma SlotsFromRegistration(occurs: iset<Instant>, entries: seq<Entry>, now: Instant, readings: seq<Reading>,
                              j: nat, n: nat)
    requires j < |Registered(entries, now)| && Describes(occurs, Registered(entries, now)[j].schedule)
    requires n <= |readings|
    requires forall i :: 0 <= i < n && FiresAt(Registered(entries, now), readings, j, i) ==>
               Registered(entries, now)[j].schedule.After(readings[i].after).Some?
    ensures SlotAt(Registered(entries, now), readings, j, n) in occurs
  {
    RegisteredWaitsForNext(occurs, entries, now, j);
    SlotsAreOccurrences(occurs, Registered(entries, now), readings, j, n);
  }

  lemma OccurrenceStep(occurs: iset<Instant>, jobs: seq<ScheduledJob>, readings: seq<Reading>, j: nat, k: nat)
    requires j < |jobs| && k < |readings| && Describes(occurs, jobs[j].schedule)
    requires SlotAt(jobs, readings, j, k) in occurs
    requires FiresAt(jobs, readings, j, k) ==> jobs[j].schedule.After(readings[k].after).Some?
    ensures SlotAt(jobs, readings, j, k + 1) in occurs
  {
    SlotStep(jobs, readings, j, k);
    if FiresAt(jobs, readings, j, k) {
      NextSlotOccurs(occurs, jobs[j].schedule, readings[k].after);
    }
  }

  /** Once it has run out, the job rests a hundred years before its slot can come up again. */
  lemma ExhaustedRests(jobs: seq<ScheduledJob>, readings: seq<Reading>, j: nat, i: nat, k: nat)
    requires j < |jobs| && i < k < |readings| && Strict(jobs[j].schedule)
    requires FiresAt(jobs, readings, j, i) && jobs[j].schedule.After(readings[i].after).None?
    requires readings[k].after < readings[i].after + NEVER_AGAIN
    ensures !FiresAt(jobs, readings, j, k)
  {
    SlotStep(jobs, readings, j, i);
    SlotsGrow(jobs, readings, j, i + 1, k);
  }

  // ── Punctuality ────────────────────────────────────────────────────────────

  /** Each sleep asked for is at most an hour and ends no later than any slot still to come. */
  ghost predicate WaitsFor(jobs: seq<ScheduledJob>, readings: seq<Reading>, waits: seq<int>)
    requires |waits| == |readings|
  {
    forall j, k :: 0 <= j < |jobs| && 0 <= k < |readings| ==>
      ShortEnough(waits[k], readings[k].before, SlotAt(jobs, readings, j, k))
  }

  predicate ShortEnough(wait: int, now: Instant, slot: Instant) {
    0 <= wait <= MAX_SLEEP && wait <= Max(0, slot - now)
  }

  lemma {:induction false} SlotPrefix(jobs: seq<ScheduledJob>, readings: seq<Reading>, j: nat, k: nat, m: nat)
    requires j < |jobs| && k <= m <= |readings|
    ensures SlotAt(jobs, readings[..m], j, k) == SlotAt(jobs, readings, j, k)
  {
    if k > 0 {
      SlotPrefix(jobs, readings, j, k - 1, m);
    }
  }

  lemma OneMoreWait(jobs: seq<ScheduledJob>, readings: seq<Reading>, waits: seq<int>, wait: int, k: nat)
    requires |waits| == k < |readings| && WaitsFor(jobs, readings[..k], waits)
    requires forall j :: 0 <= j < |jobs| ==>
               ShortEnough(wait, readings[k].before, JobAt(jobs, readings, j, k).nextRun)
    ensures WaitsFor(jobs, readings[..k + 1], waits + [wait])
  {
    var readings', waits' := readings[..k + 1], waits + [wait];
    forall j, i | 0 <= j < |jobs| && 0 <= i < |readings'|
      ensures ShortEnough(waits'[i], readings'[i].before, SlotAt(jobs, readings', j, i))
    {
      SlotPrefix(jobs, readings, j, i, k + 1);
      if i < k {
        SlotPrefix(jobs, readings, j, i, k);
        assert ShortEnough(waits[i], readings[..k][i].before, SlotAt(jobs, readings[..k], j, i));
      } else {
        assert JobAt(jobs, readings, j, k).nextRun == SlotAt(jobs, readings, j, k);
      }
    }
  }

  /** The clock runs on without jumps: a sleep takes no longer than asked for, and nothing else takes time. */
  ghost predicate Smooth(readings: seq<Reading>, waits: seq<int>)
    requires |waits| == |readings|
  {
    && (forall k :: 0 <= k < |readings| ==> readings[k].after <= readings[k].before + waits[k])
    && (forall k :: 1 <= k < |readings| ==> readings[k].before == readings[k - 1].after)
  }

  lemma {:induction false} SlotAhead(jobs: seq<ScheduledJob>, readings: seq<Reading>, waits: seq<int>, j: nat, k: nat)
    requires |waits| == |readings| && WaitsFor(jobs, readings, waits) && Smooth(readings, waits)
    requires j < |jobs| && k < |readings| && Strict(jobs[j].schedule) && readings[0].before < jobs[j].nextRun
    ensures readings[k].before < SlotAt(jobs, readings, j, k)
  {
    if k > 0 {
      SlotAhead(jobs, readings, waits, j, k - 1);
      SlotStep(jobs, readings, j, k - 1);
    }
  }

  /** While the clock runs smoothly from the registration on, every job fires exactly at its slot. */
  lemma FiresOnTheDot(jobs: seq<ScheduledJob>, readings: seq<Reading>, waits: seq<int>, j: nat, k: nat)
    requires |waits| == |readings| && WaitsFor(jobs, readings, waits) && Smooth(readings, waits)
    requires j < |jobs| && k < |readings| && Strict(jobs[j].schedule) && readings[0].before < jobs[j].nextRun
    requires FiresAt(jobs, readings, j, k)
    ensures readings[k].after == SlotAt(jobs, readings, j, k)
  {
    SlotAhead(jobs, readings, waits, j, k);
    assert ShortEnough(waits[k], readings[k].before, SlotAt(jobs, readings, j, k));
  }
}
