/** The read-through user cache, first with service calls taken one at a time, then split into their steps. */
module UserCache {
  import opened Prelude

  type UserId = Uuid

  datatype UserResponse = UserResponse(id: UserId, email: string, name: string, createdAt: int, updatedAt: int)

  datatype Row = Row(email: string, name: string, passwordHash: string, createdAt: int, updatedAt: int)

  datatype AppError = NotFound | Validation | Database

  /** How a statement that changes the table can end: the change may be made and an error reported all the same. */
  datatype Written = Refused | Unreported | Reported

  /** How cache keys and cached values are written: identifiers print injectively, and decoding undoes encoding. */
  datatype Codec = Codec(
    format: UserId -> string,
    encode: UserResponse -> string,
    decode: string -> Option<UserResponse>)
  {
    ghost predicate Faithful() {
      && (forall a, b :: format(a) == format(b) ==> a == b)
      && (forall r :: decode(encode(r)) == Some(r))
    }

    function Key(id: UserId): string {
      "user:" + format(id)
    }
  }

  lemma KeysDiffer(c: Codec, a: UserId, b: UserId)
    requires c.Faithful() && a != b
    ensures c.Key(a) != c.Key(b)
  {
    assert c.Key(a)[5..] == c.format(a) && c.Key(b)[5..] == c.format(b);
  }

  function ResponseOf(id: UserId, row: Row): UserResponse {
    UserResponse(id, row.email, row.name, row.createdAt, row.updatedAt)
  }

  /** What a read that knows nothing of the cache returns. */
  function Uncached(table: map<UserId, Row>, id: UserId): Result<UserResponse, AppError> {
    if id in table then Ok(ResponseOf(id, table[id])) else Err(NotFound)
  }

  /** The row after an update. */
  function Renamed(row: Row, name: Option<string>, now: int): Row {
    row.(name := if name.Some? then name.value else row.name, updatedAt := now)
  }

  class UserService {
    const codec: Codec
    var table: map<UserId, Row>
    var cache: map<string, string>

    /** Whatever is cached under a user's key is that user's row. */
    ghost predicate Coherent()
      reads this
    {
      && codec.Faithful()
      && forall id :: codec.Key(id) in cache ==>
           id in table && codec.decode(cache[codec.Key(id)]) == Some(ResponseOf(id, table[id]))
    }

    constructor (codec: Codec)
      requires codec.Faithful()
      ensures Coherent() && table == map[] && cache == map[] && this.codec == codec
    {
      this.codec := codec;
      table, cache := map[], map[];
    }

    method FindById(works: bool, id: UserId) returns (r: Result<UserResponse, AppError>)
      requires Coherent()
      modifies this`cache
      ensures Coherent()
      ensures r == if works || codec.Key(id) in old(cache) then Uncached(table, id) else Err(Database)
      ensures cache == if r.Ok? && codec.Key(id) !in old(cache) then old(cache)[codec.Key(id) := codec.encode(r.value)]
                       else old(cache)
      ensures r.Ok? ==>
                && id in table && r.value.id == id
                && r.value.email == table[id].email && r.value.name == table[id].name
                && r.value.createdAt == table[id].createdAt && r.value.updatedAt == table[id].updatedAt
      ensures r == Err(NotFound) ==> id !in table
    {
      var key := codec.Key(id);
      if key in cache {
        var cached := codec.decode(cache[key]);
        if cached.Some? {
          return Ok(cached.value);
        }
      }
      if !works {
        return Err(Database);
      }
      if id !in table {
        return Err(NotFound);
      }
      var response := ResponseOf(id, table[id]);
      forall other | other != id
        ensures codec.Key(other) != key
      {
        KeysDiffer(codec, other, id);
      }
      cache := cache[key := codec.encode(response)];
      r := Ok(response);
    }

    /** `id` and the times stand for the random and clock values the source draws. */
    method Create(valid: bool, written: Written, id: UserId, email: string, name: string, passwordHash: string,
                  now: int)
      returns (r: Result<UserResponse, AppError>)
      requires Coherent() && id !in table
      modifies this`table
      ensures Coherent()
      ensures r.Ok? <==> valid && written.Reported?
      ensures r.Err? ==> r.error == if valid then Database else Validation
      ensures table == if valid && !written.Refused? then old(table)[id := Row(email, name, passwordHash, now, now)]
                       else old(table)
      ensures r.Ok? ==> r == Uncached(table, id)
      ensures r.Ok? ==>
                && r.value.id == id && r.value.email == email && r.value.name == name
                && r.value.createdAt == now && r.value.updatedAt == now
                && id in table && table[id].email == email && table[id].name == name
                && table[id].passwordHash == passwordHash
    {
      if !valid {
        return Err(Validation);
      }
      if written.Refused? {
        return Err(Database);
      }
      table := table[id := Row(email, name, passwordHash, now, now)];
      if written.Unreported? {
        return Err(Database);
      }
      r := Ok(ResponseOf(id, table[id]));
    }

    /**
     An error reported after the row has changed skips the invalidation. That is
     the one case in which a single call can leave the cache wrong.
     */
    method Update(valid: bool, works: bool, written: Written, id: UserId, name: Option<string>, now: int)
      returns (r: Result<UserResponse, AppError>)
      requires Coherent()
      modifies this`table, this`cache
      ensures r.Ok? <==> valid && works && id in old(table) && written.Reported?
      ensures var changes := valid && works && id in old(table) && !written.Refused?;
              table == if changes then old(table)[id := Renamed(old(table)[id], name, now)] else old(table)
      ensures r.Ok? ==> r == Uncached(table, id)
      ensures valid && works && id in old(table) && !written.Refused? ==>
                && id in table && table - {id} == old(table) - {id}
                && table[id].name == (match name case Some(n) => n case None => old(table)[id].name)
                && table[id].updatedAt == now
                && table[id].email == old(table)[id].email && table[id].passwordHash == old(table)[id].passwordHash
                && table[id].createdAt == old(table)[id].createdAt
      ensures r.Ok? ==>
                && r.value.id == id && r.value.email == old(table)[id].email
                && r.value.name == (match name case Some(n) => n case None => old(table)[id].name)
                && r.value.createdAt == old(table)[id].createdAt && r.value.updatedAt == now
      ensures r.Err? ==>
                r.error == if !valid then Validation else if works && id !in old(table) then NotFound else Database
      ensures cache == if r.Ok? then old(cache) - {codec.Key(id)} else old(cache)
      ensures Coherent() <==> !(SkipsInvalidation(old(table), old(cache), valid && works, written, id) &&
                                ResponseOf(id, table[id]) != ResponseOf(id, old(table)[id]))
    {
      if !valid {
        return Err(Validation);
      }
      if !works {
        return Err(Database);
      }
      if id !in table {
        return Err(NotFound);
      }
      var row := table[id];
      if name.Some? {
        row := row.(name := name.value);
      }
      row := row.(updatedAt := now);
      if written.Refused? {
        return Err(Database);
      }
      ghost var before := table;
      table := table[id := row];
      if written.Unreported? {
        WrongEntry(before, id);
        return Err(Database);
      }
      cache := cache - {codec.Key(id)};
      r := Ok(ResponseOf(id, row));
    }

    /** The change to the row is made, its invalidation is not, and there is an entry. */
    predicate SkipsInvalidation(table: map<UserId, Row>, cache: map<string, string>, gotThere: bool, written: Written,
                                id: UserId)
    {
      gotThere && id in table && written.Unreported? && codec.Key(id) in cache
    }

    /** After a change of one row, with its entry still there, the cache is right only if the entry still is. */
    lemma WrongEntry(before: map<UserId, Row>, id: UserId)
      requires codec.Faithful() && id in before
      requires forall other :: codec.Key(other) in cache ==>
                 other in before && codec.decode(cache[codec.Key(other)]) == Some(ResponseOf(other, before[other]))
      requires forall other :: other != id ==> (other in table <==> other in before)
      requires forall other :: other != id && other in table ==> table[other] == before[other]
      ensures Coherent() <==>
                codec.Key(id) in cache ==> id in table && ResponseOf(id, table[id]) == ResponseOf(id, before[id])
    {
    }

    /** When no row is deleted the cache is left alone: there is nothing of that user in it. */
    method Delete(written: Written, id: UserId) returns (r: Result<(), AppError>)
      requires Coherent()
      modifies this`table, this`cache
      ensures r == if !written.Reported? then Err(Database) else if id in old(table) then Ok(()) else Err(NotFound)
      ensures table == if written.Refused? then old(table) else old(table) - {id}
      ensures cache == if written.Reported? then old(cache) - {codec.Key(id)} else old(cache)
      ensures Coherent() <==> !SkipsInvalidation(old(table), old(cache), true, written, id)
    {
      if written.Refused? {
        return Err(Database);
      }
      if id !in table {
        assert table - {id} == table && cache - {codec.Key(id)} == cache;
        return if written.Reported? then Err(NotFound) else Err(Database);
      }
      ghost var before := table;
      table := table - {id};
      if written.Unreported? {
        WrongEntry(before, id);
        return Err(Database);
      }
      cache := cache - {codec.Key(id)};
      r := Ok(());
    }

    /** The cache forgets entries whenever it likes. */
    method Expire(key: string)
      requires Coherent()
      modifies this`cache
      ensures Coherent() && cache == old(cache) - {key}
    {
      cache := cache - {key};
    }
  }

  /** A user who has been given a new name is found under it. */
  method UpdateThenFind(service: UserService, valid: bool, written: Written, id: UserId, name: string, now: int)
    returns (updated: Result<UserResponse, AppError>, found: Result<UserResponse, AppError>)
    requires service.Coherent()
    modifies service`table, service`cache
    ensures updated.Ok? ==>
              && found == updated && found.value.id == id && found.value.name == name && found.value.updatedAt == now
              && service.Coherent()
    ensures updated.Err? && id in old(service.table) && !(valid && written.Unreported?) ==>
              && found.Ok? && found.value.id == id && found.value.name == old(service.table)[id].name
              && found.value.updatedAt == old(service.table)[id].updatedAt
  {
    updated := service.Update(valid, true, written, id, Some(name), now);
    found := Err(Database);
    if !(valid && written.Unreported?) {
      found := service.FindById(true, id);
    }
  }

  // ── Calls split into steps ─────────────────────────────────────────────────

  type TaskId = nat

  /** A reader holds what it read until it fills the cache; a writer has yet to invalidate. */
  datatype Task = Reader(id: UserId, response: UserResponse) | Writer(id: UserId)

  datatype State = State(
    table: map<UserId, Row>,
    cache: map<UserId, UserResponse>,
    tasks: map<TaskId, Task>,
    everCreated: set<UserId>,
    past: map<UserId, set<UserResponse>>)  // history: every value each row has had

  const START := State(map[], map[], map[], {}, map[])

  datatype Step =
    | InsertRow(id: UserId, row: Row)
    | CacheHit(id: UserId)
    | ReadRow(task: TaskId, id: UserId)  // after a miss: the entry may be back by now
    | FillCache(task: TaskId)
    | WriteRow(task: TaskId, id: UserId, row: Row)
    | DeleteRow(task: TaskId, id: UserId)
    | Invalidate(task: TaskId)
    | Abandon(task: TaskId)  // the call ends early: an error after the write, or its request is gone
    | ExpireEntry(id: UserId)

  predicate Enabled(s: State, step: Step) {
    match step
    case InsertRow(id, _) => id !in s.everCreated
    case CacheHit(id) => id in s.cache
    case ReadRow(t, id) => t !in s.tasks && id in s.table
    case FillCache(t) => t in s.tasks && s.tasks[t].Reader?
    case WriteRow(t, id, _) => t !in s.tasks && id in s.table
    case DeleteRow(t, id) => t !in s.tasks && id in s.table
    case Invalidate(t) => t in s.tasks && s.tasks[t].Writer?
    case Abandon(t) => t in s.tasks
    case ExpireEntry(_) => true
  }

  function PastOf(s: State, id: UserId): set<UserResponse> {
    if id in s.past then s.past[id] else {}
  }

  function Recorded(s: State, id: UserId, row: Row): map<UserId, set<UserResponse>> {
    s.past[id := PastOf(s, id) + {ResponseOf(id, row)}]
  }

  function Apply(s: State, step: Step): State
    requires Enabled(s, step)
  {
    match step
    case InsertRow(id, row) =>
      s.(table := s.table[id := row], everCreated := s.everCreated + {id}, past := Recorded(s, id, row))
    case CacheHit(_) => s
    case ReadRow(t, id) => s.(tasks := s.tasks[t := Reader(id, ResponseOf(id, s.table[id]))])
    case FillCache(t) => s.(cache := s.cache[s.tasks[t].id := s.tasks[t].response], tasks := s.tasks - {t})
    case WriteRow(t, id, row) =>
      s.(table := s.table[id := row], tasks := s.tasks[t := Writer(id)], past := Recorded(s, id, row))
    case DeleteRow(t, id) => s.(table := s.table - {id}, tasks := s.tasks[t := Writer(id)])
    case Invalidate(t) => s.(cache := s.cache - {s.tasks[t].id}, tasks := s.tasks - {t})
    case Abandon(t) => s.(tasks := s.tasks - {t})
    case ExpireEntry(id) => s.(cache := s.cache - {id})
  }

  /** What a step answers to its caller: `find_by_id` returns on a hit, or after filling the cache. */
  function Answer(s: State, step: Step): Option<UserResponse>
    requires Enabled(s, step)
  {
    match step
    case CacheHit(id) => Some(s.cache[id])
    case FillCache(t) => Some(s.tasks[t].response)
    case _ => None
  }

  function AnswerTo(s: State, step: Step): UserId
    requires Enabled(s, step) && Answer(s, step).Some?
  {
    if step.CacheHit? then step.id else s.tasks[step.task].id
  }

  ghost predicate Next(s: State, step: Step, t: State) {
    Enabled(s, step) && t == Apply(s, step)
  }

  ghost predicate IsRun(steps: seq<Step>, trace: seq<State>) {
    && |trace| == |steps| + 1
    && trace[0] == START
    && forall i :: 0 <= i < |steps| ==> Next(trace[i], steps[i], trace[i + 1])
  }

  ghost predicate Inv(s: State) {
    && s.table.Keys <= s.everCreated
    && (forall id :: id in s.table ==> ResponseOf(id, s.table[id]) in PastOf(s, id))
    && (forall id :: id in s.cache ==> id in s.everCreated && s.cache[id] in PastOf(s, id))
    && (forall t :: t in s.tasks ==> s.tasks[t].id in s.everCreated)
    && (forall t :: t in s.tasks && s.tasks[t].Reader? ==> s.tasks[t].response in PastOf(s, s.tasks[t].id))
  }

  lemma InvKept(s: State, step: Step)
    requires Inv(s) && Enabled(s, step)
    ensures Inv(Apply(s, step))
  {
    forall id
      ensures PastOf(s, id) <= PastOf(Apply(s, step), id)
    {
    }
  }

  lemma {:induction false} RunKeepsInv(steps: seq<Step>, trace: seq<State>, n: nat)
    requires IsRun(steps, trace) && n <= |steps|
    ensures Inv(trace[n])
  {
    if n > 0 {
      RunKeepsInv(steps, trace, n - 1);
      assert Next(trace[n - 1], steps[n - 1], trace[n]);
      InvKept(trace[n - 1], steps[n - 1]);
    }
  }

  /** The history is what it says: a value enters it only by being the row's value. */
  lemma {:induction false} PastWasPresent(steps: seq<Step>, trace: seq<State>, n: nat, id: UserId, r: UserResponse)
    returns (m: nat)
    requires IsRun(steps, trace) && n <= |steps| && r in PastOf(trace[n], id)
    ensures m <= n && id in trace[m].table && ResponseOf(id, trace[m].table[id]) == r
    decreases n
  {
    m := n;
    if n > 0 {
      assert Next(trace[n - 1], steps[n - 1], trace[n]);
      if r in PastOf(trace[n - 1], id) {
        m := PastWasPresent(steps, trace, n - 1, id, r);
      }
    }
  }

  /** However the calls interleave, an answer is what the row really held at some earlier moment. */
  lemma AnswersWereTrueOnce(steps: seq<Step>, trace: seq<State>, n: nat) returns (m: nat)
    requires IsRun(steps, trace) && n < |steps|
    requires Enabled(trace[n], steps[n]) && Answer(trace[n], steps[n]).Some?
    ensures m <= n
    ensures var id := AnswerTo(trace[n], steps[n]);
            id in trace[m].table && ResponseOf(id, trace[m].table[id]) == Answer(trace[n], steps[n]).value
  {
    RunKeepsInv(steps, trace, n);
    m := PastWasPresent(steps, trace, n, AnswerTo(trace[n], steps[n]), Answer(trace[n], steps[n]).value);
  }

  // ── How an entry goes stale ────────────────────────────────────────────────

  ghost predicate InvalidationPending(s: State, id: UserId) {
    exists t :: t in s.tasks && s.tasks[t] == Writer(id)
  }

  /** The entry is wrong, and no writer is about to remove it. */
  ghost predicate Stale(s: State, id: UserId) {
    && id in s.cache
    && !(id in s.table && s.cache[id] == ResponseOf(id, s.table[id]))
    && !InvalidationPending(s, id)
  }

  /** A reader puts back what a finished writer has already replaced. */
  ghost predicate LateFill(s: State, step: Step, id: UserId) {
    && step.FillCache? && step.task in s.tasks && s.tasks[step.task].Reader? && s.tasks[step.task].id == id
    && !(id in s.table && s.tasks[step.task].response == ResponseOf(id, s.table[id]))
    && !InvalidationPending(s, id)
  }

  /** A writer ends without invalidating, nobody else is about to, and the entry is not the row. */
  ghost predicate Skipped(s: State, step: Step, id: UserId) {
    && step.Abandon? && step.task in s.tasks && s.tasks[step.task] == Writer(id)
    && (forall t :: t in s.tasks && s.tasks[t] == Writer(id) ==> t == step.task)
    && id in s.cache
    && !(id in s.table && s.cache[id] == ResponseOf(id, s.table[id]))
  }

  lemma PendingAfter(s: State, step: Step, id: UserId)
    requires Enabled(s, step)
    requires !((step.Invalidate? || step.Abandon?) && s.tasks[step.task] == Writer(id))
    ensures InvalidationPending(Apply(s, step), id) <==>
              InvalidationPending(s, id) || ((step.WriteRow? || step.DeleteRow?) && step.id == id)
  {
    var u := Apply(s, step);
    if t :| t in s.tasks && s.tasks[t] == Writer(id) {
      assert u.tasks[t] == Writer(id);
    }
    if (step.WriteRow? || step.DeleteRow?) && step.id == id {
      assert u.tasks[step.task] == Writer(id);
    }
  }

  lemma PendingAfterAbandon(s: State, step: Step, id: UserId)
    requires Enabled(s, step) && step.Abandon? && s.tasks[step.task] == Writer(id)
    ensures InvalidationPending(Apply(s, step), id) <==>
              exists t :: t in s.tasks && s.tasks[t] == Writer(id) && t != step.task
  {
    var u := Apply(s, step);
    if t :| t in s.tasks && s.tasks[t] == Writer(id) && t != step.task {
      assert u.tasks[t] == Writer(id);
    }
  }

  /** Exactly two kinds of step make the cache stale. */
  lemma StaleIffLateOrSkipped(s: State, step: Step, id: UserId)
    requires Inv(s) && Enabled(s, step) && !Stale(s, id)
    ensures Stale(Apply(s, step), id) <==> LateFill(s, step, id) || Skipped(s, step, id)
  {
    if step.Abandon? && s.tasks[step.task] == Writer(id) {
      PendingAfterAbandon(s, step, id);
    } else if !(step.Invalidate? && s.tasks[step.task] == Writer(id)) {
      PendingAfter(s, step, id);
    }
  }

  /** So a run never has a lasting wrong entry exactly when it has no step of either kind. */
  lemma {:induction false} NeverStaleIff(steps: seq<Step>, trace: seq<State>, n: nat, id: UserId)
    requires IsRun(steps, trace) && n <= |steps|
    ensures (forall i :: 0 <= i <= n ==> !Stale(trace[i], id)) <==>
            (forall i :: 0 <= i < n ==> !LateFill(trace[i], steps[i], id) && !Skipped(trace[i], steps[i], id))
  {
    if n > 0 {
      NeverStaleIff(steps, trace, n - 1, id);
      RunKeepsInv(steps, trace, n - 1);
      assert Next(trace[n - 1], steps[n - 1], trace[n]);
      if !Stale(trace[n - 1], id) {
        StaleIffLateOrSkipped(trace[n - 1], steps[n - 1], id);
      }
    }
  }

  lemma NoLateFillsNoStaleEntries(steps: seq<Step>, trace: seq<State>, n: nat, id: UserId)
    requires IsRun(steps, trace) && n <= |steps|
    requires forall i :: 0 <= i < n ==> !LateFill(trace[i], steps[i], id) && !Skipped(trace[i], steps[i], id)
    ensures !Stale(trace[n], id)
  {
    NeverStaleIff(steps, trace, n, id);
  }

  /** The step at which the reader `t` read, and that it has held the row of that moment since. */
  lemma {:induction false} ReadAt(steps: seq<Step>, trace: seq<State>, j: nat, t: TaskId) returns (i: nat)
    requires IsRun(steps, trace) && j <= |steps| && t in trace[j].tasks && trace[j].tasks[t].Reader?
    ensures i < j && steps[i] == ReadRow(t, trace[j].tasks[t].id) && trace[j].tasks[t].id in trace[i].table
    ensures trace[j].tasks[t].response == ResponseOf(trace[j].tasks[t].id, trace[i].table[trace[j].tasks[t].id])
  {
    assert Next(trace[j - 1], steps[j - 1], trace[j]);
    if t in trace[j - 1].tasks {
      i := ReadAt(steps, trace, j - 1, t);
    } else {
      i := j - 1;
    }
  }

  predicate Changes(step: Step, id: UserId) {
    (step.WriteRow? || step.DeleteRow?) && step.id == id
  }

  lemma {:induction false} RowStays(steps: seq<Step>, trace: seq<State>, i: nat, j: nat, id: UserId)
    requires IsRun(steps, trace) && i <= j <= |steps| && id in trace[i].table
    requires forall k :: i <= k < j ==> !Changes(steps[k], id)
    ensures id in trace[j].table && trace[j].table[id] == trace[i].table[id]
    decreases j
  {
    if i < j {
      RowStays(steps, trace, i, j - 1, id);
      RunKeepsInv(steps, trace, j - 1);
      assert Next(trace[j - 1], steps[j - 1], trace[j]);
    }
  }

  /** Over the run: a late fill is that of a reader between whose read and fill the row was written or deleted. */
  lemma LateFillWasOvertaken(steps: seq<Step>, trace: seq<State>, j: nat, id: UserId) returns (i: nat, k: nat)
    requires IsRun(steps, trace) && j < |steps| && LateFill(trace[j], steps[j], id)
    ensures i < k < j && steps[i] == ReadRow(steps[j].task, id) && Changes(steps[k], id)
  {
    var t := steps[j].task;
    i := ReadAt(steps, trace, j, t);
    if forall k :: i <= k < j ==> !Changes(steps[k], id) {
      RowStays(steps, trace, i, j, id);
    }
    k :| i <= k < j && Changes(steps[k], id);
  }

  /** It does happen: the update is complete, nothing is under way, and the old name is served. */
  lemma LateFillExample(id: UserId, before: Row, after: Row) returns (steps: seq<Step>, trace: seq<State>)
    requires before.name != after.name
    ensures IsRun(steps, trace)
    ensures trace[|steps|].tasks == map[] && Stale(trace[|steps|], id)
  {
    steps := [InsertRow(id, before), ReadRow(0, id), WriteRow(1, id, after), Invalidate(1), FillCache(0)];
    var s1 := Apply(START, steps[0]);
    var s2 := Apply(s1, steps[1]);
    var s3 := Apply(s2, steps[2]);
    var s4 := Apply(s3, steps[3]);
    var s5 := Apply(s4, steps[4]);
    trace := [START, s1, s2, s3, s4, s5];
    assert s5.tasks == map[];
  }

  /** So does the other kind, without any interleaving: the row has changed, and the call ends before it invalidates. */
  lemma SkippedExample(id: UserId, before: Row, after: Row) returns (steps: seq<Step>, trace: seq<State>)
    requires before.name != after.name
    ensures IsRun(steps, trace)
    ensures trace[|steps|].tasks == map[] && Stale(trace[|steps|], id)
  {
    steps := [InsertRow(id, before), ReadRow(0, id), FillCache(0), WriteRow(1, id, after), Abandon(1)];
    var s1 := Apply(START, steps[0]);
    var s2 := Apply(s1, steps[1]);
    var s3 := Apply(s2, steps[2]);
    var s4 := Apply(s3, steps[3]);
    var s5 := Apply(s4, steps[4]);
    trace := [START, s1, s2, s3, s4, s5];
    assert s5.tasks == map[];
  }
}
