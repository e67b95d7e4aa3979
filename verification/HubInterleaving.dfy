/**
 The hub as its threads really use it: each critical section of a concurrent map
 is one step, and steps of different threads interleave freely. Every connection
 has one session task, which registers it and then subscribes and unsubscribes;
 any thread may evict any connection or push to it.

 The topic index and the user index never share a key, so they are one map here
 with tagged keys.
 */
module HubInterleaving {
  import opened Prelude
  import opened SubscriberIndex
  import opened HubModel
  import Hub

  datatype Key = TopicKey(topic: string) | UserKey(user: Uuid)

  /** What a session task still has to do to the index. */
  datatype Pending =
    | Idle
    | Inserting(key: Key)  // in `register` or `subscribe`, before the index insert
    | Removing(key: Key)   // in `unsubscribe`, before the member is removed
    | Dropping(key: Key)   // in `unsubscribe`, before the emptied entry is removed

  /** What the thread that removed a connection still has to detach. */
  datatype Eviction = Eviction(todo: set<Key>, dropping: Option<Key>)

  datatype State = State(
    connections: map<ConnectionId, Connection>,
    index: Index<Key>,
    sessions: map<ConnectionId, Pending>,
    evictions: map<ConnectionId, Eviction>,
    pushed: map<ConnectionId, nat>,
    admitted: nat,   // registrations past the limit check, not yet inserted
    peak: nat)       // the most there ever were at once

  const START := State(map[], map[], map[], map[], map[], 0, 0)

  datatype Step =
    | Admit
    | Connect(id: ConnectionId, user: Option<Uuid>)
    | OwnSubscribe(id: ConnectionId, topic: string)
    | OwnUnsubscribe(id: ConnectionId, topic: string)
    | IndexInsert(id: ConnectionId)
    | IndexRemove(id: ConnectionId)
    | IndexDrop(id: ConnectionId)
    | Evict(id: ConnectionId)
    | EvictRemove(id: ConnectionId, key: Key)
    | EvictDrop(id: ConnectionId)
    | PushFrame(id: ConnectionId)

  predicate Files(conn: Connection, k: Key) {
    match k
    case TopicKey(t) => t in conn.topics
    case UserKey(u) => conn.userId == Some(u)
  }

  function KeysOf(conn: Connection): set<Key> {
    (set t | t in conn.topics :: TopicKey(t)) + if conn.userId.Some? then {UserKey(conn.userId.value)} else {}
  }

  function PendingOf(s: State, id: ConnectionId): Pending {
    if id in s.sessions then s.sessions[id] else Idle
  }

  function TodoOf(s: State, id: ConnectionId): set<Key> {
    if id in s.evictions then s.evictions[id].todo else {}
  }

  predicate Enabled(cfg: Config, s: State, step: Step) {
    match step
    case Admit => cfg.maxConnections > 0 ==> |s.connections| < cfg.maxConnections
    case Connect(id, _) => s.admitted > 0 && id !in s.sessions
    case OwnSubscribe(id, t) =>
      && id in s.sessions && s.sessions[id].Idle? && id in s.connections
      && (cfg.maxTopicsPerConnection > 0 && t !in s.connections[id].topics ==>
            |s.connections[id].topics| < cfg.maxTopicsPerConnection)
    case OwnUnsubscribe(id, _) => id in s.sessions && s.sessions[id].Idle?
    case IndexInsert(id) => PendingOf(s, id).Inserting?
    case IndexRemove(id) => PendingOf(s, id).Removing?
    case IndexDrop(id) => PendingOf(s, id).Dropping?
    case Evict(id) => id in s.connections
    case EvictRemove(id, k) =>
      && id in s.evictions && s.evictions[id].dropping.None? && k in s.evictions[id].todo
      && (k.UserKey? ==> forall j :: j in s.evictions[id].todo ==> j.UserKey?)
    case EvictDrop(id) => id in s.evictions && s.evictions[id].dropping.Some?
    case PushFrame(_) => true
  }

  function Apply(cfg: Config, s: State, step: Step): State
    requires Enabled(cfg, s, step)
  {
    match step
    case Admit => s.(admitted := s.admitted + 1, peak := Max(s.peak, s.admitted + 1))
    case Connect(id, user) =>
      s.(admitted := s.admitted - 1,
         connections := s.connections[id := Connection(user, {})],
         pushed := s.pushed[id := 0],
         sessions := s.sessions[id := if user.Some? then Inserting(UserKey(user.value)) else Idle])
    case OwnSubscribe(id, t) =>
      var c := s.connections[id];
      s.(connections := s.connections[id := c.(topics := c.topics + {t})],
         sessions := s.sessions[id := Inserting(TopicKey(t))])
    case OwnUnsubscribe(id, t) =>
      s.(connections := if id in s.connections then
                          var c := s.connections[id];
                          s.connections[id := c.(topics := c.topics - {t})]
                        else s.connections,
         sessions := s.sessions[id := Removing(TopicKey(t))])
    case IndexInsert(id) =>
      s.(index := Insert(s.index, s.sessions[id].key, id), sessions := s.sessions[id := Idle])
    case IndexRemove(id) =>
      var k := s.sessions[id].key;
      s.(index := RemoveMember(s.index, k, id), sessions := s.sessions[id := Dropping(k)])
    case IndexDrop(id) =>
      s.(index := DropIfEmpty(s.index, s.sessions[id].key), sessions := s.sessions[id := Idle])
    case Evict(id) =>
      s.(connections := s.connections - {id},
         evictions := s.evictions[id := Eviction(KeysOf(s.connections[id]), None)])
    case EvictRemove(id, k) =>
      s.(index := RemoveMember(s.index, k, id),
         evictions := s.evictions[id := Eviction(s.evictions[id].todo - {k}, Some(k))])
    case EvictDrop(id) =>
      s.(index := DropIfEmpty(s.index, s.evictions[id].dropping.value),
         evictions := s.evictions[id := s.evictions[id].(dropping := None)])
    case PushFrame(id) =>
      if id in s.connections && id in s.pushed then s.(pushed := s.pushed[id := s.pushed[id] + 1]) else s
  }

  ghost predicate IsRun(cfg: Config, steps: seq<Step>, trace: seq<State>) {
    && |trace| == |steps| + 1
    && trace[0] == START
    && forall i :: 0 <= i < |steps| ==> Next(cfg, trace[i], steps[i], trace[i + 1])
  }

  ghost predicate Next(cfg: Config, s: State, step: Step, t: State) {
    Enabled(cfg, s, step) && t == Apply(cfg, s, step)
  }

  // ── What the interleaving preserves ────────────────────────────────────────

  ghost predicate Bookkeeping(s: State) {
    && s.connections.Keys <= s.sessions.Keys
    && s.evictions.Keys <= s.sessions.Keys
    && s.connections.Keys !! s.evictions.Keys
    && s.pushed.Keys == s.sessions.Keys
  }

  /** A live connection and the index agree on `k`, except in the middle of the session's own operation on `k`. */
  ghost predicate LiveAgrees(s: State, id: ConnectionId, k: Key)
    requires id in s.connections
  {
    var mine := Files(s.connections[id], k);
    match PendingOf(s, id)
    case Inserting(j) => if j == k then mine else mine <==> id in Members(s.index, k)
    case Removing(j) => if j == k then !mine else mine <==> id in Members(s.index, k)
    case _ => mine <==> id in Members(s.index, k)
  }

  ghost predicate LiveInv(s: State) {
    forall id, k :: id in s.connections ==> LiveAgrees(s, id, k)
  }

  /** Someone has emptied an entry and is about to remove it. */
  ghost predicate BeingDropped(s: State, k: Key) {
    || (exists id :: id in s.sessions && s.sessions[id] == Dropping(k))
    || (exists id :: id in s.evictions && s.evictions[id].dropping == Some(k))
  }

  ghost predicate EmptyInv(s: State) {
    forall k :: k in s.index && s.index[k] == {} ==> BeingDropped(s, k)
  }

  /** Only connections that once existed are in the index. */
  ghost predicate KnownInv(s: State) {
    forall id, k :: id in Members(s.index, k) ==> id in s.sessions
  }

  ghost predicate Inv(s: State) {
    Bookkeeping(s) && LiveInv(s) && EmptyInv(s) && KnownInv(s)
  }

  /** Steps of the session task itself; all others can come from any thread. */
  predicate BySession(step: Step) {
    || step.Connect? || step.OwnSubscribe? || step.OwnUnsubscribe?
    || step.IndexInsert? || step.IndexRemove? || step.IndexDrop?
  }

  lemma ConnectionsAfter(cfg: Config, s: State, step: Step)
    requires Enabled(cfg, s, step)
    ensures Apply(cfg, s, step).connections.Keys ==
              if step.Connect? then s.connections.Keys + {step.id}
              else if step.Evict? then s.connections.Keys - {step.id}
              else s.connections.Keys
  {
  }

  lemma EvictionsAfter(cfg: Config, s: State, step: Step)
    requires Enabled(cfg, s, step)
    ensures Apply(cfg, s, step).evictions.Keys == s.evictions.Keys + if step.Evict? then {step.id} else {}
  {
  }

  lemma PushedAfter(cfg: Config, s: State, step: Step)
    requires Enabled(cfg, s, step)
    ensures Apply(cfg, s, step).pushed.Keys == s.pushed.Keys + if step.Connect? then {step.id} else {}
  {
  }

  lemma SessionsAfter(cfg: Config, s: State, step: Step)
    requires Enabled(cfg, s, step)
    ensures Apply(cfg, s, step).sessions.Keys == s.sessions.Keys + if step.Connect? then {step.id} else {}
  {
  }

  lemma BookkeepingKept(cfg: Config, s: State, step: Step)
    requires Bookkeeping(s) && Enabled(cfg, s, step)
    ensures Bookkeeping(Apply(cfg, s, step))
  {
    ConnectionsAfter(cfg, s, step);
    EvictionsAfter(cfg, s, step);
    PushedAfter(cfg, s, step);
    SessionsAfter(cfg, s, step);
  }

  lemma LiveKeptBySession(cfg: Config, s: State, step: Step, id: ConnectionId, k: Key)
    requires Inv(s) && Enabled(cfg, s, step) && BySession(step)
    requires id in Apply(cfg, s, step).connections
    ensures LiveAgrees(Apply(cfg, s, step), id, k)
  {
    if id in s.connections {
      assert LiveAgrees(s, id, k);
    } else {
      assert id !in Members(s.index, k);
    }
  }

  lemma LiveKept(cfg: Config, s: State, step: Step, id: ConnectionId, k: Key)
    requires Inv(s) && Enabled(cfg, s, step)
    requires id in Apply(cfg, s, step).connections
    ensures LiveAgrees(Apply(cfg, s, step), id, k)
  {
    if BySession(step) {
      LiveKeptBySession(cfg, s, step, id, k);
    } else if id in s.connections {
      assert LiveAgrees(s, id, k);
    }
  }

  lemma KnownKept(cfg: Config, s: State, step: Step, id: ConnectionId, k: Key)
    requires Bookkeeping(s) && KnownInv(s) && Enabled(cfg, s, step)
    requires id in Members(Apply(cfg, s, step).index, k)
    ensures id in Apply(cfg, s, step).sessions
  {
    if id in Members(s.index, k) {
    }
  }

  lemma DropOutlivesStep(cfg: Config, s: State, step: Step, k: Key)
    requires Bookkeeping(s) && Enabled(cfg, s, step) && k in s.index && s.index[k] == {} && BeingDropped(s, k)
    requires var t := Apply(cfg, s, step); k in t.index && t.index[k] == {}
    ensures BeingDropped(Apply(cfg, s, step), k)
  {
    var t := Apply(cfg, s, step);
    if id :| id in s.sessions && s.sessions[id] == Dropping(k) {
      assert step == IndexDrop(id) || t.sessions[id] == Dropping(k);
    } else if id :| id in s.evictions && s.evictions[id].dropping == Some(k) {
      assert step == EvictDrop(id) || t.evictions[id].dropping == Some(k);
    }
  }

  lemma EmptyKept(cfg: Config, s: State, step: Step, k: Key)
    requires Bookkeeping(s) && EmptyInv(s) && Enabled(cfg, s, step)
    requires var t := Apply(cfg, s, step); k in t.index && t.index[k] == {}
    ensures BeingDropped(Apply(cfg, s, step), k)
  {
    var t := Apply(cfg, s, step);
    if k in s.index && s.index[k] == {} {
      DropOutlivesStep(cfg, s, step, k);
    } else {
      match step {
        case IndexRemove(id) => assert t.sessions[id] == Dropping(k);
        case EvictRemove(id, _) => assert t.evictions[id].dropping == Some(k);
        case _ =>
      }
    }
  }

  lemma InvKept(cfg: Config, s: State, step: Step)
    requires Inv(s) && Enabled(cfg, s, step)
    ensures Inv(Apply(cfg, s, step))
  {
    var t := Apply(cfg, s, step);
    BookkeepingKept(cfg, s, step);
    forall id, k | id in t.connections
      ensures LiveAgrees(t, id, k)
    {
      LiveKept(cfg, s, step, id, k);
    }
    forall id, k | id in Members(t.index, k)
      ensures id in t.sessions
    {
      KnownKept(cfg, s, step, id, k);
    }
    forall k | k in t.index && t.index[k] == {}
      ensures BeingDropped(t, k)
    {
      EmptyKept(cfg, s, step, k);
    }
  }

  /** Every interleaving keeps the invariant. */
  lemma {:induction false} EveryRunKeepsInv(cfg: Config, steps: seq<Step>, trace: seq<State>, n: nat)
    requires IsRun(cfg, steps, trace) && n <= |steps|
    ensures Inv(trace[n])
  {
    if n > 0 {
      EveryRunKeepsInv(cfg, steps, trace, n - 1);
      assert Next(cfg, trace[n - 1], steps[n - 1], trace[n]);
      InvKept(cfg, trace[n - 1], steps[n - 1]);
    }
  }

  // ── Consequences for live connections ──────────────────────────────────────

  /** In any run, a live connection with no operation on `k` under way is indexed under `k` exactly when it files it. */
  lemma LiveConnectionsAreMirrored(cfg: Config, steps: seq<Step>, trace: seq<State>, n: nat, id: ConnectionId, k: Key)
    requires IsRun(cfg, steps, trace) && n <= |steps|
    requires id in trace[n].connections
    requires PendingOf(trace[n], id) != Inserting(k) && PendingOf(trace[n], id) != Removing(k)
    ensures id in Members(trace[n].index, k) <==> Files(trace[n].connections[id], k)
  {
    EveryRunKeepsInv(cfg, steps, trace, n);
    assert LiveAgrees(trace[n], id, k);
  }

  /** A member leaves the index only by its own detach: removing an emptied entry loses no concurrent subscriber. */
  lemma OnlyOwnDetachUnlists(cfg: Config, s: State, step: Step, id: ConnectionId, k: Key)
    requires Inv(s) && Enabled(cfg, s, step) && id in Members(s.index, k)
    ensures id !in Members(Apply(cfg, s, step).index, k) <==>
              (step == IndexRemove(id) && s.sessions[id] == Removing(k)) || step == EvictRemove(id, k)
    ensures id in s.connections && id !in Members(Apply(cfg, s, step).index, k) ==> step == IndexRemove(id)
  {
    MembershipAfter(cfg, s, step, id, k);
  }

  /** An empty subscriber set exists only while some detach is between its two steps. */
  lemma EmptyEntriesAreTransient(cfg: Config, steps: seq<Step>, trace: seq<State>, n: nat, k: Key)
    requires IsRun(cfg, steps, trace) && n <= |steps|
    requires k in trace[n].index && trace[n].index[k] == {}
    ensures BeingDropped(trace[n], k)
  {
    EveryRunKeepsInv(cfg, steps, trace, n);
  }

  /** Once removed, a connection never comes back and never receives another frame, whatever the indexes still say. */
  lemma {:induction false} RemovedReceivesNothing(cfg: Config, steps: seq<Step>, trace: seq<State>, m: nat, n: nat,
                                                  id: ConnectionId)
    requires IsRun(cfg, steps, trace) && m <= n <= |steps|
    requires id in trace[m].sessions && id !in trace[m].connections
    ensures id in trace[n].sessions && id !in trace[n].connections
    ensures id in trace[m].pushed && id in trace[n].pushed && trace[n].pushed[id] == trace[m].pushed[id]
    decreases n
  {
    EveryRunKeepsInv(cfg, steps, trace, m);
    if m < n {
      RemovedReceivesNothing(cfg, steps, trace, m, n - 1, id);
      assert Next(cfg, trace[n - 1], steps[n - 1], trace[n]);
      StaysRemoved(cfg, trace[n - 1], steps[n - 1], id);
    }
  }

  lemma StaysRemoved(cfg: Config, s: State, step: Step, id: ConnectionId)
    requires Enabled(cfg, s, step) && id in s.sessions && id !in s.connections && id in s.pushed
    ensures var t := Apply(cfg, s, step);
            id in t.sessions && id !in t.connections && id in t.pushed && t.pushed[id] == s.pushed[id]
  {
  }

  // ── Entries left behind ────────────────────────────────────────────────────

  /** `id` is gone, and nobody is going to take it out of the index. */
  ghost predicate Leftover(s: State, id: ConnectionId, k: Key) {
    && id in Members(s.index, k)
    && id !in s.connections
    && !DetachPending(s, id, k)
  }

  /** The session inserts into the index after an eviction has already passed over `k`. */
  ghost predicate Overtaken(s: State, step: Step, id: ConnectionId, k: Key) {
    && step == IndexInsert(id)
    && PendingOf(s, id) == Inserting(k)
    && id !in s.connections
    && k !in TodoOf(s, id)
  }

  lemma MembershipAfterSession(cfg: Config, s: State, step: Step, id: ConnectionId, k: Key)
    requires Bookkeeping(s) && Enabled(cfg, s, step) && BySession(step)
    ensures id in Members(Apply(cfg, s, step).index, k) <==>
              || (step == IndexInsert(id) && PendingOf(s, id) == Inserting(k))
              || (id in Members(s.index, k) && !(step == IndexRemove(id) && PendingOf(s, id) == Removing(k)))
  {
  }

  /** What one step does to one index entry. */
  lemma MembershipAfter(cfg: Config, s: State, step: Step, id: ConnectionId, k: Key)
    requires Bookkeeping(s) && Enabled(cfg, s, step)
    ensures id in Members(Apply(cfg, s, step).index, k) <==>
              || (step == IndexInsert(id) && PendingOf(s, id) == Inserting(k))
              || (id in Members(s.index, k) && step != EvictRemove(id, k) &&
                  !(step == IndexRemove(id) && PendingOf(s, id) == Removing(k)))
  {
    if BySession(step) {
      MembershipAfterSession(cfg, s, step, id, k);
    }
  }

  /** Whether a thread is still going to detach `id` from `k`. */
  ghost predicate DetachPending(s: State, id: ConnectionId, k: Key) {
    k in TodoOf(s, id) || PendingOf(s, id) == Removing(k)
  }

  lemma TasksAfterSession(cfg: Config, s: State, step: Step, id: ConnectionId, k: Key)
    requires Bookkeeping(s) && Enabled(cfg, s, step) && BySession(step)
    ensures TodoOf(Apply(cfg, s, step), id) == TodoOf(s, id)
    ensures PendingOf(Apply(cfg, s, step), id) == Removing(k) <==>
              || (k.TopicKey? && step == OwnUnsubscribe(id, k.topic))
              || (PendingOf(s, id) == Removing(k) && step != IndexRemove(id))
  {
  }

  lemma DetachPendingAfter(cfg: Config, s: State, step: Step, id: ConnectionId, k: Key)
    requires Bookkeeping(s) && Enabled(cfg, s, step) && id !in s.connections
    ensures var now := DetachPending(Apply(cfg, s, step), id, k);
            if step == EvictRemove(id, k) then now <==> PendingOf(s, id) == Removing(k)
            else if step == IndexRemove(id) && PendingOf(s, id) == Removing(k) then now <==> k in TodoOf(s, id)
            else now <==> DetachPending(s, id, k) || (k.TopicKey? && step == OwnUnsubscribe(id, k.topic))
  {
    if BySession(step) {
      TasksAfterSession(cfg, s, step, id, k);
    }
  }

  /** Exactly one kind of step leaves a dead entry in the index. */
  lemma LeftoverIffOvertaken(cfg: Config, s: State, step: Step, id: ConnectionId, k: Key)
    requires Inv(s) && Enabled(cfg, s, step) && !Leftover(s, id, k)
    ensures Leftover(Apply(cfg, s, step), id, k) <==> Overtaken(s, step, id, k)
  {
    MembershipAfter(cfg, s, step, id, k);
    if id in s.connections {
      assert LiveAgrees(s, id, k);
    } else {
      DetachPendingAfter(cfg, s, step, id, k);
    }
  }

  /** And only that session's own unsubscribe ever clears it; a dead entry of the user index is there for good. */
  lemma LeftoverClearedOnlyByUnsubscribe(cfg: Config, s: State, step: Step, id: ConnectionId, k: Key)
    requires Inv(s) && Enabled(cfg, s, step) && Leftover(s, id, k)
    ensures !Leftover(Apply(cfg, s, step), id, k) <==> k.TopicKey? && step == OwnUnsubscribe(id, k.topic)
  {
    MembershipAfter(cfg, s, step, id, k);
    DetachPendingAfter(cfg, s, step, id, k);
  }

  ghost predicate Quiescent(s: State) {
    && (forall id :: id in s.sessions ==> s.sessions[id].Idle?)
    && (forall id :: id in s.evictions ==> s.evictions[id] == Eviction({}, None))
  }

  /** The index holds what the connections file, and nothing else. */
  ghost predicate Mirrored(s: State) {
    && NoEmptyEntry(s.index)
    && forall id, k :: id in Members(s.index, k) <==> id in s.connections && Files(s.connections[id], k)
  }

  lemma QuiescentMirror(s: State)
    requires Inv(s) && Quiescent(s)
    ensures Mirrored(s) <==> forall id, k :: !Leftover(s, id, k)
  {
    forall id, k | id in s.connections
      ensures id in Members(s.index, k) <==> Files(s.connections[id], k)
    {
      assert LiveAgrees(s, id, k);
    }
    if Mirrored(s) {
      forall id, k
        ensures !Leftover(s, id, k)
      {
      }
    }
    if forall id, k :: !Leftover(s, id, k) {
      forall id, k | id in Members(s.index, k)
        ensures id in s.connections
      {
        assert !Leftover(s, id, k);
      }
    }
  }

  /** The two indexes of the hub class, taken apart again. */
  ghost function TopicsOf(index: Index<Key>): Index<string> {
    map k | k in index && k.TopicKey? :: k.topic := index[k]
  }

  ghost function UsersOf(index: Index<Key>): Index<Uuid> {
    map k | k in index && k.UserKey? :: k.user := index[k]
  }

  lemma IndexesTakenApart(index: Index<Key>)
    ensures forall t :: (t in TopicsOf(index) <==> TopicKey(t) in index) &&
                        Members(TopicsOf(index), t) == Members(index, TopicKey(t))
    ensures forall u :: (u in UsersOf(index) <==> UserKey(u) in index) &&
                        Members(UsersOf(index), u) == Members(index, UserKey(u))
    ensures NoEmptyEntry(index) <==> NoEmptyEntry(TopicsOf(index)) && NoEmptyEntry(UsersOf(index))
  {
    var topics, users := TopicsOf(index), UsersOf(index);
    forall t
      ensures t in topics <==> TopicKey(t) in index
      ensures t in topics ==> topics[t] == index[TopicKey(t)]
    {
      assert TopicKey(t).topic == t;
    }
    forall u
      ensures u in users <==> UserKey(u) in index
      ensures u in users ==> users[u] == index[UserKey(u)]
    {
      assert UserKey(u).user == u;
    }
    if NoEmptyEntry(topics) && NoEmptyEntry(users) {
      forall k | k in index
        ensures index[k] != {}
      {
        match k
        case TopicKey(t) => assert t in topics;
        case UserKey(u) => assert u in users;
      }
    }
  }

  ghost predicate HubMirrors(s: State) {
    Hub.TopicsMirror(s.connections, TopicsOf(s.index)) && Hub.UsersMirror(s.connections, UsersOf(s.index))
  }

  lemma MirroredForHub(s: State)
    requires Mirrored(s)
    ensures HubMirrors(s)
  {
    IndexesTakenApart(s.index);
    forall id, t
      ensures id in Members(TopicsOf(s.index), t) <==> id in s.connections && t in s.connections[id].topics
    {
      assert id in Members(s.index, TopicKey(t)) <==> id in s.connections && Files(s.connections[id], TopicKey(t));
    }
    forall id, u
      ensures id in Members(UsersOf(s.index), u) <==> id in s.connections && s.connections[id].userId == Some(u)
    {
      assert id in Members(s.index, UserKey(u)) <==> id in s.connections && Files(s.connections[id], UserKey(u));
    }
  }

  lemma HubMirrored(s: State)
    requires HubMirrors(s)
    ensures Mirrored(s)
  {
    IndexesTakenApart(s.index);
    forall id, k
      ensures id in Members(s.index, k) <==> id in s.connections && Files(s.connections[id], k)
    {
      match k
      case TopicKey(t) =>
        assert id in Members(TopicsOf(s.index), t) <==> id in s.connections && t in s.connections[id].topics;
      case UserKey(u) =>
        assert id in Members(UsersOf(s.index), u) <==> id in s.connections && s.connections[id].userId == Some(u);
    }
  }

  /** Being mirrored is the representation invariant of the hub class, about the same connections and indexes. */
  lemma MirroredIsTheHubs(s: State)
    ensures Mirrored(s) <==> HubMirrors(s)
  {
    if Mirrored(s) {
      MirroredForHub(s);
    }
    if HubMirrors(s) {
      HubMirrored(s);
    }
  }

  /** A run in which no insert is overtaken leaves no dead id. */
  lemma {:induction false} NoLeftovers(cfg: Config, steps: seq<Step>, trace: seq<State>, n: nat)
    requires IsRun(cfg, steps, trace) && n <= |steps|
    requires forall i, id, k :: 0 <= i < n ==> !Overtaken(trace[i], steps[i], id, k)
    ensures forall id, k :: !Leftover(trace[n], id, k)
  {
    if n > 0 {
      NoLeftovers(cfg, steps, trace, n - 1);
      EveryRunKeepsInv(cfg, steps, trace, n - 1);
      assert Next(cfg, trace[n - 1], steps[n - 1], trace[n]);
      forall id, k
        ensures !Leftover(trace[n], id, k)
      {
        LeftoverIffOvertaken(cfg, trace[n - 1], steps[n - 1], id, k);
      }
    }
  }

  /** Once everything has settled, such a run is in a state the atomic hub could be in. */
  lemma SettledRunIsMirrored(cfg: Config, steps: seq<Step>, trace: seq<State>)
    requires IsRun(cfg, steps, trace) && Quiescent(trace[|steps|])
    requires forall i, id, k :: 0 <= i < |steps| ==> !Overtaken(trace[i], steps[i], id, k)
    ensures Mirrored(trace[|steps|]) && HubMirrors(trace[|steps|])
  {
    MirroredIsTheHubs(trace[|steps|]);
    NoLeftovers(cfg, steps, trace, |steps|);
    EveryRunKeepsInv(cfg, steps, trace, |steps|);
    QuiescentMirror(trace[|steps|]);
  }

  /** An overtaken insert, number `i`, that the session has not taken back by unsubscribing before step `n`. */
  ghost predicate StandsOvertaken(steps: seq<Step>, trace: seq<State>, n: nat, i: nat, id: ConnectionId, k: Key)
    requires |trace| == |steps| + 1 && n <= |steps|
  {
    && i < n && Overtaken(trace[i], steps[i], id, k)
    && !TakenBack(steps, i, n, id, k)
  }

  ghost predicate TakenBack(steps: seq<Step>, i: nat, n: nat, id: ConnectionId, k: Key)
    requires n <= |steps|
  {
    exists j :: i < j < n && k.TopicKey? && steps[j] == OwnUnsubscribe(id, k.topic)
  }

  ghost predicate SomeStands(steps: seq<Step>, trace: seq<State>, n: nat, id: ConnectionId, k: Key)
    requires |trace| == |steps| + 1 && n <= |steps|
  {
    exists i: nat :: StandsOvertaken(steps, trace, n, i, id, k)
  }

  /** What is left over at any time: exactly the overtaken inserts not taken back. */
  lemma {:induction false} LeftoverIffStands(cfg: Config, steps: seq<Step>, trace: seq<State>, n: nat,
                                             id: ConnectionId, k: Key)
    requires IsRun(cfg, steps, trace) && n <= |steps|
    ensures Leftover(trace[n], id, k) <==> SomeStands(steps, trace, n, id, k)
  {
    if n > 0 {
      LeftoverIffStands(cfg, steps, trace, n - 1, id, k);
      EveryRunKeepsInv(cfg, steps, trace, n - 1);
      var step := steps[n - 1];
      assert Next(cfg, trace[n - 1], step, trace[n]);
      var takesBack := k.TopicKey? && step == OwnUnsubscribe(id, k.topic);
      if Leftover(trace[n - 1], id, k) {
        LeftoverClearedOnlyByUnsubscribe(cfg, trace[n - 1], step, id, k);
      } else {
        LeftoverIffOvertaken(cfg, trace[n - 1], step, id, k);
      }
      StandsGoOn(steps, trace, n, id, k, takesBack);
    }
  }

  lemma StandsGoOn(steps: seq<Step>, trace: seq<State>, n: nat, id: ConnectionId, k: Key, takesBack: bool)
    requires |trace| == |steps| + 1 && 0 < n <= |steps|
    requires takesBack <==> k.TopicKey? && steps[n - 1] == OwnUnsubscribe(id, k.topic)
    ensures SomeStands(steps, trace, n, id, k) <==>
              || Overtaken(trace[n - 1], steps[n - 1], id, k)
              || (!takesBack && SomeStands(steps, trace, n - 1, id, k))
  {
    var m := n - 1;
    forall i: nat | i < m
      ensures TakenBack(steps, i, n, id, k) <==> TakenBack(steps, i, m, id, k) || takesBack
    {
      if takesBack {
        assert steps[m] == OwnUnsubscribe(id, k.topic);
      }
    }
    if i: nat :| StandsOvertaken(steps, trace, n, i, id, k) {
      if i < m {
        assert StandsOvertaken(steps, trace, m, i, id, k);
      }
    }
    if Overtaken(trace[m], steps[m], id, k) {
      assert StandsOvertaken(steps, trace, n, m, id, k);
    }
    if !takesBack && SomeStands(steps, trace, m, id, k) {
      var i: nat :| StandsOvertaken(steps, trace, m, i, id, k);
      assert StandsOvertaken(steps, trace, n, i, id, k);
    }
  }

  /** A settled run is mirrored exactly when every overtaken insert was taken back by an unsubscribe of its session. */
  lemma SettledIffTakenBack(cfg: Config, steps: seq<Step>, trace: seq<State>)
    requires IsRun(cfg, steps, trace) && Quiescent(trace[|steps|])
    ensures Mirrored(trace[|steps|]) <==> forall id, k :: !SomeStands(steps, trace, |steps|, id, k)
  {
    var n := |steps|;
    EveryRunKeepsInv(cfg, steps, trace, n);
    QuiescentMirror(trace[n]);
    forall id, k
      ensures Leftover(trace[n], id, k) <==> SomeStands(steps, trace, n, id, k)
    {
      LeftoverIffStands(cfg, steps, trace, n, id, k);
    }
    if Mirrored(trace[n]) {
      forall id, k
        ensures !SomeStands(steps, trace, n, id, k)
      {
        assert !Leftover(trace[n], id, k);
      }
    }
    if forall id, k :: !SomeStands(steps, trace, n, id, k) {
      forall id, k
        ensures !Leftover(trace[n], id, k)
      {
        assert !SomeStands(steps, trace, n, id, k);
      }
    }
  }

  /** The steps of a subscribe overtaken by an eviction, and the states they go through. */
  ghost function OvertakenSteps(id: ConnectionId, topic: string): seq<Step> {
    [Admit, Connect(id, None), OwnSubscribe(id, topic), Evict(id),
     EvictRemove(id, TopicKey(topic)), EvictDrop(id), IndexInsert(id)]
  }

  ghost function OvertakenTrace(id: ConnectionId, topic: string): seq<State> {
    var k := TopicKey(topic);
    var busy := map[id := Inserting(k)];
    [START,
     State(map[], map[], map[], map[], map[], 1, 1),
     State(map[id := Connection(None, {})], map[], map[id := Idle], map[], map[id := 0], 0, 1),
     State(map[id := Connection(None, {topic})], map[], busy, map[], map[id := 0], 0, 1),
     State(map[], map[], busy, map[id := Eviction({k}, None)], map[id := 0], 0, 1),
     State(map[], map[], busy, map[id := Eviction({}, Some(k))], map[id := 0], 0, 1),
     State(map[], map[], busy, map[id := Eviction({}, None)], map[id := 0], 0, 1),
     State(map[], map[k := {id}], map[id := Idle], map[id := Eviction({}, None)], map[id := 0], 0, 1)]
  }

  lemma OvertakenOpening(cfg: Config, id: ConnectionId, topic: string)
    ensures var trace, steps := OvertakenTrace(id, topic), OvertakenSteps(id, topic);
            forall i :: 0 <= i < 3 ==> Next(cfg, trace[i], steps[i], trace[i + 1])
  {
    var trace, steps := OvertakenTrace(id, topic), OvertakenSteps(id, topic);
    assert Next(cfg, trace[1], steps[1], trace[2]);
    assert Next(cfg, trace[2], steps[2], trace[3]);
  }

  lemma OvertakenEviction(cfg: Config, id: ConnectionId, topic: string)
    ensures var trace, steps := OvertakenTrace(id, topic), OvertakenSteps(id, topic);
            Next(cfg, trace[3], steps[3], trace[4])
  {
    assert KeysOf(Connection(None, {topic})) == {TopicKey(topic)};
  }

  lemma OvertakenDetach(cfg: Config, id: ConnectionId, topic: string)
    ensures var trace, steps := OvertakenTrace(id, topic), OvertakenSteps(id, topic);
            Next(cfg, trace[4], steps[4], trace[5])
  {
    assert {TopicKey(topic)} - {TopicKey(topic)} == {};
  }

  lemma OvertakenEnding(cfg: Config, id: ConnectionId, topic: string)
    ensures var trace, steps := OvertakenTrace(id, topic), OvertakenSteps(id, topic);
            forall i :: 5 <= i < 7 ==> Next(cfg, trace[i], steps[i], trace[i + 1])
  {
    var trace, steps := OvertakenTrace(id, topic), OvertakenSteps(id, topic);
    assert Next(cfg, trace[5], steps[5], trace[6]);
    assert Next(cfg, trace[6], steps[6], trace[7]);
  }

  /** Everything has settled, and the dead connection is still listed under its topic. */
  lemma OvertakenSubscribe(cfg: Config, id: ConnectionId, topic: string)
    ensures var trace, steps := OvertakenTrace(id, topic), OvertakenSteps(id, topic);
            && IsRun(cfg, steps, trace)
            && Quiescent(trace[|steps|])
            && Leftover(trace[|steps|], id, TopicKey(topic))
            && !Mirrored(trace[|steps|])
  {
    OvertakenOpening(cfg, id, topic);
    OvertakenEviction(cfg, id, topic);
    OvertakenDetach(cfg, id, topic);
    OvertakenEnding(cfg, id, topic);
    assert id in Members(OvertakenTrace(id, topic)[7].index, TopicKey(topic));
  }

  /** A registration overtaken in the same way, step by step. */
  ghost function OvertakenRegistration(id: ConnectionId, user: Uuid): seq<State> {
    var k := UserKey(user);
    var busy := map[id := Inserting(k)];
    [START,
     State(map[], map[], map[], map[], map[], 1, 1),
     State(map[id := Connection(Some(user), {})], map[], busy, map[], map[id := 0], 0, 1),
     State(map[], map[], busy, map[id := Eviction({k}, None)], map[id := 0], 0, 1),
     State(map[], map[], busy, map[id := Eviction({}, Some(k))], map[id := 0], 0, 1),
     State(map[], map[], busy, map[id := Eviction({}, None)], map[id := 0], 0, 1),
     State(map[], map[k := {id}], map[id := Idle], map[id := Eviction({}, None)], map[id := 0], 0, 1)]
  }

  ghost function RegistrationSteps(id: ConnectionId, user: Uuid): seq<Step> {
    [Admit, Connect(id, Some(user)), Evict(id), EvictRemove(id, UserKey(user)), EvictDrop(id), IndexInsert(id)]
  }

  lemma RegistrationOpens(cfg: Config, id: ConnectionId, user: Uuid)
    ensures var trace, steps := OvertakenRegistration(id, user), RegistrationSteps(id, user);
            forall i :: 0 <= i < 3 ==> Next(cfg, trace[i], steps[i], trace[i + 1])
  {
    var trace, steps := OvertakenRegistration(id, user), RegistrationSteps(id, user);
    assert KeysOf(Connection(Some(user), {})) == {UserKey(user)};
    assert Next(cfg, trace[0], steps[0], trace[1]);
    assert Next(cfg, trace[1], steps[1], trace[2]);
    assert Next(cfg, trace[2], steps[2], trace[3]);
  }

  lemma RegistrationEnds(cfg: Config, id: ConnectionId, user: Uuid)
    ensures var trace, steps := OvertakenRegistration(id, user), RegistrationSteps(id, user);
            Next(cfg, trace[4], steps[4], trace[5]) && Next(cfg, trace[5], steps[5], trace[6])
  {
  }

  lemma RegistrationDetaches(cfg: Config, id: ConnectionId, user: Uuid)
    ensures var trace, steps := OvertakenRegistration(id, user), RegistrationSteps(id, user);
            Next(cfg, trace[3], steps[3], trace[4])
  {
    assert {UserKey(user)} - {UserKey(user)} == {};
  }

  /** Everything has settled, and the dead connection is still listed under its user. */
  lemma OvertakenRegister(cfg: Config, id: ConnectionId, user: Uuid)
    ensures var trace, steps := OvertakenRegistration(id, user), RegistrationSteps(id, user);
            IsRun(cfg, steps, trace) && Quiescent(trace[|steps|]) && Leftover(trace[|steps|], id, UserKey(user))
  {
    RegistrationOpens(cfg, id, user);
    RegistrationDetaches(cfg, id, user);
    RegistrationEnds(cfg, id, user);
    assert id in Members(OvertakenRegistration(id, user)[6].index, UserKey(user));
  }

  /** However a run goes on, a dead id in the user index is there for good. */
  lemma {:induction false} UserLeftoverStays(cfg: Config, steps: seq<Step>, trace: seq<State>, m: nat, n: nat,
                                             id: ConnectionId, user: Uuid)
    requires IsRun(cfg, steps, trace) && m <= n <= |steps| && Leftover(trace[m], id, UserKey(user))
    ensures Leftover(trace[n], id, UserKey(user))
    decreases n
  {
    if m < n {
      UserLeftoverStays(cfg, steps, trace, m, n - 1, id, user);
      EveryRunKeepsInv(cfg, steps, trace, n - 1);
      assert Next(cfg, trace[n - 1], steps[n - 1], trace[n]);
      LeftoverClearedOnlyByUnsubscribe(cfg, trace[n - 1], steps[n - 1], id, UserKey(user));
    }
  }

  // ── Limits ─────────────────────────────────────────────────────────────────

  ghost predicate ConnectionLimitInv(cfg: Config, s: State) {
    && s.admitted <= s.peak
    && (cfg.maxConnections > 0 && s.peak > 0 ==> |s.connections| + s.admitted < cfg.maxConnections + s.peak)
    && (s.peak == 0 ==> s.connections == map[])
  }

  ghost predicate TopicLimitInv(cfg: Config, s: State) {
    cfg.maxTopicsPerConnection > 0 ==>
      forall id :: id in s.connections ==> |s.connections[id].topics| <= cfg.maxTopicsPerConnection
  }

  lemma ConnectionLimitKept(cfg: Config, s: State, step: Step)
    requires ConnectionLimitInv(cfg, s) && Enabled(cfg, s, step)
    ensures ConnectionLimitInv(cfg, Apply(cfg, s, step))
  {
    var t := Apply(cfg, s, step);
    ConnectionsAfter(cfg, s, step);
    assert |t.connections| == |t.connections.Keys| && |s.connections| == |s.connections.Keys|;
    if s.connections == map[] && !step.Connect? {
      assert t.connections.Keys == {};
    }
  }

  lemma TopicLimitKept(cfg: Config, s: State, step: Step)
    requires TopicLimitInv(cfg, s) && Enabled(cfg, s, step)
    ensures TopicLimitInv(cfg, Apply(cfg, s, step))
  {
    if step.OwnUnsubscribe? && step.id in s.connections {
      SubsetSize(s.connections[step.id].topics - {step.topic}, s.connections[step.id].topics);
    }
  }

  /**
   Checking the connection limit and inserting are separate steps, so `p`
   registrations racing each other can exceed the limit by at most `p - 1`. The
   topic limit is never exceeded, since only the session itself subscribes.
   */
  lemma {:induction false} LimitsUnderRaces(cfg: Config, steps: seq<Step>, trace: seq<State>, n: nat)
    requires IsRun(cfg, steps, trace) && n <= |steps|
    ensures ConnectionLimitInv(cfg, trace[n]) && TopicLimitInv(cfg, trace[n])
    ensures cfg.maxConnections > 0 ==> |trace[n].connections| <= cfg.maxConnections + Max(0, trace[n].peak - 1)
  {
    if n > 0 {
      LimitsUnderRaces(cfg, steps, trace, n - 1);
      assert Next(cfg, trace[n - 1], steps[n - 1], trace[n]);
      ConnectionLimitKept(cfg, trace[n - 1], steps[n - 1]);
      TopicLimitKept(cfg, trace[n - 1], steps[n - 1]);
    }
  }

  lemma Extended(cfg: Config, steps: seq<Step>, trace: seq<State>, step: Step)
    returns (steps': seq<Step>, trace': seq<State>)
    requires IsRun(cfg, steps, trace) && Enabled(cfg, trace[|steps|], step)
    ensures IsRun(cfg, steps', trace') && |steps'| == |steps| + 1
    ensures trace'[|steps'|] == Apply(cfg, trace[|steps|], step)
  {
    steps', trace' := steps + [step], trace + [Apply(cfg, trace[|steps|], step)];
    forall i | 0 <= i < |steps'|
      ensures Next(cfg, trace'[i], steps'[i], trace'[i + 1])
    {
      if i < |steps| {
        assert Next(cfg, trace[i], steps[i], trace[i + 1]);
      }
    }
  }

  /** `live` connections, the first so many, and `admitted` registrations past the limit check. */
  ghost predicate Registered(s: State, live: nat, admitted: nat, peak: nat) {
    && s.admitted == admitted && s.peak == peak && |s.connections| == live
    && forall id :: id in s.sessions || id in s.connections ==> id.bits < live
  }

  lemma OneMoreConnected(cfg: Config, s: State, live: nat, admitted: nat, peak: nat)
    requires Registered(s, live, admitted, peak) && admitted > 0
    ensures Enabled(cfg, s, Connect(Uuid(live), None))
    ensures Registered(Apply(cfg, s, Connect(Uuid(live), None)), live + 1, admitted - 1, peak)
  {
  }

  /** One registration after the other, up to the limit. */
  lemma {:induction false} Sequential(cfg: Config, live: nat) returns (steps: seq<Step>, trace: seq<State>)
    requires live <= cfg.maxConnections
    ensures IsRun(cfg, steps, trace)
    ensures Registered(trace[|steps|], live, 0, Min(live, 1))
  {
    if live == 0 {
      steps, trace := [], [START];
    } else {
      steps, trace := Sequential(cfg, live - 1);
      steps, trace := Extended(cfg, steps, trace, Admit);
      OneMoreConnected(cfg, trace[|steps|], live - 1, 1, 1);
      steps, trace := Extended(cfg, steps, trace, Connect(Uuid(live - 1), None));
    }
  }

  /** Below the limit, any number of registrations pass the check before the first of them is inserted. */
  lemma {:induction false} AllAdmitted(cfg: Config, p: nat) returns (steps: seq<Step>, trace: seq<State>)
    requires cfg.maxConnections > 0 && p >= 1
    ensures IsRun(cfg, steps, trace) && Registered(trace[|steps|], cfg.maxConnections - 1, p, p)
  {
    if p == 1 {
      steps, trace := Sequential(cfg, cfg.maxConnections - 1);
    } else {
      steps, trace := AllAdmitted(cfg, p - 1);
    }
    steps, trace := Extended(cfg, steps, trace, Admit);
  }

  lemma {:induction false} AllConnected(cfg: Config, p: nat, done: nat) returns (steps: seq<Step>, trace: seq<State>)
    requires cfg.maxConnections > 0 && p >= 1 && done <= p
    ensures IsRun(cfg, steps, trace)
    ensures Registered(trace[|steps|], cfg.maxConnections - 1 + done, p - done, p)
    decreases done
  {
    if done == 0 {
      steps, trace := AllAdmitted(cfg, p);
    } else {
      steps, trace := AllConnected(cfg, p, done - 1);
      var live := cfg.maxConnections - 1 + done - 1;
      OneMoreConnected(cfg, trace[|steps|], live, p - done + 1, p);
      steps, trace := Extended(cfg, steps, trace, Connect(Uuid(live), None));
    }
  }

  /** The bound of `LimitsUnderRaces` is reached, for every limit and every number of racing registrations. */
  lemma RacingRegistrations(cfg: Config, p: nat) returns (steps: seq<Step>, trace: seq<State>)
    requires cfg.maxConnections > 0 && p >= 1
    ensures IsRun(cfg, steps, trace)
    ensures trace[|steps|].peak == p
    ensures |trace[|steps|].connections| == cfg.maxConnections + p - 1
  {
    steps, trace := AllConnected(cfg, p, p);
  }

  /** The limit is kept by every run with at most `p` registrations ever between check and insert at once. */
  ghost predicate LimitHolds(cfg: Config, p: nat) {
    forall steps: seq<Step>, trace: seq<State> :: IsRun(cfg, steps, trace) && trace[|steps|].peak <= p ==>
      |trace[|steps|].connections| <= cfg.maxConnections
  }

  /** The connection limit is kept exactly as long as registrations do not race. */
  lemma LimitHoldsIffNoRace(cfg: Config, p: nat)
    requires cfg.maxConnections > 0
    ensures LimitHolds(cfg, p) <==> p <= 1
  {
    if p <= 1 {
      forall steps: seq<Step>, trace: seq<State> | IsRun(cfg, steps, trace) && trace[|steps|].peak <= p
        ensures |trace[|steps|].connections| <= cfg.maxConnections
      {
        LimitsUnderRaces(cfg, steps, trace, |steps|);
      }
    } else {
      var steps, trace := RacingRegistrations(cfg, p);
      assert |trace[|steps|].connections| > cfg.maxConnections;
    }
  }
}
