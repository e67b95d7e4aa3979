/**
 From what bridged hubs fan out to what reaches the sockets. While a socket's own
 connection stays as it is, whatever else happens on its hub, its channel gains
 exactly the events aimed at it, in order, for as long as its session reads fast
 enough; and so bridged hubs fill the channels as one merged hub would.
 */
module ClusterDelivery {
  import opened Prelude
  import opened HubModel
  import opened Hub
  import opened ClusterBridge
  import opened ClusterEquivalence

  /** What a hub does, in order: handle a published or dispatched event, or anything else. */
  datatype Act = Give(frame: ClusterFrame) | Local(op: Op)

  function Perform(cfg: Config, s: HubState, act: Act): HubState {
    match act
    case Give(f) => Dispatch(cfg, s, f.scope, f.topic, f.payload)
    case Local(op) => if Allowed(s, op) then HubModel.Step(cfg, s, op) else s
  }

  function PerformAll(cfg: Config, s: HubState, acts: seq<Act>): HubState
    decreases |acts|
  {
    if acts == [] then s else PerformAll(cfg, Perform(cfg, s, acts[0]), acts[1..])
  }

  /** The events handled. */
  function FramesOf(acts: seq<Act>): seq<ClusterFrame> {
    if acts == [] then [] else (if acts[0].Give? then [acts[0].frame] else []) + FramesOf(acts[1..])
  }

  /**
   Whatever else happens leaves the connection of `id` as it is and sends it
   nothing: sessions read, other sockets come, go, subscribe and are sent to.
   */
  predicate LeavesAlone(op: Op, id: ConnectionId) {
    match op
    case OpRegister(_, other) => other != id
    case OpUnregister(other) => other != id
    case OpSubscribe(other, _) => other != id
    case OpUnsubscribe(other, _) => other != id
    case OpPublish(_, _, _) => false
    case OpSendTo(other, _, _) => other != id
    case OpReceive(_) => true
    case OpDropReceiver(other) => other != id
  }

  ghost predicate MembershipStays(acts: seq<Act>, id: ConnectionId) {
    forall i :: 0 <= i < |acts| && acts[i].Local? ==> LeavesAlone(acts[i].op, id)
  }

  /** What a socket reads of these events. */
  function EventsOf(frames: seq<ClusterFrame>): seq<Frame> {
    if frames == [] then [] else [Event(frames[0].topic, frames[0].payload)] + EventsOf(frames[1..])
  }

  /** Whenever an event aimed at the socket is handled, its queue has room for one more. */
  predicate KeepsUp(cfg: Config, s: HubState, id: ConnectionId, acts: seq<Act>)
    decreases |acts|
  {
    acts != [] ==> Fits(cfg, s, id, acts[0]) && KeepsUp(cfg, Perform(cfg, s, acts[0]), id, acts[1..])
  }

  predicate Fits(cfg: Config, s: HubState, id: ConnectionId, act: Act) {
    act.Give? && id in Audience(s, act.frame.scope, act.frame.topic) ==>
      id in s.channels && |s.channels[id].queue| < Capacity(cfg)
  }

  ghost predicate Ready(cfg: Config, s: HubState, id: ConnectionId, acts: seq<Act>) {
    ChannelsOk(cfg, s) && Listening(s, id) && MembershipStays(acts, id)
  }

  /** What one frame puts into the channel of `id`. */
  function Sent(s: HubState, id: ConnectionId, frame: ClusterFrame): seq<Frame> {
    if id in Audience(s, frame.scope, frame.topic) then [Event(frame.topic, frame.payload)] else []
  }

  /** From `s` to `t` the channel of `id` gained `sent`, and the socket is as it was. */
  ghost predicate Gains(cfg: Config, s: HubState, t: HubState, id: ConnectionId, sent: seq<Frame>) {
    && ChannelsOk(cfg, s) && ChannelsOk(cfg, t) && Listening(s, id) && Listening(t, id)
    && t.connections[id] == s.connections[id]
    && s.channels[id].taken <= t.channels[id].taken
    && t.channels[id].History() == s.channels[id].History() + sent
  }

  /** What an act puts into the channel of `id`. */
  function SentBy(s: HubState, id: ConnectionId, act: Act): seq<Frame> {
    if act.Give? then Sent(s, id, act.frame) else []
  }

  lemma PerformOne(cfg: Config, s: HubState, id: ConnectionId, act: Act)
    requires ChannelsOk(cfg, s) && Listening(s, id) && Fits(cfg, s, id, act)
    requires act.Local? ==> LeavesAlone(act.op, id)
    ensures Gains(cfg, s, Perform(cfg, s, act), id, SentBy(s, id, act))
  {
    match act {
      case Give(f) =>
        var op := OpPublish(f.scope, f.topic, f.payload);
        StepKeepsChannels(cfg, s, op);
        StepAppends(cfg, s, op, id);
      case Local(op) =>
        if Allowed(s, op) {
          StepKeepsChannels(cfg, s, op);
          StepAppends(cfg, s, op, id);
        }
    }
  }

  /** Whether a socket is aimed at depends on its own connection alone. */
  lemma AudienceIsLocal(s: HubState, t: HubState, id: ConnectionId, frames: seq<ClusterFrame>)
    requires id in s.connections && id in t.connections && s.connections[id] == t.connections[id]
    ensures SentTo(s, id, frames) == SentTo(t, id, frames)
  {
    SameAudienceSameFrames(s, t, id, frames);
  }

  lemma EventsCons(f: ClusterFrame, rest: seq<ClusterFrame>)
    ensures EventsOf([f] + rest) == [Event(f.topic, f.payload)] + EventsOf(rest)
  {
    assert ([f] + rest)[1..] == rest;
  }

  lemma SentFirst(s: HubState, id: ConnectionId, frames: seq<ClusterFrame>)
    requires frames != []
    ensures EventsOf(SentTo(s, id, frames)) == Sent(s, id, frames[0]) + EventsOf(SentTo(s, id, frames[1..]))
    ensures |SentTo(s, id, frames)| == |Sent(s, id, frames[0])| + |SentTo(s, id, frames[1..])|
  {
    EventsCons(frames[0], SentTo(s, id, frames[1..]));
    assert [] + SentTo(s, id, frames[1..]) == SentTo(s, id, frames[1..]);
  }

  lemma FirstAct(cfg: Config, s: HubState, id: ConnectionId, acts: seq<Act>)
    requires acts != [] && Ready(cfg, s, id, acts) && KeepsUp(cfg, s, id, acts)
    ensures Gains(cfg, s, Perform(cfg, s, acts[0]), id, SentBy(s, id, acts[0]))
    ensures EventsOf(SentTo(s, id, FramesOf(acts))) ==
            SentBy(s, id, acts[0]) + EventsOf(SentTo(s, id, FramesOf(acts[1..])))
  {
    PerformOne(cfg, s, id, acts[0]);
    var rest := FramesOf(acts[1..]);
    if acts[0].Give? {
      assert FramesOf(acts)[1..] == rest;
      SentFirst(s, id, FramesOf(acts));
    } else {
      assert FramesOf(acts) == rest;
    }
  }

  /** The channel of a socket that keeps up gains exactly the events sent to it, in order. */
  lemma {:induction false} ActsDeliver(cfg: Config, s: HubState, id: ConnectionId, acts: seq<Act>)
    requires Ready(cfg, s, id, acts) && KeepsUp(cfg, s, id, acts)
    ensures Gains(cfg, s, PerformAll(cfg, s, acts), id, EventsOf(SentTo(s, id, FramesOf(acts))))
    decreases |acts|
  {
    if acts != [] {
      var t := Perform(cfg, s, acts[0]);
      FirstAct(cfg, s, id, acts);
      AudienceIsLocal(s, t, id, FramesOf(acts[1..]));
      ActsDeliver(cfg, t, id, acts[1..]);
      GainsAddUp(cfg, s, t, PerformAll(cfg, t, acts[1..]), id,
                 SentBy(s, id, acts[0]), EventsOf(SentTo(t, id, FramesOf(acts[1..]))));
    }
  }

  lemma GainsAddUp(cfg: Config, s: HubState, t: HubState, u: HubState, id: ConnectionId, a: seq<Frame>, b: seq<Frame>)
    requires Gains(cfg, s, t, id, a) && Gains(cfg, t, u, id, b)
    ensures Gains(cfg, s, u, id, a + b)
  {
    assert s.channels[id].History() + a + b == s.channels[id].History() + (a + b);
  }

  // ── Keeping up ─────────────────────────────────────────────────────────────

  ghost predicate Evicted(s: HubState, id: ConnectionId) {
    id in s.channels && id !in s.connections
  }

  lemma {:induction false} EvictedForGood(cfg: Config, s: HubState, id: ConnectionId, acts: seq<Act>)
    requires ChannelsOk(cfg, s) && Evicted(s, id)
    ensures Evicted(PerformAll(cfg, s, acts), id)
    decreases |acts|
  {
    if acts != [] {
      var op := if acts[0].Give? then OpPublish(acts[0].frame.scope, acts[0].frame.topic, acts[0].frame.payload)
                else acts[0].op;
      if Allowed(s, op) {
        StepKeepsChannels(cfg, s, op);
      }
      EvictedForGood(cfg, Perform(cfg, s, acts[0]), id, acts[1..]);
    }
  }

  lemma OverflowEvicts(cfg: Config, s: HubState, id: ConnectionId, act: Act)
    requires ChannelsOk(cfg, s) && Listening(s, id) && !Fits(cfg, s, id, act)
    ensures ChannelsOk(cfg, Perform(cfg, s, act)) && Evicted(Perform(cfg, s, act), id)
  {
    StepKeepsChannels(cfg, s, OpPublish(act.frame.scope, act.frame.topic, act.frame.payload));
  }

  /** A socket is still connected in the end exactly when it kept up; otherwise the hub has evicted it. */
  lemma {:induction false} ConnectedIffKeepsUp(cfg: Config, s: HubState, id: ConnectionId, acts: seq<Act>)
    requires Ready(cfg, s, id, acts)
    ensures id in PerformAll(cfg, s, acts).connections <==> KeepsUp(cfg, s, id, acts)
    decreases |acts|
  {
    if acts != [] {
      var act, t := acts[0], Perform(cfg, s, acts[0]);
      if Fits(cfg, s, id, act) {
        PerformOne(cfg, s, id, act);
        ConnectedIffKeepsUp(cfg, t, id, acts[1..]);
      } else {
        OverflowEvicts(cfg, s, id, act);
        EvictedForGood(cfg, t, id, acts[1..]);
      }
    }
  }

  // ── Events of several origins ──────────────────────────────────────────────

  function ByOrigin(frames: seq<ClusterFrame>, origin: NodeId): seq<ClusterFrame> {
    if frames == [] then []
    else (if frames[0].node == origin then [frames[0]] else []) + ByOrigin(frames[1..], origin)
  }

  lemma {:induction false} SentByOrigin(s: HubState, id: ConnectionId, frames: seq<ClusterFrame>, origin: NodeId)
    ensures ByOrigin(SentTo(s, id, frames), origin) == SentTo(s, id, ByOrigin(frames, origin))
  {
    if frames != [] {
      SentByOrigin(s, id, frames[1..], origin);
      SentCons(s, id, frames[0], ByOrigin(frames[1..], origin));
      OriginCons(frames[0], SentTo(s, id, frames[1..]), origin);
      assert forall rest: seq<ClusterFrame> :: [] + rest == rest;
    }
  }

  lemma SentCons(s: HubState, id: ConnectionId, f: ClusterFrame, rest: seq<ClusterFrame>)
    ensures SentTo(s, id, [f] + rest) == (if id in Audience(s, f.scope, f.topic) then [f] else []) + SentTo(s, id, rest)
  {
    assert ([f] + rest)[1..] == rest;
  }

  lemma OriginCons(f: ClusterFrame, rest: seq<ClusterFrame>, origin: NodeId)
    ensures ByOrigin([f] + rest, origin) == (if f.node == origin then [f] else []) + ByOrigin(rest, origin)
  {
    assert ([f] + rest)[1..] == rest;
  }

  lemma {:induction false} CountByOrigin(frames: seq<ClusterFrame>, f: ClusterFrame)
    ensures multiset(frames)[f] == multiset(ByOrigin(frames, f.node))[f]
  {
    if frames != [] {
      CountByOrigin(frames[1..], f);
      assert frames == [frames[0]] + frames[1..];
    }
  }

  lemma {:induction false} SameEvents(a: seq<ClusterFrame>, b: seq<ClusterFrame>)
    requires multiset(a) == multiset(b)
    ensures multiset(EventsOf(a)) == multiset(EventsOf(b))
    decreases |a|
  {
    if a == [] {
      assert |multiset(b)| == 0;
    } else {
      assert a[0] in multiset(b);
      var i :| 0 <= i < |b| && b[i] == a[0];
      var before, after := b[..i], b[i + 1..];
      assert a == [a[0]] + a[1..];
      assert b == before + ([a[0]] + after);
      SameWithoutFirst(a, before, after);
      SameEvents(a[1..], before + after);
      EventsAround(before, a[0], after);
    }
  }

  lemma SameWithoutFirst(a: seq<ClusterFrame>, before: seq<ClusterFrame>, after: seq<ClusterFrame>)
    requires a != [] && multiset(a) == multiset(before + ([a[0]] + after))
    ensures multiset(a[1..]) == multiset(before + after)
  {
    assert a == [a[0]] + a[1..];
    assert multiset(a[1..]) == multiset(a) - multiset{a[0]};
  }

  lemma EventsAround(before: seq<ClusterFrame>, f: ClusterFrame, after: seq<ClusterFrame>)
    ensures multiset(EventsOf(before + ([f] + after))) ==
            multiset{Event(f.topic, f.payload)} + multiset(EventsOf(before + after))
  {
    EventsAppend(before, [f] + after);
    EventsCons(f, after);
    EventsAppend(before, after);
  }

  lemma {:induction false} EventsAppend(a: seq<ClusterFrame>, b: seq<ClusterFrame>)
    ensures EventsOf(a + b) == EventsOf(a) + EventsOf(b)
  {
    if a == [] {
      assert a + b == b;
    } else {
      assert (a + b)[1..] == a[1..] + b;
      EventsAppend(a[1..], b);
    }
  }

  /** Some order in which hub `p` may have handled all it was given. */
  ghost predicate HandedTo(c: Cluster, p: NodeId, given: seq<ClusterFrame>)
    requires p in c
  {
    && (forall i :: 0 <= i < |given| ==> given[i].node in c)
    && (forall o :: o in c ==> ByOrigin(given, o) == GivenTo(c, p, o))
  }

  /** Some order of everything that was published anywhere; each origin's events are in its own order. */
  ghost predicate Everything(c: Cluster, all: seq<ClusterFrame>) {
    && (forall i :: 0 <= i < |all| ==> all[i].node in c)
    && (forall o :: o in c ==> ByOrigin(all, o) == c[o].published)
  }

  lemma {:induction false} NobodyElses(frames: seq<ClusterFrame>, o: NodeId)
    requires forall i :: 0 <= i < |frames| ==> frames[i].node != o
    ensures ByOrigin(frames, o) == []
  {
    if frames != [] {
      NobodyElses(frames[1..], o);
    }
  }

  /**
   A socket's own hub, handling what the bridge and its own publishers gave it in
   whatever order, against a merged hub handling everything in whatever order, with
   reads and other sockets' comings and goings in between: while the socket is
   connected to both, its channel gains the same events, each equally often, and
   those of each origin in the same order. There is no bound on their number.
   */
  lemma BridgedHubsDeliverAsOne(steps: seq<Step>, trace: seq<Cluster>, p: NodeId, id: ConnectionId,
                                cfg: Config, h: HubState, given: seq<Act>,
                                mergedCfg: Config, g: HubState, all: seq<Act>)
    requires LosslessRun(steps, trace) && Fresh(trace[0]) && Quiet(trace[|steps|]) && p in trace[|steps|]
    requires HandedTo(trace[|steps|], p, FramesOf(given)) && Everything(trace[|steps|], FramesOf(all))
    requires Ready(cfg, h, id, given) && Ready(mergedCfg, g, id, all) && h.connections[id] == g.connections[id]
    requires id in PerformAll(cfg, h, given).connections && id in PerformAll(mergedCfg, g, all).connections
    ensures var own, one := SentTo(h, id, FramesOf(given)), SentTo(g, id, FramesOf(all));
            var h', g' := PerformAll(cfg, h, given), PerformAll(mergedCfg, g, all);
            && Gains(cfg, h, h', id, EventsOf(own)) && Gains(mergedCfg, g, g', id, EventsOf(one))
            && multiset(EventsOf(own)) == multiset(EventsOf(one))
            && forall o :: ByOrigin(own, o) == ByOrigin(one, o)
  {
    var own, one := SentTo(h, id, FramesOf(given)), SentTo(g, id, FramesOf(all));
    ConnectedIffKeepsUp(cfg, h, id, given);
    ConnectedIffKeepsUp(mergedCfg, g, id, all);
    ActsDeliver(cfg, h, id, given);
    ActsDeliver(mergedCfg, g, id, all);
    forall o
      ensures ByOrigin(own, o) == ByOrigin(one, o)
    {
      SameFromOrigin(steps, trace, p, id, h, FramesOf(given), g, FramesOf(all), o);
    }
    forall f
      ensures multiset(own)[f] == multiset(one)[f]
    {
      CountByOrigin(own, f);
      CountByOrigin(one, f);
    }
    assert multiset(own) == multiset(one);
    SameEvents(own, one);
  }

  lemma SameFromOrigin(steps: seq<Step>, trace: seq<Cluster>, p: NodeId, id: ConnectionId,
                       h: HubState, given: seq<ClusterFrame>, g: HubState, all: seq<ClusterFrame>, o: NodeId)
    requires LosslessRun(steps, trace) && Fresh(trace[0]) && Quiet(trace[|steps|]) && p in trace[|steps|]
    requires id in h.connections && id in g.connections && h.connections[id] == g.connections[id]
    requires HandedTo(trace[|steps|], p, given) && Everything(trace[|steps|], all)
    ensures ByOrigin(SentTo(h, id, given), o) == ByOrigin(SentTo(g, id, all), o)
  {
    var c := trace[|steps|];
    if o in c {
      EveryHubGivenEverything(steps, trace, p, o);
    } else {
      NobodyElses(given, o);
      NobodyElses(all, o);
    }
    assert ByOrigin(given, o) == ByOrigin(all, o);
    SentByOrigin(h, id, given, o);
    SentByOrigin(g, id, all, o);
    AudienceIsLocal(h, g, id, ByOrigin(all, o));
  }

  /** On the hub holding every node's sockets, a socket's connection is that on its own hub, as the theorem asks. */
  lemma MergedConnectionIsOwn(members: Membership, p: NodeId, id: ConnectionId)
    requires OwnSockets(members) && p in members && id in members[p]
    ensures id in Merge(members) && Merge(members)[id] == members[p][id]
  {
    assert HomeOf(members, id) == p;
  }

  // ── The orders a run itself gives ──────────────────────────────────────────

  /** What hub `p` handles in one step: its own event as it is published, another's as it is dispatched. */
  function HandledIn(c: Cluster, step: Step, p: NodeId): seq<ClusterFrame> {
    match step
    case Publish(n, scope, topic, payload) => if n == p then [ClusterFrame(p, scope, topic, payload)] else []
    case Consume(n) =>
      if n == p && p in c && c[p].inbox != [] && c[p].inbox[0].frame.node != p then [c[p].inbox[0].frame] else []
    case _ => []
  }

  /** What hub `p` has handled after `n` steps, in that order. */
  function HandledAlong(steps: seq<Step>, trace: seq<Cluster>, p: NodeId, n: nat): seq<ClusterFrame>
    requires n <= |steps| < |trace|
  {
    if n == 0 then [] else HandledAlong(steps, trace, p, n - 1) + HandledIn(trace[n - 1], steps[n - 1], p)
  }

  /** What has been published anywhere after `n` steps, in that order. */
  function PublishedAlong(steps: seq<Step>, n: nat): seq<ClusterFrame>
    requires n <= |steps|
  {
    if n == 0 then [] else PublishedAlong(steps, n - 1) + PublishedIn(steps[n - 1])
  }

  function PublishedIn(step: Step): seq<ClusterFrame> {
    match step
    case Publish(o, scope, topic, payload) => [ClusterFrame(o, scope, topic, payload)]
    case _ => []
  }

  lemma {:induction false} ByOriginAppend(a: seq<ClusterFrame>, b: seq<ClusterFrame>, o: NodeId)
    ensures ByOrigin(a + b, o) == ByOrigin(a, o) + ByOrigin(b, o)
  {
    if a == [] {
      assert a + b == b;
    } else {
      assert (a + b)[1..] == a[1..] + b;
      ByOriginAppend(a[1..], b, o);
    }
  }

  lemma {:induction false} FramesFromAppend(s: seq<Relayed>, r: Relayed, o: NodeId)
    ensures FramesFrom(s + [r], o) == FramesFrom(s, o) + if r.frame.node == o then [r.frame] else []
  {
    if s == [] {
      assert s + [r] == [r] && [r][1..] == [];
      assert FramesFrom([r][1..], o) == [];
    } else {
      assert (s + [r])[1..] == s[1..] + [r];
      FramesFromAppend(s[1..], r, o);
    }
  }

  /** One step adds to what hub `p` was given of `o` what it handles of `o` in that step. */
  lemma GivenAfter(c: Cluster, step: Step, p: NodeId, o: NodeId)
    requires Enabled(c, step) && p in c && o in c
    ensures p in ClusterBridge.Apply(c, step) && o in ClusterBridge.Apply(c, step)
    ensures GivenTo(ClusterBridge.Apply(c, step), p, o) == GivenTo(c, p, o) + ByOrigin(HandledIn(c, step, p), o)
  {
    PublishedKept(c, step, p);
    PublishedKept(c, step, o);
    QueuesEvolve(c, step, p);
    var handled := HandledIn(c, step, p);
    if handled != [] {
      OriginCons(handled[0], [], o);
      assert handled == [handled[0]] + [];
    }
    if step == Consume(p) && c[p].inbox[0].frame.node != p {
      FramesFromAppend(c[p].dispatched, c[p].inbox[0], o);
    }
  }

  /** A step of a run, of which nothing is needed but this. */
  lemma RunStep(steps: seq<Step>, trace: seq<Cluster>, i: nat)
    requires ClusterBridge.IsRun(steps, trace) && Fresh(trace[0]) && i < |steps|
    ensures Enabled(trace[i], steps[i]) && trace[i + 1] == ClusterBridge.Apply(trace[i], steps[i])
    ensures trace[i].Keys == trace[i + 1].Keys == trace[0].Keys
    ensures forall n :: n in trace[i] && trace[i][n].inbox != [] ==> trace[i][n].inbox[0].frame.node in trace[i]
  {
    ClusterBridge.RunKeepsInv(steps, trace, i);
    ClusterBridge.RunKeepsInv(steps, trace, i + 1);
    assert Next(trace[i], steps[i], trace[i + 1]);
    forall n | n in trace[i] && trace[i][n].inbox != []
      ensures trace[i][n].inbox[0].frame.node in trace[i]
    {
      assert NodeOk(trace[i], n);
      assert Genuine(trace[i], trace[i][n].inbox[0]);
    }
  }

  lemma {:induction false} HandledOf(steps: seq<Step>, trace: seq<Cluster>, p: NodeId, o: NodeId, n: nat)
    requires ClusterBridge.IsRun(steps, trace) && Fresh(trace[0]) && n <= |steps| && p in trace[0] && o in trace[0]
    ensures p in trace[n] && o in trace[n]
    ensures ByOrigin(HandledAlong(steps, trace, p, n), o) == GivenTo(trace[n], p, o)
  {
    if n == 0 {
      assert trace[0][p] == NEW_NODE;
    } else {
      HandledOf(steps, trace, p, o, n - 1);
      RunStep(steps, trace, n - 1);
      ByOriginAppend(HandledAlong(steps, trace, p, n - 1), HandledIn(trace[n - 1], steps[n - 1], p), o);
      GivenAfter(trace[n - 1], steps[n - 1], p, o);
    }
  }

  ghost predicate AllFrom(frames: seq<ClusterFrame>, nodes: set<NodeId>) {
    forall i :: 0 <= i < |frames| ==> frames[i].node in nodes
  }

  lemma StepIsFromCluster(steps: seq<Step>, trace: seq<Cluster>, p: NodeId, i: nat)
    requires ClusterBridge.IsRun(steps, trace) && Fresh(trace[0]) && i < |steps| && p in trace[0]
    ensures AllFrom(HandledIn(trace[i], steps[i], p), trace[0].Keys)
  {
    RunStep(steps, trace, i);
  }

  lemma {:induction false} HandledFrom(steps: seq<Step>, trace: seq<Cluster>, p: NodeId, nodes: set<NodeId>, n: nat)
    requires n <= |steps| < |trace|
    requires forall i :: 0 <= i < n ==> AllFrom(HandledIn(trace[i], steps[i], p), nodes)
    ensures AllFrom(HandledAlong(steps, trace, p, n), nodes)
  {
    if n > 0 {
      HandledFrom(steps, trace, p, nodes, n - 1);
      assert AllFrom(HandledIn(trace[n - 1], steps[n - 1], p), nodes);
    }
  }

  lemma {:induction false} PublishedFrom(steps: seq<Step>, nodes: set<NodeId>, n: nat)
    requires n <= |steps| && forall i :: 0 <= i < n ==> AllFrom(PublishedIn(steps[i]), nodes)
    ensures AllFrom(PublishedAlong(steps, n), nodes)
  {
    if n > 0 {
      PublishedFrom(steps, nodes, n - 1);
      assert AllFrom(PublishedIn(steps[n - 1]), nodes);
    }
  }

  /** In any run, what a hub has handled, in its order, is what it was given. */
  lemma RunHandsOut(steps: seq<Step>, trace: seq<Cluster>, p: NodeId)
    requires ClusterBridge.IsRun(steps, trace) && Fresh(trace[0]) && p in trace[0]
    ensures p in trace[|steps|] && HandedTo(trace[|steps|], p, HandledAlong(steps, trace, p, |steps|))
  {
    var n := |steps|;
    ClusterBridge.RunKeepsInv(steps, trace, n);
    forall o | o in trace[n]
      ensures ByOrigin(HandledAlong(steps, trace, p, n), o) == GivenTo(trace[n], p, o)
    {
      HandledOf(steps, trace, p, o, n);
    }
    forall i | 0 <= i < n
      ensures AllFrom(HandledIn(trace[i], steps[i], p), trace[0].Keys)
    {
      StepIsFromCluster(steps, trace, p, i);
    }
    HandledFrom(steps, trace, p, trace[0].Keys, n);
  }

  ghost predicate AddsPublished(c: Cluster, step: Step, d: Cluster, o: NodeId) {
    o in c && o in d && d[o].published == c[o].published + ByOrigin(PublishedIn(step), o)
  }

  lemma StepAddsPublished(steps: seq<Step>, trace: seq<Cluster>, o: NodeId, i: nat)
    requires ClusterBridge.IsRun(steps, trace) && Fresh(trace[0]) && i < |steps| && o in trace[0]
    ensures AddsPublished(trace[i], steps[i], trace[i + 1], o)
  {
    RunStep(steps, trace, i);
    PublishedKept(trace[i], steps[i], o);
    var more := PublishedIn(steps[i]);
    if more != [] {
      OriginCons(more[0], [], o);
      assert more == [more[0]] + [];
    }
  }

  lemma {:induction false} PublishedOf(steps: seq<Step>, trace: seq<Cluster>, o: NodeId, n: nat)
    requires n <= |steps| < |trace| && o in trace[0] && trace[0][o].published == []
    requires forall i :: 0 <= i < n ==> AddsPublished(trace[i], steps[i], trace[i + 1], o)
    ensures o in trace[n] && ByOrigin(PublishedAlong(steps, n), o) == trace[n][o].published
  {
    if n > 0 {
      PublishedOf(steps, trace, o, n - 1);
      assert AddsPublished(trace[n - 1], steps[n - 1], trace[n - 1 + 1], o);
      ByOriginAppend(PublishedAlong(steps, n - 1), PublishedIn(steps[n - 1]), o);
    }
  }

  /** And what has been published, in the order of the run, is everything. */
  lemma RunPublishes(steps: seq<Step>, trace: seq<Cluster>)
    requires ClusterBridge.IsRun(steps, trace) && Fresh(trace[0])
    ensures Everything(trace[|steps|], PublishedAlong(steps, |steps|))
  {
    var n := |steps|;
    ClusterBridge.RunKeepsInv(steps, trace, n);
    forall o | o in trace[n]
      ensures ByOrigin(PublishedAlong(steps, n), o) == trace[n][o].published
    {
      assert trace[0][o] == NEW_NODE;
      forall i | 0 <= i < n
        ensures AddsPublished(trace[i], steps[i], trace[i + 1], o)
      {
        StepAddsPublished(steps, trace, o, i);
      }
      PublishedOf(steps, trace, o, n);
    }
    forall i | 0 <= i < n
      ensures AllFrom(PublishedIn(steps[i]), trace[0].Keys)
    {
      RunStep(steps, trace, i);
    }
    PublishedFrom(steps, trace[0].Keys, n);
  }

  /**
   So, over a run that loses nothing and has come to rest: a hub that handled its
   events as they came in the run, and a merged hub that handled everything as it was
   published, have put the same events into the channel of a socket connected to both.
   */
  lemma BridgedRunDeliversAsOne(steps: seq<Step>, trace: seq<Cluster>, p: NodeId, id: ConnectionId,
                                cfg: Config, h: HubState, given: seq<Act>,
                                mergedCfg: Config, g: HubState, all: seq<Act>)
    requires LosslessRun(steps, trace) && Fresh(trace[0]) && Quiet(trace[|steps|]) && p in trace[0]
    requires FramesOf(given) == HandledAlong(steps, trace, p, |steps|)
    requires FramesOf(all) == PublishedAlong(steps, |steps|)
    requires Ready(cfg, h, id, given) && Ready(mergedCfg, g, id, all) && h.connections[id] == g.connections[id]
    requires id in PerformAll(cfg, h, given).connections && id in PerformAll(mergedCfg, g, all).connections
    ensures var own, one := SentTo(h, id, FramesOf(given)), SentTo(g, id, FramesOf(all));
            var h', g' := PerformAll(cfg, h, given), PerformAll(mergedCfg, g, all);
            && Gains(cfg, h, h', id, EventsOf(own)) && Gains(mergedCfg, g, g', id, EventsOf(one))
            && multiset(EventsOf(own)) == multiset(EventsOf(one))
            && forall o :: ByOrigin(own, o) == ByOrigin(one, o)
  {
    RunHandsOut(steps, trace, p);
    RunPublishes(steps, trace);
    BridgedHubsDeliverAsOne(steps, trace, p, id, cfg, h, given, mergedCfg, g, all);
  }

  // ── An example with two nodes ──────────────────────────────────────────────

  /** A broadcast on `a` crosses the bridge: sent once, dropped by `a` as its own, dispatched by `b`. */
  ghost function CrossingSteps(a: NodeId, b: NodeId, topic: string, payload: string): seq<Step> {
    [Publish(a, All, topic, payload), RelaySent(a), Consume(a), Consume(b)]
  }

  ghost function CrossingTrace(a: NodeId, b: NodeId, topic: string, payload: string): seq<Cluster> {
    var f := ClusterFrame(a, All, topic, payload);
    var r := Relayed(f, 0);
    [map[a := NEW_NODE, b := NEW_NODE],
     map[a := Node([r], [], true, [f], []), b := NEW_NODE],
     map[a := Node([], [r], true, [f], []), b := Node([], [r], true, [], [])],
     map[a := Node([], [], true, [f], []), b := Node([], [r], true, [], [])],
     map[a := Node([], [], true, [f], []), b := Node([], [], true, [], [r])]]
  }

  lemma CrossingSendsOnce(a: NodeId, b: NodeId, topic: string, payload: string)
    requires a != b
    ensures var steps, trace := CrossingSteps(a, b, topic, payload), CrossingTrace(a, b, topic, payload);
            Next(trace[0], steps[0], trace[1]) && Next(trace[1], steps[1], trace[2])
  {
    var trace := CrossingTrace(a, b, topic, payload);
    var f := ClusterFrame(a, All, topic, payload);
    var r := Relayed(f, 0);
    assert [r][1..] == [] && NEW_NODE.relay + [r] == [r] && NEW_NODE.published + [f] == [f];
    assert Apply(trace[0], Publish(a, All, topic, payload)) == trace[1];
    var sent := Apply(trace[1], RelaySent(a));
    assert sent.Keys == {a, b} && sent[a] == trace[2][a] && sent[b] == trace[2][b];
    assert sent == trace[2];
  }

  lemma CrossingArrives(a: NodeId, b: NodeId, topic: string, payload: string)
    requires a != b
    ensures var steps, trace := CrossingSteps(a, b, topic, payload), CrossingTrace(a, b, topic, payload);
            Next(trace[2], steps[2], trace[3]) && Next(trace[3], steps[3], trace[4])
  {
    var trace := CrossingTrace(a, b, topic, payload);
    var r := Relayed(ClusterFrame(a, All, topic, payload), 0);
    assert [r][1..] == [] && NEW_NODE.dispatched + [r] == [r];
    assert Apply(trace[2], Consume(a)) == trace[3];
    assert Apply(trace[3], Consume(b)) == trace[4];
  }

  lemma CrossingIsLossless(a: NodeId, b: NodeId, topic: string, payload: string)
    requires a != b
    ensures var steps, trace := CrossingSteps(a, b, topic, payload), CrossingTrace(a, b, topic, payload);
            LosslessRun(steps, trace) && Fresh(trace[0]) && Quiet(trace[|steps|])
  {
    CrossingSendsOnce(a, b, topic, payload);
    CrossingArrives(a, b, topic, payload);
  }

  /** A hub with one anonymous socket that has read nothing yet. */
  function OneSocket(id: ConnectionId): HubState {
    HubState(map[id := Connection(None, {})], map[id := Channel([], [], [], true)], 0, 0)
  }

  lemma CrossingHandsOut(a: NodeId, b: NodeId, topic: string, payload: string)
    requires a != b
    ensures var c, given := CrossingTrace(a, b, topic, payload)[4], [ClusterFrame(a, All, topic, payload)];
            HandedTo(c, b, given) && Everything(c, given)
  {
    var f := ClusterFrame(a, All, topic, payload);
    var r := Relayed(f, 0);
    assert [f][1..] == [] && [r][1..] == [];
    OriginCons(f, [], a);
    OriginCons(f, [], b);
    assert FramesFrom([r], a) == [f] + FramesFrom([], a);
  }

  /** The premises of `BridgedHubsDeliverAsOne` hold of it, and the socket on `b` receives and reads the event. */
  lemma CrossingDelivers(cfg: Config, a: NodeId, b: NodeId, id: ConnectionId, topic: string, payload: string)
    requires a != b
    ensures var c, given := CrossingTrace(a, b, topic, payload)[4], CrossingActs(a, id, topic, payload);
            var s := OneSocket(id);
            && HandedTo(c, b, FramesOf(given)) && Everything(c, FramesOf(given))
            && Ready(cfg, s, id, given) && id in PerformAll(cfg, s, given).connections
            && Gains(cfg, s, PerformAll(cfg, s, given), id, [Event(topic, payload)])
  {
    var f := ClusterFrame(a, All, topic, payload);
    var given, s := CrossingActs(a, id, topic, payload), OneSocket(id);
    CrossingHandsOut(a, b, topic, payload);
    CrossingFrames(a, id, topic, payload);
    assert KeepsUp(cfg, s, id, given) by {
      assert given[1..] == [Local(OpReceive(id))] && given[1..][1..] == [];
    }
    SentCons(s, id, f, []);
    assert [f] + [] == [f];
    EventsCons(f, []);
    ActsDeliver(cfg, s, id, given);
  }

  /** The hub dispatches the broadcast, and the session reads it. */
  function CrossingActs(a: NodeId, id: ConnectionId, topic: string, payload: string): seq<Act> {
    [Give(ClusterFrame(a, All, topic, payload)), Local(OpReceive(id))]
  }

  lemma CrossingFrames(a: NodeId, id: ConnectionId, topic: string, payload: string)
    ensures FramesOf(CrossingActs(a, id, topic, payload)) == [ClusterFrame(a, All, topic, payload)]
  {
    var acts := CrossingActs(a, id, topic, payload);
    var read := [Local(OpReceive(id))];
    assert acts[1..] == read && read[1..] == [];
    assert FramesOf(read) == [] by {
      assert FramesOf(read[1..]) == [];
    }
  }
}
