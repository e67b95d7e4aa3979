/**
 With nothing lost and membership fixed, bridged hubs are one hub: once the
 bridge is quiet, every socket has been sent exactly the events a single merged
 hub would have sent it.
 */
module ClusterEquivalence {
  import opened Prelude
  import opened HubModel
  import opened Hub
  import opened ClusterBridge

  ghost predicate LosesNothing(c: Cluster, step: Step)
    requires step.at in c
  {
    match step
    case Publish(n, _, _, _) => |c[n].relay| < CLUSTER_RELAY_BUFFER
    case RelaySent(_) => forall m :: m in c ==> c[m].listening
    case Consume(_) => true
    case _ => false
  }

  ghost predicate LosslessRun(steps: seq<Step>, trace: seq<Cluster>) {
    && ClusterBridge.IsRun(steps, trace)
    && forall i :: 0 <= i < |steps| ==> steps[i].at in trace[i] && LosesNothing(trace[i], steps[i])
  }

  function Range(n: nat): seq<nat> {
    seq(n, i => i)
  }

  ghost predicate Complete(c: Cluster) {
    forall o, p :: o in c && p in c && o != p ==> Chain(c, o, p) == Range(|c[o].published|)
  }

  /** Without losses a serial only moves on to the next part of its chain. */
  lemma NothingCutOut(h: seq<nat>, w: seq<nat>, r: seq<nat>, h': seq<nat>, w': seq<nat>, r': seq<nat>, moved: seq<nat>)
    requires || (r == moved + r' && w' == w + moved && h' == h)
             || (w == moved + w' && h' == h + moved && r' == r)
    ensures h' + w' + r' == h + w + r
  {
  }

  lemma ChainMovesKept(c: Cluster, step: Step, o: NodeId, p: NodeId)
    requires NodesOk(c, o, step.at) && Enabled(c, step) && LosesNothing(c, step) && !step.Publish?
    requires o in c && p in c && o != p
    ensures Chain(Apply(c, step), o, p) == Chain(c, o, p)
  {
    var d := Apply(c, step);
    HandledAfter(c, step, o, p);
    WaitingAfter(c, step, o, p);
    AtHomeAfter(c, step, o);
    var moved :=
      if step == RelaySent(o) then [c[o].relay[0].serial]
      else if step == Consume(p) && c[p].inbox[0].frame.node == o then [c[p].inbox[0].serial]
      else [];
    NothingCutOut(Handled(c, o, p), Waiting(c, o, p), AtHome(c, o),
                  Handled(d, o, p), Waiting(d, o, p), AtHome(d, o), moved);
  }

  ghost predicate NodesOk(c: Cluster, o: NodeId, n: NodeId) {
    o in c && n in c && NodeOk(c, o) && NodeOk(c, n)
  }

  lemma ChainCompleteKept(c: Cluster, step: Step, o: NodeId, p: NodeId)
    requires NodesOk(c, o, step.at) && Enabled(c, step) && LosesNothing(c, step)
    requires o in c && p in c && o != p && Chain(c, o, p) == Range(|c[o].published|)
    ensures Chain(Apply(c, step), o, p) == Range(|Apply(c, step)[o].published|)
  {
    PublishedKept(c, step, o);
    if step.Publish? {
      var n := |c[o].published|;
      HandledAfter(c, step, o, p);
      WaitingAfter(c, step, o, p);
      AtHomeAfter(c, step, o);
      assert Range(n + 1) == Range(n) + [n];
      assert Handled(c, o, p) + Waiting(c, o, p) + (AtHome(c, o) + [n]) == Chain(c, o, p) + [n];
    } else {
      ChainMovesKept(c, step, o, p);
    }
  }

  lemma {:induction false} RunIsComplete(steps: seq<Step>, trace: seq<Cluster>, n: nat)
    requires LosslessRun(steps, trace) && Fresh(trace[0]) && n <= |steps|
    ensures Complete(trace[n])
  {
    if n == 0 {
      forall o, p | o in trace[0] && p in trace[0] && o != p
        ensures Chain(trace[0], o, p) == Range(|trace[0][o].published|)
      {
        assert trace[0][o] == NEW_NODE && trace[0][p] == NEW_NODE;
      }
    } else {
      RunIsComplete(steps, trace, n - 1);
      ClusterBridge.RunKeepsInv(steps, trace, n - 1);
      var c, step := trace[n - 1], steps[n - 1];
      assert Next(c, step, trace[n]);
      forall o, p | o in trace[n] && p in trace[n] && o != p
        ensures Chain(trace[n], o, p) == Range(|trace[n][o].published|)
      {
        assert NodeOk(c, o) && NodeOk(c, step.at);
        ChainCompleteKept(c, step, o, p);
      }
    }
  }

  /** No frame is queued for relay or waiting on a subscription. */
  ghost predicate Quiet(c: Cluster) {
    forall n :: n in c ==> c[n].relay == [] && c[n].inbox == []
  }

  // ── What each hub was given ────────────────────────────────────────────────

  function FramesFrom(s: seq<Relayed>, origin: NodeId): seq<ClusterFrame> {
    if s == [] then []
    else (if s[0].frame.node == origin then [s[0].frame] else []) + FramesFrom(s[1..], origin)
  }

  lemma {:induction false} FramesBySerial(c: Cluster, s: seq<Relayed>, origin: NodeId)
    requires AllGenuine(c, s) && origin in c
    ensures |FramesFrom(s, origin)| == |From(s, origin)|
    ensures forall i :: 0 <= i < |From(s, origin)| ==>
              && From(s, origin)[i] < |c[origin].published|
              && FramesFrom(s, origin)[i] == c[origin].published[From(s, origin)[i]]
  {
    if s != [] {
      assert Genuine(c, s[0]);
      assert AllGenuine(c, s[1..]);
      FramesBySerial(c, s[1..], origin);
    }
  }

  /** The events of `origin` the hub of node `p` was given, in order: its own directly, others over the bridge. */
  function GivenTo(c: Cluster, p: NodeId, origin: NodeId): seq<ClusterFrame>
    requires p in c && origin in c
  {
    if origin == p then c[p].published else FramesFrom(c[p].dispatched, origin)
  }

  lemma EveryHubGivenEverything(steps: seq<Step>, trace: seq<Cluster>, p: NodeId, origin: NodeId)
    requires LosslessRun(steps, trace) && Fresh(trace[0]) && Quiet(trace[|steps|])
    requires p in trace[|steps|] && origin in trace[|steps|]
    ensures GivenTo(trace[|steps|], p, origin) == trace[|steps|][origin].published
  {
    var c := trace[|steps|];
    if origin != p {
      RunIsComplete(steps, trace, |steps|);
      ClusterBridge.RunKeepsInv(steps, trace, |steps|);
      assert NodeOk(c, p);
      assert Chain(c, origin, p) == From(c[p].dispatched, origin);
      FramesBySerial(c, c[p].dispatched, origin);
    }
  }

  // ── Sockets ────────────────────────────────────────────────────────────────

  /** The sockets of each node; nobody joins, leaves, subscribes or falls behind. */
  type Membership = map<NodeId, map<ConnectionId, Connection>>

  ghost predicate OwnSockets(members: Membership) {
    forall p, q, id :: p in members && q in members && p != q && id in members[p] ==> id !in members[q]
  }

  function HubOf(connections: map<ConnectionId, Connection>): HubState {
    EMPTY_HUB.(connections := connections)
  }

  ghost function HomeOf(members: Membership, id: ConnectionId): NodeId
    requires exists p :: p in members && id in members[p]
  {
    var p :| p in members && id in members[p];
    p
  }

  /** The connections of one hub holding every node's sockets. */
  ghost function Merge(members: Membership): map<ConnectionId, Connection> {
    var sockets := set p, id | p in members && id in members[p] :: id;
    map id | id in sockets :: members[HomeOf(members, id)][id]
  }

  /** The events among `frames` that a hub fans out to socket `id`. */
  function SentTo(hub: HubState, id: ConnectionId, frames: seq<ClusterFrame>): seq<ClusterFrame> {
    if frames == [] then []
    else
      (if id in Audience(hub, frames[0].scope, frames[0].topic) then [frames[0]] else []) + SentTo(hub, id, frames[1..])
  }

  lemma {:induction false} SameAudienceSameFrames(a: HubState, b: HubState, id: ConnectionId, frames: seq<ClusterFrame>)
    requires forall scope, topic :: id in Audience(a, scope, topic) <==> id in Audience(b, scope, topic)
    ensures SentTo(a, id, frames) == SentTo(b, id, frames)
  {
    if frames != [] {
      SameAudienceSameFrames(a, b, id, frames[1..]);
    }
  }

  lemma AudienceOfMerged(members: Membership, p: NodeId, id: ConnectionId, scope: Scope, topic: string)
    requires OwnSockets(members) && p in members && id in members[p]
    ensures id in Audience(HubOf(Merge(members)), scope, topic) <==> id in Audience(HubOf(members[p]), scope, topic)
  {
    assert HomeOf(members, id) == p;
  }

  /**
   For topic, user and broadcast events alike: the events of each origin sent to
   a socket by its own node are those the merged hub would have sent it.
   */
  lemma BridgedHubsActAsOne(steps: seq<Step>, trace: seq<Cluster>, members: Membership,
                            p: NodeId, id: ConnectionId, origin: NodeId)
    requires LosslessRun(steps, trace) && Fresh(trace[0]) && Quiet(trace[|steps|])
    requires OwnSockets(members) && members.Keys == trace[|steps|].Keys
    requires p in members && id in members[p] && origin in members
    ensures SentTo(HubOf(members[p]), id, GivenTo(trace[|steps|], p, origin)) ==
            SentTo(HubOf(Merge(members)), id, trace[|steps|][origin].published)
    ensures forall q :: q in members && q != p ==>
              SentTo(HubOf(members[q]), id, GivenTo(trace[|steps|], q, origin)) == []
  {
    var c := trace[|steps|];
    EveryHubGivenEverything(steps, trace, p, origin);
    forall scope, topic
      ensures id in Audience(HubOf(Merge(members)), scope, topic) <==> id in Audience(HubOf(members[p]), scope, topic)
    {
      AudienceOfMerged(members, p, id, scope, topic);
    }
    SameAudienceSameFrames(HubOf(members[p]), HubOf(Merge(members)), id, c[origin].published);
    forall q | q in members && q != p
      ensures SentTo(HubOf(members[q]), id, GivenTo(c, q, origin)) == []
    {
      StrangerGetsNothing(HubOf(members[q]), id, GivenTo(c, q, origin));
    }
  }

  lemma {:induction false} StrangerGetsNothing(hub: HubState, id: ConnectionId, frames: seq<ClusterFrame>)
    requires id !in hub.connections
    ensures SentTo(hub, id, frames) == []
  {
    if frames != [] {
      StrangerGetsNothing(hub, id, frames[1..]);
    }
  }
}
