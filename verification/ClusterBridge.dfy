/**
 The bridge between instances: every node has a lossy bounded relay queue, all
 nodes share one publish/subscribe channel, and each drops frames carrying its
 own id. Serial numbers are not on the wire; they only say which publish call a
 frame came from.
 */
module ClusterBridge {
  import opened Prelude
  import opened Sums
  import opened HubModel
  import opened Hub

  type NodeId = Uuid

  datatype Relayed = Relayed(frame: ClusterFrame, serial: nat)

  datatype Node = Node(
    relay: seq<Relayed>,            // frames waiting for the publish loop
    inbox: seq<Relayed>,            // frames on this node's subscription
    listening: bool,                // whether the subscription is up
    published: seq<ClusterFrame>,   // events published here, each delivered locally
    dispatched: seq<Relayed>)       // frames handed to `dispatch_cluster_frame`

  type Cluster = map<NodeId, Node>

  const NEW_NODE := Node([], [], true, [], [])

  datatype Step =
    | Publish(at: NodeId, scope: Scope, topic: string, payload: string)
    | RelayLost(at: NodeId)       // serialisation, connection or PUBLISH failed
    | RelaySent(at: NodeId)
    | Consume(at: NodeId)
    | ConsumeUnreadable(at: NodeId)
    | Disconnect(at: NodeId)
    | Reconnect(at: NodeId)

  predicate Enabled(c: Cluster, step: Step) {
    && step.at in c
    && match step
       case RelayLost(n) => c[n].relay != []
       case RelaySent(n) => c[n].relay != []
       case Consume(n) => c[n].inbox != []
       case ConsumeUnreadable(n) => c[n].inbox != []
       case _ => true
  }

  function Hear(node: Node, r: Relayed): Node {
    if node.listening then node.(inbox := node.inbox + [r]) else node
  }

  function ForwardTagged(relay: seq<Relayed>, r: Relayed): seq<Relayed> {
    if |relay| < CLUSTER_RELAY_BUFFER then relay + [r] else relay
  }

  function Apply(c: Cluster, step: Step): Cluster
    requires Enabled(c, step)
  {
    var n := step.at;
    var node := c[n];
    match step
    case Publish(_, scope, topic, payload) =>
      var frame := ClusterFrame(n, scope, topic, payload);
      c[n := node.(relay := ForwardTagged(node.relay, Relayed(frame, |node.published|)),
                   published := node.published + [frame])]
    case RelayLost(_) => c[n := node.(relay := node.relay[1..])]
    case RelaySent(_) =>
      var sent := c[n := node.(relay := node.relay[1..])];
      map m | m in c :: Hear(sent[m], node.relay[0])
    case Consume(_) =>
      var r := node.inbox[0];
      c[n := node.(inbox := node.inbox[1..],
                   dispatched := if r.frame.node == n then node.dispatched else node.dispatched + [r])]
    case ConsumeUnreadable(_) => c[n := node.(inbox := node.inbox[1..])]
    case Disconnect(_) => c[n := node.(inbox := [], listening := false)]
    case Reconnect(_) => c[n := node.(listening := true)]
  }

  ghost predicate Next(c: Cluster, step: Step, d: Cluster) {
    Enabled(c, step) && d == Apply(c, step)
  }

  ghost predicate Fresh(c: Cluster) {
    forall n :: n in c ==> c[n] == NEW_NODE
  }

  ghost predicate IsRun(steps: seq<Step>, trace: seq<Cluster>) {
    && |trace| == |steps| + 1
    && forall i :: 0 <= i < |steps| ==> Next(trace[i], steps[i], trace[i + 1])
  }

  /** The relay queue here is the hub's, with serials attached. */
  lemma RelayIsTheHubs(relay: seq<Relayed>, r: Relayed)
    ensures Untagged(ForwardTagged(relay, r)) == Forwarded(Untagged(relay), r.frame, true)
  {
  }

  function Untagged(relay: seq<Relayed>): seq<ClusterFrame> {
    seq(|relay|, i requires 0 <= i < |relay| => relay[i].frame)
  }

  // ── Serials of one origin ──────────────────────────────────────────────────

  /** The serials of the frames in `s` that come from `origin`, in order. */
  function From(s: seq<Relayed>, origin: NodeId): seq<nat> {
    if s == [] then []
    else (if s[0].frame.node == origin then [s[0].serial] else []) + From(s[1..], origin)
  }

  lemma {:induction false} FromAppend(s: seq<Relayed>, r: Relayed, origin: NodeId)
    ensures From(s + [r], origin) == From(s, origin) + if r.frame.node == origin then [r.serial] else []
  {
    if s == [] {
      assert (s + [r])[1..] == [];
    } else {
      FromAppend(s[1..], r, origin);
      assert (s + [r])[1..] == s[1..] + [r];
    }
  }

  ghost predicate Increasing(s: seq<nat>) {
    forall i, j :: 0 <= i < j < |s| ==> s[i] < s[j]
  }

  ghost predicate Below(s: seq<nat>, bound: nat) {
    forall i :: 0 <= i < |s| ==> s[i] < bound
  }

  lemma IncreasingCut(a: seq<nat>, b: seq<nat>, c: seq<nat>, bound: nat)
    requires Increasing(a + b + c) && Below(a + b + c, bound)
    ensures Increasing(a + c) && Below(a + c, bound)
  {
    var abc := a + b + c;
    var ac := a + c;
    forall i | 0 <= i < |ac|
      ensures ac[i] == abc[if i < |a| then i else i + |b|]
    {
    }
  }

  /** Frames of `origin` on their way to `peer`: handled there, waiting there, still at home. */
  function Handled(c: Cluster, origin: NodeId, peer: NodeId): seq<nat>
    requires origin in c && peer in c
  {
    From(c[peer].dispatched, origin)
  }

  function Waiting(c: Cluster, origin: NodeId, peer: NodeId): seq<nat>
    requires origin in c && peer in c
  {
    From(c[peer].inbox, origin)
  }

  function AtHome(c: Cluster, origin: NodeId): seq<nat>
    requires origin in c
  {
    From(c[origin].relay, origin)
  }

  function Chain(c: Cluster, origin: NodeId, peer: NodeId): seq<nat>
    requires origin in c && peer in c
  {
    Handled(c, origin, peer) + Waiting(c, origin, peer) + AtHome(c, origin)
  }

  // ── Invariants ─────────────────────────────────────────────────────────────

  /** Every frame in the system is one its origin published. */
  ghost predicate Genuine(c: Cluster, r: Relayed) {
    && r.frame.node in c
    && r.serial < |c[r.frame.node].published|
    && c[r.frame.node].published[r.serial] == r.frame
  }

  ghost predicate AllGenuine(c: Cluster, s: seq<Relayed>) {
    forall i :: 0 <= i < |s| ==> Genuine(c, s[i])
  }

  ghost predicate NodeOk(c: Cluster, n: NodeId)
    requires n in c
  {
    && AllGenuine(c, c[n].relay) && AllGenuine(c, c[n].inbox) && AllGenuine(c, c[n].dispatched)
    && |c[n].relay| <= CLUSTER_RELAY_BUFFER
    && (forall i :: 0 <= i < |c[n].relay| ==> c[n].relay[i].frame.node == n)
    && (forall i :: 0 <= i < |c[n].dispatched| ==> c[n].dispatched[i].frame.node != n)
    && (forall i :: 0 <= i < |c[n].published| ==> c[n].published[i].node == n)
  }

  ghost predicate ChainOk(c: Cluster, origin: NodeId, peer: NodeId)
    requires origin in c && peer in c
  {
    Increasing(Chain(c, origin, peer)) && Below(Chain(c, origin, peer), |c[origin].published|)
  }

  ghost predicate Inv(c: Cluster) {
    && (forall n :: n in c ==> NodeOk(c, n))
    && (forall o, p :: o in c && p in c && o != p ==> ChainOk(c, o, p))
  }

  lemma GenuineKept(c: Cluster, step: Step, s: seq<Relayed>)
    requires Enabled(c, step) && AllGenuine(c, s)
    ensures AllGenuine(Apply(c, step), s)
  {
    var d := Apply(c, step);
    forall i | 0 <= i < |s|
      ensures Genuine(d, s[i])
    {
      assert Genuine(c, s[i]);
      PublishedKept(c, step, s[i].frame.node);
    }
  }

  lemma PublishedKept(c: Cluster, step: Step, n: NodeId)
    requires Enabled(c, step) && n in c
    ensures n in Apply(c, step)
    ensures Apply(c, step)[n].published == c[n].published +
              if step.Publish? && step.at == n then [ClusterFrame(n, step.scope, step.topic, step.payload)] else []
  {
  }

  /** A queue changes by losing its head or gaining one frame at its end. */
  ghost predicate Evolves(before: seq<Relayed>, after: seq<Relayed>, gained: Option<Relayed>) {
    || after == before
    || after == []
    || (before != [] && after == before[1..])
    || (gained.Some? && after == before + [gained.value])
  }

  /** The frame a step moves or creates. */
  function Moved(c: Cluster, step: Step): Option<Relayed>
    requires Enabled(c, step)
  {
    match step
    case Publish(n, scope, topic, payload) => Some(Relayed(ClusterFrame(n, scope, topic, payload), |c[n].published|))
    case RelaySent(n) => Some(c[n].relay[0])
    case Consume(n) => Some(c[n].inbox[0])
    case _ => None
  }

  lemma QueuesEvolve(c: Cluster, step: Step, n: NodeId)
    requires Enabled(c, step) && n in c
    ensures var d, r := Apply(c, step), Moved(c, step);
            && Evolves(c[n].relay, d[n].relay, if step.Publish? && step.at == n then r else None)
            && Evolves(c[n].inbox, d[n].inbox, if step.RelaySent? then r else None)
            && Evolves(c[n].dispatched, d[n].dispatched,
                       if step.Consume? && step.at == n && r.value.frame.node != n then r else None)
  {
  }

  lemma GenuineEvolves(c: Cluster, before: seq<Relayed>, after: seq<Relayed>, gained: Option<Relayed>)
    requires AllGenuine(c, before) && Evolves(before, after, gained)
    requires gained.Some? ==> Genuine(c, gained.value)
    ensures AllGenuine(c, after)
  {
  }

  lemma MovedIsGenuine(c: Cluster, step: Step)
    requires (forall m :: m in c ==> NodeOk(c, m)) && Enabled(c, step)
    ensures Moved(c, step).Some? ==> Genuine(Apply(c, step), Moved(c, step).value)
  {
    var n := step.at;
    assert NodeOk(c, n);
    PublishedKept(c, step, n);
    match step {
      case Publish(_, _, _, _) =>
      case RelaySent(_) =>
        GenuineKept(c, step, c[n].relay);
      case Consume(_) =>
        GenuineKept(c, step, c[n].inbox);
      case _ =>
    }
  }

  lemma QueuesGenuine(c: Cluster, step: Step, n: NodeId)
    requires (forall m :: m in c ==> NodeOk(c, m)) && Enabled(c, step) && n in c
    ensures var d := Apply(c, step);
            AllGenuine(d, d[n].relay) && AllGenuine(d, d[n].inbox) && AllGenuine(d, d[n].dispatched)
  {
    var d, r := Apply(c, step), Moved(c, step);
    assert NodeOk(c, n);
    MovedIsGenuine(c, step);
    QueuesEvolve(c, step, n);
    GenuineKept(c, step, c[n].relay);
    GenuineKept(c, step, c[n].inbox);
    GenuineKept(c, step, c[n].dispatched);
    GenuineEvolves(d, c[n].relay, d[n].relay, if step.Publish? && step.at == n then r else None);
    GenuineEvolves(d, c[n].inbox, d[n].inbox, if step.RelaySent? then r else None);
    GenuineEvolves(d, c[n].dispatched, d[n].dispatched,
                   if step.Consume? && step.at == n && r.value.frame.node != n then r else None);
  }

  lemma NodeKept(c: Cluster, step: Step, n: NodeId)
    requires (forall m :: m in c ==> NodeOk(c, m)) && Enabled(c, step) && n in c
    ensures NodeOk(Apply(c, step), n)
  {
    assert NodeOk(c, n);
    QueuesGenuine(c, step, n);
    QueuesEvolve(c, step, n);
    PublishedKept(c, step, n);
  }

  // ── Effect of a step on one chain ──────────────────────────────────────────

  /** The serials a step takes off the front of, or adds to the end of, each part of a chain. */
  lemma HandledAfter(c: Cluster, step: Step, o: NodeId, p: NodeId)
    requires Enabled(c, step) && o in c && p in c && o != p
    ensures Handled(Apply(c, step), o, p) == Handled(c, o, p) +
              if step == Consume(p) && c[p].inbox[0].frame.node == o then [c[p].inbox[0].serial] else []
  {
    if step == Consume(p) {
      FromAppend(c[p].dispatched, c[p].inbox[0], o);
    }
  }

  lemma WaitingAfter(c: Cluster, step: Step, o: NodeId, p: NodeId)
    requires Enabled(c, step) && o in c && p in c
    ensures var w, w' := Waiting(c, o, p), Waiting(Apply(c, step), o, p);
            if step == Disconnect(p) then w' == []
            else if step == Consume(p) || step == ConsumeUnreadable(p) then
              w == (if c[p].inbox[0].frame.node == o then [c[p].inbox[0].serial] else []) + w'
            else if step.RelaySent? && c[p].listening && c[step.at].relay[0].frame.node == o then
              w' == w + [c[step.at].relay[0].serial]
            else w' == w
  {
    if step.RelaySent? {
      FromAppend(c[p].inbox, c[step.at].relay[0], o);
    }
  }

  lemma AtHomeAfter(c: Cluster, step: Step, o: NodeId)
    requires Enabled(c, step) && o in c && NodeOk(c, o)
    ensures var r, r' := AtHome(c, o), AtHome(Apply(c, step), o);
            if step == RelayLost(o) || step == RelaySent(o) then r == [c[o].relay[0].serial] + r'
            else if step.Publish? && step.at == o && |c[o].relay| < CLUSTER_RELAY_BUFFER then
              r' == r + [|c[o].published|]
            else r' == r
  {
    if step.Publish? && step.at == o {
      FromAppend(c[o].relay, Moved(c, step).value, o);
    }
  }

  /** A chain keeps its order: it loses some serials, or gains the next one at its end. */
  lemma ChainKept(c: Cluster, step: Step, o: NodeId, p: NodeId)
    requires (forall m :: m in c ==> NodeOk(c, m)) && Enabled(c, step)
    requires o in c && p in c && o != p && ChainOk(c, o, p)
    ensures ChainOk(Apply(c, step), o, p)
  {
    var d := Apply(c, step);
    var bound := |c[o].published|;
    var h, w, r := Handled(c, o, p), Waiting(c, o, p), AtHome(c, o);
    var h', w', r' := Handled(d, o, p), Waiting(d, o, p), AtHome(d, o);
    assert NodeOk(c, o) && NodeOk(c, step.at);
    PublishedKept(c, step, o);
    HandledAfter(c, step, o, p);
    WaitingAfter(c, step, o, p);
    AtHomeAfter(c, step, o);
    ChainArithmetic(h, w, r, h', w', r', bound, |d[o].published|);
  }

  /** The ways the three parts of a chain can change together. */
  ghost predicate PartsChange(h: seq<nat>, w: seq<nat>, r: seq<nat>, h': seq<nat>, w': seq<nat>, r': seq<nat>,
                              bound: nat) {
    || (h' == h && w' == w && r' == r)
    || (h' == h && w' == w && r' == r + [bound])
    || (exists x :: r == [x] + r' && h' == h && (w' == w || w' == w + [x]))
    || (exists x :: w == [x] + w' && r' == r && (h' == h || h' == h + [x]))
    || (w' == [] && h' == h && r' == r)
  }

  lemma LeavesHome(h: seq<nat>, w: seq<nat>, x: nat, r: seq<nat>, w': seq<nat>, bound: nat)
    requires Increasing(h + w + ([x] + r)) && Below(h + w + ([x] + r), bound)
    requires w' == w || w' == w + [x]
    ensures Increasing(h + w' + r) && Below(h + w' + r, bound)
  {
    assert h + w + ([x] + r) == (h + w) + [x] + r;
    if w' == w {
      IncreasingCut(h + w, [x], r, bound);
    } else {
      assert h + w' + r == h + w + ([x] + r);
    }
  }

  lemma LeavesInbox(h: seq<nat>, x: nat, w: seq<nat>, r: seq<nat>, h': seq<nat>, bound: nat)
    requires Increasing(h + ([x] + w) + r) && Below(h + ([x] + w) + r, bound)
    requires h' == h || h' == h + [x]
    ensures Increasing(h' + w + r) && Below(h' + w + r, bound)
  {
    assert h + ([x] + w) + r == h + [x] + (w + r);
    if h' == h {
      IncreasingCut(h, [x], w + r, bound);
      assert h' + w + r == h + (w + r);
    } else {
      assert h' + w + r == h + ([x] + w) + r;
    }
  }

  lemma ChainArithmetic(h: seq<nat>, w: seq<nat>, r: seq<nat>, h': seq<nat>, w': seq<nat>, r': seq<nat>, bound: nat,
                        bound': nat)
    requires Increasing(h + w + r) && Below(h + w + r, bound)
    requires PartsChange(h, w, r, h', w', r', bound)
    requires bound <= bound' && (r' == r + [bound] ==> bound < bound')
    ensures Increasing(h' + w' + r') && Below(h' + w' + r', bound')
  {
    if x :| r == [x] + r' && h' == h && (w' == w || w' == w + [x]) {
      LeavesHome(h, w, x, r', w', bound);
    } else if x :| w == [x] + w' && r' == r && (h' == h || h' == h + [x]) {
      LeavesInbox(h, x, w', r, h', bound);
    } else if w' == [] && h' == h && r' == r {
      IncreasingCut(h, w, r, bound);
      assert h' + w' + r' == h + r;
    } else {
      assert h + w + (r + [bound]) == (h + w + r) + [bound];
    }
  }

  lemma FreshInv(c: Cluster)
    requires Fresh(c)
    ensures Inv(c)
  {
    forall o, p | o in c && p in c && o != p
      ensures ChainOk(c, o, p)
    {
      assert c[o] == NEW_NODE && c[p] == NEW_NODE;
    }
  }

  lemma InvKept(c: Cluster, step: Step)
    requires Inv(c) && Enabled(c, step)
    ensures Inv(Apply(c, step))
  {
    var d := Apply(c, step);
    forall n | n in d
      ensures NodeOk(d, n)
    {
      NodeKept(c, step, n);
    }
    forall o, p | o in d && p in d && o != p
      ensures ChainOk(d, o, p)
    {
      ChainKept(c, step, o, p);
    }
  }

  lemma {:induction false} RunKeepsInv(steps: seq<Step>, trace: seq<Cluster>, n: nat)
    requires IsRun(steps, trace) && Fresh(trace[0]) && n <= |steps|
    ensures Inv(trace[n]) && trace[n].Keys == trace[0].Keys
  {
    if n == 0 {
      FreshInv(trace[0]);
    } else {
      RunKeepsInv(steps, trace, n - 1);
      assert Next(trace[n - 1], steps[n - 1], trace[n]);
      InvKept(trace[n - 1], steps[n - 1]);
    }
  }

  // ── Safety over whole runs ─────────────────────────────────────────────────

  lemma {:induction false} SerialListed(s: seq<Relayed>, origin: NodeId, j: nat)
    requires j < |s| && s[j].frame.node == origin
    ensures exists k :: 0 <= k < |From(s, origin)| && From(s, origin)[k] == s[j].serial
  {
    var rest := From(s[1..], origin);
    var head := |From(s, origin)| - |rest|;
    if j == 0 {
      assert From(s, origin)[0] == s[0].serial;
    } else {
      SerialListed(s[1..], origin, j - 1);
      var k :| 0 <= k < |rest| && rest[k] == s[j].serial;
      assert From(s, origin)[head + k] == s[j].serial;
    }
  }

  lemma {:induction false} SerialsOrdered(s: seq<Relayed>, origin: NodeId, i: nat, j: nat)
    requires Increasing(From(s, origin)) && i < j < |s|
    requires s[i].frame.node == s[j].frame.node == origin
    ensures s[i].serial < s[j].serial
  {
    var rest := From(s[1..], origin);
    var head := |From(s, origin)| - |rest|;
    if i == 0 {
      SerialListed(s[1..], origin, j - 1);
      var k :| 0 <= k < |rest| && rest[k] == s[j].serial;
      assert From(s, origin)[0] == s[0].serial && From(s, origin)[1 + k] == s[j].serial;
    } else {
      assert forall k :: 0 <= k < |rest| ==> rest[k] == From(s, origin)[head + k];
      SerialsOrdered(s[1..], origin, i - 1, j - 1);
    }
  }

  /** In any run a node is never handed its own event back, and what it is handed was published as it stands. */
  lemma DispatchedWasPublishedElsewhere(steps: seq<Step>, trace: seq<Cluster>, n: nat, p: NodeId, i: nat)
    requires IsRun(steps, trace) && Fresh(trace[0]) && n <= |steps|
    requires p in trace[n] && i < |trace[n][p].dispatched|
    ensures var a := trace[n][p].dispatched[i];
            a.frame.node != p && Genuine(trace[n], a)
  {
    RunKeepsInv(steps, trace, n);
    assert NodeOk(trace[n], p);
  }

  /** With frames lost anywhere, events of one origin arrive in publication order, so each at most once. */
  lemma DispatchedAtMostOnceInOrder(steps: seq<Step>, trace: seq<Cluster>, n: nat, p: NodeId, i: nat, j: nat)
    requires IsRun(steps, trace) && Fresh(trace[0]) && n <= |steps|
    requires p in trace[n] && i < j < |trace[n][p].dispatched|
    ensures var a, b := trace[n][p].dispatched[i], trace[n][p].dispatched[j];
            && a != b
            && (a.frame.node == b.frame.node ==> a.serial < b.serial)
  {
    RunKeepsInv(steps, trace, n);
    var c := trace[n];
    var a, b := c[p].dispatched[i], c[p].dispatched[j];
    assert NodeOk(c, p);
    assert Genuine(c, a) && Genuine(c, b);
    if a.frame.node == b.frame.node {
      var o := a.frame.node;
      assert ChainOk(c, o, p);
      assert Increasing(From(c[p].dispatched, o)) by {
        var h := Handled(c, o, p);
        assert forall k :: 0 <= k < |h| ==> h[k] == Chain(c, o, p)[k];
      }
      SerialsOrdered(c[p].dispatched, o, i, j);
    }
  }

  // ── Termination ────────────────────────────────────────────────────────────

  ghost function RelayLengths(c: Cluster): map<NodeId, nat> {
    map n | n in c :: |c[n].relay|
  }

  ghost function InboxLengths(c: Cluster): map<NodeId, nat> {
    map n | n in c :: |c[n].inbox|
  }

  /** Work left: a queued frame may still become one frame in every inbox. */
  ghost function Work(c: Cluster): nat {
    Sum(RelayLengths(c)) * (|c| + 1) + Sum(InboxLengths(c))
  }

  predicate MovesFrames(step: Step) {
    step.RelayLost? || step.RelaySent? || step.Consume? || step.ConsumeUnreadable?
  }

  lemma RelayTakes(c: Cluster, step: Step)
    requires Enabled(c, step) && (step.RelayLost? || step.RelaySent?)
    ensures Sum(RelayLengths(c)) == Sum(RelayLengths(Apply(c, step))) + 1
  {
    var n := step.at;
    assert RelayLengths(Apply(c, step)) == RelayLengths(c)[n := |c[n].relay| - 1];
    SumUpdate(RelayLengths(c), n, |c[n].relay| - 1);
  }

  lemma InboxesGrow(c: Cluster, step: Step)
    requires Enabled(c, step) && step.RelaySent?
    ensures Sum(InboxLengths(Apply(c, step))) <= Sum(InboxLengths(c)) + |c|
  {
    var listeners := set m | m in c && c[m].listening;
    SumBump(InboxLengths(c), InboxLengths(Apply(c, step)), listeners);
    SubsetSize(listeners, c.Keys);
  }

  lemma InboxTakes(c: Cluster, step: Step)
    requires Enabled(c, step) && (step.Consume? || step.ConsumeUnreadable? || step.Disconnect?)
    ensures Sum(InboxLengths(Apply(c, step))) <= Sum(InboxLengths(c))
    ensures !step.Disconnect? ==> Sum(InboxLengths(Apply(c, step))) < Sum(InboxLengths(c))
  {
    var n := step.at;
    var left := |Apply(c, step)[n].inbox|;
    assert InboxLengths(Apply(c, step)) == InboxLengths(c)[n := left];
    SumUpdate(InboxLengths(c), n, left);
  }

  lemma WorkArithmetic(r: nat, i: nat, r': nat, i': nat, n: nat)
    requires (r == r' + 1 && i' <= i + n) || (r == r' && i' <= i)
    ensures r' * (n + 1) + i' <= r * (n + 1) + i
    ensures r != r' || i != i' ==> r' * (n + 1) + i' < r * (n + 1) + i
  {
    if r == r' + 1 {
      assert r * (n + 1) == r' * (n + 1) + (n + 1);
    }
  }

  lemma WorkMoves(c: Cluster, step: Step)
    requires Enabled(c, step) && !step.Publish?
    ensures var d := Apply(c, step);
            var r, i, r', i' := Sum(RelayLengths(c)), Sum(InboxLengths(c)), Sum(RelayLengths(d)), Sum(InboxLengths(d));
            && ((r == r' + 1 && i' <= i + |c|) || (r == r' && i' <= i))
            && (MovesFrames(step) ==> r != r' || i != i')
  {
    var d := Apply(c, step);
    match step {
      case RelayLost(_) =>
        RelayTakes(c, step);
        assert InboxLengths(d) == InboxLengths(c);
      case RelaySent(_) =>
        RelayTakes(c, step);
        InboxesGrow(c, step);
      case Reconnect(_) =>
        assert InboxLengths(d) == InboxLengths(c) && RelayLengths(d) == RelayLengths(c);
      case Consume(_) =>
        assert RelayLengths(d) == RelayLengths(c);
        InboxTakes(c, step);
      case ConsumeUnreadable(_) =>
        assert RelayLengths(d) == RelayLengths(c);
        InboxTakes(c, step);
      case Disconnect(_) =>
        assert RelayLengths(d) == RelayLengths(c);
        InboxTakes(c, step);
    }
  }

  /** Handing a frame over never makes the hub relay it again: without new events, work only shrinks. */
  lemma WorkShrinks(c: Cluster, step: Step)
    requires Enabled(c, step) && !step.Publish?
    ensures Work(Apply(c, step)) <= Work(c)
    ensures MovesFrames(step) ==> Work(Apply(c, step)) < Work(c)
  {
    var d := Apply(c, step);
    assert |d| == |c| by {
      assert d.Keys == c.Keys && |d| == |d.Keys| && |c| == |c.Keys|;
    }
    WorkMoves(c, step);
    WorkArithmetic(Sum(RelayLengths(c)), Sum(InboxLengths(c)), Sum(RelayLengths(d)), Sum(InboxLengths(d)), |c|);
  }

  /** The number of frame movements among the first `n` steps. */
  function Movements(steps: seq<Step>, n: nat): nat
    requires n <= |steps|
  {
    if n == 0 then 0 else Movements(steps, n - 1) + if MovesFrames(steps[n - 1]) then 1 else 0
  }

  /** The bridge is loop-free: once nobody publishes, only so many frames can still move. */
  lemma {:induction false} BridgeRunsDry(steps: seq<Step>, trace: seq<Cluster>, n: nat)
    requires IsRun(steps, trace) && n <= |steps|
    requires forall i :: 0 <= i < n ==> !steps[i].Publish?
    ensures Movements(steps, n) + Work(trace[n]) <= Work(trace[0])
  {
    if n > 0 {
      BridgeRunsDry(steps, trace, n - 1);
      assert Next(trace[n - 1], steps[n - 1], trace[n]);
      WorkShrinks(trace[n - 1], steps[n - 1]);
    }
  }
}
