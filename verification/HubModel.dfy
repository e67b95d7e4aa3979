/**
 What the WebSocket hub does, said without its reverse indexes: every operation
 is a scan of all connections. The class in Hub.dfy, which keeps the indexes and
 loops, is proved against these functions.
 */
module HubModel {
  import opened Prelude
  import opened Sums

  datatype Config = Config(sendBuffer: nat, maxConnections: nat, maxTopicsPerConnection: nat)

  datatype Connection = Connection(userId: Option<Uuid>, topics: set<string>)

  /** An encoded `event` frame; encoding is taken to be injective. */
  datatype Frame = Event(topic: string, payload: string)

  /**
   The bounded channel made for one connection: frames waiting, frames the
   session has received (in order), and frames discarded when the session
   dropped its receiver.
   */
  datatype Channel = Channel(queue: seq<Frame>, taken: seq<Frame>, lost: seq<Frame>, receiverOpen: bool) {
    /** Every frame ever pushed, in push order. */
    function History(): seq<Frame> {
      taken + queue + lost
    }
  }

  datatype WsError = UnknownConnection | ConnectionLimit(limit: nat) | TopicLimit(limit: nat)

  datatype HubState = HubState(
    connections: map<ConnectionId, Connection>,
    channels: map<ConnectionId, Channel>,
    messagesSent: nat,
    slowClientsDropped: nat)

  /** Which sockets an event is aimed at. */
  datatype Scope = Topic | User(userId: Uuid) | All

  const EMPTY_HUB := HubState(map[], map[], 0, 0)

  function Capacity(cfg: Config): nat {
    Max(cfg.sendBuffer, 1)
  }

  // ── Operations ─────────────────────────────────────────────────────────────

  function Register(cfg: Config, s: HubState, user: Option<Uuid>, id: ConnectionId): Result<HubState, WsError> {
    if cfg.maxConnections > 0 && |s.connections| >= cfg.maxConnections then
      Err(ConnectionLimit(cfg.maxConnections))
    else
      Ok(s.(connections := s.connections[id := Connection(user, {})],
            channels := s.channels[id := Channel([], [], [], true)]))
  }

  function Unregister(s: HubState, gone: set<ConnectionId>): HubState {
    s.(connections := s.connections - gone)
  }

  function Subscribe(cfg: Config, s: HubState, id: ConnectionId, topic: string): Result<HubState, WsError> {
    if id !in s.connections then
      Err(UnknownConnection)
    else
      var held := s.connections[id].topics;
      if cfg.maxTopicsPerConnection > 0 && topic !in held && |held| >= cfg.maxTopicsPerConnection then
        Err(TopicLimit(cfg.maxTopicsPerConnection))
      else
        Ok(s.(connections := s.connections[id := s.connections[id].(topics := held + {topic})]))
  }

  function Unsubscribe(s: HubState, id: ConnectionId, topic: string): HubState {
    if id !in s.connections then s
    else
      var c := s.connections[id];
      s.(connections := s.connections[id := c.(topics := c.topics - {topic})])
  }

  /** Registering is refused at the limit only, and otherwise adds one connection with an empty, open channel. */
  lemma RegisterFields(cfg: Config, s: HubState, user: Option<Uuid>, id: ConnectionId)
    requires id !in s.channels && id !in s.connections
    ensures var full := 0 < cfg.maxConnections <= |s.connections|;
            match Register(cfg, s, user, id)
            case Err(e) => full && e == ConnectionLimit(cfg.maxConnections)
            case Ok(t) =>
              && !full
              && t.connections.Keys == s.connections.Keys + {id} && t.channels.Keys == s.channels.Keys + {id}
              && t.connections[id] == Connection(user, {}) && t.channels[id] == Channel([], [], [], true)
              && (forall other :: other in s.connections ==> t.connections[other] == s.connections[other])
              && (forall other :: other in s.channels ==> t.channels[other] == s.channels[other])
              && t.messagesSent == s.messagesSent && t.slowClientsDropped == s.slowClientsDropped
  {
  }

  /**
   Subscribing is refused for an unknown connection, and for a topic not yet held
   when the limit is reached; otherwise the topic joins those held.
   */
  lemma SubscribeFields(cfg: Config, s: HubState, id: ConnectionId, topic: string)
    ensures match Subscribe(cfg, s, id, topic)
            case Err(UnknownConnection) => id !in s.connections
            case Err(TopicLimit(limit)) =>
              && id in s.connections && topic !in s.connections[id].topics
              && limit == cfg.maxTopicsPerConnection && 0 < limit <= |s.connections[id].topics|
            case Err(ConnectionLimit(_)) => false
            case Ok(t) =>
              && t.connections.Keys == s.connections.Keys && id in s.connections
              && t.connections[id].userId == s.connections[id].userId
              && (forall held :: held in t.connections[id].topics <==>
                    held == topic || held in s.connections[id].topics)
              && (forall other :: other in s.connections && other != id ==>
                    t.connections[other] == s.connections[other])
              && t.channels == s.channels
              && t.messagesSent == s.messagesSent && t.slowClientsDropped == s.slowClientsDropped
  {
  }

  // ── Delivery ───────────────────────────────────────────────────────────────

  /** The sockets a scan of all connections selects. */
  function Audience(s: HubState, scope: Scope, topic: string): set<ConnectionId> {
    match scope
    case Topic => set id | id in s.connections && topic in s.connections[id].topics
    case User(u) => set id | id in s.connections && s.connections[id].userId == Some(u)
    case All => s.connections.Keys
  }

  /** Connected, with a session still listening. */
  predicate Listening(s: HubState, id: ConnectionId) {
    id in s.connections && id in s.channels && s.channels[id].receiverOpen
  }

  function Accepting(cfg: Config, s: HubState, ids: set<ConnectionId>): set<ConnectionId> {
    set id | id in ids && Listening(s, id) && |s.channels[id].queue| < Capacity(cfg)
  }

  function Overflowing(cfg: Config, s: HubState, ids: set<ConnectionId>): set<ConnectionId> {
    set id | id in ids && Listening(s, id) && |s.channels[id].queue| >= Capacity(cfg)
  }

  function Push(ch: Channel, frame: Frame): Channel {
    ch.(queue := ch.queue + [frame])
  }

  function PushAll(chs: map<ConnectionId, Channel>, ids: set<ConnectionId>, frame: Frame): map<ConnectionId, Channel> {
    map id | id in chs :: if id in ids then Push(chs[id], frame) else chs[id]
  }

  /** One frame to each of `ids`: room means one copy, no room means eviction. */
  function Deliver(cfg: Config, s: HubState, ids: set<ConnectionId>, frame: Frame): HubState {
    var accepted := Accepting(cfg, s, ids);
    var slow := Overflowing(cfg, s, ids);
    HubState(
      s.connections - slow,
      PushAll(s.channels, accepted, frame),
      Wrap64(s.messagesSent + |accepted|),
      Wrap64(s.slowClientsDropped + |slow|))
  }

  function Dispatch(cfg: Config, s: HubState, scope: Scope, topic: string, payload: string): HubState {
    Deliver(cfg, s, Audience(s, scope, topic), Event(topic, payload))
  }

  /**
   Where one event lands: the connections it is aimed at and that have room for
   one more frame gain exactly that frame, the full ones are dropped, and
   nothing else about any connection or channel changes.
   */
  lemma DispatchLands(cfg: Config, s: HubState, scope: Scope, topic: string, payload: string, id: ConnectionId)
    requires id in s.channels
    ensures var after := Dispatch(cfg, s, scope, topic, payload);
            var room := if cfg.sendBuffer == 0 then 1 else cfg.sendBuffer;
            var aimed := id in s.connections && s.channels[id].receiverOpen &&
                         (match scope
                          case Topic => topic in s.connections[id].topics
                          case User(u) => s.connections[id].userId == Some(u)
                          case All => true);
            var fits := |s.channels[id].queue| < room;
            && id in after.channels
            && after.channels[id].queue ==
                 s.channels[id].queue + (if aimed && fits then [Event(topic, payload)] else [])
            && after.channels[id].taken == s.channels[id].taken && after.channels[id].lost == s.channels[id].lost
            && after.channels[id].receiverOpen == s.channels[id].receiverOpen
            && (id in after.connections <==> id in s.connections && !(aimed && !fits))
            && (id in after.connections ==> after.connections[id] == s.connections[id])
  {
  }

  /** `delivered` copies of `frame` went to the connections `aimed` at, whose full queues cost them the connection. */
  ghost predicate FannedOut(cfg: Config, before: HubState, after: HubState, aimed: set<ConnectionId>, frame: Frame,
                            delivered: nat)
  {
    var room := if cfg.sendBuffer == 0 then 1 else cfg.sendBuffer;
    var open := set id | id in aimed * before.connections.Keys && id in before.channels &&
                           before.channels[id].receiverOpen;
    && delivered == |set id | id in open && |before.channels[id].queue| < room|
    && after.messagesSent == (before.messagesSent + delivered) % U64_MODULUS
    && after.channels.Keys == before.channels.Keys
    && (forall id :: id in before.channels ==>
          var ch := before.channels[id];
          after.channels[id] == if id in open && |ch.queue| < room then ch.(queue := ch.queue + [frame]) else ch)
    && (forall id :: id in after.connections <==>
          id in before.connections && !(id in open && |before.channels[id].queue| >= room))
    && (forall id :: id in after.connections ==> after.connections[id] == before.connections[id])
  }

  lemma DeliverFansOut(cfg: Config, s: HubState, ids: set<ConnectionId>, frame: Frame)
    ensures FannedOut(cfg, s, Deliver(cfg, s, ids, frame), ids, frame, |Accepting(cfg, s, ids)|)
  {
    var room := if cfg.sendBuffer == 0 then 1 else cfg.sendBuffer;
    var open := set id | id in ids * s.connections.Keys && id in s.channels && s.channels[id].receiverOpen;
    assert Accepting(cfg, s, ids) == set id | id in open && |s.channels[id].queue| < room;
  }

  // ── The session's end of a channel ─────────────────────────────────────────

  function Receive(s: HubState, id: ConnectionId): HubState {
    if id !in s.channels || s.channels[id].queue == [] then s
    else
      var ch := s.channels[id];
      s.(channels := s.channels[id := ch.(queue := ch.queue[1..], taken := ch.taken + [ch.queue[0]])])
  }

  function DropReceiver(s: HubState, id: ConnectionId): HubState {
    if id !in s.channels then s
    else
      var ch := s.channels[id];
      s.(channels := s.channels[id := ch.(queue := [], lost := ch.queue + ch.lost, receiverOpen := false)])
  }

  // ── Runs ───────────────────────────────────────────────────────────────────

  datatype Op =
    | OpRegister(user: Option<Uuid>, id: ConnectionId)
    | OpUnregister(id: ConnectionId)
    | OpSubscribe(id: ConnectionId, topic: string)
    | OpUnsubscribe(id: ConnectionId, topic: string)
    | OpPublish(scope: Scope, topic: string, payload: string)
    | OpSendTo(id: ConnectionId, topic: string, payload: string)
    | OpReceive(id: ConnectionId)
    | OpDropReceiver(id: ConnectionId)

  /** Identifiers are fresh: no channel was ever made for this one. */
  predicate Allowed(s: HubState, op: Op) {
    op.OpRegister? ==> op.id !in s.channels
  }

  function OrElse(r: Result<HubState, WsError>, s: HubState): HubState {
    match r
    case Ok(next) => next
    case Err(_) => s
  }

  function Step(cfg: Config, s: HubState, op: Op): HubState {
    match op
    case OpRegister(user, id) => OrElse(Register(cfg, s, user, id), s)
    case OpUnregister(id) => Unregister(s, {id})
    case OpSubscribe(id, topic) => OrElse(Subscribe(cfg, s, id, topic), s)
    case OpUnsubscribe(id, topic) => Unsubscribe(s, id, topic)
    case OpPublish(scope, topic, payload) => Dispatch(cfg, s, scope, topic, payload)
    case OpSendTo(id, topic, payload) => Deliver(cfg, s, {id}, Event(topic, payload))
    case OpReceive(id) => Receive(s, id)
    case OpDropReceiver(id) => DropReceiver(s, id)
  }

  /** `trace` lists the states of a run that performs `ops` from `trace[0]`. */
  ghost predicate IsRun(cfg: Config, ops: seq<Op>, trace: seq<HubState>) {
    && |trace| == |ops| + 1
    && forall i :: 0 <= i < |ops| ==> Allowed(trace[i], ops[i]) && trace[i + 1] == Step(cfg, trace[i], ops[i])
  }

  // ── Invariant ──────────────────────────────────────────────────────────────

  predicate ChannelOk(cfg: Config, ch: Channel) {
    && |ch.queue| <= Capacity(cfg)
    && (ch.receiverOpen ==> ch.lost == [])
    && (!ch.receiverOpen ==> ch.queue == [])
  }

  ghost predicate WithinLimits(cfg: Config, s: HubState) {
    && (cfg.maxConnections > 0 ==> |s.connections| <= cfg.maxConnections)
    && (cfg.maxTopicsPerConnection > 0 ==>
          forall id :: id in s.connections ==> |s.connections[id].topics| <= cfg.maxTopicsPerConnection)
  }

  ghost function TotalTaken(s: HubState): nat {
    Sum(map id | id in s.channels :: |s.channels[id].taken|)
  }

  ghost function TotalQueued(s: HubState): nat {
    Sum(map id | id in s.channels :: |s.channels[id].queue|)
  }

  ghost function TotalLost(s: HubState): nat {
    Sum(map id | id in s.channels :: |s.channels[id].lost|)
  }

  ghost function Pushed(s: HubState): map<ConnectionId, nat> {
    map id | id in s.channels :: |s.channels[id].History()|
  }

  ghost predicate ChannelsOk(cfg: Config, s: HubState) {
    && s.connections.Keys <= s.channels.Keys
    && (forall id :: id in s.channels ==> ChannelOk(cfg, s.channels[id]))
  }

  ghost predicate SentCounted(s: HubState) {
    s.messagesSent == Wrap64(Sum(Pushed(s)))
  }

  ghost predicate Inv(cfg: Config, s: HubState) {
    && ChannelsOk(cfg, s)
    && WithinLimits(cfg, s)
    && SentCounted(s)
  }

  // ── What every operation does to one channel ───────────────────────────────

  /** The frame an operation offers to connection `id`, if any. */
  function Offered(s: HubState, op: Op, id: ConnectionId): Option<Frame> {
    match op
    case OpPublish(scope, topic, payload) =>
      if id in Audience(s, scope, topic) then Some(Event(topic, payload)) else None
    case OpSendTo(to, topic, payload) => if id == to then Some(Event(topic, payload)) else None
    case _ => None
  }

  lemma ReceiveKeepsHistory(s: HubState, id: ConnectionId)
    requires id in s.channels
    ensures Receive(s, id).channels[id].History() == s.channels[id].History()
  {
    var ch := s.channels[id];
    if ch.queue != [] {
      assert ch.queue == [ch.queue[0]] + ch.queue[1..];
    }
  }

  lemma DropKeepsHistory(s: HubState, id: ConnectionId)
    requires id in s.channels
    ensures DropReceiver(s, id).channels[id].History() == s.channels[id].History()
  {
  }

  lemma DeliverAppends(cfg: Config, s: HubState, ids: set<ConnectionId>, frame: Frame, id: ConnectionId)
    requires ChannelsOk(cfg, s) && id in s.channels
    ensures var ch := Deliver(cfg, s, ids, frame).channels[id];
            && ch.taken == s.channels[id].taken
            && ch.History() == s.channels[id].History() + if id in Accepting(cfg, s, ids) then [frame] else []
  {
    var ch := s.channels[id];
    if id in Accepting(cfg, s, ids) {
      assert ChannelOk(cfg, ch);
      assert Push(ch, frame).History() == ch.History() + [frame];
    }
  }

  /** Frames are only ever appended: a channel's history never loses or reorders one. */
  lemma StepAppends(cfg: Config, s: HubState, op: Op, id: ConnectionId)
    requires ChannelsOk(cfg, s) && Allowed(s, op) && id in s.channels
    ensures id in Step(cfg, s, op).channels
    ensures var before, after := s.channels[id], Step(cfg, s, op).channels[id];
            var offer := Offered(s, op, id);
            && before.taken <= after.taken
            && after.History() == before.History() +
                 if offer.Some? && Listening(s, id) && |before.queue| < Capacity(cfg) then [offer.value] else []
  {
    match op {
      case OpReceive(r) =>
        ReceiveKeepsHistory(s, id);
      case OpDropReceiver(r) =>
        DropKeepsHistory(s, id);
      case OpPublish(scope, topic, payload) =>
        DeliverAppends(cfg, s, Audience(s, scope, topic), Event(topic, payload), id);
      case OpSendTo(to, topic, payload) =>
        DeliverAppends(cfg, s, {to}, Event(topic, payload), id);
      case _ =>
    }
  }

  lemma WrapAdd(a: nat, b: nat)
    ensures Wrap64(Wrap64(a) + b) == Wrap64(a + b)
  {
  }

  lemma DeliverAddsUp(cfg: Config, s: HubState, ids: set<ConnectionId>, frame: Frame)
    requires ChannelsOk(cfg, s)
    ensures Sum(Pushed(Deliver(cfg, s, ids, frame))) == Sum(Pushed(s)) + |Accepting(cfg, s, ids)|
  {
    var before, after := Pushed(s), Pushed(Deliver(cfg, s, ids, frame));
    forall id | id in before
      ensures after[id] == before[id] + if id in Accepting(cfg, s, ids) then 1 else 0
    {
      DeliverAppends(cfg, s, ids, frame, id);
    }
    SumBump(before, after, Accepting(cfg, s, ids));
  }

  lemma DeliverCounts(cfg: Config, s: HubState, ids: set<ConnectionId>, frame: Frame)
    requires ChannelsOk(cfg, s) && SentCounted(s)
    ensures SentCounted(Deliver(cfg, s, ids, frame))
  {
    DeliverAddsUp(cfg, s, ids, frame);
    WrapAdd(Sum(Pushed(s)), |Accepting(cfg, s, ids)|);
  }

  lemma StepCounts(cfg: Config, s: HubState, op: Op)
    requires ChannelsOk(cfg, s) && SentCounted(s) && Allowed(s, op)
    ensures SentCounted(Step(cfg, s, op))
  {
    var t := Step(cfg, s, op);
    match op {
      case OpPublish(scope, topic, payload) =>
        DeliverCounts(cfg, s, Audience(s, scope, topic), Event(topic, payload));
      case OpSendTo(id, topic, payload) =>
        DeliverCounts(cfg, s, {id}, Event(topic, payload));
      case OpRegister(user, id) =>
        if id in t.channels {
          assert Pushed(t) == Pushed(s)[id := 0];
          SumUpdate(Pushed(s), id, 0);
        }
      case OpReceive(id) =>
        if id in s.channels {
          ReceiveKeepsHistory(s, id);
        }
        assert Pushed(t) == Pushed(s);
      case OpDropReceiver(id) =>
        if id in s.channels {
          DropKeepsHistory(s, id);
        }
        assert Pushed(t) == Pushed(s);
      case _ =>
        assert Pushed(t) == Pushed(s);
    }
  }

  lemma StepKeepsChannels(cfg: Config, s: HubState, op: Op)
    requires ChannelsOk(cfg, s) && Allowed(s, op)
    ensures ChannelsOk(cfg, Step(cfg, s, op))
  {
  }

  lemma PushKeepsChannels(cfg: Config, s: HubState, ids: set<ConnectionId>, frame: Frame)
    requires ChannelsOk(cfg, s)
    ensures ChannelsOk(cfg, s.(channels := PushAll(s.channels, Accepting(cfg, s, ids), frame)))
  {
  }

  lemma StepKeepsLimits(cfg: Config, s: HubState, op: Op)
    requires WithinLimits(cfg, s) && Allowed(s, op)
    ensures WithinLimits(cfg, Step(cfg, s, op))
  {
    StepKeepsConnectionLimit(cfg, s, op);
    var t := Step(cfg, s, op);
    if op.OpUnsubscribe? && op.id in s.connections {
      SubsetSize(t.connections[op.id].topics, s.connections[op.id].topics);
    }
  }

  lemma StepKeepsConnectionLimit(cfg: Config, s: HubState, op: Op)
    requires WithinLimits(cfg, s) && Allowed(s, op)
    ensures cfg.maxConnections > 0 ==> |Step(cfg, s, op).connections| <= cfg.maxConnections
  {
    var t := Step(cfg, s, op);
    assert |t.connections| == |t.connections.Keys| && |s.connections| == |s.connections.Keys|;
    match op {
      case OpRegister(user, id) =>
        assert t == s || t.connections.Keys == s.connections.Keys + {id};
      case OpSubscribe(id, topic) =>
        assert t.connections.Keys == s.connections.Keys;
      case OpUnsubscribe(id, topic) =>
        assert t.connections.Keys == s.connections.Keys;
      case _ =>
        SubsetSize(t.connections.Keys, s.connections.Keys);
    }
  }

  lemma EmptyHubInv(cfg: Config)
    ensures Inv(cfg, EMPTY_HUB)
  {
    assert Pushed(EMPTY_HUB) == map[];
  }

  /** The invariant holds after any number of operations on an empty hub. */
  lemma {:induction false} RunKeepsInv(cfg: Config, ops: seq<Op>, trace: seq<HubState>, n: nat)
    requires IsRun(cfg, ops, trace) && trace[0] == EMPTY_HUB && n <= |ops|
    ensures Inv(cfg, trace[n])
  {
    if n == 0 {
      EmptyHubInv(cfg);
    } else {
      RunKeepsInv(cfg, ops, trace, n - 1);
      StepKeepsChannels(cfg, trace[n - 1], ops[n - 1]);
      StepKeepsLimits(cfg, trace[n - 1], ops[n - 1]);
      StepCounts(cfg, trace[n - 1], ops[n - 1]);
    }
  }

  lemma HistoryParts(s: HubState)
    ensures Sum(Pushed(s)) == TotalTaken(s) + TotalQueued(s) + TotalLost(s)
  {
    var taken := map id | id in s.channels :: |s.channels[id].taken|;
    var queued := map id | id in s.channels :: |s.channels[id].queue|;
    var lost := map id | id in s.channels :: |s.channels[id].lost|;
    var both := map id | id in s.channels :: taken[id] + queued[id];
    SumPlus(taken, queued, both);
    SumPlus(both, lost, Pushed(s));
  }

  /** Every frame counted as sent was received, is still queued, or was discarded with its receiver. */
  lemma SentIsAccountedFor(cfg: Config, ops: seq<Op>, trace: seq<HubState>, n: nat)
    requires IsRun(cfg, ops, trace) && trace[0] == EMPTY_HUB && n <= |ops|
    ensures var s := trace[n];
            s.messagesSent == Wrap64(TotalTaken(s) + TotalQueued(s) + TotalLost(s))
  {
    RunKeepsInv(cfg, ops, trace, n);
    HistoryParts(trace[n]);
  }

  /**
   A session receives frames in push order: what it has taken by time `n` is a
   prefix of what was pushed by then, and later pushes only extend that history.
   */
  lemma {:induction false} ReceivedInPushOrder(cfg: Config, ops: seq<Op>, trace: seq<HubState>, m: nat, n: nat,
                                               id: ConnectionId)
    requires IsRun(cfg, ops, trace) && trace[0] == EMPTY_HUB && m <= n <= |ops|
    requires id in trace[m].channels
    ensures id in trace[n].channels
    ensures trace[m].channels[id].History() <= trace[n].channels[id].History()
    ensures trace[m].channels[id].taken <= trace[n].channels[id].taken <= trace[n].channels[id].History()
    decreases n
  {
    if m < n {
      ReceivedInPushOrder(cfg, ops, trace, m, n - 1, id);
      RunKeepsInv(cfg, ops, trace, n - 1);
      StepAppends(cfg, trace[n - 1], ops[n - 1], id);
    }
  }

  /** No queue ever holds more than the configured number of frames, or one frame when none is configured. */
  lemma QueuesFitSendBuffer(cfg: Config, ops: seq<Op>, trace: seq<HubState>, n: nat, id: ConnectionId)
    requires IsRun(cfg, ops, trace) && trace[0] == EMPTY_HUB && n <= |ops|
    requires id in trace[n].channels
    ensures |trace[n].channels[id].queue| <= if cfg.sendBuffer == 0 then 1 else cfg.sendBuffer
  {
    RunKeepsInv(cfg, ops, trace, n);
    assert ChannelOk(cfg, trace[n].channels[id]);
  }

  /** The connections that deliveries removed, in one step and in the first `n`. */
  ghost function EvictedBy(op: Op, before: HubState, after: HubState): nat {
    if op.OpPublish? || op.OpSendTo? then |before.connections.Keys - after.connections.Keys| else 0
  }

  ghost function Evicted(ops: seq<Op>, trace: seq<HubState>, n: nat): nat
    requires n <= |ops| < |trace|
  {
    if n == 0 then 0 else Evicted(ops, trace, n - 1) + EvictedBy(ops[n - 1], trace[n - 1], trace[n])
  }

  /** The connections an operation finds too slow. */
  ghost function TooSlow(cfg: Config, s: HubState, op: Op): set<ConnectionId> {
    match op
    case OpPublish(scope, topic, payload) => Overflowing(cfg, s, Audience(s, scope, topic))
    case OpSendTo(id, _, _) => Overflowing(cfg, s, {id})
    case _ => {}
  }

  lemma StepEvicts(cfg: Config, s: HubState, op: Op)
    ensures EvictedBy(op, s, Step(cfg, s, op)) == |TooSlow(cfg, s, op)|
  {
    if op.OpPublish? || op.OpSendTo? {
      assert s.connections.Keys - Step(cfg, s, op).connections.Keys == TooSlow(cfg, s, op);
    }
  }

  ghost predicate DropsCounted(s: HubState, dropped: nat) {
    s.slowClientsDropped == Wrap64(dropped)
  }

  lemma DeliverCountsSlow(cfg: Config, s: HubState, ids: set<ConnectionId>, frame: Frame, before: nat)
    requires DropsCounted(s, before)
    ensures DropsCounted(Deliver(cfg, s, ids, frame), before + |Overflowing(cfg, s, ids)|)
  {
    WrapAdd(before, |Overflowing(cfg, s, ids)|);
  }

  lemma StepCountsSlow(cfg: Config, s: HubState, op: Op, before: nat)
    requires DropsCounted(s, before)
    ensures DropsCounted(Step(cfg, s, op), before + |TooSlow(cfg, s, op)|)
  {
    match op {
      case OpPublish(scope, topic, payload) =>
        DeliverCountsSlow(cfg, s, Audience(s, scope, topic), Event(topic, payload), before);
      case OpSendTo(id, topic, payload) =>
        DeliverCountsSlow(cfg, s, {id}, Event(topic, payload), before);
      case _ =>
        assert |TooSlow(cfg, s, op)| == 0;
    }
  }

  lemma OneMoreCounted(cfg: Config, s: HubState, op: Op, t: HubState, before: nat)
    requires DropsCounted(s, before) && t == Step(cfg, s, op)
    ensures DropsCounted(t, before + EvictedBy(op, s, t))
  {
    StepEvicts(cfg, s, op);
    StepCountsSlow(cfg, s, op, before);
    assert before + EvictedBy(op, s, t) == before + |TooSlow(cfg, s, op)|;
  }

  /** The slow-client counter counts exactly the connections that a delivery removed. */
  lemma {:induction false} EvictionsCounted(cfg: Config, ops: seq<Op>, trace: seq<HubState>, n: nat)
    requires IsRun(cfg, ops, trace) && trace[0] == EMPTY_HUB && n <= |ops|
    ensures DropsCounted(trace[n], Evicted(ops, trace, n))
  {
    if n > 0 {
      EvictionsCounted(cfg, ops, trace, n - 1);
      OneMoreCounted(cfg, trace[n - 1], ops[n - 1], trace[n], Evicted(ops, trace, n - 1));
    }
  }
}
