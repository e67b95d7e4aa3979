/**
 The session that owns one socket: it relays hub frames, handles client frames,
 checks the heartbeat, and tears the connection down however it ends.
 */
module Session {
  import opened Prelude
  import opened SubscriberIndex
  import HubModel
  import opened Hub
  import opened WsPolicy

  datatype SessionConfig = SessionConfig(heartbeatIntervalSeconds: nat, clientTimeoutSeconds: nat)

  datatype ErrorCode = BAD_REQUEST | FORBIDDEN | LIMIT_EXCEEDED | INTERNAL

  datatype ServerMessage =
    | Subscribed(topic: string)
    | Unsubscribed(topic: string)
    | Pong
    | Error(code: ErrorCode)

  /** What `select!` can yield; the flags say whether the socket accepted what was written. */
  datatype Input =
    | HubFrame(written: bool)
    | HubClosed                       // the hub dropped its sender
    | StreamEnded
    | ProtocolError
    | Text(at: int, message: Option<ClientMessage>, written: bool)
    | Binary(at: int, written: bool)
    | PingFrame(at: int, written: bool)
    | PongFrame(at: int)
    | CloseFrame(at: int)
    | Tick(at: int, written: bool)
    | Elsewhere(act: Foreign)         // what another thread does to the hub in the meantime

  /** Another thread's doing: that of the service, of the bridge's subscriber, or of its publisher. */
  datatype Foreign = Service(event: WsPolicy.Event) | Bridged(frame: ClusterFrame) | RelayTaken

  datatype CloseReason = SocketGone | Evicted | ProtocolViolation | ClosedByClient | HeartbeatTimeout

  datatype Outcome =
    | Vetoed                          // `on_connect` refused
    | WelcomeFailed
    | Closed(reason: CloseReason, after: nat)  // the loop ended on input number `after`
    | StillOpen

  // ── The heartbeat, independently of the loop ───────────────────────────────

  predicate FromClient(i: Input) {
    i.Text? || i.Binary? || i.PingFrame? || i.PongFrame? || i.CloseFrame?
  }

  /** When the client was last heard of before input `k`. */
  function LastSeen(inputs: seq<Input>, start: int, k: nat): int
    requires k <= |inputs|
  {
    if k == 0 then start
    else if FromClient(inputs[k - 1]) then inputs[k - 1].at
    else LastSeen(inputs, start, k - 1)
  }

  function Timeout(cfg: SessionConfig): int {
    Max(cfg.clientTimeoutSeconds, 1)
  }

  predicate IdleTick(cfg: SessionConfig, inputs: seq<Input>, start: int, k: nat)
    requires k < |inputs|
  {
    inputs[k].Tick? && inputs[k].at - LastSeen(inputs, start, k) > Timeout(cfg)
  }

  /** Whether the loop ends on input `k`, and why. */
  function EndsOn(cfg: SessionConfig, inputs: seq<Input>, start: int, k: nat): Option<CloseReason>
    requires k < |inputs|
  {
    match inputs[k]
    case HubClosed => Some(Evicted)
    case StreamEnded => Some(SocketGone)
    case ProtocolError => Some(ProtocolViolation)
    case CloseFrame(_) => Some(ClosedByClient)
    case PongFrame(_) => None
    case Elsewhere(_) => None
    case Tick(_, written) =>
      if IdleTick(cfg, inputs, start, k) then Some(HeartbeatTimeout) else if written then None else Some(SocketGone)
    case _ => if inputs[k].written then None else Some(SocketGone)
  }

  /** Nothing of `id` is left anywhere in the hub. */
  ghost predicate Forgotten(hub: WsHub, id: ConnectionId)
    reads hub
  {
    && id !in hub.connections
    && (forall t :: id !in Members(hub.topics, t))
    && (forall u :: id !in Members(hub.users, u))
  }

  // ── Client frames ──────────────────────────────────────────────────────────

  /** Whether `ctx` is what the connection was registered with. */
  ghost predicate ContextFits(hub: WsHub, ctx: Context)
    reads hub
  {
    FitsState(hub.State(), ctx)
  }

  /** The policy refuses what the frame asks for. */
  ghost predicate Forbidden(policy: Policy, ctx: Context, message: ClientMessage) {
    match message
    case Subscribe(topic) => policy.authorizeSubscribe(ctx, topic).Err?
    case Publish(topic, payload) => policy.authorizePublish(ctx, topic, payload).Err?
    case _ => false
  }

  /** Returns the reply; a frame the policy lets publish has none. */
  method HandleText(hub: WsHub, policy: Policy, ctx: Context, message: Option<ClientMessage>)
    returns (reply: Option<ServerMessage>)
    requires hub.Valid()
    modifies hub
    ensures hub.Valid()
    ensures hub.State() == OnText(hub.config, policy, old(hub.State()), ctx, message)
    ensures reply.None? <==>
              message.Some? && message.value.Publish? &&
              policy.authorizePublish(ctx, message.value.topic, message.value.payload).Ok?
    ensures reply.Some? ==> hub.relay == old(hub.relay) && hub.channels == old(hub.channels)
    ensures forall t :: reply == Some(Subscribed(t)) ==>
              && message == Some(Subscribe(t)) && policy.authorizeSubscribe(ctx, t).Ok?
              && ctx.connectionId in hub.connections && t in hub.connections[ctx.connectionId].topics
    ensures forall t :: reply == Some(Unsubscribed(t)) ==>
              && message == Some(Unsubscribe(t))
              && (ctx.connectionId in hub.connections ==> t !in hub.connections[ctx.connectionId].topics)
    ensures reply == Some(Pong) <==> message == Some(Ping)
    ensures reply == Some(Error(BAD_REQUEST)) <==> message.None?
    ensures reply == Some(Error(FORBIDDEN)) <==> message.Some? && Forbidden(policy, ctx, message.value)
    ensures reply == Some(Error(LIMIT_EXCEEDED)) <==>
              && message.Some? && message.value.Subscribe? && !Forbidden(policy, ctx, message.value)
              && var r := HubModel.Subscribe(hub.config, old(hub.State()), ctx.connectionId, message.value.topic);
                 r.Err? && r.error.TopicLimit?
    ensures reply == Some(Error(INTERNAL)) <==>
              && message.Some? && message.value.Subscribe? && !Forbidden(policy, ctx, message.value)
              && ctx.connectionId !in old(hub.connections)
    ensures reply.Some? && reply.value.Error? ==> hub.State() == old(hub.State())
  {
    if message.None? {
      return Some(Error(BAD_REQUEST));
    }
    match message.value {
      case Subscribe(topic) =>
        match policy.authorizeSubscribe(ctx, topic) {
          case Err(_) => reply := Some(Error(FORBIDDEN));
          case Ok(_) =>
            var r := hub.Subscribe(ctx.connectionId, topic);
            match r {
              case Ok(_) => reply := Some(Subscribed(topic));
              case Err(TopicLimit(_)) => reply := Some(Error(LIMIT_EXCEEDED));
              case Err(_) => reply := Some(Error(INTERNAL));
            }
        }
      case Unsubscribe(topic) =>
        hub.Unsubscribe(ctx.connectionId, topic);
        reply := Some(Unsubscribed(topic));
      case Publish(topic, payload) =>
        match policy.authorizePublish(ctx, topic, payload) {
          case Err(_) => reply := Some(Error(FORBIDDEN));
          case Ok(_) =>
            var delivered := hub.Publish(topic, payload);
            reply := None;
        }
      case Ping =>
        reply := Some(Pong);
    }
  }

  /** `on_connect` of the application's policy. */
  method ApplyOnConnect(hub: WsHub, text: UuidText, ctx: Context)
    requires hub.Valid()
    modifies hub
    ensures hub.Valid() && hub.State() == OnConnect(hub.config, text, old(hub.State()), ctx)
    ensures hub.relay == old(hub.relay)
  {
    if ctx.userId.Some? {
      var r := hub.Subscribe(ctx.connectionId, UserTopic(text, ctx.userId.value));
    }
  }

  /** Between `s` and `t` nothing happened to any other connection, and no frame of this one was lost or reordered. */
  ghost predicate OnlyConcerns(id: ConnectionId, s: HubModel.HubState, t: HubModel.HubState) {
    && t.connections - {id} == s.connections - {id}
    && t.channels - {id} == s.channels - {id}
    && t.messagesSent == s.messagesSent && t.slowClientsDropped == s.slowClientsDropped
    && (id in t.channels <==> id in s.channels)
    && (id in s.channels && id in t.channels ==>
          && t.channels[id].History() == s.channels[id].History()
          && s.channels[id].taken <= t.channels[id].taken)
  }

  lemma ConnectOnlyConcerns(cfg: HubModel.Config, text: UuidText, s: HubModel.HubState, ctx: Context)
    ensures OnlyConcerns(ctx.connectionId, s, OnConnect(cfg, text, s, ctx))
  {
  }

  lemma TextOnlyConcerns(cfg: HubModel.Config, text: UuidText, s: HubModel.HubState, ctx: Context,
                         message: Option<ClientMessage>)
    ensures OnlyConcerns(ctx.connectionId, s, OnText(cfg, AppPolicy(text), s, ctx, message))
  {
    var t := OnText(cfg, AppPolicy(text), s, ctx, message);
    ClientsCannotPublish(cfg, text, s, ctx, message, ctx.connectionId);
    forall other | other in s.connections && other != ctx.connectionId
      ensures t.connections[other] == s.connections[other]
    {
      ClientsCannotPublish(cfg, text, s, ctx, message, other);
    }
  }

  lemma ReceiveOnlyConcerns(s: HubModel.HubState, id: ConnectionId)
    ensures OnlyConcerns(id, s, HubModel.Receive(s, id))
  {
    if id in s.channels {
      HubModel.ReceiveKeepsHistory(s, id);
    }
  }

  lemma TeardownOnlyConcerns(s: HubModel.HubState, id: ConnectionId)
    ensures OnlyConcerns(id, s, HubModel.DropReceiver(HubModel.Unregister(s, {id}), id))
  {
    if id in s.channels {
      HubModel.DropKeepsHistory(HubModel.Unregister(s, {id}), id);
    }
  }

  // ── What other threads do ──────────────────────────────────────────────────

  /**
   Anything that can happen to a hub in service, but for what this session's own
   task does: other sessions connect, act and end, and anyone publishes, sends,
   unsubscribes or evicts, this connection included.
   */
  predicate FromElsewhere(id: ConnectionId, e: WsPolicy.Event) {
    match e
    case Connect(other) => other.connectionId != id
    case ClientText(other, _) => other.connectionId != id
    case Server(op) => op != HubModel.OpReceive(id) && op != HubModel.OpDropReceiver(id)
  }

  method ActElsewhere(hub: WsHub, text: UuidText, id: ConnectionId, act: Foreign)
    requires hub.Valid()
    modifies hub
    ensures hub.Valid()
    ensures hub.State() == HubAfterForeign(hub.config, text, id, old(hub.State()), act)
    ensures hub.relay == RelayAfterForeign(hub.nodeId, hub.clustered, old(hub.relay), act)
  {
    match act {
      case Service(e) => ServiceActs(hub, text, id, e);
      case Bridged(frame) => var n := hub.DispatchClusterFrame(frame);
      case RelayTaken => var frame := hub.TakeRelayed();
    }
  }

  method ServiceActs(hub: WsHub, text: UuidText, id: ConnectionId, e: WsPolicy.Event)
    requires hub.Valid()
    modifies hub
    ensures hub.Valid()
    ensures hub.State() == HubAfterForeign(hub.config, text, id, old(hub.State()), Service(e))
    ensures hub.relay == RelayAfterForeign(hub.nodeId, hub.clustered, old(hub.relay), Service(e))
  {
    if !FromElsewhere(id, e) {
      return;
    }
    match e {
      case Connect(other) =>
        if other.connectionId !in hub.channels && other.connectionId !in hub.connections {
          var r := hub.Register(other.userId, other.connectionId);
          if r.Ok? {
            ApplyOnConnect(hub, text, other);
          }
        }
      case ClientText(other, message) =>
        if other.connectionId !in hub.connections || hub.connections[other.connectionId].userId == other.userId {
          var reply := HandleText(hub, AppPolicy(text), other, message);
        }
      case Server(op) => ServerActs(hub, op);
    }
  }

  method ServerActs(hub: WsHub, op: HubModel.Op)
    requires hub.Valid()
    modifies hub
    ensures hub.Valid()
    ensures hub.State() == if !op.OpRegister? && !op.OpSubscribe? then HubModel.Step(hub.config, old(hub.State()), op)
                           else old(hub.State())
    ensures hub.relay == RelayAfterForeign(hub.nodeId, hub.clustered, old(hub.relay), Service(Server(op)))
  {
    match op {
      case OpUnregister(id) => hub.Unregister(id);
      case OpUnsubscribe(id, topic) => hub.Unsubscribe(id, topic);
      case OpPublish(scope, topic, payload) =>
        match scope {
          case Topic => var n := hub.Publish(topic, payload);
          case User(user) => var n := hub.PublishToUser(user, topic, payload);
          case All => var n := hub.Broadcast(topic, payload);
        }
      case OpSendTo(id, topic, payload) => var sent := hub.SendTo(id, topic, payload);
      case OpReceive(id) => var frame := hub.ReceiveFrame(id);
      case OpDropReceiver(id) => hub.CloseReceiver(id);
      case _ =>
    }
  }

  // ── What the hub and its relay queue become ───────────────────────────────────────────────────

  /** The effect of another thread's doing on the hub. */
  function HubAfterForeign(cfg: HubModel.Config, text: UuidText, id: ConnectionId, s: HubModel.HubState,
                           act: Foreign): HubModel.HubState
  {
    match act
    case Service(e) => if FromElsewhere(id, e) && Possible(s, e) then Happen(cfg, text, s, e) else s
    case Bridged(f) => HubModel.Dispatch(cfg, s, f.scope, f.topic, f.payload)
    case RelayTaken => s
  }

  /** On the relay queue: the service's publishes join it, the bridge's publisher drains it, and that is all. */
  function RelayAfterForeign(nodeId: Uuid, clustered: bool, relay: seq<ClusterFrame>, act: Foreign): seq<ClusterFrame> {
    match act
    case Service(Server(OpPublish(scope, topic, payload))) =>
      Forwarded(relay, ClusterFrame(nodeId, scope, topic, payload), clustered)
    case RelayTaken => if relay == [] then [] else relay[1..]
    case _ => relay
  }

  /** The relay queue when the first `k` inputs have been taken. */
  function RelayAt(nodeId: Uuid, clustered: bool, relay: seq<ClusterFrame>, inputs: seq<Input>,
                   k: nat): seq<ClusterFrame>
    requires k <= |inputs|
  {
    if k == 0 then relay
    else
      var so := RelayAt(nodeId, clustered, relay, inputs, k - 1);
      if inputs[k - 1].Elsewhere? then RelayAfterForeign(nodeId, clustered, so, inputs[k - 1].act) else so
  }

  lemma {:induction false} UndisturbedRelay(nodeId: Uuid, clustered: bool, relay: seq<ClusterFrame>,
                                            inputs: seq<Input>, k: nat)
    requires k <= |inputs| && Undisturbed(inputs)
    ensures RelayAt(nodeId, clustered, relay, inputs, k) == relay
  {
    if k > 0 {
      UndisturbedRelay(nodeId, clustered, relay, inputs, k - 1);
    }
  }

  /** The effect of one input on the hub. */
  function HubAfter(cfg: HubModel.Config, text: UuidText, ctx: Context, s: HubModel.HubState,
                    input: Input): HubModel.HubState
  {
    match input
    case HubFrame(_) => HubModel.Receive(s, ctx.connectionId)
    case Text(_, message, _) => OnText(cfg, AppPolicy(text), s, ctx, message)
    case Elsewhere(act) => HubAfterForeign(cfg, text, ctx.connectionId, s, act)
    case _ => s
  }

  /** The hub when the first `k` inputs have been taken. */
  function HubAt(cfg: HubModel.Config, text: UuidText, ctx: Context, s: HubModel.HubState,
                 inputs: seq<Input>, k: nat): HubModel.HubState
    requires k <= |inputs|
  {
    if k == 0 then s else HubAfter(cfg, text, ctx, HubAt(cfg, text, ctx, s, inputs, k - 1), inputs[k - 1])
  }

  function TornDown(s: HubModel.HubState, id: ConnectionId): HubModel.HubState {
    HubModel.DropReceiver(HubModel.Unregister(s, {id}), id)
  }

  ghost predicate FitsState(s: HubModel.HubState, ctx: Context) {
    ctx.connectionId in s.connections ==> s.connections[ctx.connectionId].userId == ctx.userId
  }

  /** Frames of `id` are neither lost nor reordered; more may arrive. */
  ghost predicate KeepsFrames(id: ConnectionId, s: HubModel.HubState, t: HubModel.HubState) {
    id in s.channels ==>
      && id in t.channels
      && s.channels[id].History() <= t.channels[id].History()
      && s.channels[id].taken <= t.channels[id].taken
  }

  lemma ServiceKeeps(cfg: HubModel.Config, text: UuidText, id: ConnectionId, s: HubModel.HubState, e: WsPolicy.Event)
    requires HubModel.ChannelsOk(cfg, s) && FromElsewhere(id, e) && Possible(s, e)
    ensures var t := Happen(cfg, text, s, e);
            && (id in t.connections ==> id in s.connections && t.connections[id].userId == s.connections[id].userId)
            && KeepsFrames(id, s, t)
  {
    match e {
      case Connect(other) =>
      case ClientText(other, message) =>
        ClientsCannotPublish(cfg, text, s, other, message, id);
      case Server(op) =>
        if id in s.channels {
          HubModel.StepAppends(cfg, s, op, id);
        }
    }
  }

  function BridgedOp(frame: ClusterFrame): HubModel.Op {
    HubModel.OpPublish(frame.scope, frame.topic, frame.payload)
  }

  lemma ForeignKeeps(cfg: HubModel.Config, text: UuidText, id: ConnectionId, s: HubModel.HubState, act: Foreign)
    requires HubModel.ChannelsOk(cfg, s)
    ensures var t := HubAfterForeign(cfg, text, id, s, act);
            && (id in t.connections ==> id in s.connections && t.connections[id].userId == s.connections[id].userId)
            && KeepsFrames(id, s, t)
            && (text.RoundTrips() && OnlyAllowedTopics(text, s) ==> OnlyAllowedTopics(text, t))
  {
    match act {
      case Service(e) =>
        if FromElsewhere(id, e) && Possible(s, e) {
          ServiceKeeps(cfg, text, id, s, e);
          if text.RoundTrips() && OnlyAllowedTopics(text, s) {
            EventKeepsPolicy(cfg, text, s, e);
          }
        }
      case Bridged(frame) =>
        ServiceKeeps(cfg, text, id, s, Server(BridgedOp(frame)));
        if text.RoundTrips() && OnlyAllowedTopics(text, s) {
          EventKeepsPolicy(cfg, text, s, Server(BridgedOp(frame)));
        }
      case RelayTaken =>
    }
  }

  lemma InputKeepsChannels(cfg: HubModel.Config, text: UuidText, ctx: Context, s: HubModel.HubState, input: Input)
    requires HubModel.ChannelsOk(cfg, s)
    ensures HubModel.ChannelsOk(cfg, HubAfter(cfg, text, ctx, s, input))
  {
    match input {
      case HubFrame(_) => HubModel.StepKeepsChannels(cfg, s, HubModel.OpReceive(ctx.connectionId));
      case Text(_, message, _) => ClientsCannotPublish(cfg, text, s, ctx, message, ctx.connectionId);
      case Elsewhere(Bridged(frame)) => HubModel.StepKeepsChannels(cfg, s, BridgedOp(frame));
      case Elsewhere(Service(e)) =>
        if FromElsewhere(ctx.connectionId, e) && Possible(s, e) {
          match e {
            case Connect(other) =>
              HubModel.StepKeepsChannels(cfg, s, HubModel.OpRegister(other.userId, other.connectionId));
            case ClientText(other, message) => ClientsCannotPublish(cfg, text, s, other, message, ctx.connectionId);
            case Server(op) => HubModel.StepKeepsChannels(cfg, s, op);
          }
        }
      case _ =>
    }
  }

  /** What every input keeps. */
  lemma InputKeeps(cfg: HubModel.Config, text: UuidText, ctx: Context, s: HubModel.HubState, input: Input)
    requires HubModel.ChannelsOk(cfg, s) && FitsState(s, ctx)
    ensures var t := HubAfter(cfg, text, ctx, s, input);
            && FitsState(t, ctx) && KeepsFrames(ctx.connectionId, s, t)
            && (text.RoundTrips() && OnlyAllowedTopics(text, s) ==> OnlyAllowedTopics(text, t))
            && (!input.Elsewhere? ==> OnlyConcerns(ctx.connectionId, s, t))
  {
    match input {
      case HubFrame(_) => ReceiveOnlyConcerns(s, ctx.connectionId);
      case Text(_, message, _) =>
        TextKeepsPolicy(cfg, text, s, ctx, message);
        TextOnlyConcerns(cfg, text, s, ctx, message);
      case Elsewhere(act) => ForeignKeeps(cfg, text, ctx.connectionId, s, act);
      case _ =>
    }
  }

  ghost predicate Undisturbed(inputs: seq<Input>) {
    forall i :: 0 <= i < |inputs| ==> !inputs[i].Elsewhere?
  }

  lemma {:induction false} InputsKeep(cfg: HubModel.Config, text: UuidText, ctx: Context, s: HubModel.HubState,
                                      inputs: seq<Input>, k: nat)
    requires HubModel.ChannelsOk(cfg, s) && FitsState(s, ctx) && k <= |inputs|
    ensures var t := HubAt(cfg, text, ctx, s, inputs, k);
            && HubModel.ChannelsOk(cfg, t) && FitsState(t, ctx) && KeepsFrames(ctx.connectionId, s, t)
            && (text.RoundTrips() && OnlyAllowedTopics(text, s) ==> OnlyAllowedTopics(text, t))
            && (Undisturbed(inputs) ==> OnlyConcerns(ctx.connectionId, s, t))
  {
    if k > 0 {
      InputsKeep(cfg, text, ctx, s, inputs, k - 1);
      var u := HubAt(cfg, text, ctx, s, inputs, k - 1);
      InputKeepsChannels(cfg, text, ctx, u, inputs[k - 1]);
      InputKeeps(cfg, text, ctx, u, inputs[k - 1]);
    }
  }

  /** `recv` yields a frame when one is queued, and its end when the hub has dropped the sender and none is. */
  ghost predicate GenuineRecv(cfg: HubModel.Config, text: UuidText, ctx: Context, s: HubModel.HubState,
                              inputs: seq<Input>)
  {
    var id := ctx.connectionId;
    forall k :: 0 <= k < |inputs| ==>
      var t := HubAt(cfg, text, ctx, s, inputs, k);
      && (inputs[k].HubFrame? ==> id in t.channels && t.channels[id].queue != [])
      && (inputs[k].HubClosed? ==> id !in t.connections && (id in t.channels ==> t.channels[id].queue == []))
  }

  /** A connection that is gone was removed by another thread, in one of the steps before. */
  lemma {:induction false} GoneWasRemoved(cfg: HubModel.Config, text: UuidText, ctx: Context, s: HubModel.HubState,
                                            inputs: seq<Input>, k: nat) returns (i: nat)
    requires ctx.connectionId in s.connections && k <= |inputs|
    requires ctx.connectionId !in HubAt(cfg, text, ctx, s, inputs, k).connections
    ensures i < k && inputs[i].Elsewhere?
    ensures ctx.connectionId in HubAt(cfg, text, ctx, s, inputs, i).connections
    ensures ctx.connectionId !in HubAt(cfg, text, ctx, s, inputs, i + 1).connections
  {
    var t := HubAt(cfg, text, ctx, s, inputs, k - 1);
    if ctx.connectionId in t.connections {
      i := k - 1;
      if inputs[i].Text? {
        ClientsCannotPublish(cfg, text, t, ctx, inputs[i].message, ctx.connectionId);
      }
    } else {
      i := GoneWasRemoved(cfg, text, ctx, s, inputs, k - 1);
    }
  }

  /** So a session the hub closes has been evicted or disconnected by another thread while it was running. */
  lemma EvictedWasRemoved(cfg: HubModel.Config, text: UuidText, ctx: Context, s: HubModel.HubState,
                          inputs: seq<Input>, k: nat) returns (i: nat)
    requires ctx.connectionId in s.connections && GenuineRecv(cfg, text, ctx, s, inputs)
    requires k < |inputs| && inputs[k].HubClosed?
    ensures i < k && inputs[i].Elsewhere?
    ensures ctx.connectionId in HubAt(cfg, text, ctx, s, inputs, i).connections
    ensures ctx.connectionId !in HubAt(cfg, text, ctx, s, inputs, i + 1).connections
  {
    i := GoneWasRemoved(cfg, text, ctx, s, inputs, k);
  }

  // ── The session ────────────────────────────────────────────────────────────

  /** The state of the hub when the session is over, or when it has taken all inputs. */
  ghost function Final(cfg: HubModel.Config, text: UuidText, ctx: Context, s: HubModel.HubState,
                       inputs: seq<Input>, outcome: Outcome): HubModel.HubState
    requires outcome.Closed? ==> outcome.after < |inputs|
  {
    var connected := OnConnect(cfg, text, s, ctx);
    match outcome
    case Vetoed => TornDown(s, ctx.connectionId)
    case WelcomeFailed => TornDown(connected, ctx.connectionId)
    case Closed(_, after) => TornDown(HubAt(cfg, text, ctx, connected, inputs, after + 1), ctx.connectionId)
    case StillOpen => HubAt(cfg, text, ctx, connected, inputs, |inputs|)
  }

  /** How many inputs were taken. */
  function Taken(inputs: seq<Input>, outcome: Outcome): nat
    requires outcome.Closed? ==> outcome.after < |inputs|
    ensures Taken(inputs, outcome) <= |inputs|
  {
    match outcome
    case Closed(_, after) => after + 1
    case StillOpen => |inputs|
    case _ => 0
  }

  /**
   Runs over `inputs` until one of them ends the session. `veto` is the verdict of
   `on_connect`, `welcomed` whether the welcome frame could be written, and
   `disconnects` counts the calls of `on_disconnect`.
   */
  method Run(hub: WsHub, text: UuidText, ctx: Context, cfg: SessionConfig, start: int,
             veto: bool, welcomed: bool, inputs: seq<Input>) returns (outcome: Outcome, disconnects: nat)
    requires hub.Valid() && ContextFits(hub, ctx)
    modifies hub
    ensures hub.Valid()
    ensures !outcome.StillOpen? ==> Forgotten(hub, ctx.connectionId)
    ensures !outcome.StillOpen? && ctx.connectionId in hub.channels ==> !hub.channels[ctx.connectionId].receiverOpen
    ensures disconnects == if outcome.Closed? then 1 else 0
    ensures outcome.Vetoed? <==> veto
    ensures outcome.WelcomeFailed? <==> !veto && !welcomed
    ensures outcome.StillOpen? ==> forall k :: 0 <= k < |inputs| ==> EndsOn(cfg, inputs, start, k).None?
    ensures outcome.Closed? ==>
              && outcome.after < |inputs|
              && EndsOn(cfg, inputs, start, outcome.after) == Some(outcome.reason)
              && forall k :: 0 <= k < outcome.after ==> EndsOn(cfg, inputs, start, k).None?
    ensures Chronological(inputs, start) ==> ReapedWhenSilent(cfg, inputs, start, outcome)
    ensures hub.State() == Final(hub.config, text, ctx, old(hub.State()), inputs, outcome)
    ensures hub.relay == RelayAt(hub.nodeId, hub.clustered, old(hub.relay), inputs, Taken(inputs, outcome))
    ensures text.RoundTrips() && old(OnlyAllowedTopics(text, hub.State())) ==> OnlyAllowedTopics(text, hub.State())
    ensures KeepsFrames(ctx.connectionId, old(hub.State()), hub.State())
    ensures Undisturbed(inputs) ==>
              hub.relay == old(hub.relay) && OnlyConcerns(ctx.connectionId, old(hub.State()), hub.State())
  {
    disconnects := 0;
    if veto {
      TearDown(hub, ctx.connectionId);
      return Vetoed, disconnects;
    }
    ConnectKeepsPolicy(hub.config, text, hub.State(), ctx);
    ConnectOnlyConcerns(hub.config, text, hub.State(), ctx);
    ApplyOnConnect(hub, text, ctx);
    if !welcomed {
      TearDown(hub, ctx.connectionId);
      return WelcomeFailed, disconnects;
    }
    outcome := Serve(hub, text, ctx, cfg, start, inputs);
    if Chronological(inputs, start) {
      OutcomeReapsWhenSilent(cfg, inputs, start, outcome);
    }
    if outcome.Closed? {
      disconnects := disconnects + 1;
    }
  }

  /** The select loop and the teardown after it. */
  method Serve(hub: WsHub, text: UuidText, ctx: Context, cfg: SessionConfig, start: int, inputs: seq<Input>)
    returns (outcome: Outcome)
    requires hub.Valid() && ContextFits(hub, ctx)
    modifies hub
    ensures hub.Valid() && (outcome.Closed? || outcome.StillOpen?)
    ensures outcome.Closed? ==> Forgotten(hub, ctx.connectionId)
    ensures outcome.Closed? && ctx.connectionId in hub.channels ==> !hub.channels[ctx.connectionId].receiverOpen
    ensures outcome.StillOpen? ==> forall k :: 0 <= k < |inputs| ==> EndsOn(cfg, inputs, start, k).None?
    ensures outcome.Closed? ==>
              && outcome.after < |inputs|
              && EndsOn(cfg, inputs, start, outcome.after) == Some(outcome.reason)
              && forall k :: 0 <= k < outcome.after ==> EndsOn(cfg, inputs, start, k).None?
    ensures var t := HubAt(hub.config, text, ctx, old(hub.State()), inputs, Taken(inputs, outcome));
            hub.State() == if outcome.Closed? then TornDown(t, ctx.connectionId) else t
    ensures hub.relay == RelayAt(hub.nodeId, hub.clustered, old(hub.relay), inputs, Taken(inputs, outcome))
    ensures text.RoundTrips() && old(OnlyAllowedTopics(text, hub.State())) ==> OnlyAllowedTopics(text, hub.State())
    ensures KeepsFrames(ctx.connectionId, old(hub.State()), hub.State())
    ensures Undisturbed(inputs) ==>
              hub.relay == old(hub.relay) && OnlyConcerns(ctx.connectionId, old(hub.State()), hub.State())
  {
    var reason, k := Loop(hub, text, ctx, cfg, start, inputs);
    if reason.None? {
      return StillOpen;
    }
    TearDown(hub, ctx.connectionId);
    outcome := Closed(reason.value, k - 1);
  }

  /** Every way out: the hub forgets the connection, and the session drops its end of the channel. */
  method TearDown(hub: WsHub, id: ConnectionId)
    requires hub.Valid()
    modifies hub
    ensures hub.Valid() && hub.relay == old(hub.relay)
    ensures hub.State() == TornDown(old(hub.State()), id)
    ensures Forgotten(hub, id) && (id in hub.channels ==> !hub.channels[id].receiverOpen)
    ensures OnlyConcerns(id, old(hub.State()), hub.State())
    ensures hub.connections == old(hub.connections) - {id}
  {
    TeardownOnlyConcerns(hub.State(), id);
    hub.Unregister(id);
    hub.CloseReceiver(id);
    UnlistedIsForgotten(hub, id);
  }

  lemma UnlistedIsForgotten(hub: WsHub, id: ConnectionId)
    requires hub.Valid() && id !in hub.connections
    ensures Forgotten(hub, id)
  {
  }

  /** What an input does to the hub. */
  method Take(hub: WsHub, text: UuidText, ctx: Context, input: Input)
    requires hub.Valid()
    modifies hub
    ensures hub.Valid() && hub.State() == HubAfter(hub.config, text, ctx, old(hub.State()), input)
    ensures hub.relay == if input.Elsewhere?
                         then RelayAfterForeign(hub.nodeId, hub.clustered, old(hub.relay), input.act)
                         else old(hub.relay)
  {
    match input {
      case HubFrame(_) => var frame := hub.ReceiveFrame(ctx.connectionId);
      case Text(_, message, _) => var reply := HandleText(hub, AppPolicy(text), ctx, message);
      case Elsewhere(act) => ActElsewhere(hub, text, ctx.connectionId, act);
      case _ =>
    }
  }

  /** Takes `k` inputs; `reason` says why the last of them ended the loop. */
  method Loop(hub: WsHub, text: UuidText, ctx: Context, cfg: SessionConfig, start: int, inputs: seq<Input>)
    returns (reason: Option<CloseReason>, k: nat)
    requires hub.Valid() && ContextFits(hub, ctx)
    modifies hub
    ensures hub.Valid()
    ensures LoopStopped(cfg, inputs, start, k, reason) && (reason.None? ==> k == |inputs|)
    ensures hub.State() == HubAt(hub.config, text, ctx, old(hub.State()), inputs, k)
    ensures hub.relay == RelayAt(hub.nodeId, hub.clustered, old(hub.relay), inputs, k)
    ensures text.RoundTrips() && old(OnlyAllowedTopics(text, hub.State())) ==> OnlyAllowedTopics(text, hub.State())
    ensures KeepsFrames(ctx.connectionId, old(hub.State()), hub.State())
    ensures Undisturbed(inputs) ==>
              hub.relay == old(hub.relay) && OnlyConcerns(ctx.connectionId, old(hub.State()), hub.State())
  {
    var lastSeen := start;
    reason, k := None, 0;
    while k < |inputs| && reason.None?
      invariant hub.Valid()
      invariant LoopStopped(cfg, inputs, start, k, reason)
      invariant reason.None? ==> lastSeen == LastSeen(inputs, start, k)
      invariant hub.State() == HubAt(hub.config, text, ctx, old(hub.State()), inputs, k)
      invariant hub.relay == RelayAt(hub.nodeId, hub.clustered, old(hub.relay), inputs, k)
      decreases |inputs| - k
    {
      var input := inputs[k];
      if FromClient(input) {
        lastSeen := input.at;
      }
      Take(hub, text, ctx, input);
      match input {
        case HubClosed => reason := Some(Evicted);
        case StreamEnded => reason := Some(SocketGone);
        case ProtocolError => reason := Some(ProtocolViolation);
        case CloseFrame(_) => reason := Some(ClosedByClient);
        case PongFrame(_) =>
        case Elsewhere(_) =>
        case Tick(at, written) =>
          if at - lastSeen > Timeout(cfg) {
            reason := Some(HeartbeatTimeout);
          } else if !written {
            reason := Some(SocketGone);
          }
        case _ =>
          if !input.written {
            reason := Some(SocketGone);
          }
      }
      k := k + 1;
    }
    InputsKeep(hub.config, text, ctx, old(hub.State()), inputs, k);
    if Undisturbed(inputs) {
      UndisturbedRelay(hub.nodeId, hub.clustered, old(hub.relay), inputs, k);
    }
  }

  /** The loop has taken `k` inputs; none of them ended it, or the last one did. */
  ghost predicate LoopStopped(cfg: SessionConfig, inputs: seq<Input>, start: int, k: nat, reason: Option<CloseReason>) {
    && k <= |inputs|
    && (forall j :: 0 <= j < k - 1 ==> EndsOn(cfg, inputs, start, j).None?)
    && (k == 0 ==> reason.None?)
    && (k > 0 ==> EndsOn(cfg, inputs, start, k - 1) == reason)
  }

  lemma ConnectKeepsPolicy(cfg: HubModel.Config, text: UuidText, s: HubModel.HubState, ctx: Context)
    requires ctx.connectionId in s.connections ==> s.connections[ctx.connectionId].userId == ctx.userId
    ensures var t := OnConnect(cfg, text, s, ctx);
            && (text.RoundTrips() && OnlyAllowedTopics(text, s) ==> OnlyAllowedTopics(text, t))
            && (ctx.connectionId in t.connections ==> t.connections[ctx.connectionId].userId == ctx.userId)
  {
    if ctx.userId.Some? && text.RoundTrips() && OnlyAllowedTopics(text, s) {
      UserTopicAllowed(text, ctx.userId.value);
      SubscribeKept(cfg, text, s, ctx.connectionId, UserTopic(text, ctx.userId.value));
    }
  }

  lemma TextKeepsPolicy(cfg: HubModel.Config, text: UuidText, s: HubModel.HubState, ctx: Context,
                        message: Option<ClientMessage>)
    requires ctx.connectionId in s.connections ==> s.connections[ctx.connectionId].userId == ctx.userId
    ensures var t := OnText(cfg, AppPolicy(text), s, ctx, message);
            && (text.RoundTrips() && OnlyAllowedTopics(text, s) ==> OnlyAllowedTopics(text, t))
            && (ctx.connectionId in t.connections ==> t.connections[ctx.connectionId].userId == ctx.userId)
  {
    ClientsCannotPublish(cfg, text, s, ctx, message, ctx.connectionId);
    if text.RoundTrips() && OnlyAllowedTopics(text, s) {
      EventKeepsPolicy(cfg, text, s, ClientText(ctx, message));
    }
  }

  // ── Timing of the reaper ───────────────────────────────────────────────────

  function TimeOf(i: Input): Option<int> {
    match i
    case Text(at, _, _) => Some(at)
    case Binary(at, _) => Some(at)
    case PingFrame(at, _) => Some(at)
    case PongFrame(at) => Some(at)
    case CloseFrame(at) => Some(at)
    case Tick(at, _) => Some(at)
    case _ => None
  }

  /** The clock used here is monotonic. */
  ghost predicate Chronological(inputs: seq<Input>, start: int) {
    && (forall i :: 0 <= i < |inputs| && TimeOf(inputs[i]).Some? ==> start <= inputs[i].at)
    && (forall i, j :: 0 <= i < j < |inputs| && TimeOf(inputs[i]).Some? && TimeOf(inputs[j]).Some? ==>
          inputs[i].at <= inputs[j].at)
  }

  lemma {:induction false} LastSeenStays(inputs: seq<Input>, start: int, k: nat, m: nat)
    requires k <= m <= |inputs| && forall i :: k <= i < m ==> !FromClient(inputs[i])
    ensures LastSeen(inputs, start, k) == LastSeen(inputs, start, m)
    decreases m
  {
    if k < m {
      LastSeenStays(inputs, start, k, m - 1);
    }
  }

  /** The first client frame at or after input `k`. */
  lemma {:induction false} NextFrame(inputs: seq<Input>, k: nat, j: nat) returns (m: nat)
    requires k <= j < |inputs| && FromClient(inputs[j])
    ensures k <= m <= j && FromClient(inputs[m]) && forall i :: k <= i < m ==> !FromClient(inputs[i])
    decreases j - k
  {
    if FromClient(inputs[k]) {
      m := k;
    } else {
      m := NextFrame(inputs, k + 1, j);
    }
  }

  /** A client whose frames are handled at most the timeout apart is never closed for idleness. */
  lemma RegularClientIsNotReaped(cfg: SessionConfig, inputs: seq<Input>, start: int, k: nat, last: nat)
    requires Chronological(inputs, start) && k < last < |inputs| && FromClient(inputs[last])
    requires forall m :: 0 <= m <= last && FromClient(inputs[m]) ==>
               inputs[m].at - LastSeen(inputs, start, m) <= Timeout(cfg)
    ensures !IdleTick(cfg, inputs, start, k)
    ensures EndsOn(cfg, inputs, start, k) != Some(HeartbeatTimeout)
  {
    if inputs[k].Tick? {
      var m := NextFrame(inputs, k + 1, last);
      LastSeenStays(inputs, start, k, m);
    }
  }

  /** The time of the last tick before input `k`, or the start of the session. */
  function PreviousTick(inputs: seq<Input>, start: int, k: nat): int
    requires k <= |inputs|
  {
    if k == 0 then start
    else if inputs[k - 1].Tick? then inputs[k - 1].at
    else PreviousTick(inputs, start, k - 1)
  }

  ghost predicate TicksOnTime(cfg: SessionConfig, inputs: seq<Input>, start: int) {
    forall k :: 0 <= k < |inputs| && inputs[k].Tick? ==>
      inputs[k].at - PreviousTick(inputs, start, k) <= Max(cfg.heartbeatIntervalSeconds, 1)
  }

  /** No tick up to `k` was idle: so the previous one came within the timeout of the client's last frame. */
  lemma {:induction false} PreviousTickInTime(cfg: SessionConfig, inputs: seq<Input>, start: int, k: nat)
    requires k <= |inputs| && Chronological(inputs, start)
    requires forall i :: 0 <= i < k ==> !IdleTick(cfg, inputs, start, i)
    ensures PreviousTick(inputs, start, k) <= LastSeen(inputs, start, k) + Timeout(cfg)
  {
    if k > 0 {
      PreviousTickInTime(cfg, inputs, start, k - 1);
      assert !IdleTick(cfg, inputs, start, k - 1);
      if FromClient(inputs[k - 1]) {
        LatestBefore(inputs, start, k - 1, k - 1);
      }
    }
  }

  lemma {:induction false} LatestBefore(inputs: seq<Input>, start: int, i: nat, k: nat)
    requires i <= k < |inputs| && Chronological(inputs, start) && TimeOf(inputs[k]).Some?
    ensures LastSeen(inputs, start, i) <= inputs[k].at
    ensures PreviousTick(inputs, start, i) <= inputs[k].at
  {
    if i > 0 {
      LatestBefore(inputs, start, i - 1, k);
    }
  }

  /** A session closed for idleness is closed after the timeout, and within one more heartbeat of it. */
  lemma SilentClientIsReapedInTime(cfg: SessionConfig, inputs: seq<Input>, start: int, k: nat)
    requires Chronological(inputs, start) && TicksOnTime(cfg, inputs, start)
    requires k < |inputs| && IdleTick(cfg, inputs, start, k)
    requires forall i :: 0 <= i < k ==> !IdleTick(cfg, inputs, start, i)
    ensures var silentSince := LastSeen(inputs, start, k);
            silentSince + Timeout(cfg) < inputs[k].at <=
              silentSince + Timeout(cfg) + Max(cfg.heartbeatIntervalSeconds, 1)
  {
    PreviousTickInTime(cfg, inputs, start, k);
  }

  lemma {:induction false} LastSeenGrows(inputs: seq<Input>, start: int, k: nat, m: nat)
    requires k <= m <= |inputs| && Chronological(inputs, start)
    ensures LastSeen(inputs, start, k) <= LastSeen(inputs, start, m)
    decreases m
  {
    if k < m {
      LastSeenGrows(inputs, start, k, m - 1);
      if FromClient(inputs[m - 1]) {
        LatestBefore(inputs, start, m - 1, m - 1);
      }
    }
  }

  /** A session that is still open has seen no tick later than the timeout after its client's last frame. */
  lemma OpenSessionHasNoLateTick(cfg: SessionConfig, inputs: seq<Input>, start: int, j: nat)
    requires Chronological(inputs, start) && j < |inputs| && inputs[j].Tick?
    requires forall k :: 0 <= k < |inputs| ==> EndsOn(cfg, inputs, start, k).None?
    ensures inputs[j].at <= LastSeen(inputs, start, |inputs|) + Timeout(cfg)
  {
    assert EndsOn(cfg, inputs, start, j).None?;
    LastSeenGrows(inputs, start, j, |inputs|);
  }

  /**
   So silence does end the session: a tick later than that means that some tick up
   to it closed the session, if nothing else had, and within one heartbeat of the
   timeout.
   */
  lemma {:induction false} LateTickMeansReaped(cfg: SessionConfig, inputs: seq<Input>, start: int, j: nat)
    returns (k: nat)
    requires Chronological(inputs, start) && TicksOnTime(cfg, inputs, start)
    requires j < |inputs| && inputs[j].Tick? && inputs[j].at > LastSeen(inputs, start, j) + Timeout(cfg)
    ensures k <= j && EndsOn(cfg, inputs, start, k) == Some(HeartbeatTimeout)
    ensures forall i :: 0 <= i < k ==> EndsOn(cfg, inputs, start, i) != Some(HeartbeatTimeout)
    ensures inputs[k].at <= LastSeen(inputs, start, k) + Timeout(cfg) + Max(cfg.heartbeatIntervalSeconds, 1)
  {
    k := FirstIdleTick(cfg, inputs, start, j);
    SilentClientIsReapedInTime(cfg, inputs, start, k);
  }

  lemma {:induction false} FirstIdleTick(cfg: SessionConfig, inputs: seq<Input>, start: int, j: nat) returns (k: nat)
    requires j < |inputs| && IdleTick(cfg, inputs, start, j)
    ensures k <= j && IdleTick(cfg, inputs, start, k) && forall i :: 0 <= i < k ==> !IdleTick(cfg, inputs, start, i)
  {
    if i :| 0 <= i < j && IdleTick(cfg, inputs, start, i) {
      k := FirstIdleTick(cfg, inputs, start, i);
    } else {
      k := j;
    }
  }

  // ── What ends a session, in terms of its inputs alone ──────────────────────

  /** The session began before `since`, and no frame of the client's came then or later, up to input `k`. */
  ghost predicate SilentSince(inputs: seq<Input>, start: int, k: nat, since: int)
    requires k <= |inputs|
  {
    && start < since
    && forall i ::
         && 0 <= i < k
         && (inputs[i].Text? || inputs[i].Binary? || inputs[i].PingFrame? || inputs[i].PongFrame? ||
             inputs[i].CloseFrame?)
         ==> inputs[i].at < since
  }

  lemma {:induction false} SilentIffLastSeen(inputs: seq<Input>, start: int, k: nat, since: int)
    requires Chronological(inputs, start) && k <= |inputs|
    ensures SilentSince(inputs, start, k, since) <==> LastSeen(inputs, start, k) < since
  {
    if k > 0 {
      SilentIffLastSeen(inputs, start, k - 1, since);
      if FromClient(inputs[k - 1]) {
        LatestBefore(inputs, start, k - 1, k - 1);
      }
    }
  }

  /** Which input ends a session, and why: each reason has its own inputs. */
  lemma EndsFor(cfg: SessionConfig, inputs: seq<Input>, start: int, k: nat, reason: CloseReason)
    requires Chronological(inputs, start) && k < |inputs|
    ensures var input := inputs[k];
            var timeout := if cfg.clientTimeoutSeconds == 0 then 1 else cfg.clientTimeoutSeconds;
            var late := input.Tick? && SilentSince(inputs, start, k, input.at - timeout);
            var writes := input.HubFrame? || input.Text? || input.Binary? || input.PingFrame? || input.Tick?;
            EndsOn(cfg, inputs, start, k) == Some(reason) <==>
              match reason
              case SocketGone => input.StreamEnded? || (writes && !input.written && !late)
              case Evicted => input.HubClosed?
              case ProtocolViolation => input.ProtocolError?
              case ClosedByClient => input.CloseFrame?
              case HeartbeatTimeout => late
  {
    if inputs[k].Tick? {
      var timeout := if cfg.clientTimeoutSeconds == 0 then 1 else cfg.clientTimeoutSeconds;
      SilentIffLastSeen(inputs, start, k, inputs[k].at - timeout);
    }
  }

  /** A session frame goes to the socket from the head of the queue; control frames and ticks leave the hub alone. */
  lemma InputFields(cfg: HubModel.Config, text: UuidText, ctx: Context, s: HubModel.HubState, input: Input)
    ensures var id, t := ctx.connectionId, HubAfter(cfg, text, ctx, s, input);
            if input.Text? || input.Elsewhere? then true
            else if input.HubFrame? && id in s.channels && s.channels[id].queue != [] then
              && t.connections == s.connections && t.channels.Keys == s.channels.Keys
              && s.channels[id].queue == [s.channels[id].queue[0]] + t.channels[id].queue
              && t.channels[id].taken == s.channels[id].taken + [s.channels[id].queue[0]]
              && forall other :: other in s.channels && other != id ==> t.channels[other] == s.channels[other]
            else t == s
  {
  }

  /** Ticks come on time, and the client answers each ping with a pong before the next tick. */
  ghost predicate PongsEveryPing(cfg: SessionConfig, inputs: seq<Input>, start: int) {
    var beat := if cfg.heartbeatIntervalSeconds == 0 then 1 else cfg.heartbeatIntervalSeconds;
    && (forall k :: 0 <= k < |inputs| && inputs[k].Tick? ==>
          || inputs[k].at - start <= beat
          || exists j :: 0 <= j < k && inputs[j].Tick? && inputs[k].at - inputs[j].at <= beat)
    && (forall j, k :: 0 <= j < k < |inputs| && inputs[j].Tick? && inputs[k].Tick? ==>
          exists i :: j < i < k && inputs[i].PongFrame?)
  }

  lemma HeardInTime(cfg: SessionConfig, inputs: seq<Input>, start: int, i: nat, j: nat, k: nat)
    requires Chronological(inputs, start) && j < i < k < |inputs|
    requires inputs[j].Tick? && inputs[i].PongFrame? && inputs[k].Tick? && inputs[k].at - inputs[j].at <= Timeout(cfg)
    ensures EndsOn(cfg, inputs, start, k) != Some(HeartbeatTimeout)
  {
    LastSeenGrows(inputs, start, i + 1, k);
    assert inputs[j].at <= LastSeen(inputs, start, i + 1);
  }

  /** Pongs alone keep a session open, when the heartbeat is within the timeout. */
  lemma PongsKeepOpen(cfg: SessionConfig, inputs: seq<Input>, start: int, k: nat)
    requires Chronological(inputs, start) && PongsEveryPing(cfg, inputs, start) && k < |inputs|
    requires Max(cfg.heartbeatIntervalSeconds, 1) <= Max(cfg.clientTimeoutSeconds, 1)
    ensures EndsOn(cfg, inputs, start, k) != Some(HeartbeatTimeout)
  {
    if inputs[k].Tick? {
      var beat := if cfg.heartbeatIntervalSeconds == 0 then 1 else cfg.heartbeatIntervalSeconds;
      if inputs[k].at - start <= beat {
        LastSeenGrows(inputs, start, 0, k);
      } else {
        var j :| 0 <= j < k && inputs[j].Tick? && inputs[k].at - inputs[j].at <= beat;
        var i :| j < i < k && inputs[i].PongFrame?;
        HeardInTime(cfg, inputs, start, i, j, k);
      }
    }
  }

  /**
   A session ends for idleness exactly on its first tick at which the client has
   been silent for longer than the timeout, unless something else ended it before;
   a client that answers every ping in time never sees it.
   */
  ghost predicate ReapedWhenSilent(cfg: SessionConfig, inputs: seq<Input>, start: int, outcome: Outcome)
    requires outcome.Closed? ==> outcome.after < |inputs|
  {
    var timeout := if cfg.clientTimeoutSeconds == 0 then 1 else cfg.clientTimeoutSeconds;
    var reaped := outcome.Closed? && outcome.reason.HeartbeatTimeout?;
    && (forall k :: 0 <= k < Taken(inputs, outcome) && inputs[k].Tick? ==>
          (SilentSince(inputs, start, k, inputs[k].at - timeout) <==> reaped && k == outcome.after))
    && (reaped ==> inputs[outcome.after].Tick?)
    && (PongsEveryPing(cfg, inputs, start) && Max(cfg.heartbeatIntervalSeconds, 1) <= timeout ==> !reaped)
  }

  lemma OutcomeReapsWhenSilent(cfg: SessionConfig, inputs: seq<Input>, start: int, outcome: Outcome)
    requires Chronological(inputs, start)
    requires outcome.StillOpen? ==> forall k :: 0 <= k < |inputs| ==> EndsOn(cfg, inputs, start, k).None?
    requires outcome.Closed? ==>
               && outcome.after < |inputs|
               && EndsOn(cfg, inputs, start, outcome.after) == Some(outcome.reason)
               && forall k :: 0 <= k < outcome.after ==> EndsOn(cfg, inputs, start, k).None?
    ensures ReapedWhenSilent(cfg, inputs, start, outcome)
  {
    forall k | 0 <= k < Taken(inputs, outcome) && inputs[k].Tick?
      ensures EndsOn(cfg, inputs, start, k) == Some(HeartbeatTimeout) <==>
                var timeout := if cfg.clientTimeoutSeconds == 0 then 1 else cfg.clientTimeoutSeconds;
                SilentSince(inputs, start, k, inputs[k].at - timeout)
    {
      EndsFor(cfg, inputs, start, k, HeartbeatTimeout);
    }
    if outcome.Closed? {
      EndsFor(cfg, inputs, start, outcome.after, outcome.reason);
      if PongsEveryPing(cfg, inputs, start) &&
         Max(cfg.heartbeatIntervalSeconds, 1) <= Max(cfg.clientTimeoutSeconds, 1) {
        PongsKeepOpen(cfg, inputs, start, outcome.after);
      }
    }
  }

  // ── The two settings ───────────────────────────────────────────────────────

  /** The client is heard of between any two ticks, as when it answers every ping before the next one. */
  ghost predicate AnswersPings(inputs: seq<Input>) {
    forall j, k :: 0 <= j < k < |inputs| && inputs[j].Tick? && inputs[k].Tick? ==>
      exists i :: j < i < k &&
        (inputs[i].Text? || inputs[i].Binary? || inputs[i].PingFrame? || inputs[i].PongFrame?)
  }

  lemma {:induction false} HeardSinceTick(inputs: seq<Input>, start: int, k: nat)
    requires Chronological(inputs, start) && AnswersPings(inputs) && k < |inputs| && inputs[k].Tick?
    ensures PreviousTick(inputs, start, k) <= LastSeen(inputs, start, k)
  {
    var j := LastTick(inputs, k);
    PreviousTickAt(inputs, start, k, j);
    if j >= 0 {
      var i :| j < i < k && (inputs[i].Text? || inputs[i].Binary? || inputs[i].PingFrame? || inputs[i].PongFrame?);
      LastSeenGrows(inputs, start, i + 1, k);
    } else {
      LastSeenGrows(inputs, start, 0, k);
    }
  }

  /** The number of the last tick before input `k`, or -1. */
  function LastTick(inputs: seq<Input>, k: nat): int
    requires k <= |inputs|
  {
    if k == 0 then -1 else if inputs[k - 1].Tick? then k - 1 else LastTick(inputs, k - 1)
  }

  lemma {:induction false} PreviousTickAt(inputs: seq<Input>, start: int, k: nat, j: int)
    requires k <= |inputs| && j == LastTick(inputs, k)
    ensures -1 <= j < k
    ensures j >= 0 ==> inputs[j].Tick? && PreviousTick(inputs, start, k) == inputs[j].at
    ensures j < 0 ==> PreviousTick(inputs, start, k) == start
  {
    if k > 0 && !inputs[k - 1].Tick? {
      PreviousTickAt(inputs, start, k - 1, j);
    }
  }

  /** The settings are safe: no client that answers every ping is ever closed for idleness. */
  ghost predicate SafeSettings(cfg: SessionConfig) {
    forall inputs: seq<Input>, start: int, k: nat ::
      Chronological(inputs, start) && TicksOnTime(cfg, inputs, start) && AnswersPings(inputs) && k < |inputs| ==>
        EndsOn(cfg, inputs, start, k) != Some(HeartbeatTimeout)
  }

  /** They are exactly when the heartbeat interval is not longer than the client timeout. */
  lemma SafeIffHeartbeatWithinTimeout(cfg: SessionConfig)
    ensures SafeSettings(cfg) <==> Max(cfg.heartbeatIntervalSeconds, 1) <= Timeout(cfg)
  {
    var beat := Max(cfg.heartbeatIntervalSeconds, 1);
    if beat <= Timeout(cfg) {
      forall inputs: seq<Input>, start: int, k: nat |
        Chronological(inputs, start) && TicksOnTime(cfg, inputs, start) && AnswersPings(inputs) && k < |inputs|
        ensures EndsOn(cfg, inputs, start, k) != Some(HeartbeatTimeout)
      {
        if inputs[k].Tick? {
          HeardSinceTick(inputs, start, k);
        }
      }
    } else {
      var inputs := [Tick(beat, true)];
      assert Chronological(inputs, 0) && TicksOnTime(cfg, inputs, 0) && AnswersPings(inputs);
      ClosedBeforeAnyPing(cfg, inputs, 0, 0);
    }
  }

  /** Otherwise the first tick on time, before which no ping is ever sent, closes every client that has sent nothing. */
  lemma ClosedBeforeAnyPing(cfg: SessionConfig, inputs: seq<Input>, start: int, k: nat)
    requires Max(cfg.heartbeatIntervalSeconds, 1) > Timeout(cfg)
    requires k < |inputs| && inputs[k].Tick? && inputs[k].at == start + Max(cfg.heartbeatIntervalSeconds, 1)
    requires forall i :: 0 <= i < k ==> !FromClient(inputs[i]) && !inputs[i].Tick?
    ensures EndsOn(cfg, inputs, start, k) == Some(HeartbeatTimeout)
  {
    LastSeenStays(inputs, start, 0, k);
  }
}
