/** Who may subscribe to what, and what that guarantees about every subscription that ever exists. */
module WsPolicy {
  import opened Prelude
  import opened HubModel

  /** The textual form of identifiers: a parser and a printer of the library. */
  datatype UuidText = UuidText(parse: string -> Option<Uuid>, format: Uuid -> string) {
    ghost predicate RoundTrips() {
      forall u :: parse(format(u)) == Some(u)
    }
  }

  const PUBLIC_PREFIX := "public."
  const USER_PREFIX := "user."

  datatype Context = Context(connectionId: ConnectionId, userId: Option<Uuid>)

  function StripPrefix(s: string, prefix: string): Option<string> {
    if prefix <= s then Some(s[|prefix|..]) else None
  }

  function AuthorizeSubscribe(text: UuidText, ctx: Context, topic: string): Result<(), string> {
    if topic == "" then Err("Topic must not be empty")
    else if PUBLIC_PREFIX <= topic then Ok(())
    else
      match StripPrefix(topic, USER_PREFIX)
      case Some(rawId) =>
        if ctx.userId.None? then Err("Authentication required for user topics")
        else (
          match text.parse(rawId)
          case Some(id) => if id == ctx.userId.value then Ok(()) else Err("Cannot subscribe to another user's topic")
          case None => Err("Malformed user topic"))
      case None =>
        if ctx.userId.Some? then Ok(()) else Err("Authentication required to subscribe to '" + topic + "'")
  }

  function AuthorizePublish(ctx: Context, topic: string, payload: string): Result<(), string> {
    Err("Clients may not publish on this server")
  }

  function UserTopic(text: UuidText, user: Uuid): string {
    USER_PREFIX + text.format(user)
  }

  /** The hooks a session consults for client frames. */
  datatype Policy = Policy(
    authorizeSubscribe: (Context, string) -> Result<(), string>,
    authorizePublish: (Context, string, string) -> Result<(), string>)

  function AppPolicy(text: UuidText): Policy {
    Policy((ctx: Context, topic: string) => AuthorizeSubscribe(text, ctx, topic),
           (ctx: Context, topic: string, payload: string) => AuthorizePublish(ctx, topic, payload))
  }

  datatype ClientMessage =
    | Subscribe(topic: string)
    | Unsubscribe(topic: string)
    | Publish(topic: string, payload: string)
    | Ping

  // ── Effects on the hub ─────────────────────────────────────────────────────

  /** `on_connect`: a failure to subscribe is only logged. */
  function OnConnect(cfg: Config, text: UuidText, s: HubState, ctx: Context): HubState {
    match ctx.userId
    case Some(user) => OrElse(HubModel.Subscribe(cfg, s, ctx.connectionId, UserTopic(text, user)), s)
    case None => s
  }

  /** One text frame; `None` is a frame that does not parse. */
  function OnText(cfg: Config, policy: Policy, s: HubState, ctx: Context, message: Option<ClientMessage>): HubState {
    match message
    case Some(Subscribe(topic)) =>
      if policy.authorizeSubscribe(ctx, topic).Ok? then OrElse(HubModel.Subscribe(cfg, s, ctx.connectionId, topic), s)
      else s
    case Some(Unsubscribe(topic)) => HubModel.Unsubscribe(s, ctx.connectionId, topic)
    case Some(Publish(topic, payload)) =>
      if policy.authorizePublish(ctx, topic, payload).Ok? then Dispatch(cfg, s, Topic, topic, payload) else s
    case _ => s
  }

  // ── The guarantee ──────────────────────────────────────────────────────────

  /** What a connection of `user` may ever be subscribed to. */
  ghost predicate MayHold(text: UuidText, user: Option<Uuid>, topic: string) {
    && (user.None? ==> PUBLIC_PREFIX <= topic)
    && (USER_PREFIX <= topic ==> user.Some? && text.parse(topic[|USER_PREFIX|..]) == user)
  }

  ghost predicate OnlyAllowedTopics(text: UuidText, s: HubState) {
    forall id, t :: id in s.connections && t in s.connections[id].topics ==> MayHold(text, s.connections[id].userId, t)
  }

  lemma PrefixesDiffer(topic: string)
    ensures !(PUBLIC_PREFIX <= topic && USER_PREFIX <= topic)
  {
    if PUBLIC_PREFIX <= topic {
      assert topic[0] == 'p';
    }
  }

  /** The policy lets a subscription through exactly when the topic is not empty and the user may hold it. */
  lemma AuthorizedIffMayHold(text: UuidText, ctx: Context, topic: string)
    ensures AuthorizeSubscribe(text, ctx, topic).Ok? <==> topic != "" && MayHold(text, ctx.userId, topic)
  {
    PrefixesDiffer(topic);
  }

  /** The rules spelled out: public topics for everybody, all others for signed-in users, user topics for their user. */
  lemma AuthorizedExactly(text: UuidText, ctx: Context, topic: string)
    ensures AuthorizeSubscribe(text, ctx, topic).Ok? <==>
              || "public." <= topic
              || (topic != "" && ctx.userId.Some? && ("user." <= topic ==> text.parse(topic[5..]) == ctx.userId))
  {
    PrefixesDiffer(topic);
  }

  /** Connecting subscribes a signed-in user to the user's own topic if there is room for it, and does nothing else. */
  lemma OwnTopicAfterConnect(cfg: Config, text: UuidText, s: HubState, ctx: Context)
    ensures var id, t := ctx.connectionId, OnConnect(cfg, text, s, ctx);
            && (ctx.userId.None? || id !in s.connections ==> t == s)
            && (ctx.userId.Some? && id in s.connections ==>
                  var own := "user." + text.format(ctx.userId.value);
                  var held := s.connections[id].topics;
                  var room := own in held || cfg.maxTopicsPerConnection == 0 || |held| < cfg.maxTopicsPerConnection;
                  && t.connections.Keys == s.connections.Keys && t.channels == s.channels
                  && t.connections[id].topics == (if room then held + {own} else held)
                  && t.connections[id].userId == s.connections[id].userId)
  {
  }

  // ── Whole runs ─────────────────────────────────────────────────────────────

  /** Everything that happens to a hub in service. The application itself never subscribes a connection. */
  datatype Event =
    | Connect(ctx: Context)
    | ClientText(ctx: Context, message: Option<ClientMessage>)
    | Server(op: Op)

  predicate Possible(s: HubState, e: Event) {
    match e
    case Connect(ctx) => ctx.connectionId !in s.channels && ctx.connectionId !in s.connections
    case ClientText(ctx, _) =>
      ctx.connectionId in s.connections ==> s.connections[ctx.connectionId].userId == ctx.userId
    case Server(op) => !op.OpRegister? && !op.OpSubscribe?
  }

  function Happen(cfg: Config, text: UuidText, s: HubState, e: Event): HubState {
    match e
    case Connect(ctx) =>
      (match Register(cfg, s, ctx.userId, ctx.connectionId)
       case Ok(registered) => OnConnect(cfg, text, registered, ctx)
       case Err(_) => s)
    case ClientText(ctx, message) => OnText(cfg, AppPolicy(text), s, ctx, message)
    case Server(op) => Step(cfg, s, op)
  }

  ghost predicate IsService(cfg: Config, text: UuidText, events: seq<Event>, trace: seq<HubState>) {
    && |trace| == |events| + 1
    && trace[0] == EMPTY_HUB
    && forall i :: 0 <= i < |events| ==>
         Possible(trace[i], events[i]) && trace[i + 1] == Happen(cfg, text, trace[i], events[i])
  }

  lemma SubscribeKept(cfg: Config, text: UuidText, s: HubState, id: ConnectionId, topic: string)
    requires OnlyAllowedTopics(text, s)
    requires id in s.connections ==> MayHold(text, s.connections[id].userId, topic)
    ensures OnlyAllowedTopics(text, OrElse(HubModel.Subscribe(cfg, s, id, topic), s))
  {
  }

  lemma UserTopicAllowed(text: UuidText, user: Uuid)
    requires text.RoundTrips()
    ensures MayHold(text, Some(user), UserTopic(text, user))
  {
    assert UserTopic(text, user)[|USER_PREFIX|..] == text.format(user);
  }

  lemma EventKeepsPolicy(cfg: Config, text: UuidText, s: HubState, e: Event)
    requires text.RoundTrips() && OnlyAllowedTopics(text, s) && Possible(s, e)
    ensures OnlyAllowedTopics(text, Happen(cfg, text, s, e))
  {
    match e {
      case Connect(ctx) =>
        match Register(cfg, s, ctx.userId, ctx.connectionId) {
          case Ok(registered) =>
            assert OnlyAllowedTopics(text, registered);
            if ctx.userId.Some? {
              UserTopicAllowed(text, ctx.userId.value);
              SubscribeKept(cfg, text, registered, ctx.connectionId, UserTopic(text, ctx.userId.value));
            }
          case Err(_) =>
        }
      case ClientText(ctx, message) =>
        if message.Some? && message.value.Subscribe? {
          AuthorizedIffMayHold(text, ctx, message.value.topic);
          if AuthorizeSubscribe(text, ctx, message.value.topic).Ok? {
            SubscribeKept(cfg, text, s, ctx.connectionId, message.value.topic);
          }
        }
      case Server(op) =>
    }
  }

  /** In every state a hub in service can reach, connections hold only topics the policy allows them. */
  lemma {:induction false} PolicyHoldsThroughout(cfg: Config, text: UuidText, events: seq<Event>,
                                                 trace: seq<HubState>, n: nat)
    requires text.RoundTrips() && IsService(cfg, text, events, trace) && n <= |events|
    ensures OnlyAllowedTopics(text, trace[n])
  {
    if n > 0 {
      PolicyHoldsThroughout(cfg, text, events, trace, n - 1);
      EventKeepsPolicy(cfg, text, trace[n - 1], events[n - 1]);
    }
  }

  /** So whoever receives a publish on `user.<u>` is a socket of `u`, which `publish_to_user` would have reached too. */
  lemma UserTopicReachesOnlyTheUser(cfg: Config, text: UuidText, events: seq<Event>, trace: seq<HubState>, n: nat,
                                    user: Uuid, any: string)
    requires text.RoundTrips() && IsService(cfg, text, events, trace) && n <= |events|
    ensures Audience(trace[n], Topic, UserTopic(text, user)) <= Audience(trace[n], User(user), any)
  {
    PolicyHoldsThroughout(cfg, text, events, trace, n);
    UserTopicAllowed(text, user);
    forall id | id in Audience(trace[n], Topic, UserTopic(text, user))
      ensures id in Audience(trace[n], User(user), any)
    {
      assert MayHold(text, trace[n].connections[id].userId, UserTopic(text, user));
    }
  }

  /** Nothing a client sends makes the hub deliver anything, to anyone; and it concerns no other connection. */
  lemma ClientsCannotPublish(cfg: Config, text: UuidText, s: HubState, ctx: Context, message: Option<ClientMessage>,
                             other: ConnectionId)
    ensures var t := OnText(cfg, AppPolicy(text), s, ctx, message);
            && t.channels == s.channels
            && t.messagesSent == s.messagesSent && t.slowClientsDropped == s.slowClientsDropped
            && t.connections.Keys == s.connections.Keys
            && (other != ctx.connectionId && other in s.connections ==> t.connections[other] == s.connections[other])
            && (ctx.connectionId in s.connections ==>
                  t.connections[ctx.connectionId].userId == s.connections[ctx.connectionId].userId)
  {
  }
}
