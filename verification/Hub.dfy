/**
 The WebSocket hub with its reverse indexes, one method per public operation.
 Every method is proved against the index-free description in HubModel: the
 indexes are an optimisation that never shows.
 */
module Hub {
  import opened Prelude
  import opened Sums
  import opened SubscriberIndex
  import opened HubModel

  /** An event handed to the bridge between instances. */
  datatype ClusterFrame = ClusterFrame(node: Uuid, scope: Scope, topic: string, payload: string)

  const CLUSTER_RELAY_BUFFER: nat := 1024

  datatype HubStats = HubStats(
    connections: nat,
    authenticatedConnections: nat,
    topics: nat,
    subscriptions: nat,
    messagesSent: nat,
    slowClientsDropped: nat)

  // ── How the indexes mirror the connections ─────────────────────────────────

  ghost predicate TopicsMirror(connections: map<ConnectionId, Connection>, topics: Index<string>) {
    && NoEmptyEntry(topics)
    && forall t, id :: id in Members(topics, t) <==> id in connections && t in connections[id].topics
  }

  ghost predicate UsersMirror(connections: map<ConnectionId, Connection>, users: Index<Uuid>) {
    && NoEmptyEntry(users)
    && forall u, id :: id in Members(users, u) <==> id in connections && connections[id].userId == Some(u)
  }

  /** `topic -> id` read off the connections, as `id -> topics`. */
  ghost function TopicSets(connections: map<ConnectionId, Connection>): map<ConnectionId, set<string>> {
    map id | id in connections :: connections[id].topics
  }

  /** Summing per connection and summing per topic count the same subscriptions. */
  lemma SubscriptionTotals(connections: map<ConnectionId, Connection>, topics: Index<string>)
    requires TopicsMirror(connections, topics)
    ensures Sum(Sizes(TopicSets(connections))) == Sum(Sizes(topics))
  {
    forall id, t
      ensures id in TopicSets(connections) && t in TopicSets(connections)[id] <==> t in topics && id in topics[t]
    {
      assert id in Members(topics, t) <==> id in connections && t in connections[id].topics;
    }
    ConverseTotals(TopicSets(connections), topics);
  }

  /** A mirrored index is determined by the connections. */
  lemma MirrorIsUnique(connections: map<ConnectionId, Connection>, a: Index<string>, b: Index<string>)
    requires TopicsMirror(connections, a) && TopicsMirror(connections, b)
    ensures a == b
  {
    forall t
      ensures Members(a, t) == Members(b, t)
    {
      forall id
        ensures id in Members(a, t) <==> id in Members(b, t)
      {
        assert id in Members(a, t) <==> id in connections && t in connections[id].topics;
        assert id in Members(b, t) <==> id in connections && t in connections[id].topics;
      }
    }
    forall t
      ensures t in a <==> t in b
      ensures t in a && t in b ==> a[t] == b[t]
    {
      assert Members(a, t) == Members(b, t);
    }
  }

  lemma RegisterMirrors(connections: map<ConnectionId, Connection>, topics: Index<string>, users: Index<Uuid>,
                        user: Option<Uuid>, id: ConnectionId)
    requires TopicsMirror(connections, topics) && UsersMirror(connections, users) && id !in connections
    ensures TopicsMirror(connections[id := Connection(user, {})], topics)
    ensures UsersMirror(connections[id := Connection(user, {})],
                        if user.Some? then Insert(users, user.value, id) else users)
  {
    if user.Some? {
      AfterInsert(users, user.value, id);
    }
  }

  lemma UnregisterMirrors(connections: map<ConnectionId, Connection>, users: Index<Uuid>, id: ConnectionId)
    requires UsersMirror(connections, users) && id in connections
    ensures var user := connections[id].userId;
            UsersMirror(connections - {id},
                        if user.Some? then DropIfEmpty(RemoveMember(users, user.value, id), user.value) else users)
  {
    var user := connections[id].userId;
    if user.Some? {
      AfterDetach(users, user.value, id);
    }
  }

  lemma SubscribeMirrors(connections: map<ConnectionId, Connection>, topics: Index<string>, id: ConnectionId,
                         topic: string)
    requires TopicsMirror(connections, topics) && id in connections
    ensures var conn := connections[id];
            TopicsMirror(connections[id := conn.(topics := conn.topics + {topic})], Insert(topics, topic, id))
  {
    AfterInsert(topics, topic, id);
  }

  class WsHub {
    const nodeId: Uuid
    const config: Config
    const clustered: bool
    var connections: map<ConnectionId, Connection>
    var topics: Index<string>
    var users: Index<Uuid>
    /** The channel made for each connection; the session keeps the receiving end. */
    var channels: map<ConnectionId, Channel>
    var relay: seq<ClusterFrame>
    var messagesSent: nat
    var slowClientsDropped: nat

    ghost function State(): HubState
      reads this
    {
      HubState(connections, channels, messagesSent, slowClientsDropped)
    }

    ghost predicate Valid()
      reads this
    {
      && TopicsMirror(connections, topics)
      && UsersMirror(connections, users)
      && ChannelsOk(config, State())
      && |relay| <= CLUSTER_RELAY_BUFFER
      && messagesSent < U64_MODULUS
      && slowClientsDropped < U64_MODULUS
    }

    constructor (nodeId: Uuid, config: Config, clustered: bool)
      ensures Valid() && State() == EMPTY_HUB && relay == []
      ensures this.nodeId == nodeId && this.config == config && this.clustered == clustered
    {
      this.nodeId := nodeId;
      this.config := config;
      this.clustered := clustered;
      connections := map[];
      topics := map[];
      users := map[];
      channels := map[];
      relay := [];
      messagesSent := 0;
      slowClientsDropped := 0;
    }

    // ── Connection lifecycle ─────────────────────────────────────────────────

    /** `id` stands for the fresh identifier the source draws at random. */
    method Register(user: Option<Uuid>, id: ConnectionId) returns (r: Result<ConnectionId, WsError>)
      requires Valid() && id !in channels
      modifies this
      ensures Valid() && relay == old(relay)
      ensures match HubModel.Register(config, old(State()), user, id)
              case Ok(s) => r == Ok(id) && State() == s
              case Err(e) => r == Err(e) && State() == old(State())
    {
      var limit := config.maxConnections;
      if limit > 0 && |connections| >= limit {
        return Err(ConnectionLimit(limit));
      }
      StepKeepsChannels(config, State(), OpRegister(user, id));
      RegisterMirrors(connections, topics, users, user, id);
      channels := channels[id := Channel([], [], [], true)];
      connections := connections[id := Connection(user, {})];
      if user.Some? {
        users := Insert(users, user.value, id);
      }
      r := Ok(id);
    }

    method Unregister(id: ConnectionId)
      requires Valid()
      modifies this
      ensures Valid() && relay == old(relay)
      ensures State() == HubModel.Unregister(old(State()), {id})
      ensures connections == old(connections) - {id} && channels == old(channels)
      ensures messagesSent == old(messagesSent) && slowClientsDropped == old(slowClientsDropped)
    {
      if id !in connections {
        assert connections - {id} == connections;
        return;
      }
      UnregisterMirrors(connections, users, id);
      var conn := connections[id];
      connections := connections - {id};

      var remaining := conn.topics;
      while remaining != {}
        invariant remaining <= conn.topics
        invariant NoEmptyEntry(topics)
        invariant forall t, i :: i in Members(topics, t) <==>
                    i in old(Members(topics, t)) && !(i == id && t in conn.topics - remaining)
        invariant unchanged(`users) && unchanged(`channels) && unchanged(`relay)
        invariant unchanged(`messagesSent) && unchanged(`slowClientsDropped)
        invariant connections == old(connections) - {id}
        decreases |remaining|
      {
        var topic :| topic in remaining;
        DetachFromTopic(topic, id);
        remaining := remaining - {topic};
      }

      if conn.userId.Some? {
        users := RemoveMember(users, conn.userId.value, id);
        users := DropIfEmpty(users, conn.userId.value);
      }
    }

    method Disconnect(id: ConnectionId)
      requires Valid()
      modifies this
      ensures Valid() && relay == old(relay)
      ensures State() == HubModel.Unregister(old(State()), {id})
    {
      Unregister(id);
    }

    // ── Subscriptions ────────────────────────────────────────────────────────

    method Subscribe(id: ConnectionId, topic: string) returns (r: Result<(), WsError>)
      requires Valid()
      modifies this
      ensures Valid() && relay == old(relay)
      ensures match HubModel.Subscribe(config, old(State()), id, topic)
              case Ok(s) => r == Ok(()) && State() == s
              case Err(e) => r == Err(e) && State() == old(State())
    {
      var limit := config.maxTopicsPerConnection;
      if id !in connections {
        return Err(UnknownConnection);
      }
      var conn := connections[id];
      if limit > 0 && topic !in conn.topics && |conn.topics| >= limit {
        return Err(TopicLimit(limit));
      }
      StepKeepsChannels(config, State(), OpSubscribe(id, topic));
      SubscribeMirrors(connections, topics, id, topic);
      connections := connections[id := conn.(topics := conn.topics + {topic})];
      topics := Insert(topics, topic, id);
      r := Ok(());
    }

    method Unsubscribe(id: ConnectionId, topic: string)
      requires Valid()
      modifies this
      ensures Valid() && relay == old(relay)
      ensures State() == HubModel.Unsubscribe(old(State()), id, topic)
      ensures connections.Keys == old(connections.Keys)
      ensures id in connections ==> connections[id].userId == old(connections)[id].userId
      ensures id in connections ==> topic !in connections[id].topics
      ensures id in connections ==> forall t :: t != topic ==>
                (t in connections[id].topics <==> t in old(connections)[id].topics)
      ensures connections - {id} == old(connections) - {id} && channels == old(channels)
    {
      if id in connections {
        var conn := connections[id];
        connections := connections[id := conn.(topics := conn.topics - {topic})];
      }
      DetachFromTopic(topic, id);
    }

    method DetachFromTopic(topic: string, id: ConnectionId)
      requires NoEmptyEntry(topics)
      modifies this`topics
      ensures NoEmptyEntry(topics)
      ensures forall t, i :: i in Members(topics, t) <==> i in old(Members(topics, t)) && !(t == topic && i == id)
    {
      AfterDetach(topics, topic, id);
      topics := RemoveMember(topics, topic, id);
      topics := DropIfEmpty(topics, topic);
    }

    // ── Delivery ─────────────────────────────────────────────────────────────

    /**
     Pushes `frame` to each of `ids`, collecting the connections whose queue is
     full and evicting them once the loop is over.
     */
    method Deliver(ids: seq<ConnectionId>, frame: Frame) returns (delivered: nat)
      requires Valid() && Distinct(ids)
      modifies this
      ensures Valid() && relay == old(relay)
      ensures State() == HubModel.Deliver(config, old(State()), Elements(ids), frame)
      ensures delivered == |Accepting(config, old(State()), Elements(ids))|
    {
      ghost var start := State();
      delivered := 0;
      var slow: seq<ConnectionId> := [];
      DeliverNone(config, start, ids, frame);
      for i := 0 to |ids|
        invariant unchanged(`connections) && unchanged(`topics) && unchanged(`users) && unchanged(`relay)
        invariant unchanged(`messagesSent) && unchanged(`slowClientsDropped)
        invariant DeliveredTo(config, start, ids[..i], frame, channels, delivered, slow)
      {
        var id := ids[i];
        assert id !in ids[..i] && ids[..i + 1] == ids[..i] + [id];
        if id in connections && channels[id].receiverOpen {
          if |channels[id].queue| < Capacity(config) {
            DeliveryAccepts(config, start, ids[..i], id, frame, channels, delivered, slow);
            channels := channels[id := Push(channels[id], frame)];
            delivered := delivered + 1;
          } else {
            DeliveryFindsSlow(config, start, ids[..i], id, frame, channels, delivered, slow);
            slow := slow + [id];
          }
        } else {
          DeliverySkips(config, start, ids[..i], id, frame, channels, delivered, slow);
        }
      }
      assert ids[..|ids|] == ids;
      PushKeepsChannels(config, start, Elements(ids), frame);
      EvictSlow(slow);
      messagesSent := Wrap64(messagesSent + delivered);
    }

    method EvictSlow(slow: seq<ConnectionId>)
      requires Valid() && |slow| == |Elements(slow)|
      modifies this
      ensures Valid() && relay == old(relay)
      ensures State() == old(State()).(
                connections := old(connections) - Elements(slow),
                slowClientsDropped := Wrap64(old(slowClientsDropped) + |slow|))
    {
      assert connections - Elements(slow[..0]) == connections;
      for i := 0 to |slow|
        invariant Valid()
        invariant unchanged(`channels) && unchanged(`relay) && unchanged(`messagesSent)
        invariant connections == old(connections) - Elements(slow[..i])
        invariant slowClientsDropped == Wrap64(old(slowClientsDropped) + i)
      {
        ElementsOneMore(slow, i);
        slowClientsDropped := Wrap64(slowClientsDropped + 1);
        Disconnect(slow[i]);
      }
      assert slow[..|slow|] == slow;
    }

    // ── Publishing ───────────────────────────────────────────────────────────

    /** Deliver to every subscriber of `topic` here, and offer the event to the other instances. */
    method Publish(topic: string, payload: string) returns (delivered: nat)
      requires Valid()
      modifies this
      ensures Valid() && relay == Forwarded(old(relay), ClusterFrame(nodeId, Topic, topic, payload), clustered)
      ensures State() == Dispatch(config, old(State()), Topic, topic, payload)
      ensures delivered == |Accepting(config, old(State()), Audience(old(State()), Topic, topic))|
      ensures FannedOut(config, old(State()), State(),
                        (set id | id in old(connections) && topic in old(connections)[id].topics),
                        Event(topic, payload), delivered)
    {
      ForwardToCluster(Topic, topic, payload);
      delivered := PublishLocal(topic, payload);
    }

    method PublishToUser(user: Uuid, topic: string, payload: string) returns (delivered: nat)
      requires Valid()
      modifies this
      ensures Valid() && relay == Forwarded(old(relay), ClusterFrame(nodeId, User(user), topic, payload), clustered)
      ensures State() == Dispatch(config, old(State()), User(user), topic, payload)
      ensures delivered == |Accepting(config, old(State()), Audience(old(State()), User(user), topic))|
      ensures FannedOut(config, old(State()), State(),
                        (set id | id in old(connections) && old(connections)[id].userId == Some(user)),
                        Event(topic, payload), delivered)
    {
      ForwardToCluster(User(user), topic, payload);
      delivered := PublishToUserLocal(user, topic, payload);
    }

    method Broadcast(topic: string, payload: string) returns (delivered: nat)
      requires Valid()
      modifies this
      ensures Valid() && relay == Forwarded(old(relay), ClusterFrame(nodeId, All, topic, payload), clustered)
      ensures State() == Dispatch(config, old(State()), All, topic, payload)
      ensures delivered == |Accepting(config, old(State()), Audience(old(State()), All, topic))|
      ensures FannedOut(config, old(State()), State(), old(connections.Keys),
                        Event(topic, payload), delivered)
    {
      ForwardToCluster(All, topic, payload);
      delivered := BroadcastLocal(topic, payload);
    }

    method SendTo(id: ConnectionId, topic: string, payload: string) returns (sent: bool)
      requires Valid()
      modifies this
      ensures Valid() && relay == old(relay)
      ensures State() == HubModel.Deliver(config, old(State()), {id}, Event(topic, payload))
      ensures sent <==> id in Accepting(config, old(State()), {id})
      ensures FannedOut(config, old(State()), State(), {id}, Event(topic, payload),
                        if sent then 1 else 0)
    {
      assert Elements([id]) == {id};
      DeliverFansOut(config, State(), {id}, Event(topic, payload));
      assert Accepting(config, State(), {id}) == if id in Accepting(config, State(), {id}) then {id} else {};
      var delivered := Deliver([id], Event(topic, payload));
      sent := delivered == 1;
    }

    method PublishLocal(topic: string, payload: string) returns (delivered: nat)
      requires Valid()
      modifies this
      ensures Valid() && relay == old(relay)
      ensures State() == Dispatch(config, old(State()), Topic, topic, payload)
      ensures delivered == |Accepting(config, old(State()), Audience(old(State()), Topic, topic))|
      ensures FannedOut(config, old(State()), State(),
                        (set id | id in old(connections) && topic in old(connections)[id].topics),
                        Event(topic, payload), delivered)
    {
      assert Members(topics, topic) == Audience(State(), Topic, topic);
      DeliverFansOut(config, State(), Audience(State(), Topic, topic), Event(topic, payload));
      if topic !in topics {
        DeliverToNobody(config, State(), Event(topic, payload));
        return 0;
      }
      var ids := CopyIds(topics[topic]);
      delivered := Deliver(ids, Event(topic, payload));
    }

    method PublishToUserLocal(user: Uuid, topic: string, payload: string) returns (delivered: nat)
      requires Valid()
      modifies this
      ensures Valid() && relay == old(relay)
      ensures State() == Dispatch(config, old(State()), User(user), topic, payload)
      ensures delivered == |Accepting(config, old(State()), Audience(old(State()), User(user), topic))|
      ensures FannedOut(config, old(State()), State(),
                        (set id | id in old(connections) && old(connections)[id].userId == Some(user)),
                        Event(topic, payload), delivered)
    {
      assert Members(users, user) == Audience(State(), User(user), topic);
      DeliverFansOut(config, State(), Audience(State(), User(user), topic), Event(topic, payload));
      if user !in users {
        DeliverToNobody(config, State(), Event(topic, payload));
        return 0;
      }
      var ids := CopyIds(users[user]);
      delivered := Deliver(ids, Event(topic, payload));
    }

    method BroadcastLocal(topic: string, payload: string) returns (delivered: nat)
      requires Valid()
      modifies this
      ensures Valid() && relay == old(relay)
      ensures State() == Dispatch(config, old(State()), All, topic, payload)
      ensures delivered == |Accepting(config, old(State()), Audience(old(State()), All, topic))|
      ensures FannedOut(config, old(State()), State(), old(connections.Keys),
                        Event(topic, payload), delivered)
    {
      DeliverFansOut(config, State(), connections.Keys, Event(topic, payload));
      var ids := CopyIds(connections.Keys);
      delivered := Deliver(ids, Event(topic, payload));
    }

    /** Never blocks: a full relay queue drops the event for the other instances. */
    method ForwardToCluster(scope: Scope, topic: string, payload: string)
      requires |relay| <= CLUSTER_RELAY_BUFFER
      modifies this`relay
      ensures relay == Forwarded(old(relay), ClusterFrame(nodeId, scope, topic, payload), clustered)
      ensures clustered && old(|relay|) < 1024 ==> relay == old(relay) + [ClusterFrame(nodeId, scope, topic, payload)]
      ensures !clustered || old(|relay|) >= 1024 ==> relay == old(relay)
      ensures |relay| <= CLUSTER_RELAY_BUFFER
    {
      if clustered {
        var frame := ClusterFrame(nodeId, scope, topic, payload);
        if |relay| < CLUSTER_RELAY_BUFFER {
          relay := relay + [frame];
        }
      }
    }

    /** The publish loop takes the next frame off the relay queue. */
    method TakeRelayed() returns (frame: Option<ClusterFrame>)
      requires Valid()
      modifies this`relay
      ensures Valid() && State() == old(State())
      ensures if old(relay) == [] then frame == None && relay == []
              else frame == Some(old(relay)[0]) && relay == old(relay)[1..]
    {
      frame := None;
      if relay != [] {
        frame := Some(relay[0]);
        relay := relay[1..];
      }
    }

    /** A frame from another instance is delivered here and never relayed again. */
    method DispatchClusterFrame(frame: ClusterFrame) returns (delivered: nat)
      requires Valid()
      modifies this
      ensures Valid() && relay == old(relay)
      ensures State() == Dispatch(config, old(State()), frame.scope, frame.topic, frame.payload)
      ensures delivered == |Accepting(config, old(State()), Audience(old(State()), frame.scope, frame.topic))|
      ensures var all := old(connections);
              var aimed := match frame.scope
                           case Topic => set id | id in all && frame.topic in all[id].topics
                           case User(user) => set id | id in all && all[id].userId == Some(user)
                           case All => all.Keys;
              FannedOut(config, old(State()), State(), aimed, Event(frame.topic, frame.payload), delivered)
    {
      match frame.scope {
        case Topic => delivered := PublishLocal(frame.topic, frame.payload);
        case User(user) => delivered := PublishToUserLocal(user, frame.topic, frame.payload);
        case All => delivered := BroadcastLocal(frame.topic, frame.payload);
      }
    }

    // ── The session's end of the outbound channel ────────────────────────────

    method ReceiveFrame(id: ConnectionId) returns (frame: Option<Frame>)
      requires Valid()
      modifies this`channels
      ensures Valid() && State() == Receive(old(State()), id)
      ensures frame.Some? ==> id in channels && old(channels)[id].queue == [frame.value] + channels[id].queue
      ensures frame.Some? ==> channels[id].taken == old(channels)[id].taken + [frame.value]
      ensures frame.None? ==> channels == old(channels)
      ensures channels - {id} == old(channels) - {id} && channels.Keys == old(channels.Keys)
      ensures frame == if id in old(channels) && old(channels)[id].queue != [] then Some(old(channels)[id].queue[0])
                       else None
    {
      StepKeepsChannels(config, State(), OpReceive(id));
      frame := None;
      if id in channels && channels[id].queue != [] {
        var ch := channels[id];
        frame := Some(ch.queue[0]);
        channels := channels[id := ch.(queue := ch.queue[1..], taken := ch.taken + [ch.queue[0]])];
      }
    }

    method CloseReceiver(id: ConnectionId)
      requires Valid()
      modifies this`channels
      ensures Valid() && State() == DropReceiver(old(State()), id)
      ensures channels.Keys == old(channels.Keys) && channels - {id} == old(channels) - {id}
      ensures id in channels ==> channels[id].queue == [] && !channels[id].receiverOpen
      ensures id in channels ==> channels[id].taken == old(channels)[id].taken
      ensures id in channels ==> channels[id].lost == old(channels)[id].queue + old(channels)[id].lost
    {
      StepKeepsChannels(config, State(), OpDropReceiver(id));
      if id in channels {
        var ch := channels[id];
        channels := channels[id := ch.(queue := [], lost := ch.queue + ch.lost, receiverOpen := false)];
      }
    }

    // ── Introspection ────────────────────────────────────────────────────────

    method SubscriberCount(topic: string) returns (n: nat)
      requires Valid()
      ensures n == |set id | id in connections && topic in connections[id].topics|
    {
      assert Members(topics, topic) == Audience(State(), Topic, topic);
      n := if topic in topics then |topics[topic]| else 0;
    }

    method IsUserOnline(user: Uuid) returns (online: bool)
      requires Valid()
      ensures online <==> exists id :: id in connections && connections[id].userId == Some(user)
    {
      online := if user in users then users[user] != {} else false;
      OnlineIffListed(connections, users, user);
    }

    /** The subscriptions counted per connection are those counted per topic. */
    method Stats() returns (stats: HubStats)
      requires Valid()
      ensures stats.connections == |connections|
      ensures stats.authenticatedConnections == |set id | id in connections && connections[id].userId.Some?|
      ensures stats.topics == |set id, t | id in connections && t in connections[id].topics :: t|
      ensures stats.subscriptions == Sum(Sizes(TopicSets(connections))) == Sum(Sizes(topics))
      ensures stats.messagesSent == messagesSent && stats.slowClientsDropped == slowClientsDropped
    {
      var authenticated: nat, subscriptions: nat := 0, 0;
      var remaining := connections.Keys;
      StatsNone(connections);
      while remaining != {}
        invariant remaining <= connections.Keys
        invariant StatsSoFar(connections, remaining, authenticated, subscriptions)
        decreases |remaining|
      {
        var id :| id in remaining;
        StatsOneMore(connections, remaining, id, authenticated, subscriptions);
        if connections[id].userId.Some? {
          authenticated := authenticated + 1;
        }
        subscriptions := subscriptions + |connections[id].topics|;
        remaining := remaining - {id};
      }
      StatsAll(connections, topics, authenticated, subscriptions);
      stats := HubStats(|connections|, authenticated, |topics|, subscriptions, messagesSent, slowClientsDropped);
    }
  }

  /** `iter().copied().collect()`: the ids of a set, in some order, each once. */
  method CopyIds(ids: set<ConnectionId>) returns (copy: seq<ConnectionId>)
    ensures Distinct(copy) && Elements(copy) == ids
  {
    copy := [];
    var remaining := ids;
    while remaining != {}
      invariant Distinct(copy) && remaining <= ids && Elements(copy) == ids - remaining
      decreases |remaining|
    {
      var id :| id in remaining;
      assert id !in Elements(copy);
      ghost var before := copy;
      copy := copy + [id];
      assert Elements(copy) == Elements(before) + {id};
      remaining := remaining - {id};
    }
  }

  lemma ElementsOneMore(ids: seq<ConnectionId>, i: nat)
    requires i < |ids|
    ensures Elements(ids[..i + 1]) == Elements(ids[..i]) + {ids[i]}
  {
    assert ids[..i + 1] == ids[..i] + [ids[i]];
  }

  function Forwarded(relay: seq<ClusterFrame>, frame: ClusterFrame, clustered: bool): seq<ClusterFrame> {
    if clustered && |relay| < CLUSTER_RELAY_BUFFER then relay + [frame] else relay
  }

  ghost function Authenticated(connections: map<ConnectionId, Connection>, ids: set<ConnectionId>): set<ConnectionId> {
    set id | id in ids && id in connections && connections[id].userId.Some?
  }

  lemma DeliverToNobody(cfg: Config, s: HubState, frame: Frame)
    requires s.messagesSent < U64_MODULUS && s.slowClientsDropped < U64_MODULUS
    ensures HubModel.Deliver(cfg, s, {}, frame) == s
    ensures Accepting(cfg, s, {}) == {}
  {
    assert PushAll(s.channels, Accepting(cfg, s, {}), frame) == s.channels;
    assert s.connections - Overflowing(cfg, s, {}) == s.connections;
  }

  ghost function HeldTopics(connections: map<ConnectionId, Connection>): set<string> {
    set id, t | id in connections && t in connections[id].topics :: t
  }

  /** The counting loop once only `remaining` is left to visit. */
  ghost predicate StatsSoFar(connections: map<ConnectionId, Connection>, remaining: set<ConnectionId>,
                             authenticated: nat, subscriptions: nat)
  {
    && authenticated == |Authenticated(connections, connections.Keys - remaining)|
    && subscriptions == Sum(Sizes(TopicSets(connections)) - remaining)
  }

  lemma StatsNone(connections: map<ConnectionId, Connection>)
    ensures StatsSoFar(connections, connections.Keys, 0, 0)
  {
    assert Sizes(TopicSets(connections)) - connections.Keys == map[];
    assert Authenticated(connections, connections.Keys - connections.Keys) == {};
  }

  lemma StatsOneMore(connections: map<ConnectionId, Connection>, remaining: set<ConnectionId>, id: ConnectionId,
                     authenticated: nat, subscriptions: nat)
    requires id in remaining && remaining <= connections.Keys
    requires StatsSoFar(connections, remaining, authenticated, subscriptions)
    ensures StatsSoFar(connections, remaining - {id},
                       if connections[id].userId.Some? then authenticated + 1 else authenticated,
                       subscriptions + |connections[id].topics|)
  {
    var sizes := Sizes(TopicSets(connections));
    assert sizes - (remaining - {id}) == (sizes - remaining)[id := |connections[id].topics|];
    SumUpdate(sizes - remaining, id, |connections[id].topics|);
    assert Authenticated(connections, connections.Keys - (remaining - {id})) ==
           Authenticated(connections, connections.Keys - remaining) +
           (if connections[id].userId.Some? then {id} else {});
  }

  lemma StatsAll(connections: map<ConnectionId, Connection>, topics: Index<string>, authenticated: nat,
                 subscriptions: nat)
    requires TopicsMirror(connections, topics) && StatsSoFar(connections, {}, authenticated, subscriptions)
    ensures authenticated == |set id | id in connections && connections[id].userId.Some?|
    ensures |topics| == |set id, t | id in connections && t in connections[id].topics :: t|
    ensures subscriptions == Sum(Sizes(TopicSets(connections))) == Sum(Sizes(topics))
  {
    assert connections.Keys - {} == connections.Keys;
    assert Authenticated(connections, connections.Keys) == set id | id in connections && connections[id].userId.Some?;
    assert Sizes(TopicSets(connections)) - {} == Sizes(TopicSets(connections));
    SubscriptionTotals(connections, topics);
    IndexedTopicsAreHeld(connections, topics);
    assert |topics| == |topics.Keys|;
  }

  lemma IndexedTopicsAreHeld(connections: map<ConnectionId, Connection>, topics: Index<string>)
    requires TopicsMirror(connections, topics)
    ensures topics.Keys == HeldTopics(connections)
  {
    forall t | t in topics
      ensures t in HeldTopics(connections)
    {
      var id :| id in topics[t];
      assert id in Members(topics, t);
      assert id in connections && t in connections[id].topics;
    }
    forall t | t in HeldTopics(connections)
      ensures t in topics
    {
      var id :| id in connections && t in connections[id].topics;
      assert id in Members(topics, t);
    }
  }

  lemma OnlineIffListed(connections: map<ConnectionId, Connection>, users: Index<Uuid>, user: Uuid)
    requires UsersMirror(connections, users)
    ensures user in users && users[user] != {} <==>
              exists id :: id in connections && connections[id].userId == Some(user)
  {
    if user in users && users[user] != {} {
      var id :| id in users[user];
      assert id in Members(users, user);
      assert id in connections && connections[id].userId == Some(user);
    }
    if id :| id in connections && connections[id].userId == Some(user) {
      assert id in Members(users, user);
    }
  }

  /** The delivery loop after the connections `done`. */
  ghost predicate DeliveredTo(cfg: Config, s: HubState, done: seq<ConnectionId>, frame: Frame,
                              channels: map<ConnectionId, Channel>, delivered: nat, slow: seq<ConnectionId>)
  {
    && channels == PushAll(s.channels, Accepting(cfg, s, Elements(done)), frame)
    && delivered == |Accepting(cfg, s, Elements(done))|
    && Elements(slow) == Overflowing(cfg, s, Elements(done))
    && |slow| == |Elements(slow)|
  }

  lemma DeliverNone(cfg: Config, s: HubState, ids: seq<ConnectionId>, frame: Frame)
    ensures DeliveredTo(cfg, s, ids[..0], frame, s.channels, 0, [])
  {
    assert Elements(ids[..0]) == {};
    assert Accepting(cfg, s, {}) == {};
  }

  lemma AudienceGrows(cfg: Config, s: HubState, done: set<ConnectionId>, id: ConnectionId)
    requires id !in done
    ensures var fits := Listening(s, id) && |s.channels[id].queue| < Capacity(cfg);
            var full := Listening(s, id) && |s.channels[id].queue| >= Capacity(cfg);
            && Accepting(cfg, s, done + {id}) == Accepting(cfg, s, done) + (if fits then {id} else {})
            && Overflowing(cfg, s, done + {id}) == Overflowing(cfg, s, done) + (if full then {id} else {})
            && id !in Accepting(cfg, s, done)
            && id !in Overflowing(cfg, s, done)
  {
  }

  lemma DeliverySkips(cfg: Config, s: HubState, done: seq<ConnectionId>, id: ConnectionId, frame: Frame,
                      channels: map<ConnectionId, Channel>, delivered: nat, slow: seq<ConnectionId>)
    requires id !in done && DeliveredTo(cfg, s, done, frame, channels, delivered, slow)
    requires !Listening(s, id)
    ensures DeliveredTo(cfg, s, done + [id], frame, channels, delivered, slow)
  {
    assert Elements(done + [id]) == Elements(done) + {id};
    AudienceGrows(cfg, s, Elements(done), id);
  }

  lemma DeliveryAccepts(cfg: Config, s: HubState, done: seq<ConnectionId>, id: ConnectionId, frame: Frame,
                        channels: map<ConnectionId, Channel>, delivered: nat, slow: seq<ConnectionId>)
    requires id !in done && DeliveredTo(cfg, s, done, frame, channels, delivered, slow)
    requires Listening(s, id) && |s.channels[id].queue| < Capacity(cfg)
    ensures DeliveredTo(cfg, s, done + [id], frame, channels[id := Push(s.channels[id], frame)], delivered + 1, slow)
  {
    assert Elements(done + [id]) == Elements(done) + {id};
    AudienceGrows(cfg, s, Elements(done), id);
    PushOneMore(s.channels, Accepting(cfg, s, Elements(done)), id, frame);
  }

  lemma DeliveryFindsSlow(cfg: Config, s: HubState, done: seq<ConnectionId>, id: ConnectionId, frame: Frame,
                          channels: map<ConnectionId, Channel>, delivered: nat, slow: seq<ConnectionId>)
    requires id !in done && DeliveredTo(cfg, s, done, frame, channels, delivered, slow)
    requires Listening(s, id) && |s.channels[id].queue| >= Capacity(cfg)
    ensures DeliveredTo(cfg, s, done + [id], frame, channels, delivered, slow + [id])
  {
    assert Elements(done + [id]) == Elements(done) + {id};
    AudienceGrows(cfg, s, Elements(done), id);
    assert Elements(slow + [id]) == Elements(slow) + {id};
  }

  lemma PushOneMore(chs: map<ConnectionId, Channel>, ids: set<ConnectionId>, id: ConnectionId, frame: Frame)
    requires id in chs && id !in ids
    ensures PushAll(chs, ids + {id}, frame) == PushAll(chs, ids, frame)[id := Push(chs[id], frame)]
  {
  }
}
