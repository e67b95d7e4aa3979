# A verified model of the service's stateful components

The repository is a web service whose hard parts are stateful: a WebSocket hub
with mirrored indexes and bounded queues, a bridge that joins several hubs over
a lossy channel, a job queue with two storage backends and a bounded worker,
WebSocket sessions with an authorisation policy and a heartbeat, a cron runner,
an updater that replaces its own binary, a read-through user cache, and page
arithmetic. This project models them and proves what they keep over every run.

Code that changes things in place is modelled by classes and methods with loops
(`WsHub`, `ChannelBackend`, `DatabaseBackend`, `Session.Run`, `Scheduler`,
`ParseArgs`, `ReplaceBinary`, `UserService`), each proved against a
specification that does not share its structure. Concurrency is modelled by
transition systems in which one step is one critical section, one row lock, one
message movement or one cache access; theorems quantify over all finite runs.

| module | what it is |
|---|---|
| `Prelude`, `Sums`, `SubscriberIndex` | shared vocabulary, sums over maps, `key -> set of ids` |
| `HubModel`, `Hub` | the hub without indexes, and the hub class proved to be the same thing |
| `HubInterleaving` | the hub with every map critical section as a step of its own |
| `ClusterBridge` | N hubs over a lossy channel |
| `ClusterEquivalence`, `ClusterDelivery` | N hubs against one merged hub: what they fan out, what the channels receive |
| `RetryBackoff`, `JobQueue` | the backoff formula; both backends against one abstract queue |
| `ChannelWorker`, `ChannelProgress` | worker loop on the channel; when it can and cannot go on |
| `DatabaseLocking` | any number of workers on the jobs table |
| `WsPolicy`, `Session` | who may hold which topic; one session from start to teardown |
| `CronRunner` | firing against an arbitrary wall clock |
| `UpdaterArgs`, `BinaryReplacement` | the command line and its parser; file operations that may each fail |
| `UserCache`, `Pagination` | cache against table; pages against the list |

## What the proofs found

Properties one would expect that do not hold as such, each with the exact condition:

- **Dead ids in an index.** `subscribe` files the topic under the connection,
  releases it, and inserts into the topic index. An eviction in between leaves the
  id in the index until its session happens to unsubscribe; registration has the
  same gap on the user index, where nothing ever clears it (`OvertakenRegister`,
  `UserLeftoverStays`).
  `LeftoverIffOvertaken` gives the exact step, `OvertakenSubscribe` a whole run,
  and `SettledIffTakenBack` shows that once nothing is under way the maps mirror each
  other if and only if every such step was taken back by an unsubscribe. A leftover id receives nothing
  (`RemovedReceivesNothing`).
- **The connection limit is check-then-insert.** It holds in all runs with at most p
  registrations under way at once if and only if p is at most 1
  (`LimitHoldsIffNoRace`); in general it is exceeded by at most p - 1
  (`LimitsUnderRaces`), and that is reached for every limit and every p
  (`RacingRegistrations`).
- **A full job channel can deadlock.** A failing job waits for room while holding its
  permit. The worker is stuck if and only if the channel is full and every permit is
  held that way (`StuckIffJammed`); it then has exactly capacity plus concurrency
  unfinished jobs. Fewer can never get stuck (`NeverStuck`, `ExhaustedIffDone`), and
  that many can, for every capacity and concurrency (`FullChannelDeadlock`). Shutting
  down does not help (`JammedForEver`), and a draining worker is stuck under the
  condition of `DrainStuckIff`.
- **Both binaries can be lost.** `Update` is exact for every disk on which the old
  binary is whole in place or at the backup path, whatever else is there. It happens
  if and only if
  - the backup is removed as a stale one while what is in place is neither binary, as
    after an update that was stopped between its two renames or during its copy
    (`OnlyCopyIsRemoved`; nothing needs to fail but that update to be stopped); or
  - what is in place is not the old binary and is moved over the backup, which was
    not seen or not there (`FragmentIsBackedUp`); or
  - a copy writes over what is in place without the old binary at the backup path, as
    when the target was not seen (`UnseenTargetIsCopiedOver`); or
  - after a failure the restore puts back the backup of an earlier update, which could
    not be removed (`StaleBackupIsRestored`).
- **`backup_path` is not always another path.** It returns its argument exactly
  when the path has no file name (`BackupIsElsewhere`).
- **A stale cache entry.** A reader may fill the cache with a row it read before an
  update that has already invalidated the entry; and an update or deletion may end
  after its write and before its invalidation, by an error reported late or because
  its request is gone. `StaleIffLateOrSkipped` gives the exact step, and a run never
  has a lasting stale entry if and only if it has no such step (`NeverStaleIff`).
- **The two heartbeat settings depend on each other.** Clients that answer every ping
  are safe if and only if the heartbeat interval is at most the client timeout
  (`SafeIffHeartbeatWithinTimeout`); the code does not check that.
- **The page offset wraps.** `offset` multiplies in 64 bits, and `Cargo.toml` turns
  on no overflow checks for release builds, so a page far past the end can show the
  first rows (`WrappedPage`). `PagePastTheEnd` says exactly when a page past the
  end shows rows.

## Model

| member | source | states |
|---|---|---|
| Sums.ConverseTotals | src/infra/ws/hub.rs:27-28 | Two maps that are converses of each other (id to topics, topic to ids) hold equally many pairs |
| SubscriberIndex.AfterInsert | src/infra/ws/hub.rs:228 | Inserting lists one id under one key, changes no other membership and keeps the index free of empty entries |
| SubscriberIndex.AfterDetach | src/infra/ws/hub.rs:242-247 | Removing a member and then the emptied entry unlists exactly that id under that key and leaves no empty entry |
| HubModel.RegisterFields | src/infra/ws/hub.rs:137-171 | Refused if and only if the limit is set and reached; otherwise one new connection without topics and with an empty open channel, and every other connection, channel and counter as before |
| HubModel.SubscribeFields | src/infra/ws/hub.rs:213-230 | Unknown connections are refused, and topics not yet held once the limit is reached, nothing else; otherwise the topic joins those held and no other connection changes |
| HubModel.DispatchLands | src/infra/ws/hub.rs:299-376 | Where one event lands, connection by connection: subscribers of the topic, or sockets of the user, or all, anonymous ones included, gain exactly this frame if they have room, lose the connection if not, and nothing else changes |
| HubModel.DeliverFansOut | src/infra/ws/hub.rs:347-376 | A delivery is the fan-out stated by channel contents, connections, counters and the number delivered |
| HubModel.DeliverAppends | src/infra/ws/hub.rs:347-361 | A delivery adds the frame once, at the end, to the history of each target that has room and of nobody else, whatever it evicts |
| HubModel.StepAppends | src/infra/ws/hub.rs:137-376 | No operation loses or reorders a frame: each connection's history only gains the frame the operation offers it, if it listens and has room |
| HubModel.DeliverAddsUp | src/infra/ws/hub.rs:373-375 | The frames in all histories grow by the number of accepting connections |
| HubModel.StepCounts | src/infra/ws/hub.rs:373-375 | Every operation keeps the counter equal, in 64 bits, to the number of frames ever pushed |
| HubModel.StepKeepsChannels | src/infra/ws/hub.rs:147 | Every operation keeps each queue within max(send_buffer, 1) and every live connection provided with its channel |
| HubModel.StepKeepsLimits | src/infra/ws/hub.rs:141-144 | Performed atomically, every operation keeps the connection and topic limits, 0 meaning unlimited |
| HubModel.RunKeepsInv | src/infra/ws/hub.rs:137-376 | In every state of every run: queue bounds, limits and the sent counter |
| HubModel.SentIsAccountedFor | src/infra/ws/hub.rs:373-375 | Over any run messages_sent is, in 64 bits, the frames received plus queued plus discarded with their receiver |
| HubModel.ReceivedInPushOrder | src/infra/ws/hub.rs:351-361 | What a session has received only grows, and is always a prefix of what was pushed, in push order |
| HubModel.QueuesFitSendBuffer | src/infra/ws/hub.rs:147 | In every state of every run no queue holds more than send_buffer frames, or one where that is 0 |
| HubModel.EvictionsCounted | src/infra/ws/hub.rs:363-371 | Over any run slow_clients_dropped is, in 64 bits, the number of connections that deliveries removed |
| Hub.SubscriptionTotals | src/infra/ws/hub.rs:441-451 | In a mirrored state, subscriptions counted per connection equal subscriptions counted per topic |
| Hub.MirrorIsUnique | src/infra/ws/hub.rs:90-94 | The connections alone determine the topic index |
| Hub.RegisterMirrors | src/infra/ws/hub.rs:149-161 | Registering keeps both indexes mirrored |
| Hub.UnregisterMirrors | src/infra/ws/hub.rs:185-190 | Taking the connection out and detaching its user keeps the user index mirrored |
| Hub.SubscribeMirrors | src/infra/ws/hub.rs:225-228 | Filing the topic and listing the id keeps the topic index mirrored |
| Hub.WsHub.constructor | src/infra/ws/hub.rs:107-118 | A new hub is valid and empty |
| Hub.WsHub.Register | src/infra/ws/hub.rs:137-171 | Refused exactly at the limit, with no change; otherwise the new connection and an empty channel, indexes mirrored |
| Hub.WsHub.Unregister | src/infra/ws/hub.rs:174-197 | Whatever the detach loop's order, the hub is the same without that connection; idempotent; indexes mirrored |
| Hub.WsHub.Disconnect | src/infra/ws/hub.rs:203-205 | The same as unregistering |
| Hub.WsHub.Subscribe | src/infra/ws/hub.rs:213-230 | Unknown connection and topic limit are refused with no change; otherwise the topic is held, indexes mirrored |
| Hub.WsHub.Unsubscribe | src/infra/ws/hub.rs:233-238 | The topic is no longer held, nothing else changes, indexes mirrored; no error when it was not held |
| Hub.WsHub.DetachFromTopic | src/infra/ws/hub.rs:242-247 | Exactly one membership disappears and no empty topic stays |
| Hub.WsHub.Deliver | src/infra/ws/hub.rs:347-376 | The loop and the evictions after it amount to one scan: each listening target with room gets the frame, each full one is removed from all three maps, the count is returned and both counters move by what happened |
| Hub.WsHub.EvictSlow | src/infra/ws/hub.rs:363-371 | The collected connections disappear from all maps and are counted one by one |
| Hub.WsHub.Publish | src/infra/ws/hub.rs:255-259 | Every connection that holds the topic, anonymous or not, with its receiver open and room for a frame gains exactly this event; full ones are removed; no other channel or connection changes; the number delivered is returned and one frame is offered to the relay |
| Hub.WsHub.PublishToUser | src/infra/ws/hub.rs:263-272 | The same for exactly the connections of that user, and one frame offered to the relay |
| Hub.WsHub.Broadcast | src/infra/ws/hub.rs:277-281 | The same for every connection, and one frame offered to the relay |
| Hub.WsHub.SendTo | src/infra/ws/hub.rs:287-295 | Delivers to one connection, relays nothing, and answers whether the frame was queued |
| Hub.WsHub.PublishLocal | src/infra/ws/hub.rs:299-310 | The indexed fan-out equals a scan of the connections for those whose own set holds the topic: what each channel and connection becomes, and the number delivered; the relay is untouched |
| Hub.WsHub.PublishToUserLocal | src/infra/ws/hub.rs:312-326 | The indexed fan-out equals a scan for connections with that user id, stated the same way; the relay is untouched |
| Hub.WsHub.BroadcastLocal | src/infra/ws/hub.rs:328-332 | Delivery to all connections, stated the same way; the relay is untouched |
| Hub.WsHub.ForwardToCluster | src/infra/ws/hub.rs:380-398 | Without a bridge nothing; otherwise the frame is last in the relay queue or dropped because the queue is full |
| Hub.WsHub.TakeRelayed | src/infra/ws/cluster.rs:63 | The publish loop takes the oldest frame off the relay queue, and nothing else changes |
| Hub.WsHub.DispatchClusterFrame | src/infra/ws/hub.rs:402-410 | A peer's frame is delivered as the same event published here would be, and is never relayed |
| Hub.WsHub.ReceiveFrame | src/infra/ws/session.rs:92-107 | The oldest queued frame moves to the session, the others stay in order, no other channel changes |
| Hub.WsHub.CloseReceiver | src/infra/ws/session.rs:38 | Queued frames count as discarded once the session drops its end; connections are untouched |
| Hub.WsHub.SubscriberCount | src/infra/ws/hub.rs:420-422 | The index answers the number of connections whose own set holds the topic |
| Hub.WsHub.IsUserOnline | src/infra/ws/hub.rs:428-433 | True exactly when some connection belongs to the user |
| Hub.WsHub.Stats | src/infra/ws/hub.rs:441-461 | The loop counts authenticated connections and subscriptions; topics are those held by someone, and both ways to total the subscriptions agree |
| Hub.CopyIds | src/infra/ws/hub.rs:305 | The copied ids are those of the set, each once |
| Hub.DeliveryAccepts | src/infra/ws/hub.rs:355-356 | A target with room extends the delivery done so far by one accepted frame |
| Hub.DeliveryFindsSlow | src/infra/ws/hub.rs:357 | A full target extends the delivery done so far by one collected id |
| Hub.DeliverySkips | src/infra/ws/hub.rs:352-359 | An unknown or closed target changes nothing |
| Hub.IndexedTopicsAreHeld | src/infra/ws/hub.rs:65-67 | A topic exists in the index exactly while some connection holds it |
| Hub.OnlineIffListed | src/infra/ws/hub.rs:428-433 | In a mirrored state the user index lists a user exactly when one of its connections lives |
| Hub.StatsAll | src/infra/ws/hub.rs:441-461 | The finished counting loop equals the totals read off the connections and off the topic index |
| HubInterleaving.EveryRunKeepsInv | src/infra/ws/hub.rs:137-247 | Under every interleaving: live ids agree with the index except inside their own operation, empty entries are about to be dropped, only ids that existed are listed |
| HubInterleaving.LiveConnectionsAreMirrored | src/infra/ws/hub.rs:213-247 | A live connection with no operation on a key under way is listed under it exactly when it files it |
| HubInterleaving.OnlyOwnDetachUnlists | src/infra/ws/hub.rs:242-247 | A membership ends only by that id's own detach or eviction: dropping an emptied entry never loses a concurrent subscriber |
| HubInterleaving.EmptyEntriesAreTransient | src/infra/ws/hub.rs:243-246 | An empty subscriber set exists only while some detach is between its two steps |
| HubInterleaving.RemovedReceivesNothing | src/infra/ws/hub.rs:351-354 | Once removed, a connection never comes back and nothing more is pushed to it, whatever the indexes list |
| HubInterleaving.LeftoverIffOvertaken | src/infra/ws/hub.rs:216-228 | A dead id that nobody will detach appears if and only if an index insert comes after an eviction has passed over that key |
| HubInterleaving.LeftoverClearedOnlyByUnsubscribe | src/infra/ws/hub.rs:233-238 | Only an unsubscribe of the dead id from that topic takes such an id on its way out |
| HubInterleaving.LeftoverIffStands | src/infra/ws/hub.rs:213-247 | At every moment of every run the dead ids left over are exactly those of overtaken inserts that the session has not taken back by an unsubscribe |
| HubInterleaving.QuiescentMirror | src/infra/ws/hub.rs:23-30 | With nothing under way, the indexes mirror the connections if and only if no dead id is left over |
| HubInterleaving.MirroredIsTheHubs | src/infra/ws/hub.rs:87-94 | Being mirrored here is the representation invariant of the hub class, about the same connections and indexes |
| HubInterleaving.NoLeftovers | src/infra/ws/hub.rs:216-228 | A run without an overtaken insert leaves no dead id |
| HubInterleaving.SettledRunIsMirrored | src/infra/ws/hub.rs:137-247 | Such a run, once settled, has its indexes mirror the connections exactly, as the hub class requires |
| HubInterleaving.SettledIffTakenBack | src/infra/ws/hub.rs:137-247 | A settled run is mirrored if and only if every overtaken insert was taken back by an unsubscribe |
| HubInterleaving.OvertakenSubscribe | src/infra/ws/hub.rs:216-228 | A run that ends with nothing under way and a dead id in the topic index |
| HubInterleaving.OvertakenRegister | src/infra/ws/hub.rs:149-161 | A run that ends with nothing under way and a dead id in the user index |
| HubInterleaving.UserLeftoverStays | src/infra/ws/hub.rs:159-161 | However a run goes on, a dead id in the user index stays there |
| HubInterleaving.LimitsUnderRaces | src/infra/ws/hub.rs:141-157 | Under every interleaving the topic limit holds, and the connection limit is exceeded by less than the number of simultaneous registrations |
| HubInterleaving.RacingRegistrations | src/infra/ws/hub.rs:141-157 | For every limit and every number p of simultaneous registrations, a run that ends p - 1 connections over the limit |
| HubInterleaving.LimitHoldsIffNoRace | src/infra/ws/hub.rs:141-157 | The connection limit holds in all runs with at most p simultaneous registrations if and only if p is at most 1 |
| ClusterBridge.RelayIsTheHubs | src/infra/ws/hub.rs:380-398 | The bridge's relay queue, stripped of history tags, is the hub's |
| ClusterBridge.ChainKept | src/infra/ws/cluster.rs:58-173 | Every step keeps the serial numbers of one origin strictly increasing along dispatched, waiting and queued |
| ClusterBridge.InvKept | src/infra/ws/cluster.rs:58-173 | Every step of any node keeps frames genuine, relay queues bounded, own frames undispatched, and all chains increasing |
| ClusterBridge.RunKeepsInv | src/infra/ws/cluster.rs:58-173 | That invariant in every state of every run, with losses and reconnections anywhere |
| ClusterBridge.DispatchedWasPublishedElsewhere | src/infra/ws/cluster.rs:152-157 | Every frame ever dispatched at a node comes from another node and is one that node published: no own event comes back |
| ClusterBridge.DispatchedAtMostOnceInOrder | src/infra/ws/cluster.rs:152-157 | At each node, whatever is lost: no event is dispatched twice, and one origin's events in publication order |
| ClusterBridge.WorkShrinks | src/infra/ws/hub.rs:400-410 | Without a publish no step creates work and every frame movement removes some: the bridge is loop-free |
| ClusterBridge.BridgeRunsDry | src/infra/ws/hub.rs:400-410 | After the last publish the number of frame movements is bounded by the frames there were |
| ClusterEquivalence.RunIsComplete | src/infra/ws/cluster.rs:58-173 | In a run that loses nothing every published event is dispatched, waiting or queued, for each peer, in order |
| ClusterEquivalence.EveryHubGivenEverything | src/infra/ws/hub.rs:255-281 | At quiescence each hub was given each origin's events exactly, in order |
| ClusterEquivalence.AudienceOfMerged | src/infra/ws/hub.rs:299-332 | For all three scopes a socket is in the audience on its own hub exactly when it is on the merged hub |
| ClusterEquivalence.BridgedHubsActAsOne | src/infra/ws/hub.rs:402-410 | With nothing lost and fixed membership, each socket's own hub aims at it exactly the events of each origin that one merged hub would aim at it, and no other hub aims anything at it |
| ClusterDelivery.ActsDeliver | src/infra/ws/hub.rs:299-376 | While a socket's own connection stays as it is and it keeps up, whatever else its hub does in between (reads, other sockets joining, leaving, subscribing, being evicted), its channel gains exactly the events aimed at it, in order, without bound |
| ClusterDelivery.ConnectedIffKeepsUp | src/infra/ws/hub.rs:351-371 | The socket is still connected in the end if and only if its queue had room for one more each time an event aimed at it was handled |
| ClusterDelivery.BridgedHubsDeliverAsOne | src/infra/ws/hub.rs:402-410 | With nothing lost between the hubs, for every order in which events can have been handled and read, and any number of events: a socket that stays connected gains the same events as on the merged hub, each equally often, those of each origin in the same order |
| ClusterDelivery.MergedConnectionIsOwn | src/infra/ws/hub.rs:23-30 | A socket's connection on the hub holding every node's sockets is the one on its own hub |
| ClusterDelivery.RunHandsOut | src/infra/ws/cluster.rs:135-169 | In every run the events a hub handles, its own as they are published and others as they are dispatched, are in that order what it was given |
| ClusterDelivery.RunPublishes | src/infra/ws/hub.rs:255-281 | In every run what is published, in the order of the run, is everything, each origin's events in its own order |
| ClusterDelivery.BridgedRunDeliversAsOne | src/infra/ws/hub.rs:402-410 | So the equivalence holds of the orders a run itself gives: the hub as it handled its events, the merged hub as they were published |
| ClusterDelivery.CrossingIsLossless | src/infra/ws/cluster.rs:58-173 | An example: a broadcast relayed once, dropped by its origin as its own and dispatched by the peer is such a run |
| ClusterDelivery.CrossingDelivers | src/infra/ws/hub.rs:402-410 | In it the premises of the theorem above hold, and a socket on the peer receives and reads exactly the broadcast |
| RetryBackoff.DelayIsExact | src/infra/queue/worker.rs:112-126 | For every u64 base and u32 attempts from 1 the saturating formula is min(3600, base * 2^(attempts-1)) over unbounded numbers, and fits i64 |
| RetryBackoff.DelayDoubles | src/infra/queue/worker.rs:112-126 | The first delay is the configured one and each later one is twice the one before, both capped at 3600 s |
| RetryBackoff.DelayMonotone | src/infra/queue/worker.rs:114-117 | Later attempts never wait less |
| RetryBackoff.TotalDelayBound | src/infra/queue/worker.rs:112-126 | All delays of one job together stay within 3600 * (max_attempts - 1) |
| JobQueue.ChannelBackend.constructor | src/infra/queue/backends/channel.rs:25-32 | A new backend is the empty queue |
| JobQueue.ChannelBackend.Send | src/infra/queue/backends/channel.rs:37-42 | A send with room appends; without room the sender waits with its envelope; either way the job is queued |
| JobQueue.ChannelBackend.Unblock | src/infra/queue/backends/channel.rs:73-76 | A waiting sender moves in at the end once there is room; the abstract queue is unchanged |
| JobQueue.ChannelBackend.Enqueue | src/infra/queue/backends/channel.rs:37-42 | Adds one queued job to the abstract queue, last in the channel or waiting for room |
| JobQueue.ChannelBackend.PendingCount | src/infra/queue/backends/channel.rs:90-92 | Counts the queued jobs of the abstract queue but for those whose send still waits for room |
| JobQueue.ChannelBackend.Dequeue | src/infra/queue/backends/channel.rs:44-55 | None exactly when the channel is empty; otherwise the oldest envelope runs with one more attempt and is recorded in flight |
| JobQueue.ChannelBackend.Acknowledge | src/infra/queue/backends/channel.rs:57-60 | A running job completes; an unknown id changes nothing |
| JobQueue.ChannelBackend.Fail | src/infra/queue/backends/channel.rs:62-88 | A running job is sent again, last, exactly when a retry is asked for and attempts remain, else given up; an unknown id changes nothing |
| JobQueue.SelectEarliest | src/infra/queue/backends/database.rs:65-72 | The scan finds a due row with the earliest run_at, or none exactly when nothing is due |
| JobQueue.DatabaseBackend.Enqueue | src/infra/queue/backends/database.rs:29-57 | Adds one row with the type, payload, status, attempts, maximum, time and error of the envelope, and one queued job to the abstract queue; a duplicate id is an error and changes nothing |
| JobQueue.DatabaseBackend.PendingCount | src/infra/queue/backends/database.rs:161-174 | The scan counts the rows that wait and are due, each once: never more than the queued jobs, and all of them when none is scheduled later |
| JobQueue.DatabaseBackend.Dequeue | src/infra/queue/backends/database.rs:59-121 | None exactly when no waiting row is due; otherwise a waiting, due row with the earliest run_at of all waiting ones starts running with one more attempt, the envelope says field by field what the row says, and no other row changes |
| JobQueue.DatabaseBackend.Acknowledge | src/infra/queue/backends/database.rs:123-129 | The row completes and no other changes; an unknown id changes nothing |
| JobQueue.DatabaseBackend.Fail | src/infra/queue/backends/database.rs:131-159 | With a retry time the row is queued again for that time, without one it is given up and stamped; no other row changes; an unknown id changes nothing |
| JobQueue.EnqueueUntilTaken | src/infra/queue/backends/database.rs:29-121 | Whatever producers and workers do with other jobs in between, an enqueued job is given out as it was enqueued, with one more attempt and running, not before its time; and while it is due, no dequeue comes back empty or with a job scheduled later |
| JobQueue.SettleOnChannel | src/infra/queue/worker.rs:100-148 | The worker's treatment of an outcome, on the channel, is the abstract settling: completed, sent again with the error while attempts remain, or given up |
| JobQueue.SettleOnDatabase | src/infra/queue/worker.rs:100-148 | The same treatment, on the table, is the same abstract settling; the row becomes completed, or retrying with the error and due exactly the backoff later, or failed with the error and stamped; no other row changes |
| ChannelWorker.RunKeepsInv | src/infra/queue/worker.rs:42-163 | In every state of every run of loop, permits, channel and in-flight map the bookkeeping is consistent |
| ChannelWorker.EveryJobInOnePlace | src/infra/queue/backends/channel.rs:44-88 | Every enqueued job is in exactly one of channel, in-flight map, being re-sent, completed, failed |
| ChannelWorker.RunsAreBounded | src/infra/queue/worker.rs:111-136 | A job runs at most max(1, max_attempts) times, and exactly that often when it is given up |
| ChannelWorker.GuardsAgree | src/infra/queue/backends/channel.rs:68-69 | The backend's own attempts guard never disagrees with the worker's decision |
| ChannelWorker.PermitsAndDrain | src/infra/queue/worker.rs:42-82 | Free permits plus held permits equal the concurrency, so at most that many jobs run; once shutdown has returned nothing runs and nothing is in flight |
| ChannelWorker.StepRefinesQueue | src/infra/queue/worker.rs:71-161 | Every step of the worker on the channel is a step of the abstract queue or leaves it unchanged |
| ChannelWorker.WorkShrinks | src/infra/queue/worker.rs:71-149 | Without an enqueue no step creates work, and each step that moves a job removes some |
| ChannelWorker.WorkRunsOut | src/infra/queue/worker.rs:71-149 | After the last enqueue the number of steps that move jobs is bounded by the work there was |
| ChannelProgress.StuckIffJammed | src/infra/queue/worker.rs:51-162 | A polling worker with jobs or tasks left can get no further if and only if the channel is full and every permit is held by a task waiting for room in it; exactly capacity plus concurrency jobs are then unfinished |
| ChannelProgress.WaitingJobs | src/infra/queue/backends/channel.rs:62-88 | When no task executes or ends, the unfinished jobs are those in the channel and one for each task |
| ChannelProgress.NeverStuck | src/infra/queue/worker.rs:61-149 | While the worker polls and the unfinished jobs are fewer than capacity plus concurrency, a step that moves a job is enabled, at once or after taking a permit |
| ChannelProgress.ExhaustedIffDone | src/infra/queue/worker.rs:51-162 | With fewer unfinished jobs than capacity plus concurrency and nothing enqueued or shut down any more, a bounded number of working steps follows whatever the handlers answer, and none is left exactly when every job is completed or failed and every spawned task has ended |
| ChannelProgress.FullChannelDeadlock | src/infra/queue/backends/channel.rs:73-76 | For every capacity and every concurrency from 1: a run after which only shutdown can happen, with exactly capacity plus concurrency jobs unfinished, so the bound above is sharp |
| ChannelProgress.JammedForEver | src/infra/queue/worker.rs:52-59 | From such a state on nothing changes except that the worker may be told to shut down, and then it drains for ever |
| ChannelProgress.DrainStuckIff | src/infra/queue/worker.rs:52-59 | A draining worker with tasks left waits in vain if and only if the channel is full and every remaining task waits for room in it, at any concurrency |
| DatabaseLocking.RunKeepsInv | src/infra/queue/backends/database.rs:59-121 | With any number of workers, lock, update and commit as separate steps: locks, holders and attempts are consistent in every state |
| DatabaseLocking.NeverTwoWorkers | src/infra/queue/backends/database.rs:65-72 | No job is ever held by two workers |
| DatabaseLocking.AttemptsCountDequeues | src/infra/queue/backends/database.rs:88-96 | The attempts column equals the committed dequeues, never exceeds max(1, max_attempts), and equals it for a failed job |
| DatabaseLocking.OutcomesNeverWait | src/infra/queue/backends/database.rs:123-159 | Nobody has the row of a running job locked, so its outcome can always be written |
| DatabaseLocking.OutcomeFields | src/infra/queue/worker.rs:100-148 | A reported outcome completes the row, or makes it retrying with its error and the backoff, or failed and stamped, by the attempts left; no other row changes and the job is free |
| DatabaseLocking.DequeueTakesEarliest | src/infra/queue/backends/database.rs:65-72 | The chosen row is due and nobody has it; any due row with an earlier run_at is locked by an open transaction |
| DatabaseLocking.RunAtStays | src/infra/queue/backends/database.rs:139-148 | The time a job is due changes only by a failure of that job |
| DatabaseLocking.RetryIsNotEarly | src/infra/queue/worker.rs:112-126 | A job selected after a failure had attempts left, and is selected no sooner than the failure plus the backoff |
| DatabaseLocking.FailedStays | src/infra/queue/backends/database.rs:149-156 | A permanently failed job is never taken up again |
| DatabaseLocking.StepRefinesQueue | src/infra/queue/backends/database.rs:59-159 | Every committed step on the table is a step of the abstract queue, every other step leaves it unchanged |
| WsPolicy.AuthorizedIffMayHold | src/app/ws/policy.rs:80-109 | A subscription is allowed exactly for a non-empty topic that is public, or the user's own, or outside both prefixes for a signed-in user |
| WsPolicy.AuthorizedExactly | src/app/ws/policy.rs:80-109 | The decision with its prefixes spelled out: public topics always, any other non-empty topic when signed in, a user topic only if the id in it parses to the same user |
| WsPolicy.OwnTopicAfterConnect | src/app/ws/policy.rs:66-78 | After connecting, a signed-in connection holds its own user topic if there is room for it; what it held before stays, and an anonymous connection is left alone |
| WsPolicy.SubscribeKept | src/infra/ws/session.rs:200-207 | An allowed subscription keeps every held topic allowed, whether or not the hub accepts it |
| WsPolicy.UserTopicAllowed | src/app/ws/policy.rs:66-78 | The topic each signed-in connection is subscribed to at the start is one it may hold |
| WsPolicy.EventKeepsPolicy | src/app/ws/policy.rs:66-118 | Every event, from connecting to eviction, keeps every held topic allowed |
| WsPolicy.PolicyHoldsThroughout | src/app/ws/policy.rs:66-118 | In every reachable state an anonymous connection holds only public topics and a user topic is held only by its user |
| WsPolicy.UserTopicReachesOnlyTheUser | src/app/ws/policy.rs:90-100 | In every reachable state the audience of user.&lt;id&gt; lies within the sockets of that user |
| WsPolicy.ClientsCannotPublish | src/app/ws/policy.rs:111-118 | No client frame pushes anything to any queue, moves a counter, or changes any other connection |
| Session.HandleText | src/infra/ws/session.rs:181-232 | The hub ends as the frame prescribes; each reply and each of the four error codes is given exactly in its case, a confirmation confirms what holds, an error means no change, and only an authorised publish goes unanswered |
| Session.ApplyOnConnect | src/app/ws/policy.rs:66-78 | A signed-in connection is subscribed to its own topic; a refusal is ignored |
| Session.Run | src/infra/ws/session.rs:34-177 | Whatever other threads and the bridge do to the hub in between: every way out leaves the id in no map and its receiver closed; on_disconnect happens once exactly when the loop was entered; the loop ends on the first input that must end it and gives that reason; the final hub and its relay queue are those the inputs prescribe; no frame of its queue is lost or reordered; the policy invariant is kept; and undisturbed, it touches nobody else; it ends for idleness on exactly the first tick at which no frame of any kind, pongs included, came within the timeout, and never for a client that answers every ping in time |
| Session.Loop | src/infra/ws/session.rs:89-170 | The loop stops at the first input that ends it, with the reason derived from the inputs alone, and leaves the hub and its relay queue as the inputs up to there prescribe, other threads' operations among them |
| Session.Take | src/infra/ws/session.rs:90-168 | Each input has exactly its effect on the hub and on the relay queue |
| Session.ActElsewhere | src/infra/ws/hub.rs:137-332 | The operation of another session, of the server or of the bridge changes the hub and the relay queue as it would without this session |
| Session.InputsKeep | src/infra/ws/session.rs:89-170 | Over any inputs: the connection keeps its user, its frames stay in order, held topics stay allowed, and undisturbed it concerns nobody else |
| Session.InputFields | src/infra/ws/session.rs:90-168 | Relaying takes exactly the head of the queue; control frames, binary frames and ticks leave the hub as it is |
| Session.EndsFor | src/infra/ws/session.rs:89-170 | Which inputs end the session with which reason, in both directions, by kind of input alone |
| Session.SilentIffLastSeen | src/infra/ws/session.rs:124 | The time the loop keeps is that of the latest frame of any kind: it lies before a moment if and only if no text, binary, ping, pong or close frame came since |
| Session.PongsKeepOpen | src/infra/ws/session.rs:149-163 | With ticks on time and a pong between any two of them, a session whose heartbeat is within the timeout is never closed for idleness |
| Session.OutcomeReapsWhenSilent | src/infra/ws/session.rs:152-163 | An outcome is a heartbeat timeout if and only if its input is the first tick at which the client had been silent for longer than the timeout |
| Session.EvictedWasRemoved | src/infra/ws/session.rs:99-106 | A session that is told the hub closed it was removed from the hub by another thread while it was running |
| Session.Serve | src/infra/ws/session.rs:89-174 | Loop and teardown together: ended, the id is forgotten and the hub is that of the inputs taken, torn down; still open, it has met no input that ends it |
| Session.TearDown | src/infra/ws/session.rs:172-174 | After the teardown the id is in no map of the hub, unread frames count as discarded, and nobody else notices |
| Session.RegularClientIsNotReaped | src/infra/ws/session.rs:152-163 | A client whose frames come at most the timeout apart is not closed for idleness before its last frame |
| Session.SilentClientIsReapedInTime | src/infra/ws/session.rs:152-163 | The tick that closes a silent session comes after the timeout and within one heartbeat interval of it, when ticks come on time |
| Session.OpenSessionHasNoLateTick | src/infra/ws/session.rs:152-163 | A session that is still open has seen no tick later than its client's last frame plus the timeout |
| Session.LateTickMeansReaped | src/infra/ws/session.rs:152-163 | If a tick comes later than that, some tick up to it closes a session nothing else has closed, within one heartbeat interval of the timeout |
| Session.SafeIffHeartbeatWithinTimeout | src/infra/ws/session.rs:53-61 | No client that is heard of between any two ticks, as by its pongs, is ever closed for idleness if and only if the heartbeat interval is at most the client timeout, both at least one second |
| Session.ClosedBeforeAnyPing | src/infra/ws/session.rs:152-167 | With a longer interval the first tick on time closes every client that has sent nothing, before any ping is sent |
| Session.TextKeepsPolicy | src/infra/ws/session.rs:196-228 | Handling any text frame keeps the policy invariant and the connection's user |
| Session.TextOnlyConcerns | src/infra/ws/session.rs:196-228 | A text frame changes nothing of any other connection and nothing in any queue |
| Session.ConnectKeepsPolicy | src/app/ws/policy.rs:66-78 | The subscription made on connecting keeps the policy invariant and the connection's user |
| CronRunner.Scheduler.constructor | src/infra/scheduler/runner.rs:25-51 | The jobs are exactly the entries with an upcoming occurrence, in order, each waiting for the first one |
| CronRunner.Register | src/infra/scheduler/runner.rs:27-48 | The filtering loop keeps exactly the entries with an occurrence after now, in order, each with that occurrence as its slot |
| CronRunner.RegisteredWaitsForNext | src/infra/scheduler/runner.rs:29-38 | A registered job first waits for an occurrence of its schedule later than now, and none lies between |
| CronRunner.Scheduler.Wait | src/infra/scheduler/runner.rs:66-77 | The sleep is never negative, never over 3600 s, never past any job's slot, and short of 3600 s only because some job is due then |
| CronRunner.Scheduler.FireDue | src/infra/scheduler/runner.rs:87-110 | One pass fires exactly the due jobs, in order; each of them then waits for its next occurrence after the time read, or for 52 * 100 weeks if there is none, and no other changes |
| CronRunner.DueInOrder | src/infra/scheduler/runner.rs:87-95 | One pass fires no job twice, and in the order of registration |
| CronRunner.Scheduler.Run | src/infra/scheduler/runner.rs:54-112 | For any clock readings the dispatches are those of the slot history defined beside it, and every sleep asked for ends no later than any slot still to come |
| CronRunner.LogContents | src/infra/scheduler/runner.rs:87-95 | A dispatch is in the log if and only if its job's slot at that pass was due at the reading taken then |
| CronRunner.FiresOnceAndOnTime | src/infra/scheduler/runner.rs:97-100 | Whatever the clock does, no job fires before its slot and after a firing every later slot lies past that reading: slots strictly increase, none fires twice |
| CronRunner.FiresOnTheDot | src/infra/scheduler/runner.rs:64-95 | While the sleeps take no longer than asked for and the clock makes no jumps, from registration on, every firing is read at exactly its slot |
| CronRunner.SkippedOnlyWhenLate | src/infra/scheduler/runner.rs:97-100 | Every occurrence passed over lies between a fired slot and the time read at that firing |
| CronRunner.SlotsAreOccurrences | src/infra/scheduler/runner.rs:99-100 | Until a schedule is exhausted every slot is an occurrence of it |
| CronRunner.SlotsFromRegistration | src/infra/scheduler/runner.rs:25-110 | From registration on, until the schedule is exhausted, every slot is an occurrence of it |
| CronRunner.ExhaustedRests | src/infra/scheduler/runner.rs:101-108 | An exhausted job does not fire again for 52 * 100 weeks of the clock |
| UpdaterArgs.ParseArgs | src/bin/updater.rs:103-157 | The index loop computes the left-to-right reading of flag and value pairs, with its errors |
| UpdaterArgs.DecimalRoundTrip | src/infra/updater/mod.rs:189 | Reading a printed number gives it back; the text is never empty and starts with a digit |
| UpdaterArgs.PidRoundTrip | src/bin/updater.rs:133-137 | Every u32 survives printing and parsing |
| UpdaterArgs.ScanReadsPairs | src/bin/updater.rs:110-148 | A list of flag and value pairs, whatever comes after it, is assigned in order, even where values look like flags |
| UpdaterArgs.LastValueWins | src/bin/updater.rs:112-146 | Of repeated flags the last value counts; absent ones keep their default |
| UpdaterArgs.FirstFaultIsReported | src/bin/updater.rs:110-148 | After any well-formed pairs: an unknown argument, a flag without its value and a pid that is no number are reported as such |
| UpdaterArgs.WhatMayBeLeftOut | src/bin/updater.rs:150-156 | Zip path, target path and binary name are required, and asked for in that order; pid and mode default to 0 and supervisor |
| UpdaterArgs.NumbersAreDigits | src/bin/updater.rs:136 | A number is read exactly from a non-empty run of digits |
| UpdaterArgs.CommandLineRoundTrip | src/infra/updater/mod.rs:195-205 | Parsing the printed command line, its pairs in any order or repeated, returns the same paths, name, pid and mode |
| BinaryReplacement.BackupIsElsewhere | src/bin/updater.rs:255-263 | The backup path is the target with .bak appended; it equals the target exactly when there is no file name |
| BinaryReplacement.BackUp | src/bin/updater.rs:266-276 | Succeeds exactly when the stale backup, if seen, goes away and the target, if there and seen, is moved; for any contents counted as the old binary, it is whole somewhere at every moment unless its only copy is removed as a stale backup or something else is moved over it; says what then lies where |
| BinaryReplacement.Install | src/bin/updater.rs:278-293 | Whatever fails, from a disk with a usable binary, one is usable at every moment if and only if the backup is the old binary or no copy writes over the target; succeeds exactly when the move or the copy and every later operation does; what it installs is executable; a refusal changes nothing, and a copy passes through its fragment |
| BinaryReplacement.CopyIn | src/bin/updater.rs:280-283 | The fallback alone: success exactly when the copy is whole and the original goes away, and the exact condition for a usable binary at each of its moments |
| BinaryReplacement.CleanUp | src/bin/updater.rs:295-298 | The backup is removed only with the new binary in place, and failing to is no failure |
| BinaryReplacement.ReplaceBinary | src/bin/updater.rs:265-301 | For every disk and every contents counted as the old binary that are whole in place or at the backup path: exactly when it succeeds, and the exact condition for a usable binary at every moment; success takes a backup of what is seen, a move or a whole copy, and the permission bits read and set, and leaves the new binary executable at the target and no other copy of it; says what lies where after a failure |
| BinaryReplacement.Update | src/bin/updater.rs:61-70 | With the restore, for every disk on which the old binary is whole at either place, so for any that an earlier update left wherever it stopped: the exact condition under which both binaries are lost at some moment; what is put back and when; when the loss is for good; a copy passes through the disk with a fragment in place and the old binary at the backup path only; no other file is touched; success means that every operation it needs worked and the new binary is executable; a failure after the backup, with a working restore, puts the old binary back, executable if it was; without a stale backup and with the target seen, a binary is usable at every moment |
| BinaryReplacement.UnseenTargetIsCopiedOver | src/bin/updater.rs:274-283 | On every disk with a target and no stale backup an update that succeeds in the end can at some moment have neither binary, the target not having been seen |
| BinaryReplacement.StaleBackupIsRestored | src/bin/updater.rs:62-70 | On every disk with a target and the backup of an earlier update the restore can replace the target by it |
| BinaryReplacement.OnlyCopyIsRemoved | src/bin/updater.rs:268-283 | On every disk that a stopped update has left with the old binary at the backup path only, with nothing or a fragment in place, the next one removes that copy, with every operation working; should the install then be refused, for good |
| BinaryReplacement.FragmentIsBackedUp | src/bin/updater.rs:268-276 | On such a disk with a fragment in place, an update that does not see the backup moves the fragment over it |
| UserCache.UserService.constructor | src/app/services/user_service.rs:79-82 | An empty cache agrees with an empty table |
| UserCache.UserService.FindById | src/app/services/user_service.rs:110-134 | Answers exactly what an uncached read would, field by field, or a database error on a miss when the database fails, and caches the answer under this user's key only |
| UserCache.UserService.Create | src/app/services/user_service.rs:138-158 | Adds exactly one row when the insert is made, even if an error is then reported, and nothing otherwise; the cache needs no invalidation |
| UserCache.UserService.Update | src/app/services/user_service.rs:160-182 | When the update is made, the row has the new name if one was given, its old one if not, and the new time, and nothing else changes; the answer says the same; invalidates exactly on success; every error says its cause; the cache stays right if and only if the call does not end in an error after a change that makes an existing entry wrong |
| UserCache.UpdateThenFind | src/app/services/user_service.rs:110-182 | A read after a successful update finds the new name and time; after a failed one without effect, the old |
| UserCache.UserService.Delete | src/app/services/user_service.rs:184-196 | Removes the row and its cache entry, nothing else; the early return without invalidation is harmless, for no entry is there; the cache stays right unless the deletion is made but an error reported while there is an entry |
| UserCache.UserService.Expire | src/app/services/user_service.rs:113-119 | Losing any entry at any moment keeps the cache in agreement |
| UserCache.KeysDiffer | src/app/services/user_service.rs:84-86 | Different users have different cache keys |
| UserCache.PastWasPresent | src/app/services/user_service.rs:110-196 | Whatever the history records for a user was its row at some earlier moment |
| UserCache.AnswersWereTrueOnce | src/app/services/user_service.rs:110-134 | With calls split into single accesses of cache and table and interleaved, every value returned was the row's value at some earlier moment |
| UserCache.StaleIffLateOrSkipped | src/app/services/user_service.rs:110-196 | An entry goes stale with no invalidation coming if and only if a reader fills in an outdated row after the invalidation, or the last writer under way ends without invalidating a wrong entry |
| UserCache.LateFillWasOvertaken | src/app/services/user_service.rs:121-131 | Over a run, a late fill is that of a reader between whose read of the row and whose fill the row was written or deleted |
| UserCache.NeverStaleIff | src/app/services/user_service.rs:110-196 | A run never has a lasting stale entry if and only if it has no step of either kind |
| UserCache.NoLateFillsNoStaleEntries | src/app/services/user_service.rs:110-196 | In particular no state of a run without such steps has one |
| UserCache.LateFillExample | src/app/services/user_service.rs:121-131 | A run that ends with every call complete and an outdated name in the cache |
| UserCache.SkippedExample | src/app/services/user_service.rs:176-179 | A run without interleaving that ends with every call over and an outdated name in the cache, because an update ended after its write |
| Pagination.PagesBound | src/app/http/pagination.rs:54-58 | total_pages is the least number of pages that hold all rows |
| Pagination.CeilingBounds | src/app/http/pagination.rs:54-58 | The pages hold all rows and less than one page more |
| Pagination.DefaultsAndClamps | src/app/http/pagination.rs:20-29 | No page or page 0 means page 1; no page size means 20, 0 means 1, more than 100 means 100, anything else is taken as given |
| Pagination.FirstPageByDefault | src/app/http/pagination.rs:20-34 | Without parameters the first 20 rows are shown |
| Pagination.ExistingPage | src/app/http/pagination.rs:32-34 | On every existing page the offset is below the total, does not wrap, and all pages but the last are full |
| Pagination.PagesPartitionTheList | src/app/services/user_service.rs:90-108 | Pages 1 to total_pages, one after the other, are the list |
| Pagination.PagePastTheEnd | src/app/http/pagination.rs:32-34 | A page past the end shows rows if and only if its true offset lies within the list's length of a positive multiple of 2^64 |
| Pagination.WrappedPage | src/app/http/pagination.rs:32-34 | A page number whose offset wraps to 0 shows the first two rows |

## Left out

- Redis, MySQL, actix, tokio and DashMap internals: only their step-level effect is modelled (a queue send or receive, a row lock, a lossy publish, a timer tick, a map critical section).
- Serialisation: JSON encoding is taken to be total and injective, so publishing never fails to serialise; unreadable bridge frames are a step of their own.
- Fairness: the transition systems say what can happen and bound how much; they do not say that an enabled step is eventually taken.
- Queue faults: handler panics, process crashes, connection errors of the database and rows that do not decode are assumed away; job handlers end in success or an error.
- The creation time of a job: it is stored and handed on unread.
- ChannelProgress.StuckIffJammed: capacity and concurrency are at least 1. A channel of capacity 0 cannot be made (the original's constructor panics), and a worker without permits never takes a job.
- DatabaseLocking.RetryIsNotEarly: time is one exact clock. The column run_at keeps milliseconds, so a stored retry time may be up to half a millisecond early, and NOW() is the clock of the database, which may differ from the worker's.
- Column widths of attempts and max_attempts (i32 in the table, u32 in the envelope): attempts are unbounded numbers.
- Session.Run: operations of other threads happen between two inputs, each as a whole; their single critical sections are the subject of HubInterleaving.
- Session.Run: the text of close frames and error replies and the contents of the welcome message are not modelled.
- ClusterDelivery.BridgedHubsDeliverAsOne: the socket's own connection and subscriptions stay as they are, and it is not evicted; direct sends to it are not counted, as they never cross the bridge.
- HubInterleaving.EveryRunKeepsInv: a delivery is modelled as separate pushes to single connections, counted rather than kept in order; the order of frames is the subject of HubModel.
- Time stamps of connections (connected_at), tracing output, and the node id and cluster flag of the statistics.
- BinaryReplacement.Update: where the old binary is whole at neither place, nothing is claimed about losing it. Source, target and backup are three different paths, and path components are valid text; extraction, waiting for the old process and starting the new one are not part of it.
- BinaryReplacement.Update: of the permissions only the executable bit is modelled, which a rename or a copy takes along; the moments at which a binary is usable are about contents, so a process stopped between moving the new binary in and setting its bit leaves it there without. The build for other systems, which sets no bit, is left out.
- CronRunner.SlotsAreOccurrences: says nothing after the sentinel set 52 * 100 weeks ahead has been used; cron expressions themselves are an uninterpreted next-occurrence function.
- CronRunner.Scheduler.Run: dispatching a due job is recorded as an attempt; a payload that fails to build or enqueue is logged by the original and changes nothing here.
- UserCache.UserService.Create: the row id is supplied by the caller of the model and is fresh; e-mail uniqueness and password hashing show only as an insert that may fail. Each method is described from a cache that is right; how a wrong one arises is stated, how long it lasts depends on expiry.
- Pagination.PagesPartitionTheList: the row list is fixed while the pages are read; the query itself has no ordering clause, so the database is taken to list rows in one order.
- HTTP handlers, login, tokens, rate limiting, mail, configuration loading, installers, log clean-up, observability and the periodic update check: input and output plumbing, or facts that one reading of the code shows.
