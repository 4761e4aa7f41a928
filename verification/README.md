# VhyxVoid: a verified model of the tunnel

VhyxVoid exposes a program on a developer's machine under a public host name.
A *hub* accepts browsers and SDK clients, an *agent* on the developer's machine
keeps a WebSocket to the hub, and a small protocol ties the two together. This
project models the parts of that system in which something can go wrong
between two correct lines of code, and proves what they guarantee.

* `Subdomains`: the promise-chain lock in front of Redis. Every Redis command
  is a step of its own, may be dropped, and may succeed while its caller sees
  an error.
* `Agents`, `PendingRequests`, `TunnelSockets`: the hub's three registries.
  `HubMachine` puts them together as a state machine whose steps are the
  stretches of handler code between two `await`s; `HubProperties` states what
  holds in every run, `Ownership` who owns a relayed WebSocket, `HubRuns` the
  runs in which conditions fail; `HubServer` shows that the handlers, written
  over the registry objects, take exactly those steps. `Settlements` says which
  callback every step runs, `Heartbeats` when an agent is dropped, and `Routing`
  composes the hub with the subdomain registry.
* `RequestAuth`, `Canonical`: signed requests, their replay window and the
  encoding that is signed.
* `Batching`, `Framing`, `AgentLink`, `Queueing`: the agent's way of getting
  messages out: batcher, frame text, in-memory hold, durable queue and replay.
* `CacheKeys`, `ResponseCaching`: the agent's response cache, compared with a
  map that has no bound, no expiry and no digests.
* `PublicLimiter`, `KeyLifecycle`, `Slugs`, `SlugWords`: limits and metering of
  public traffic, agreement of handshake and sweep about a key, host names, and
  what a slug keeps of a name.

Where the original changes state step by step there is a class whose methods
are proved equal to a step of the corresponding state machine, and the lemmas
are about runs of that machine. Clocks, random draws, hashes, plan lookups and
network replies are parameters or events.

## What turned out not to hold as one would first state it

Each of these is stated as an if-and-only-if, and a lemma gives inputs or a
whole run, from the start, in which the condition fails.

* **Empty labels.** The wire format does not exclude an empty tunnel label
  (packages/protocol/src/serializer.ts:26-51), and `find` takes it to mean any
  agent of the account. A registration with an empty label can therefore exceed
  the plan's limit (`HubProperties.OverflowIff`, `HubRuns.OverflowRun`), end the
  connections of an agent that stays registered under another label
  (`Ownership.ForeignCloseIff`, `HubRuns.ForeignCloseRun`), and drop the holder
  of the empty label while its connections stay (`Ownership.OrphanedIff`,
  `HubRuns.OrphanRun`).
* **Downgrades.** A label already held is refused exactly if the account is over
  the limit already, which a smaller plan can cause
  (`HubProperties.HeldLabelRefusedIff`, `HubRuns.DowngradeRun`).
* **Two labels on one socket.** The second hides the first session from the
  socket's own close (`Agents.RegisterKeepsAgreeIff`, `HubRuns.SecondLabelRun`).
* **Connections without an owner.** Besides empty labels, heartbeat eviction and
  the sweep of a stale snapshot drop an agent and leave its connections; nothing
  else does (`Ownership.OwnersLiveStep`, `Ownership.AlwaysOwnedIff`,
  `Ownership.SweepIsExactIff`, `HubRuns.SilentRun`, `HubRuns.StaleSweepRun`).
* **Reused request ids.** The earlier request is never answered, and its timer
  settles the later one (`PendingRequests.NothingLostIff`,
  `PendingRequests.ReusedIdRun`).
* **Late registers.** The subdomain entry names a reconnecting agent exactly if
  its register was issued after the old agent's; the old one follows an awaited
  database write and may come last (`Subdomains.ReconnectRace`,
  `Subdomains.LateRegisterRun`).
* **Replay.** The bound depends on the time between timestamp check and record
  (`RequestAuth.SafeIff`, `RequestAuth.ReplayRun`).
* **Credential text.** A request can pose as another caller with plain headers
  exactly if its own credential headers hold a line break, or a name with "=",
  and their text reads as sorted credential headers (`CacheKeys.SharedKeyIff`,
  `CacheKeys.AuthorizationAndCookie`, `CacheKeys.EqualsSignCollides`). Conversely,
  the key of every request with two or more credential headers is also the key
  of some request that is not plain; a request without credentials shares its
  key with none, and one with a single credential exactly if its line has
  another reading (`CacheKeys.AnySharedKeyIff`). Headers of SDK requests reach
  the cache as they came over the wire.
* **Question marks.** A path that itself holds a "?" can share its cache key with
  another path and query (`CacheKeys.SameUrlIff`).
* **Stale entries.** Once all calls were carried out, a label's subdomain entry is
  right exactly if the last register call issued on its key was the holder's or,
  for a label nobody holds, was withdrawn afterwards. Heartbeat and sweep
  withdraw nothing (`Routing.RoutedRightIff`, `Routing.SilentEntryRun`).
* **Slugs.** `slugify` promises no trailing hyphen but cuts at 32 characters
  after it has stripped hyphens (`Slugs.SlugifyValidIff`,
  `Slugs.TrailingHyphen`); the code is followed. `isValidSlug` admits a double
  hyphen; the host name of such a slug is not read back, and exactly such slugs
  can share a key with a shorter one (`Slugs.HostRoundTripIff`,
  `Slugs.DoubleHyphenCollidesIff`).

## Model

| member | source | states |
|---|---|---|
| `Subdomains.Serializable` | apps/hub/src/services/SubdomainRegistry.service.ts:37-79 | in every state of every interleaving, with commands that fail before or after taking effect: at most one call per key is inside its Redis steps, the stored entries are those of running the finished calls one at a time in call order, and no lock is left once all calls are released |
| `Subdomains.InvNext` | apps/hub/src/services/SubdomainRegistry.service.ts:37-79 | every step (call issued, begun, Redis command, clean-up) keeps the chain of promises per key and the equality with the serial execution |
| `Subdomains.SerialAbsorbs` | apps/hub/src/services/SubdomainRegistry.service.ts:37-49 | a call finishing now has the same effect as if it had run at its place in call order, because later finished calls are on other keys |
| `Subdomains.MutualExclusion` | apps/hub/src/services/SubdomainRegistry.service.ts:37-49 | two calls on one key that are inside their Redis steps are the same call |
| `Subdomains.Progress` | apps/hub/src/services/SubdomainRegistry.service.ts:37-49 | no deadlock: while a call is not released some step is possible |
| `Subdomains.EveryRunSettles` | apps/hub/src/services/SubdomainRegistry.service.ts:37-49 | without new calls a run is no longer than the work left, and where it cannot go on every call is released and every lock gone |
| `Subdomains.NoForeignDelete` | apps/hub/src/services/SubdomainRegistry.service.ts:71-79 | although read and delete are separate steps, an entry is only ever removed by an unregister for the very agent it names |
| `Subdomains.SerialKeeps` | apps/hub/src/services/SubdomainRegistry.service.ts:52-79 | an applied register survives every later unregister for another agent |
| `Subdomains.SerialStaysOther` | apps/hub/src/services/SubdomainRegistry.service.ts:52-79 | a key that was written for another agent does not come to name this one without a register |
| `Subdomains.ReconnectRace` | apps/hub/src/services/SubdomainRegistry.service.ts:52-79 | once the writes of both registers were executed, and with any calls between them and any unregister calls for agents other than the successor after them, the entry names the successor if and only if its register was issued second |
| `Subdomains.LateRegisterRun` | apps/hub/src/router/Message.router.ts:317-337 | a run in which the old agent's register is issued last and the entry ends naming the old agent |
| `Routing.EntryIff` | apps/hub/src/services/SubdomainRegistry.service.ts:52-79 | when all calls on a key were carried out, there is an entry if and only if some register call stands (issued after every other, and no unregister for its agent after it), and it is that call's entry |
| `Subdomains.SubdomainRegistry.WithLock` | apps/hub/src/services/SubdomainRegistry.service.ts:37-49 | a new call queues behind the tail of its key and becomes the tail |
| `Subdomains.SubdomainRegistry.RedisReplies` | apps/hub/src/services/SubdomainRegistry.service.ts:54-78 | one Redis command and what the call does with its reply is one step, and keeps the invariant |
| `Subdomains.SubdomainRegistry.Unlock` | apps/hub/src/services/SubdomainRegistry.service.ts:45-47 | the clean-up forgets the lock only if no later call has taken the tail |
| `Subdomains.SubdomainRegistry.Resolve` | apps/hub/src/services/SubdomainRegistry.service.ts:93-95 | reading without the lock sees a state of the serial execution |
| `Agents.RegisterLive` | apps/hub/src/registry/Agent.registry.ts:154-177 | after a registration exactly the new session and those not holding its label are live |
| `Agents.EvictLive` | apps/hub/src/registry/Agent.registry.ts:179-189 | after an eviction exactly the sessions not holding the label are live |
| `Agents.RegisterKeepsSound` | apps/hub/src/registry/Agent.registry.ts:154-177 | with a fresh agent id, `byAgentId` stays exactly the live sessions and `byWs` never names one that is not live, whatever the socket |
| `Agents.EvictKeepsSound` | apps/hub/src/registry/Agent.registry.ts:179-189 | eviction keeps both, leaves no empty account, and keeps full agreement |
| `Agents.RegisterKeepsAgreeIff` | apps/hub/src/registry/Agent.registry.ts:154-177 | the three maps go on describing the same sessions exactly if the socket serves no other label |
| `Agents.SecondLabelHidesTheFirst` | apps/hub/src/registry/Agent.registry.ts:176-176 | after a second label, closing the socket leaves the first session live and unreachable by socket |
| `Agents.CountAfterRegister` | apps/hub/src/registry/Agent.registry.ts:154-177 | a registration adds one to the account's count unless it replaces a label |
| `Agents.AgentRegistry.Add` | apps/hub/src/registry/Agent.registry.ts:154-177 | `register` in place is the specified registration and keeps the maps sound |
| `Agents.AgentRegistry.Remove` | apps/hub/src/registry/Agent.registry.ts:179-189 | `evict` in place is the specified eviction and returns whoever held the label |
| `Agents.AgentRegistry.Find` | apps/hub/src/registry/Agent.registry.ts:191-196 | a label is looked up; an empty one yields some agent of the account |
| `Agents.AgentRegistry.AllSessions` | apps/hub/src/registry/Agent.registry.ts:212-216 | lists every live session exactly once |
| `PendingRequests.InvApply` | apps/hub/src/registry/Pending.registry.ts:25-72 | enqueue, response, error, timer, disconnect and waiting keep every request in exactly one place, pending ones with an armed timer whose deadline has not passed |
| `PendingRequests.ExactlyOnce` | apps/hub/src/handlers/HttpTunnel.handler.ts:222-267 | in every run with fresh ids each request is pending before its deadline or has run exactly one callback, by its deadline |
| `PendingRequests.NothingLostIff` | apps/hub/src/registry/Pending.registry.ts:25-38 | no request is overwritten exactly if no id is reused while pending |
| `PendingRequests.LostForEver` | apps/hub/src/registry/Pending.registry.ts:25-58 | an overwritten request is never answered; all others still settle once |
| `PendingRequests.ReusedIdRun` | apps/hub/src/registry/Pending.registry.ts:25-38 | for any two requests with one id, a run in which the second is timed out by the first one's timer |
| `PendingRequests.Conservation` | apps/hub/src/registry/Pending.registry.ts:25-72 | enqueued = pending + resolved + rejected + overwritten in every reachable state |
| `PendingRequests.CallbackIff` | apps/hub/src/registry/Pending.registry.ts:40-72 | what one event does to one request's callbacks: a response for its id resolves it, an agent error rejects it with that error's code, the disconnect of its own agent and its timer reject it as such; any other event, and any event for a request that is not pending, runs nothing |
| `PendingRequests.EntersPending` | apps/hub/src/registry/Pending.registry.ts:25-38 | a new request is pending, with nothing called yet |
| `PendingRequests.SettledStays` | apps/hub/src/registry/Pending.registry.ts:40-58 | a request that was called back is never called again |
| `PendingRequests.CallbackTellsEvent` | apps/hub/src/registry/Pending.registry.ts:40-72 | over whole runs: a settled request was settled by one event, resolved if and only if that was a response for its id, and rejected with a code only by an error with that code, its agent's disconnect or a timer |
| `PendingRequests.PendingRegistry.Add` | apps/hub/src/registry/Pending.registry.ts:25-38 | `enqueue` in place is the specified event |
| `PendingRequests.PendingRegistry.Finish` | apps/hub/src/registry/Pending.registry.ts:40-58 | `resolve` and `reject` run one callback of a known id, clear its timer, and say whether the id was known |
| `PendingRequests.PendingRegistry.RejectAllForAgent` | apps/hub/src/registry/Pending.registry.ts:60-72 | the loop settles exactly the requests of that account and label, and counts them |
| `PendingRequests.PendingRegistry.Expire` | apps/hub/src/router/Message.router.ts:560-594 | a firing timer rejects whatever request has its id now |
| `TunnelSockets.AddKeepsAgreeIff` | apps/hub/src/registry/TunnelWs.registry.ts:57-65 | the two maps stay in agreement exactly if the id is new or belongs to the same agent |
| `TunnelSockets.DeleteKeepsAgree` | apps/hub/src/registry/TunnelWs.registry.ts:72-82 | deletion keeps the maps in agreement and leaves no agent without connections |
| `TunnelSockets.CloseAllKeepsAgree` | apps/hub/src/registry/TunnelWs.registry.ts:96-107 | after closing an agent's connections exactly those not listed for it remain |
| `TunnelSockets.CloseOneMore` | apps/hub/src/registry/TunnelWs.registry.ts:96-107 | deleting one of an agent's connections is one more of the closing loop |
| `TunnelSockets.SafeReason` | apps/hub/src/registry/TunnelWs.registry.ts:36-40 | the loop finds the longest prefix of the reason within 123 bytes |
| `TunnelSockets.TunnelWsRegistry.Teardown` | apps/hub/src/handlers/HttpTunnel.handler.ts:414-419 | a connection is forgotten and its browser socket closed once; a second call does nothing |
| `TunnelSockets.TunnelWsRegistry.CloseAllForAgent` | apps/hub/src/registry/TunnelWs.registry.ts:96-107 | closes exactly the agent's connections and counts them |
| `HubMachine.InvNext` | apps/hub/src/router/Message.router.ts:170-298 | every step of the hub keeps the registries sound, agent ids unique, every connection with the agent it was opened for, which was registered then, and every delivered frame from that agent's socket |
| `HubMachine.InvCommit` | apps/hub/src/router/Message.router.ts:253-298 | the uninterrupted end of a registration keeps that invariant, admitted or not |
| `HubMachine.InvTick` | apps/hub/src/services/Heartbeat.service.ts:50-83 | a heartbeat tick keeps it and leaves no agent with too many missed pings |
| `HubProperties.AgentLimit` | apps/hub/src/router/Message.router.ts:268-298 | however registrations interleave across their awaits with closes, ticks and sweeps, an account with non-empty labels and limits of at most L never holds more than L agents, and a held label can always be registered again |
| `HubProperties.OverflowIff` | apps/hub/src/router/Message.router.ts:268-298 | a registration exceeds its limit exactly for an empty label not held, on an account that is exactly at a positive limit |
| `HubProperties.HeldLabelRefusedIff` | apps/hub/src/router/Message.router.ts:268-298 | a held label, empty or not, is refused exactly if the account is over the limit already |
| `HubProperties.RegisteredIff` | apps/hub/src/router/Message.router.ts:268-298 | a registration is admitted if and only if the plan is unlimited, the account is below the limit, or it is at the limit and an agent is replaced; otherwise registry and connections stay as they are |
| `HubProperties.TicketsAddUp` | apps/hub/src/router/Message.router.ts:214-298 | registrations that wait are those begun and neither committed nor abandoned |
| `HubProperties.RegistryAgreement` | apps/hub/src/registry/Agent.registry.ts:149-233 | over whole runs: the account map and both indexes describe the same sessions in every state, with no empty account left, if and only if no socket takes a second label |
| `HubProperties.AgreeStep` | apps/hub/src/registry/Agent.registry.ts:154-189 | a step keeps that agreement exactly if it does not give a socket a second label |
| `HubProperties.SupersededCloseIsNoOp` | apps/hub/src/router/Message.router.ts:170-176 | after a reconnect under the same label, empty or not, the close of the old socket, however late, changes nothing |
| `HubProperties.RequestsSettleOnce` | apps/hub/src/router/Message.router.ts:425-457 | exactly-once settlement in runs of the whole hub |
| `Ownership.FramesComeFromOwner` | apps/hub/src/handlers/HttpTunnel.handler.ts:369-388 | every frame that reached a browser came from the socket of the agent the connection was opened for |
| `Ownership.FrameDeliveredIff` | apps/hub/src/handlers/HttpTunnel.handler.ts:369-388 | conversely, in every run a frame for an open connection is delivered if and only if it comes from the socket of the agent that the connection was opened for; otherwise nothing happens |
| `Ownership.EndsMakesGone` | apps/hub/src/router/Message.router.ts:170-183 | close, sweep, and replacement under its own label leave an agent unregistered and without connections |
| `Ownership.EndedAgentsStayGone` | apps/hub/src/router/Message.router.ts:295-298 | and it stays so in every continuation of the run |
| `Ownership.ConnEndsIff` | apps/hub/src/handlers/HttpTunnel.handler.ts:369-419 | a step ends a connection if and only if it is the browser's or the owner's close, ends the owner, or is an admitted registration with an empty label that found the owner under another label; no step changes a connection's owner |
| `Ownership.ForeignCloseIff` | apps/hub/src/router/Message.router.ts:272-298 | a registration ends a connection whose owner stays registered if and only if it is admitted, its label is empty, and it found the owner under another label |
| `Ownership.OrphanedIff` | apps/hub/src/router/Message.router.ts:272-298 | a registration drops an agent and leaves it a connection if and only if it is admitted, its label is empty, the agent holds the empty label and has a connection, and another agent was found |
| `Ownership.OwnersLiveStep` | apps/hub/src/router/Message.router.ts:170-298 | a step leaves a connection without a registered owner if and only if it is a tick dropping an agent with connections, a sweep of a stale snapshot whose label's holder has connections, or a registration with an empty label as above |
| `Ownership.AlwaysOwnedIff` | apps/hub/src/registry/TunnelWs.registry.ts:52-108 | over whole runs: every connection has a registered owner in every state if and only if none of those steps occurs |
| `Ownership.TickKeepsConnections` | apps/hub/src/services/Heartbeat.service.ts:73-83 | heartbeat eviction leaves all relayed connections in place |
| `Ownership.SweepIsExactIff` | apps/hub/src/services/AccountStatusSweep.service.ts:123-142 | the sweep drops whoever holds the label, and closes its connections exactly if it is the session of the snapshot |
| `HubRuns.OverflowRun` | apps/hub/src/router/Message.router.ts:268-298 | a run with limit one that ends with two agents, by way of an empty label |
| `HubRuns.DowngradeRun` | apps/hub/src/router/Message.router.ts:268-298 | a run after which a held label is refused under a smaller limit |
| `HubRuns.SecondLabelRun` | apps/hub/src/registry/Agent.registry.ts:176-176 | a run in which a socket with two labels closes and its first session stays registered |
| `HubRuns.ForeignCloseRun` | apps/hub/src/router/Message.router.ts:272-298 | a run in which an empty label ends the connection of an agent that stays registered |
| `HubRuns.OrphanRun` | apps/hub/src/router/Message.router.ts:272-298 | a run in which the holder of the empty label is dropped and its connection stays |
| `HubRuns.StaleSweepRun` | apps/hub/src/services/AccountStatusSweep.service.ts:83-142 | a run in which the sweep of a replaced session drops its successor and leaves the successor's connection |
| `HubRuns.SilentRun` | apps/hub/src/services/Heartbeat.service.ts:50-83 | a run in which a silent agent is dropped and its connection stays |
| `HubProperties.SilentAgentIsEvicted` | apps/hub/src/services/Heartbeat.service.ts:50-71 | an agent that answers no ping is gone after the permitted number of ticks, and until then its counter is the number of ticks |
| `Heartbeats.CounterIsTicksSinceContact` | apps/hub/src/services/Heartbeat.service.ts:35-71 | in every run a registered agent's counter is the number of ticks since the later of its registration and its last pong |
| `Heartbeats.AgentLeavesIff` | apps/hub/src/services/Heartbeat.service.ts:50-71 | in every run a step drops a registered agent if and only if it is the close of its socket, a sweep of its label or an admitted registration of its label, or a tick that is the sixth since the hub last heard from it |
| `Heartbeats.AnsweringAgentIsKept` | apps/hub/src/services/Heartbeat.service.ts:35-71 | an agent that answers at least once in every five ticks stays registered for as long as no step takes its label |
| `HubServer.HubService.CommitRegistration` | apps/hub/src/router/Message.router.ts:253-298 | the handler, from the lookup of the replaced session to `register`, is one commit step |
| `HubServer.HubService.HasRoom` | apps/hub/src/router/Message.router.ts:268-292 | the limit check leaves out the session about to be replaced |
| `HubServer.HubService.BeginRegistration` | apps/hub/src/router/Message.router.ts:214-244 | a registration that starts waiting is one begin step |
| `HubServer.HubService.OpenTunnel` | apps/hub/src/handlers/HttpTunnel.handler.ts:270-366 | relaying a browser's WebSocket is one open step |
| `HubServer.HubService.OwnedEntry` | apps/hub/src/handlers/HttpTunnel.handler.ts:369-380 | a connection is found only for the agent bound to the socket |
| `HubServer.HubService.RelayFrame` | apps/hub/src/handlers/HttpTunnel.handler.ts:382-388 | a frame is passed on exactly if the browser's socket is open and the sending socket's agent owns the connection |
| `HubServer.HubService.CloseByAgent` | apps/hub/src/handlers/HttpTunnel.handler.ts:390-393 | only the owner's close ends a connection |
| `HubServer.HubService.CloseByBrowser` | apps/hub/src/handlers/HttpTunnel.handler.ts:354-359 | the browser's close is one drop step |
| `HubServer.HubService.EnqueueRequest` | apps/hub/src/router/Message.router.ts:560-594 | entering a request is one step |
| `HubServer.HubService.OnAgentClose` | apps/hub/src/router/Message.router.ts:170-183 | the close handler up to its first await is one close step |
| `HubServer.HubService.SweepEvict` | apps/hub/src/services/AccountStatusSweep.service.ts:123-142 | the sweep's eviction is one sweep step |
| `HubServer.HubService.HeartbeatTick` | apps/hub/src/services/Heartbeat.service.ts:50-83 | the two loops of a tick are one tick step |
| `HubServer.HubService.EvictSession` | apps/hub/src/services/Heartbeat.service.ts:73-83 | the heartbeat's eviction drops the label and rejects what waits for it, and nothing else |
| `HubServer.HubService.HandlePong` | apps/hub/src/services/Heartbeat.service.ts:35-48 | a pong resets the counter of a registered agent only; what that is worth over runs is `Heartbeats.AnsweringAgentIsKept` |
| `HubServer.HubService.HandleBatch` | apps/hub/src/router/Message.router.ts:389-423 | the loop over a batch handles every message in order; what each does is `Settlements.MessageEffect` |
| `Settlements.HubCallbackIff` | apps/hub/src/router/Message.router.ts:170-457 | the same for every step of the hub: closes, sweeps and ticks reject exactly the pending requests of the labels they drop |
| `Settlements.CallbackTellsStep` | apps/hub/src/router/Message.router.ts:425-457 | over whole runs of the hub: a request was resolved if and only if the step that settled it was a response for its id; a rejection names the error, the timeout or the disconnect that caused it |
| `Settlements.MessageEffect` | apps/hub/src/router/Message.router.ts:389-457 | one message from an agent settles the pending request it names, as its kind says, or resets the missed pings of the agent it names, and changes nothing else |
| `Settlements.BatchSettles` | apps/hub/src/router/Message.router.ts:389-423 | of all the messages of a batch the first for a pending request settles it, and no other has any effect on it |
| `HubServer.FramesAreTransparent` | packages/agent/src/batcher/MessageBatcher.ts:100-120 | receiving frames is handling their messages one by one |
| `HubServer.BatchingIsTransparent` | apps/hub/src/router/Message.router.ts:86-103 | for every batcher run, the hub's state after its frames equals the state after one frame per message in add order |
| `Routing.RoutedRightIff` | apps/hub/src/router/Message.router.ts:170-198 | in every run of hub and subdomain registry together, once the calls on a label's key were carried out, the entry names the agent registered under the label (and is absent if there is none) if and only if the last register call issued on the key was the holder's or, for a label nobody holds, was followed by an unregister call for its agent |
| `Routing.SysInvMove` | apps/hub/src/router/Message.router.ts:317-337 | registrations, closes, publications, withdrawals, clean-ups and Redis steps keep both parts sound, and no unregister call is ever issued for an agent that is registered |
| `Routing.RegistrationIsPublished` | apps/hub/src/router/Message.router.ts:317-347 | every admitted registration is published: unless its session is forgotten, in every continuation its register call is still to come or was issued since, with the session's own entry under its own key |
| `Routing.CloseIsWithdrawn` | apps/hub/src/router/Message.router.ts:170-198 | likewise the close of an agent's socket and its unregister call |
| `Routing.CloseFreesTheLabel` | apps/hub/src/router/Message.router.ts:170-198 | if the agent's entry was published before its socket closed, and none other under the key since, the key has no entry once all calls were issued and carried out |
| `Routing.CleanUpFreesTheLabel` | apps/hub/src/handlers/HttpTunnel.handler.ts:158-167 | and so after a public request came upon the entry of an agent that had left, whatever left it behind |
| `Routing.CallsAreOfTheLabel` | apps/hub/src/services/SubdomainRegistry.service.ts:132-134 | with slugs as accounts get them, the register calls on a label's key are those of the label's own sessions |
| `Routing.SilentEntryRun` | apps/hub/src/services/Heartbeat.service.ts:73-83 | a run in which a published agent falls silent and, with every call carried out and the label free, the entry still names it |
| `RequestAuth.SafeIff` | packages/shared/src/validateApiKey.ts:82-91 | no run lets a signed request past twice if and only if the replay window covers twice the signature window plus the longest time between check and record |
| `RequestAuth.HubWindows` | packages/protocol/src/constants.ts:25-38 | with the shipped windows that time is 5 s; with equal windows of any length nothing is safe |
| `RequestAuth.ReplayRun` | packages/shared/src/validateApiKey.ts:188-198 | otherwise there is a run that accepts a request twice |
| `RequestAuth.PassesIff` | packages/shared/src/validateApiKey.ts:274-287 | in every run a request gets past the replay check if and only if none with its key and id got past within the last replay window |
| `RequestAuth.InvNext` | packages/shared/src/validateApiKey.ts:274-287 | each step keeps every accepted request remembered long enough and none accepted twice |
| `RequestAuth.ReplayGuard.MarkRequestId` | packages/shared/src/validateApiKey.ts:274-287 | `SET NX PX` says "new" only for a request never accepted before |
| `Canonical.ParseUndoesEncode` | packages/protocol/src/canonical.ts:34-51 | a parser reads back any fields from the length-prefixed form |
| `Canonical.CanonicalIsInjective` | packages/protocol/src/canonical.ts:34-51 | equal canonical strings have equal upper-cased method, path, query, body hash, request id and timestamp |
| `Canonical.PlainJoinIsAmbiguous` | packages/protocol/src/canonical.ts:28-32 | the plain join was not injective |
| `Batching.AddIsFifo` | packages/agent/src/batcher/MessageBatcher.ts:54-75 | what leaves followed by what stays is the old buffer and then the message; counts and bytes stay right, the timer runs exactly while something is buffered, and every frame fits |
| `Batching.WaitsIff` | packages/agent/src/batcher/MessageBatcher.ts:54-75 | a message makes nothing leave if and only if the buffer with it stays under 100 messages and within 1 MiB, and then the timer runs |
| `Batching.FlushOk` | packages/agent/src/batcher/MessageBatcher.ts:82-98 | a flush sends the whole buffer as one fitting frame |
| `Batching.RunIsFifo` | packages/agent/src/batcher/MessageBatcher.ts:54-98 | over every run, messages sent followed by the buffer are the messages added, in order |
| `Batching.FrameBytes` | packages/agent/src/batcher/MessageBatcher.ts:100-120 | a batch frame has exactly 44 bytes and its commas more than its messages, at most 143 over the limit |
| `Framing.FrameReadsBack` | packages/agent/src/batcher/MessageBatcher.ts:100-120 | a reader that follows only brackets and strings gets the messages' JSON texts back from the frame, in order |
| `Framing.WireIsFifo` | packages/agent/src/batcher/MessageBatcher.ts:54-120 | over every run, what is read back from the frames, followed by the buffer, is the JSON of the messages added, in order |
| `Batching.MessageBatcher.Enqueue` | packages/agent/src/batcher/MessageBatcher.ts:54-75 | `add` in place is the specified step |
| `Batching.MessageBatcher.FlushNow` | packages/agent/src/batcher/MessageBatcher.ts:82-98 | `flush` in place is the specified step |
| `AgentLink.EveryMessageAccountedFor` | packages/agent/src/AgentClient.ts:498-528 | in every run each copy of a message is in exactly one of socket, buffer, hold, evicted, expired, discarded on stop or dropped pongs, and all bounds hold |
| `AgentLink.ApplyKeeps` | packages/agent/src/AgentClient.ts:464-528 | each event keeps the count of copies and the bounds (100 held, 20 MiB unless only one) |
| `AgentLink.ExcessIsLeast` | packages/agent/src/AgentClient.ts:498-509 | the shift loop drops no more than it must |
| `AgentLink.ConnectedDropsNothing` | packages/agent/src/batcher/MessageBatcher.ts:100-120 | while connected nothing is given up |
| `AgentLink.ConnectedIsFifo` | packages/agent/src/batcher/MessageBatcher.ts:54-120 | while connected, what was sent and what is buffered grow by exactly the messages created, in order |
| `AgentLink.RegisteredSends` | packages/agent/src/AgentClient.ts:512-528 | when the link is back, exactly the messages held for more than 120 s expire, the others go out behind what was buffered, each in the order they were held, and nothing stays held |
| `AgentLink.ExpiredWasOutdated` | packages/agent/src/AgentClient.ts:512-528 | over whole runs: whatever expired was held from the time it is stamped with, without a break, until a reconnect more than 120 s later |
| `AgentLink.FallbackKeepsLongestEnd` | packages/agent/src/AgentClient.ts:498-509 | of what is held and what falls back, pongs apart, the longest end within 100 entries and 20 MiB (or one entry) is kept in order, and exactly the rest is evicted |
| `AgentLink.ClosedKeepsLongestEnd` | packages/agent/src/AgentClient.ts:464-476 | a lost connection does this with what is buffered, and changes nothing else |
| `AgentLink.StopDiscards` | packages/agent/src/AgentClient.ts:168-180 | a stop does the same, discards everything held, and makes the close that follows a no-op |
| `AgentLink.AgentClient.HoldResponse` | packages/agent/src/AgentClient.ts:498-509 | holding and shifting in place is the specified hold |
| `AgentLink.AgentClient.OnRegistered` | packages/agent/src/AgentClient.ts:512-528 | the loop over what was held is the specified resending, whose effect is `RegisteredSends` |
| `AgentLink.AgentClient.OnClose` | packages/agent/src/AgentClient.ts:464-476 | unless the client was stopped, what is buffered moves to the hold before the state changes |
| `AgentLink.AgentClient.StopClient` | packages/agent/src/AgentClient.ts:168-180 | on stop buffer and hold are discarded |
| `Queueing.EveryEntryInOnePlace` | packages/agent/src/queue/DurableQueue.ts:94-174 | in every run each entry is in exactly one of queue, dead letters and acknowledged, and dead exactly at its last permitted failure |
| `Queueing.InvApply` | packages/agent/src/queue/DurableQueue.ts:94-174 | enqueue, success and failure keep that, and keep attempts equal to failures |
| `Queueing.FailureReschedules` | packages/agent/src/queue/DurableQueue.ts:134-174 | a failed entry is due again exactly from the failure plus the least of 5 min and 1 s doubled for each earlier failure, otherwise unchanged; at its last permitted failure it is a dead letter with its content; no other entry changes |
| `Queueing.ContentStays` | packages/agent/src/queue/DurableQueue.ts:94-174 | in every run an entry keeps direction, payload and time from entry to acknowledgement or dead letter |
| `Queueing.PassUsesPotential` | packages/agent/src/replay/replayQueue.ts:28-74 | a pass lowers the sum of remaining attempts by at least the number of entries drained |
| `Queueing.RepeatedPassesEmptyTheQueue` | packages/agent/src/replay/replayQueue.ts:28-74 | as many timely passes as there are remaining attempts empty the queue, whatever fails |
| `Queueing.SettlingUsesPotential` | packages/agent/src/queue/DurableQueue.ts:130-174 | an outcome lowers the sum of remaining attempts if and only if its entry is still in the queue, and otherwise changes nothing |
| `Queueing.OverlappingPassesEnd` | packages/agent/src/replay/replayQueue.ts:28-74 | however passes overlap, no more outcomes take effect than there are remaining attempts |
| `Queueing.DurableQueue.DrainForReplay` | packages/agent/src/queue/DurableQueue.ts:115-128 | yields exactly the entries that are due, each once, outbound first and then by age |
| `Queueing.DurableQueue.MarkSuccess` | packages/agent/src/queue/DurableQueue.ts:130-132 | an entry is acknowledged and leaves the queue |
| `Queueing.DurableQueue.MarkFailed` | packages/agent/src/queue/DurableQueue.ts:134-174 | an entry is put back with backoff or, at its last permitted failure, moved to the dead letters |
| `Queueing.ReplayQueue` | packages/agent/src/replay/replayQueue.ts:28-74 | one pass tries every due entry once; succeeded, failed and skipped count exactly the due entries that worked, broke or are outbound, and add up to their number |
| `Queueing.PassLeaves` | packages/agent/src/replay/replayQueue.ts:28-74 | what a pass leaves: an entry not due stays as it was, an inbound one that broke and may be retried is rescheduled, and everything else is gone |
| `Queueing.TallyCounts` | packages/agent/src/replay/replayQueue.ts:41-65 | the three counts are the numbers of due inbound entries that worked, of those that broke, and of due outbound entries |
| `Queueing.SortedIff` | packages/agent/src/queue/DurableQueue.ts:115-128 | the SQL order in its own terms: outbound entries first, and by age among entries of one direction |
| `CacheKeys.KeyDetermines` | packages/agent/src/cache/ResponseCache.ts:184-188 | for requests with plain headers: two share a cache key if and only if they have the same target and the same credential headers; if no path holds a "?", the same path, the same query and the same credential headers |
| `CacheKeys.SameUrlIff` | packages/agent/src/cache/ResponseCache.ts:184-188 | two path and query pairs give one URL if and only if they are the same pair, or one query is made up of the rest of the other's path behind a "?" and of its query; without "?" in the paths only the same pair |
| `CacheKeys.SameIdIff` | packages/agent/src/cache/ResponseCache.ts:184-188 | two requests have one identity if and only if their targets are the same in that sense and they carry the same values under the same credential headers |
| `CacheKeys.CredentialIff` | packages/agent/src/cache/ResponseCache.ts:15-16 | a header carries a credential exactly if it is one of three names or has one of eight words between hyphens or ends |
| `CacheKeys.CoversIff` | packages/agent/src/cache/ResponseCache.ts:142-151 | a prefix matches a URL exactly if it is a prefix of the path, or the whole path, a "?" and a prefix of the query |
| `CacheKeys.DigestDetermines` | packages/agent/src/cache/ResponseCache.ts:232-241 | with a collision-free hash equal digests come from equal credential headers |
| `CacheKeys.SharedKeyIff` | packages/agent/src/cache/ResponseCache.ts:184-241 | a request can pose as a different request of plain headers, by having its key, if and only if its own credential headers are not plain and their text, cut at its line breaks, reads as sorted credential headers |
| `CacheKeys.AnySharedKeyIff` | packages/agent/src/cache/ResponseCache.ts:184-241 | over requests of every kind: a request shares its key with a different one if and only if it has two or more credentials, or one whose line has another equals sign that ends a credential's name or reads as two credentials |
| `CacheKeys.SeveralShare` | packages/agent/src/cache/ResponseCache.ts:232-241 | two or more credentials always share their key with the first alone, the other lines put behind its value |
| `CacheKeys.LineBreakCollides` | packages/agent/src/cache/ResponseCache.ts:232-241 | with a line break in one value, a request with one credential has the key of a request with two |
| `CacheKeys.AuthorizationAndCookie` | packages/agent/src/cache/ResponseCache.ts:15-16 | for instance `authorization` and `cookie`, for all values |
| `CacheKeys.EqualsSignCollides` | packages/agent/src/cache/ResponseCache.ts:232-241 | with an equals sign in a name, the boundary between name and value moves and two requests share a key |
| `CacheKeys.PrefixOfKey` | packages/agent/src/cache/ResponseCache.ts:142-151 | a prefix without NUL matches a key exactly if it matches its URL |
| `ResponseCaching.HitsAreCurrent` | packages/agent/src/cache/ResponseCache.ts:50-79 | in every run a hit is the last response stored for that path, query (with a "?" in a path: for that URL) and those credentials; it is a 2xx response with positive max-age, no `Set-Cookie` and no `Vary: *`, within its max-age, with the same values of every header its `Vary` named, and no POST, PUT, PATCH or DELETE since had a parent path that the URL begins with |
| `ResponseCaching.CurrentIsServed` | packages/agent/src/cache/ResponseCache.ts:50-136 | whatever the unbounded map would answer is answered, unless its key was pushed out for want of room |
| `ResponseCaching.AmpleRoom` | packages/agent/src/cache/ResponseCache.ts:123-127 | nothing is pushed out while the unbounded map has at most 500 entries |
| `ResponseCaching.Bounded` | packages/agent/src/cache/ResponseCache.ts:88-136 | in every run the cache holds at most 500 entries |
| `ResponseCaching.OldestMakesRoom` | packages/agent/src/cache/ResponseCache.ts:123-127 | a new key in a full cache pushes out the one entry that was inserted before all others, and leaves the others as they are |
| `ResponseCaching.OrderIsAge` | packages/agent/src/cache/ResponseCache.ts:123-129 | in every run the keys stand in the order in which they were last inserted; storing again under a key does not move it |
| `ResponseCaching.WritesTakeEffect` | packages/agent/src/proxy/BackendProxy.ts:167-173 | after a POST, PUT, PATCH or DELETE to a path, every later hit whose path, or path and query, start with that path was stored after it |
| `ResponseCaching.StoredLaterIsServed` | packages/agent/src/proxy/BackendProxy.ts:61-164 | what counts is the arrival of the write and the time of storing: a GET stored after that is served, looked up before the write or while it was under way |
| `ResponseCaching.TargetIsPrefix` | packages/agent/src/proxy/BackendProxy.ts:167-173 | the invalidated prefix is a prefix of the path, namely its parent if it has one |
| `ResponseCaching.CurrentIff` | packages/agent/src/cache/ResponseCache.ts:88-151 | the unbounded map is the last store of the run that no later store or write has overridden |
| `ResponseCaching.MayAnswerIff` | packages/agent/src/cache/ResponseCache.ts:50-136 | what may answer a request, spelled out over the events of the run, is what the unbounded map holds for it, if not expired and if the headers match |
| `ResponseCaching.OverridesIff` | packages/agent/src/proxy/BackendProxy.ts:167-173 | which events override an earlier response: a storable one for the same target and caller, or a write whose parent path the URL begins with |
| `ResponseCaching.TargetIff` | packages/agent/src/proxy/BackendProxy.ts:167-173 | the invalidated prefix is the part of the path before its last "/", or the whole path if that part is empty or there is no "/" |
| `ResponseCaching.RunIsSound` | packages/agent/src/cache/ResponseCache.ts:50-164 | in every run the entries are those of the unbounded map, whatever the clock does and whatever paths are written to |
| `ResponseCaching.RunIsComplete` | packages/agent/src/cache/ResponseCache.ts:50-164 | with a clock that does not go back, whatever the unbounded map holds is in the cache, expired, or pushed out |
| `ResponseCaching.ResponseCache.Get` | packages/agent/src/cache/ResponseCache.ts:50-79 | `get` in place is the lookup event, and its answer the specified one; an expired entry is dropped, a hit counts one more, and nothing else changes |
| `ResponseCaching.ResponseCache.Set` | packages/agent/src/cache/ResponseCache.ts:88-136 | `set` in place is the store event: the oldest entry makes room only for a new key |
| `ResponseCaching.ResponseCache.InvalidatePrefix` | packages/agent/src/cache/ResponseCache.ts:142-151 | the loop removes exactly the keys with the prefix, keeps the order of the rest, and counts them |
| `ResponseCaching.ResponseCache.EvictExpired` | packages/agent/src/cache/ResponseCache.ts:154-164 | the loop removes exactly the expired entries and counts them |
| `ResponseCaching.ResponseCache.InvalidateFor` | packages/agent/src/proxy/BackendProxy.ts:167-173 | invalidation by a request in place is the write event |
| `PublicLimiter.LimitAndConservation` | apps/hub/src/services/PublicPathUsageLimiter.service.ts:84-137 | in every run, per account and minute no more requests pass under finite limits than the largest of them, and allowed = flushed + accumulated |
| `PublicLimiter.CheckPassesIff` | apps/hub/src/services/PublicPathUsageLimiter.service.ts:84-110 | in every run a check passes if and only if its limit is infinite, or fewer checks than the limit with a finite limit were resumed for the account in the current minute; a refused check is not metered, and no other account changes |
| `PublicLimiter.ConstantLimit` | apps/hub/src/services/PublicPathUsageLimiter.service.ts:84-110 | under a constant limit n, the number let through in any minute is the smaller of n and the number of checks in it |
| `PublicLimiter.FlushTellsAll` | apps/hub/src/services/PublicPathUsageLimiter.service.ts:118-130 | in every run, after a flush what was reported for an account is what was allowed, and nothing is left over |
| `PublicLimiter.ChecksAddUp` | apps/hub/src/services/PublicPathUsageLimiter.service.ts:84-110 | checks that wait for their lookup are those arrived and not yet resumed |
| `PublicLimiter.InvNext` | apps/hub/src/services/PublicPathUsageLimiter.service.ts:84-137 | checks resuming after their lookup, flushes and the clock keep both |
| `PublicLimiter.PublicPathUsageLimiter.CheckRequest` | apps/hub/src/services/PublicPathUsageLimiter.service.ts:84-110 | a resumed check is charged to the current minute, starting from one in a new minute, and allowed exactly if the limit is not used up |
| `PublicLimiter.PublicPathUsageLimiter.FlushAll` | apps/hub/src/services/PublicPathUsageLimiter.service.ts:118-130 | every positive delta is reported once and the accumulator cleared |
| `KeyLifecycle.KeptExactlyUntil` | apps/hub/src/services/AccountStatusSweep.service.ts:39-58 | a secret admitted by the handshake is kept by the sweep exactly until the earlier of expiry and, for the previous secret, the end of its grace, and then dropped with the reason that applies |
| `KeyLifecycle.AdmittedIff` | apps/hub/src/services/HubAuth.service.ts:213-281 | the handshake admits exactly a secret that is current, or previous within its grace, of an active and unexpired key with the scope, in an active or past-due account; the error code tells which of these is missing first |
| `KeyLifecycle.EndedForEver` | apps/api/src/modules/key-management/domain/entities/apiKey.entities.ts:209-220 | a revoked or expired key admits and keeps nobody, through all later events, and the sweep says which of the two |
| `KeyLifecycle.TakesEffect` | apps/api/src/modules/key-management/domain/entities/apiKey.entities.ts:195-220 | revocation and expiry take effect at once; a clean-up ends the previous secret and spares the current one |
| `KeyLifecycle.RotationGrace` | apps/api/src/modules/key-management/domain/entities/apiKey.entities.ts:177-193 | after a rotation the new secret is admitted, and the old one for exactly one hour, as long as the key does not expire |
| `KeyLifecycle.SweepRefusalsAreHandshakeRefusals` | apps/hub/src/services/HubAuth.service.ts:213-281 | what the sweep refuses the handshake refuses |
| `KeyLifecycle.RefusedForEver` | apps/api/src/modules/key-management/domain/entities/apiKey.entities.ts:177-220 | a refused secret stays refused by both through all later rotations, clean-ups, revocations and expiries |
| `KeyLifecycle.RotatedSecretRunsOut` | apps/api/src/modules/key-management/domain/entities/apiKey.entities.ts:177-193 | one grace period after its rotation a secret is refused for good, even if later rotations move the window |
| `KeyLifecycle.ApiKey.RotateSecret` | apps/api/src/modules/key-management/domain/entities/apiKey.entities.ts:177-193 | rotation in place is the rotation event, refused for a revoked key |
| `KeyLifecycle.ApiKey.RevokeKey` | apps/api/src/modules/key-management/domain/entities/apiKey.entities.ts:209-215 | revocation in place is the revocation event |
| `Slugs.SlugifyValidIff` | apps/api/src/core/utils/slug.util.ts:19-31 | `slugify` yields a valid slug exactly if something is left and the cut does not fall behind a hyphen |
| `Slugs.HyphenateOk` | apps/api/src/core/utils/slug.util.ts:19-31 | before the cut there are only slug characters, no double hyphen and none at the ends |
| `Slugs.HyphenateIsIdempotent` | apps/api/src/core/utils/slug.util.ts:19-31 | the pipeline leaves its own results alone |
| `SlugWords.HyphenateJoinsWords` | apps/api/src/core/utils/slug.util.ts:19-31 | before the cut the slug is the name's words (what is left of them of letters and digits, cut at white space and hyphens) joined by single hyphens, in order |
| `SlugWords.SlugifyJoinsWords` | apps/api/src/core/utils/slug.util.ts:19-31 | the slug is the first 32 characters of that |
| `SlugWords.PrefixFromWords` | apps/api/src/core/utils/slug.util.ts:50-60 | the readable part of an account slug is the first 23 characters of that, less a hyphen at their end, or "workspace" if no word is left |
| `Slugs.TrailingHyphen` | apps/api/src/core/utils/slug.util.ts:19-31 | every slug-shaped name with a hyphen at the 32nd place and more behind it yields an invalid slug |
| `Slugs.GenerateAccountSlug` | apps/api/src/core/utils/slug.util.ts:50-60 | for every name and all draws the account slug is valid and free of double hyphens |
| `Slugs.HostRoundTripIff` | apps/hub/src/handlers/HttpTunnel.handler.ts:440-449 | a valid slug and a label are read back from the host name exactly if the slug has no double hyphen |
| `Slugs.KeysAreDistinct` | apps/hub/src/services/SubdomainRegistry.service.ts:132-134 | tunnels of slugs without double hyphens have distinct registry keys |
| `Slugs.ShareKeyIff` | apps/hub/src/services/SubdomainRegistry.service.ts:132-134 | two valid slugs can come to share a key if and only if one begins with the other and a double hyphen |
| `Slugs.DoubleHyphenCollidesIff` | apps/api/src/core/utils/slug.util.ts:65-69 | a valid slug can share a key with a shorter valid one if and only if it holds a double hyphen |

## Left out

- The web, admin and documentation apps, the SDK package, the CLI, logging and HTTP plumbing: interface code, or simpler forms of what is modelled.
- Prisma, Upstash and SQLite as engines: their tables and keys are maps, their commands atomic.
- SHA-256, HMAC, `toUpperCase`, `sort`, NFD normalisation and lower-casing: parameters, with collision-freedom stated where it is needed; names reach `Slugs` after normalisation and lower-casing.
- UTF-16: strings are sequences of Unicode scalar values, so a slice through a surrogate pair is not modelled.
- `unregisterAllForHub`, and entries in Redis that are not valid JSON.
- The part of `onAgentClose` and `handleAgentRegister` behind their later awaits (session rows, audit records), apart from the subdomain calls made there, which `Routing` issues at any later time or never.
- Redis failures in replay and rate checks of signed requests, which the original lets pass; the per-key rate counter; the caching of key rows.
- The cache of plan limits and the plan tables: a limit is whatever the lookup returned.
- `parseMaxAge`, the splitting of `Vary` and the lower-casing of headers: responses and requests come with the results.
- `sendRaw` dropping a frame when the socket is no longer open: "sent" means handed to the socket. Order across a reconnect, which the original does not keep, and the reconnect backoff.
- Subdomains.SubdomainRegistry.RedisReplies: a command takes effect, if at all, before its caller sees the reply or error; one that times out and is executed after the lock was passed on is not modelled, and would not be serializable.
- Queueing.PassUsesPotential: speaks of one pass at a time. `replayQueue` awaits between entries, so a reconnect can start a second pass; passes that overlap may try an entry twice, and then only `OverlappingPassesEnd` holds.
- Queueing.ReplayQueue: one pass without another in between; the awaits between its entries are not interleaved with other handlers.
- TunnelSockets.SafeReason: the original shortens by UTF-16 code units, the model by Unicode scalar values.
- ResponseCaching.WritesTakeEffect: speaks of the arrival of a write, when the original invalidates. The original does not invalidate again when the write is answered, so a GET fetched while the write was under way is stored and served after it; when the backend carries a write out is not modelled.
- Responses and agent errors are settled by request id alone, whichever agent socket they arrive on; the sending socket is not part of these events, so nothing is said about it.
- HubServer.HubService.HandleBatch: items of kind `tunnel:ws:*`, which older agents put into batches, are not among the messages.
- Timestamps of signed requests that are not integers: a JSON value that is no number passes the comparison with the signature window, and such a request never leaves it.
- Framing.FrameReadsBack: takes `JSON.stringify` to give one bracket-balanced value per message; the JSON texts themselves are parameters.
- Timers fire on time: the clock does not pass an armed deadline. Late timers are not modelled.
- `isOriginFormPath`, `toSendableCloseCode`, header filtering and body encodings: one-branch facts.
- Agents.AgentRegistry.Find: for an empty label the original answers with the session inserted first; the model allows any, so what is proved holds for either.
- ResponseCaching.HitsAreCurrent: assumes header text without line breaks and names without "=", and a collision-free digest; which requests share a key without the first two is what `CacheKeys.AnySharedKeyIff` says.
- Queueing.RepeatedPassesEmptyTheQueue: passes are counted when something is due; how long to wait between them is the caller's choice.
