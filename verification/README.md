# Verification model of p2ptest

p2ptest is a gRPC peer-to-peer node. Its hard part is the state it keeps in memory and the small
distributed protocol over that state: a newcomer handshakes with one node, the node announces it to
its own subscribers, one of them tells every peer it knows, and each peer that did not know the
newcomer does the same. This project models that protocol and the parts it rests on, and proves what
they promise.

| part | modules | form |
|---|---|---|
| addresses and the relay path | `AddrCodec`, `Relay` | functions and lemmas |
| peer registry and its name index | `Directory` (value), `DirectoryRuns` (runs), `Registry` (class) | a class proved against the value, theorems about all operation sequences |
| join flood | `Network`, `FloodTermination`, `FloodCoverage`, `FloodAccounts`, `FloodCost`, `FloodWorst`, `FloodLimits`, `Refinement` | a state machine over any number of nodes |
| membership handlers and node loops | `Membership`, `NodeOps`, `Connect` | classes over registry, notifier and pool |
| notifier and late subscribers | `Notifier` (class), `Session` (state machine) | ring buffer proved against the emission log |
| departures and liveness | `Departures`, `FailureDetector` | state machines |
| pings | `Messaging`, `PingTracker` | classes and a state machine |
| connection pool | `ConnPool` (classes), `PoolRuns` (state machine) | |
| console input, signed bytes | `InputParts`, `SignData` | methods with loops, lemmas |

How the pieces fit. A method of a class is one critical section, or one handler run undisturbed, and
its `ensures` equates the new state with a function of the old one (`Apply`, `Keep`, `LastN`,
`Removed`, `RegisteredAll`, `Words`). In the state machines the critical sections of any number of
threads interleave. They are tied to the classes where the two meet: the registries of `Network` and
`Departures` change by the same `Apply`; what `BroadcastNodeJoin` sends under its contract is, message
for message, what the network puts in flight, and its gossip items announce what a gossip round
announces (`Refinement`); `CleanupStalePeers` leaves the last-active times that the failure detector's
sweep leaves; `Session` replays the `LastN` that `History` returns. The state machines of `PingTracker`
and `PoolRuns` and the other events of `FailureDetector` restate the steps of their classes. What a run of
`Session`, `PingTracker`, `PoolRuns` or `FailureDetector` leads to is also stated from its events alone
(`EventsDecide`, `StageDecided`, `PooledIff`, `OnRecordIff`), and every machine can run to rest from
wherever it is (`RunsDry`, `SessionSettles`, `RemoversSettle`, `EveryCallReturns`, `SendersSettle`).
In `Network` every message in flight and every
handler stopped between two critical sections is an item of a work list; executing an item runs
exactly one critical section, so the existence check of `NotifyNodeJoin`, its registration, the
emission and the broadcast are separate steps. The subscribers a notification calls are items of
their own that may run in any order, which admits more schedules than the synchronous calls of the
code do; so is each record of a handshake answer or of a gossip answer.

What the proofs bring to light about the code:

- The list `nameToAddrs` keeps under a name equals a scan of the online peers exactly as long as every
  step meets a guard (`StepExactIff`, `RunExactIff`). A peer that registers again under a new first
  address and then leaves is still found at its old address although nobody is online
  (`MovedPeerLeavesGhostAddress`). In a closed network of nodes with plain hosts the guard always
  holds (`RegisterOk` and `UnregisterOk`, used by `NextKeepsInv`).
- A host survives the relay exactly when it holds no `:`, `[` or `]`; a bracketed host loses its
  brackets on the first hop and is dropped on the next if what is left has a colon
  (`ParseOfFormat`, `RelayKeepsIdentityIff`). On such hosts the auto-connect parser keeps the host and
  may silently set the port to 0, so the two parsers disagree (`ParsersAgreeIff`).
- The existence check and the registration of `NotifyNodeJoin` are not atomic, so notices may race: one
  passes the check while another is between check and registration. A node that nobody asks broadcasts a
  newcomer at most once if and only if its notices do not race (`OnceIff`); handlers that run from check to
  registration undisturbed never do (`AtomicIsRaceFree`). Without races one handshake costs at most
  (N-1)(N-2) notices (`OneHandshakeCosts`); with them, the flood still ends, and costs at most
  (N-2) 2^(N-2) (`WorstCost`), which four nodes do reach (`RaceBreaksBounds`).
- A node that first hears of a newcomer in the answer to a handshake of its own does not relay it: it
  broadcasts it only when the newcomer itself greets it (`DeafOnlyGreeted`). Without loss and removals
  coverage holds whatever answers are read, along the paths whose relaying nodes did not first hear of
  the newcomer that way; a run in which one did shows that this is needed (`AnswerBreaksCoverage`).
- A peer that is active between the sweep's snapshot and its removal is removed all the same
  (`FreshPeerCollected`); with undisturbed sweeps nobody is removed at or before 30 s. A silent peer is
  gone in time either way (`GoneWithin35Seconds`, `GoneAtLockLevel`).
- A notifier with a buffer larger than a session's channel would block the session's handler for good;
  the sizes in use, 100 and 256, do not (`HandleWebSocket`).
- A connection displaced by a second `SetConn` for its address is never closed by the pool
  (`ConnsAccounted`).
- `Heartbeat` refreshes the last-active time before it looks at the signature, so "activity" is any
  heartbeat for a known uuid. On a first registration the last-active time is read before the
  registration time.

Times are integers, strings are sequences of characters (of bytes in `SignData`), the width of ports,
timestamps and parsed numbers is explicit (`UInt32`, `UInt64`, `Atoi`).

## Model

| member | source | states |
|---|---|---|
| AddrCodec.FormatInjective | internal/node/node.go:607-609 | two formatted addresses are equal only if host and port are, for every host string and every 32-bit port |
| AddrCodec.SplitIff | internal/node/node.go:579-583 | on any text, splitting gives a host and a port text exactly when the text is the two written together, the host plain or in one pair of brackets |
| AddrCodec.AtoiIff | internal/node/node.go:584-587 | a number is read without error exactly from an optional sign and digits whose value fits 64 bits, and it is that value |
| AddrCodec.ParseIff | internal/node/node.go:579-589 | on any text, the relay parser yields an address exactly if the text is its host and a non-negative number written together, and keeps the low 32 bits of the number |
| AddrCodec.RootParseCuts | cmd/p2pnode/root/root.go:205-244 | on any text with a colon, the auto-connect parser keeps all before the last one as host and, as port, the low 32 bits of the number read from what the text splits into, or 0 if it does not split |
| AddrCodec.ParseOfFormat | internal/node/node.go:579-589 | what the relay parser makes of a formatted address for every host: exact on plain hosts, one pair of brackets stripped, everything else refused; never another port |
| AddrCodec.ParseInvertsFormatIff | internal/node/node.go:579-609 | parsing undoes formatting if and only if the host holds no colon and no bracket |
| AddrCodec.RootParseOfFormat | cmd/p2pnode/root/root.go:205-208 | the auto-connect parser always keeps the host of a formatted address, and its port unless the host makes the split fail, when the port becomes 0 |
| AddrCodec.ParsersAgreeIff | cmd/p2pnode/root/root.go:237-244 | the two parsers give the same address if and only if the host is plain |
| Relay.AddrTextMeans | internal/discovery/domain/registry.go:227-229 | the address text of a record is empty exactly without an address, is shared exactly by equal hosts and ports, and on a plain host reads back as that address through either parser |
| Relay.JoinInfoIff | internal/node/node.go:521-541 | a broadcast carries a record exactly for a discovery with an address that parses and a uuid: that uuid, name and address and nothing else |
| Relay.AutoConnectIff | cmd/p2pnode/root/root.go:190-208 | the auto-connect subscriber acts exactly on a discovery with a uuid and an address with a colon that are not its own node's |
| Relay.AutoConnectKeepsIdentity | cmd/p2pnode/root/root.go:190-213 | from a plain record the auto-connect subscriber rebuilds the same uuid, name and address as the relay, and skips exactly the node's own uuid and address |
| Relay.RelayKeepsIdentityIff | internal/node/node.go:521-541 | any number of format, payload and parse hops keeps uuid, name and first address if and only if the host is plain |
| Directory.StepExactIff | internal/discovery/domain/registry.go:52-100 | one operation keeps the name index equal to the scan if and only if its guard holds before the call |
| Directory.ReRegisterIff | internal/discovery/domain/registry.go:63-79 | a re-registration keeps the index exact if and only if name and first address stay the same |
| Directory.UnregisterIff | internal/discovery/domain/registry.go:202-225 | a removal keeps the index exact if and only if no namesake's first address is among the leaving peer's addresses |
| Directory.AddedAddr | internal/discovery/domain/registry.go:193-200 | for every index, exact or not: the old list is a prefix of the new one, the members are the old ones and the address, other names keep theirs |
| Directory.CleanedAddrs | internal/discovery/domain/registry.go:202-225 | for every index: exactly the addresses of the record go, the rest keep their order, an empty list goes, other names keep theirs |
| Directory.StatusReadsBack | internal/discovery/domain/registry.go:156-165 | a status set is read back, and nothing else of any record or of the index changes |
| DirectoryRuns.RunInvariant | internal/discovery/domain/registry.go:193-225 | for every operation sequence, with no hypothesis: no name has an empty list, no list repeats an address, every online record sits under its own uuid |
| DirectoryRuns.RunExactIff | internal/discovery/domain/registry.go:52-100 | the index is exact at every point of a run if and only if every step of it was guarded |
| DirectoryRuns.IndexExact | internal/discovery/domain/registry.go:52-100 | with stable identities and no address shared by namesakes, each list is the first addresses of the online peers of that name in order of registration |
| DirectoryRuns.LookupIsLongestRegistered | internal/discovery/domain/registry.go:182-191 | a lookup by name finds nothing exactly when no namesake has an address, and else the first address of the longest-registered one |
| DirectoryRuns.LookupAgreesWithScan | internal/discovery/domain/registry.go:112-121 | when one online peer bears the name, the address lookup agrees with the record lookup |
| DirectoryRuns.RegistrationKeepsLookup | internal/discovery/domain/registry.go:52-82 | in every state a registration leaves each lookup that finds an address as it is, and one that finds none then finds the first address of a peer new under that name |
| DirectoryRuns.RemovalKeepsLookup | internal/discovery/domain/registry.go:84-100 | in every state a removal changes no lookup but those that find an address of the leaving peer |
| DirectoryRuns.MovedPeerLeavesGhostAddress | internal/discovery/domain/registry.go:73-79 | the hypothesis on re-registration is needed: a concrete three-step run ends with nobody online and the old address still found |
| Registry.PeerRegistry.constructor | internal/discovery/domain/registry.go:42-50 | a new registry is valid and empty |
| Registry.PeerRegistry.Register | internal/discovery/domain/registry.go:52-82 | the new state of all four maps, the error for a malformed peer, no effect for the node itself; all four stay coherent |
| Registry.PeerRegistry.AddNameAddrUnlocked | internal/discovery/domain/registry.go:193-200 | the scan-then-append loop appends an address exactly when the list lacks it, and changes nothing when the list has it |
| Registry.PeerRegistry.Unregister | internal/discovery/domain/registry.go:84-100 | the peer leaves all four maps together, and the result says whether it was there |
| Registry.PeerRegistry.CleanNameAddrUnlocked | internal/discovery/domain/registry.go:202-225 | the nested filter loops drop every address of the record from its name's list, keep the order of the rest, and drop an empty list |
| Registry.PeerRegistry.GetByName | internal/discovery/domain/registry.go:112-121 | finds some online peer of the name, and none exactly when there is none |
| Registry.PeerRegistry.List | internal/discovery/domain/registry.go:137-146 | every online record exactly once |
| Registry.PeerRegistry.UpdateLastActive | internal/discovery/domain/registry.go:148-154 | refreshes a known peer and nobody else |
| Registry.PeerRegistry.UpdateStatus | internal/discovery/domain/registry.go:156-165 | changes only the status of a known peer, or reports it unknown |
| Registry.PeerRegistry.GetStale | internal/discovery/domain/registry.go:167-180 | exactly the online peers silent for strictly longer than the threshold, each once |
| Registry.PeerRegistry.GetAddrByName | internal/discovery/domain/registry.go:182-191 | the head of the name's list, tied to the lookup the theorems are about |
| Network.EffectOk | internal/membership/application/service.go:49-203 | every critical section of every handler, executed on genuine records, leaves genuine records and exact name indexes, and sends genuine records |
| Network.NextKeepsInv | internal/node/node.go:521-541 | identity provenance: every step of a closed network, loss, gossip, relays and removals included, keeps all records those of real nodes |
| Network.ClosedNetworkTruthful | internal/client/client.go:52-61 | in every reachable state each record bears its node's own name and address, and a name lookup gives the real address of the longest-registered namesake |
| Network.IdentityNeverChanges | internal/discovery/domain/registry.go:63-79 | re-registration in a closed network never changes a recorded name or first address |
| Network.Open | internal/node/node.go:386-422 | whatever is under way, any node may be asked anything, every item may go on, and messages, but no half-done handlers, may be lost |
| FloodCoverage.KnowledgeExactly | internal/membership/application/service.go:49-203 | after any step, loss and outside event a node has on record exactly whom it had, the subject of a greeting, of a notice past its check, of an answer or of an auto-connect that came about at it, and not whom it removed |
| FloodCoverage.OutsideBrings | internal/node/node.go:400-422 | a handshake asked for puts a greeting under way, a gossip round every record of the asked node, a status change the status of a peer on record |
| FloodCoverage.AnswerExactly | internal/membership/application/service.go:79-102 | the answer to a handshake brings back the node itself and everybody it has on record, and nobody else |
| FloodTermination.InternalStepDecreases | internal/membership/application/service.go:176-200 | a lexicographic measure (open requests, who does not know whom, handlers weighted by steps left, messages) falls at every internal step, whatever the interleaving and the losses |
| FloodTermination.FloodTerminates | internal/node/node.go:139-144 | an infinite run asks something of the network from outside again and again: the relay loop alone is always finite |
| FloodTermination.RunsDry | internal/node/node.go:139-144 | from every state the network can run dry by executing what is under way, nothing lost and nothing asked: no handler waits for another |
| FloodCoverage.BroadcastCovers | internal/node/node.go:543-550 | a broadcast puts a message to each initial neighbour, at its real address, in flight |
| FloodCoverage.NextKeepsFlood | internal/membership/application/service.go:167-203 | a node that records the newcomer, or is about to connect to it, has a handler that will broadcast it or has every initial neighbour informed or about to be, unless it first heard of it in a handshake answer; kept by every step |
| FloodCoverage.FloodCovers | internal/membership/application/service.go:167-203 | once nothing carries the newcomer any more, every node on a path of initial registry edges from the seed records it, whatever handshake answers are read, provided the nodes in between did not first hear of it in one |
| FloodLimits.AnswerBreaksCoverage | internal/client/client.go:96-100 | that proviso is needed: from a start of the flood, a run in which one relaying node reads the newcomer in a handshake answer ends quiescent with the next node ignorant |
| FloodAccounts.Accounts | internal/membership/application/service.go:172-200 | over every interleaved run, removals and losses or not: broadcasts made and owed are those owed at the start, the notices that pass the existence check, and the requests; at one node or at all |
| FloodAccounts.BroadcastsExactly | internal/membership/application/service.go:84-96 | the same for the broadcasts of one node about another, as the network counts them |
| FloodAccounts.OneNoticeIff | internal/membership/application/service.go:176-181 | without removals at most one notice about a newcomer passes the check at a node if and only if none passes while another is between check and registration there |
| FloodAccounts.OnceIff | internal/membership/application/service.go:172-200 | a node nobody asks broadcasts a newcomer at most once, from quiet to quiet, if and only if its notices do not race |
| FloodAccounts.OnceMoreThanAsked | internal/node/node.go:139-144 | without races and removals a node broadcasts a newcomer at most once more than it is asked to, and no more than that if it knew before |
| FloodAccounts.AtomicIsRaceFree | internal/membership/application/service.go:176-181 | handlers that are not disturbed between check and registration never race |
| FloodAccounts.DeafOnlyGreeted | internal/client/client.go:96-100 | a node that first hears of a newcomer in a handshake answer broadcasts it from then on exactly as often as the newcomer greets it, whatever notices arrive |
| FloodCost.RaceFreeCost | internal/node/node.go:543-550 | without races and removals a node is broadcast at most once per request and per other node but one, each time to at most N-2 peers, whoever knew it before |
| FloodCost.OneHandshakeCosts | internal/membership/application/service.go:172-200 | one handshake among N nodes without races makes each node broadcast the newcomer at most once, and causes at most (N-1)(N-2) join notices about it |
| FloodWorst.WorstCost | internal/membership/application/service.go:172-200 | however handlers race: at most 2^(N-2) broadcasts of a node per request about it, each to at most N-2 peers |
| FloodLimits.RaceBreaksBounds | internal/membership/application/service.go:176-181 | freedom from races is needed, and the worst case is met: four nodes, one of them broadcasting twice, send eight notices where six is the bound without races |
| Refinement.BroadcastRefines | internal/node/node.go:543-550 | what the broadcast loop sends is, as a bag of messages, what the network model puts in flight |
| Refinement.GossipRefines | internal/node/node.go:408-420 | what a gossip round announces is, in order, what the model's gossip items announce |
| Membership.MembershipService.Vet | internal/membership/application/service.go:50-68 | a request is turned down exactly when malformed, or signed without a key or wrongly |
| Membership.MembershipService.Handshake | internal/membership/application/service.go:49-103 | accepted exactly when acceptable; then the caller is on record and listed, the answer lists everybody once, and the two announcements follow in order; else nothing changes |
| Membership.MembershipService.Accept | internal/membership/application/service.go:70-102 | the registered, listed and announced outcome of a vetted request |
| Membership.MembershipService.Heartbeat | internal/membership/application/service.go:107-139 | a known peer is refreshed whatever its signature; the answer is unknown exactly for a malformed or badly signed request |
| Membership.MembershipService.Disconnect | internal/membership/application/service.go:143-165 | the peer is off the record afterwards, and its departure announced exactly if it was on it |
| Membership.MembershipService.NotifyNodeJoin | internal/membership/application/service.go:167-203 | only an unknown peer is registered and announced, a known one only refreshed, the node itself and malformed notices ignored; always acknowledged |
| Membership.StatusThenUnregister | internal/membership/application/service.go:148-152 | marking a peer offline before removing it makes no difference to the registry |
| NodeOps.Node.BroadcastNodeJoin | internal/node/node.go:521-551 | nothing unless the notification is a discovery with a uuid and an address that parses; then one message to each addressed peer other than the node and the newcomer, to no one else, to its first address, all with that uuid, name and address |
| NodeOps.Node.PerformGossipRound | internal/node/node.go:400-422 | announces exactly the well-formed unknown strangers of the answers, in order, failed calls skipped |
| NodeOps.Node.CleanupStalePeers | internal/node/node.go:470-490 | removes exactly the peers silent for more than 30 s, as the failure detector's sweep does, announces each once under its recorded name, and drops and closes the connections to their first addresses and touches no others |
| NodeOps.Node.CollectOne | internal/node/node.go:473-488 | the same for one peer of that loop; one that has vanished since the snapshot is passed over |
| NodeOps.RemovedOnline | internal/node/node.go:470-490 | removing peers in turn leaves exactly the others online, unchanged |
| NodeOps.Node.DisconnectPeer | internal/node/node.go:244-262 | an error, which changes nothing, only if nobody bears the name or some bearer has no address; else some bearer leaves registry and pool, its connection and stream closed and no others, and is announced |
| NodeOps.Node.StreamEnded | internal/client/client.go:157-168 | the peer is removed and announced if still on record; connection and stream leave the pool either way |
| Connect.PeerNode.ConnectToSinglePeer | internal/client/client.go:110-135 | an existing stream suffices; else the outcome of dialling decides: a new open connection and stream are pooled, or a failed stream leaves no connection behind; no other entry changes |
| Connect.PeerNode.ConnectToPeers | internal/client/client.go:65-108 | registers exactly the connected peers in order, opens exactly their streams, keeps the streams there were, leaves exactly the resulting connections pooled, and returns no error exactly when no peer lacked an address or failed |
| Connect.PeerNode.ConnectOne | internal/client/client.go:71-101 | the same for one round of that loop |
| Connect.ClassesMean | internal/client/client.go:71-101 | when a peer falls in each of the five classes, in terms of the input alone; a peer to connect to is connected exactly when its address had a stream or this or an earlier peer opened one |
| Connect.RegisteredExactly | internal/client/client.go:96-100 | a uuid is on record afterwards exactly if it was before or belongs to a well-formed connected peer other than the node |
| Connect.RegisteredAs | internal/client/client.go:96-100 | what is on record of a uuid afterwards is the last connected peer of it, else what was there before |
| Connect.ConnsMeaning | internal/client/client.go:110-135 | an address has a pooled connection afterwards exactly if a peer opened a new stream there, or it had one and no failing stream took it out |
| Connect.PeerNode.HandshakeSeedNode | internal/client/client.go:20-62 | an accepted and answered handshake between different nodes leaves each in the other's registry, which changes in nothing else, and returns everybody the seed knows, then the seed; otherwise, and when a node meets itself, the caller's registry is unchanged |
| Notifier.Notifier.constructor | internal/notifier/notifier.go:20-29 | a new notifier is valid for every size, negative ones included |
| Notifier.Notifier.Subscribe | internal/notifier/notifier.go:31-38 | a fresh token, one more callback |
| Notifier.Notifier.Unsubscribe | internal/notifier/notifier.go:40-44 | exactly that callback goes |
| Notifier.WriteFull | internal/notifier/notifier.go:54-60 | writing into a full buffer drops the oldest entry and keeps the order of the rest across the wrap |
| Notifier.Notifier.Emit | internal/notifier/notifier.go:46-62 | the log grows by the notification, the buffer keeps standing for its last entries with head and count in range, and the snapshot is the callbacks of that moment |
| Notifier.Notifier.History | internal/notifier/notifier.go:69-83 | the last min(count, size) emissions, oldest first, for every size and any number of wraps |
| Types.LastNIsSuffix | internal/notifier/notifier.go:69-83 | what the history keeps of a log is its end |
| Session.HandleWebSocket | internal/web/websocket.go:24-46 | undisturbed, the session's channel holds the notifier's history and its callback is registered under a fresh token, unless the history exceeds the channel, when the handler blocks on a full channel |
| Session.NextKeepsInv | internal/web/websocket.go:33-46 | every emission, replay, subscription, late callback and read keeps the session's accounting |
| Session.SessionDelivery | internal/web/websocket.go:33-46 | no emission reaches a session twice, the replay comes first and in order, and each emission meets exactly one fate: delivered, about to be, dropped, evicted, or between the two points; each dropped one met a full channel of 256 |
| Session.CallbackOutcome | internal/web/websocket.go:39-46 | a callback that finds room delivers its emission after all delivered before, one that finds the channel full drops it and nothing else |
| Session.DroppedMetFull | internal/web/websocket.go:39-46 | for each emission dropped in a run, the point at which its callback met a full channel |
| Session.EventsDecide | internal/web/websocket.go:24-59 | in every run the log, the phase, its history and subscription points, the reads and the callbacks still to come are those the events alone determine |
| Session.SessionSettles | internal/web/websocket.go:24-59 | from any point of any run a session can become live and get all that is on its way to it, nothing more dropped: no step of it waits for ever |
| Session.ReplayIsRingBuffer | internal/node/node.go:71-72 | what is replayed is the last 100 emissions before the history point |
| Session.ReplayNeverBlocks | internal/web/websocket.go:24-36 | the replay can always go on, for the history fits the channel |
| Departures.NextBalanced | internal/membership/application/service.go:148-162 | each critical section of joins and of the four removal paths keeps both balances |
| Departures.Conservation | internal/node/node.go:471-489 | insertions minus successful removals is 1 if online and 0 if not; announcements plus removers about to announce equal the removals; what is announced is, in order, the name and reason of each remover that has finished |
| Departures.AnnouncedExactly | internal/client/client.go:160-164 | no departure is announced twice, and none is lost once the removers are done |
| Departures.RemoverRemoves | internal/discovery/domain/registry.go:84-100 | a remover on any path takes its peer off the record and goes on to announce it, or ends without a word if it was not there |
| Departures.ReasonsTold | internal/membership/application/service.go:148-162 | in every run, whoever is announced gone is announced under the name and for the reason of the path that removed it |
| Departures.JoinRecords | internal/discovery/domain/registry.go:52-82 | a join puts its record on record, counts once if the peer was not there, and stirs no remover |
| Departures.RemoverMarks | internal/node/node.go:471-483 | the request handler and the sweep, and only these, mark their peer offline first, which takes nobody off the record |
| Departures.RemoversSettle | internal/membership/application/service.go:148-162 | from any point of any run the removers under way can all finish by steps of their own, and then every removal has been announced |
| FailureDetector.NeverEarly | internal/discovery/domain/registry.go:167-180 | no undisturbed sweep removes a peer at or before 30 s after any activity of its own |
| FailureDetector.OnRecordIff | internal/discovery/domain/registry.go:52-154 | in every run a peer is on record exactly if it was registered and no removal, sweep or collection has taken it off since; heartbeats and notices bring nobody back |
| FailureDetector.ToCollectIff | internal/discovery/domain/registry.go:167-180 | a peer is to be collected exactly if it was silent for more than 30 s at the last snapshot and has not been collected since |
| FailureDetector.GoneWithin35Seconds | internal/types/config.go:18-21 | with a sweep in every 5 s, a peer silent since t is off the record by t + 35 s |
| FailureDetector.CollectedBySweep | internal/node/node.go:470-490 | at lock level a silent peer is off the record for good by the end of any sweep whose snapshot falls more than 30 s after its last activity |
| FailureDetector.GoneAtLockLevel | internal/types/config.go:18-21 | with sweeps that start in every 5 s and take at most d, a peer silent since t is off the record by t + 35 s + d, whatever happens between their steps |
| FailureDetector.CollectedWasStale | internal/node/node.go:470-490 | at lock level each collected peer was stale at the snapshot, and is fresh when collected exactly if active again after it |
| FailureDetector.FreshPeerCollected | internal/node/node.go:471-483 | the 30 s promise fails at lock level: a run in which a peer active this instant is removed |
| Messaging.MessagingService.HandleEnvelope | internal/messaging/application/service.go:105-144 | a verified ping and nothing else is answered, with its nonce and the sender's timestamp unchanged; a verified text and nothing else is announced |
| PingTracker.Tracker.RecordPingSent | internal/node/node.go:320-326 | the nonce gets an empty channel of its own |
| PingTracker.Tracker.CancelPendingPing | internal/node/node.go:328-332 | exactly that nonce goes |
| PingTracker.Tracker.HandlePongReceived | internal/node/node.go:334-351 | the nonce goes, and its channel, if empty, gets the time since the echoed stamp read as a signed number, capped as durations are |
| PingTracker.NextKeepsInv | internal/node/node.go:334-351 | every interleaving of sends, pongs, deliveries, timeouts and failures keeps the table and the channels in step |
| PingTracker.PingSafety | internal/client/ping.go:41-56 | a pending nonce has an empty channel and a caller still waiting, a channel gets at most one value, no value is ever dropped, a call that returned has left the table |
| PingTracker.PongsArrive | internal/node/node.go:334-351 | no answer is lost: a call under way is in the table, or its answer is with a handler or in its channel, in one place only; a pong for a pending ping goes to a handler with that ping's own stamp, and a handler puts its round trip in that ping's empty channel |
| PingTracker.SentDecided | internal/client/ping.go:24-56 | the calls of a run are its sends, in order, with their nonces and times |
| PingTracker.StageDecided | internal/client/ping.go:24-56 | a call stands where its own events put it: sent, failed, answered or timed out, whatever happens to the others |
| PingTracker.EveryCallReturns | internal/client/ping.go:41-56 | from any point of any run every call can return, with its answer if its channel has one, and the table is then empty |
| PingTracker.RttAccuracy | internal/client/ping.go:32-39 | a reported round trip lies in [true, true + 1 ms) by the sender's clock alone, the millisecond stamp notwithstanding, up to the cap of a duration |
| ConnPool.Pool.SetConn | internal/transport/conn_pool.go:32-36 | sets the address's connection; the displaced one is not closed |
| ConnPool.Pool.GetConn | internal/transport/conn_pool.go:38-43 | the address's connection, if there is one |
| ConnPool.Pool.DeleteConn | internal/transport/conn_pool.go:45-52 | the address's connection leaves the pool closed |
| ConnPool.Pool.SetStream | internal/transport/conn_pool.go:54-58 | every stream set gets a lock of its own |
| ConnPool.Pool.CloseByAddr | internal/transport/conn_pool.go:115-126 | stream and connection of the address leave the pool, both closed, nothing else does |
| ConnPool.Pool.CloseAll | internal/transport/conn_pool.go:128-143 | every stream and every connection is closed and the pool empty |
| PoolRuns.NextKeepsConns | internal/client/client.go:110-135 | every step, connects whose stream fails included, keeps pooled connections open and accounted for |
| PoolRuns.NextKeepsSends | internal/transport/conn_pool.go:103-113 | every step keeps each stream behind one lock and each sender inside Send the holder of it |
| PoolRuns.SendsExclusive | internal/transport/conn_pool.go:103-113 | no two threads are ever inside Send on one stream, even while streams are replaced |
| PoolRuns.ConnsAccounted | internal/transport/conn_pool.go:32-52 | connections ever set are the pooled, the closed and the overwritten ones; none pooled is closed; an overwritten one is closed only by the failed connect that dialled it |
| PoolRuns.LeavesPool | internal/transport/conn_pool.go:45-52 | an address taken out holds nothing any more, its connection is closed, and no other address is touched |
| PoolRuns.ReleaseAdmits | internal/transport/conn_pool.go:103-113 | a thread that waits for a stream in use is let in when the holder is done, and not before |
| PoolRuns.PooledIff | internal/transport/conn_pool.go:32-52 | in every run an address is pooled with a connection exactly if that was set there and neither displaced nor taken out since |
| PoolRuns.StreamedIff | internal/transport/conn_pool.go:54-74 | in every run an address has a stream and lock exactly if these were set there and neither replaced nor taken out since |
| PoolRuns.FateDecided | internal/client/client.go:110-135 | which connections were set, are being connected, failed or were closed by the connect that dialled them is what the events alone determine |
| PoolRuns.SenderIff | internal/transport/conn_pool.go:103-113 | a thread is a sender from its lookup to its release, and inside Send from when it gets the lock |
| PoolRuns.SendersSettle | internal/transport/conn_pool.go:103-113 | the locks never block for good: from any point of any run every sender can get its turn and be done |
| InputParts.SplitInput | internal/helper/input.go:4-19 | the loop computes the words of the line |
| InputParts.JoinParts | internal/helper/input.go:22-31 | the loop computes the parts with single spaces between |
| InputParts.SplitInvertsJoinIff | internal/helper/input.go:4-31 | splitting undoes joining if and only if no part is empty or holds a space |
| InputParts.SplitKeepsContent | internal/helper/input.go:4-19 | the parts, concatenated, are the line without its spaces |
| InputParts.JoinInvertsSplitIff | internal/helper/input.go:4-31 | joining gives the line back if and only if it has no space at an end and no two in a row |
| InputParts.JoinSplitIdempotent | internal/helper/input.go:4-31 | splitting and joining twice is doing it once |
| SignData.ValueOfBigEndian | internal/crypto/crypto.go:72-77 | the eight bytes determine the timestamp |
| SignData.HeartbeatInjective | internal/crypto/crypto.go:72-77 | equal heartbeat bytes mean equal uuid and time, for uuids of any lengths |
| SignData.HeartbeatReadsAsHandshakeIff | internal/crypto/crypto.go:65-77 | heartbeat bytes are some peer's handshake bytes exactly when its uuid is the other's followed by the time; never for uuids of one length |

## Left out

- gRPC, dialling, contexts, logging, command line, profiling, HTTP handlers and console: input and output. A call is a message that is delivered or lost; the outcome of dialling is a parameter.
- Ed25519 (section 5.1 of RFC 8032), SHA-256 and `verifyEnvelope` (internal/messaging/application/service.go:63-91): the verdict of verification is an input, and nothing is proved about forgery.
- The JSON encoding of notification payloads: a payload is its map of strings. The replacement of invalid UTF-8 by the encoder is not modelled, so hosts and names are valid text.
- Teardown of websocket and console subscribers (internal/web/websocket.go:53-61): a channel may be closed while a snapshotted callback runs, so the session theorem speaks of sessions that have not ended.
- `GetPeers` limits, `FindNode`, counts of broadcast successes, text and status formatting: true but easy.
- Network: the answer to a handshake or a gossip call is a bag of independent records, and both subscribers of `peer_discovered` are independent items; this admits all schedules of the code and more. Nodes neither restart nor change address, and a newcomer's uuid is its own.
- Network: a notification whose address has no colon makes the auto-connect subscriber panic (cmd/p2pnode/root/root.go:207); no handler ever forms one, and the model skips it.
- Registry: cloning of records on the way in and out is by value here; aliasing of the caller's record is not expressible. Iteration order over a map is arbitrary.
- Membership: the handlers are proved run undisturbed; their interleavings are those of Network, Departures and FailureDetector. The change of the node's own status to busy is a field a caller may set.
- Messaging.MessagingService.HandleEnvelope: assumes a sender field, whose absence makes the code panic when it logs the name; the copying of the public key does not matter to the answer.
- NodeOps.Node.BroadcastNodeJoin: the messages are sent by goroutines of their own; the model lists them.
- Connect.PeerNode.ConnectToPeers: no stream ends while the loop runs, and the records passed in have an identity, whose absence makes the code panic.
- ConnPool: nil connections, `GetStreamsCopy` and `StreamAddrs`; the mutex of a stream is explicit in PoolRuns only.
- PingTracker: nonces of eight random bytes are taken to be distinct, and nobody answers with a nonce they were not sent.
- FloodCost.RaceFreeCost: a node that handshakes with itself, which may send one notice more than the others, is excluded; lost messages are not.
- FloodWorst.WorstCost: the same exclusion; removals, after which a node may be told anew, are excluded from all bounds, not from the accounts.
- FloodCoverage.FloodCovers: a message that carries the newcomer is not lost and nobody is removed while the flood lasts.
- FailureDetector: times are unbounded integers read from a clock that does not go back.
- Session: reads by the pump start after the subscription, as in the code; the choice between sending and stopping is resolved for a session that is not stopped.
