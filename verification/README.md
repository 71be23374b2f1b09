# Lattice mesh firmware: a verified model

Lattice nodes find their distance to a master from relayed beacons, send sealed frames up to it hop by
hop, report the relay path under a chained MAC, and receive sealed frames that the master routes back
along the reversed path. This project models the firmware that does so and proves what the design
promises of it, over whole runs and across nodes.

How it is built:

- The fixed-size tables, counters, streams and state machines of the firmware are classes with the same
  loops and branches (`NeighborTable`, `ReplayCache`, `OutboundSequenceState`, `RouteTable`,
  `PeerRegistry`, `E2EKeyStore`, `DownlinkRouter`, `OStream`, `IStream`, `FieldIterator`, `SerialFramer`,
  `KeypairStore`). Each method is proved against a function on values, and the properties are lemmas about
  those functions.
- `Mesh` is one node: it holds these objects, and its methods are the handlers of `Mesh`, `MeshMessenger`,
  `RouteReportHandler`, `MasterBeacon`, `UplinkRouter`, `FrameAuthorizer`, `Enrollment` and
  `PeerEnrollment`. Every handler is proved to end in exactly the state, and to send and deliver exactly
  the frames, that `NodeSpec` says.
- `Actions` lists all that a device does besides receiving, a restart included, and `World` puts such nodes
  into a radio graph with deliveries in the air that may be delayed, reordered or lost. The network theorems
  (distances, termination, usable paths, return path, enrollment, delivery) are about the functions of
  `NodeSpec`, so they hold of the handlers. `SealedPairs` follows one node through receptions, actions and
  restarts. `Witnesses` shows that the long hypotheses of the two end-to-end theorems can be met, and one run
  in which the nonce discipline fails.
- The serial side goes from bytes to messages: varints, the field lookup, nanopb's encoder and decoder for
  the fields of the mesh message, the packet codec, the framer.

Cryptography is symbolic. A key pair's agreement is the unordered pair of private scalars, the two
derived keys are two constructors over it, the AEAD (section 2.8 of RFC 8439) opens exactly what was sealed
under the same key, nonce and additional data, and the chain MAC is an injective constructor over key,
context bytes and previous value. Nonce, additional data and hop context are modelled byte by byte and
proved injective. Time and jitter are parameters of each call; a flash write is a parameter that says
whether it took effect and whether failure was reported, in which case the device restarts.

Varints and zigzag follow the Protocol Buffers Encoding specification, "Base 128 Varints" and "Signed
Integers".

Where the code and its comments differ, the code is modelled. The comment on the flag-blind MAC scan
(`firmware/main/src/network/mac_table.h:30-37`) rests on device MACs never being all zero; the proof needs
only that valid entries form a prefix, so it covers that MAC too. A node that forwards a
source-routed downlink leaves its last-hop field alone (`firmware/main/src/mesh/Mesh.cpp:363-375`), unlike
every other relay.

## Model

| member | source | states |
|---|---|---|
| `Distance.OwnDistanceNeverUnderestimates` | firmware/main/src/mesh/MasterBeacon.cpp:143-156 | In every state reached through deliveries, losses and any action of any device (beacons, deferred relays, timeouts, reports, own data, downlinks, enrollment, peer management, role changes, restarts), a node that claims a distance is connected to the master its build pins, its true hop distance is at most the claim, and the claim is in 1 .. 8, whatever the other builds pin |
| `Distance.NeighborDistanceNeverUnderestimates` | firmware/main/src/mesh/NeighborTable.h:60-116 | In every reachable state each valid neighbour entry is at least the true hop distance of the neighbour it describes from the master the node pins, whatever was evicted or aged out |
| `Distance.BeaconNeverUnderestimates` | firmware/main/src/mesh/MasterBeacon.cpp:158-175 | In every reachable state the hop count of each beacon in the air is at least the true hop distance of its last hop from the device that sent it first |
| `Distance.StepIsHonest` | firmware/main/src/mesh/Mesh.cpp:413-452 | Each reception, loss or action of a device keeps every claimed distance honest, for every master pinned in the network |
| `Distance.DerivedIsHonest` | firmware/main/src/mesh/MasterBeacon.cpp:143-154 | The distance derived right after an honest beacon is honest and in 1 .. 8 |
| `Distance.ActedIsHonest` | firmware/main/src/mesh/Mesh.cpp:413-452 | Whatever a device does on its own keeps its claims honest, and each beacon of the master that it sends is honest, because it relays one or is the master |
| `Actions.ErrandsLeaveRouting` | firmware/main/src/mesh/MeshMessenger.cpp:112-298 | Own data, broadcasts, downlinks, reports, requests, approvals, role changes and peer management leave routing, replay cache and pending relay alone, send no beacon, and send reports only with an empty path |
| `Actions.ActedInv` | firmware/main/src/mesh/Mesh.cpp:413-452 | Every action of a device, restarts included, keeps all tables in shape |
| `Distance.OthersKeepRouting` | firmware/main/src/mesh/Mesh.cpp:160-197 | Only a beacon changes neighbours, distance, pending relay (and its deadline) or relay mark |
| `Distance.ClaimBoundsDistance` | firmware/main/src/mesh/MasterBeacon.cpp:143-154 | "Within k hops" holds exactly when a least hop distance exists and is at most k, so an honest claim is one that never underestimates |
| `BeaconRelay.RelaysRise` | firmware/main/src/mesh/ReplayCache.h:107-116 | Over everything a node lives through within a boot, both the beacons put into the relay slot and the relays put on the air strictly increase in (epoch, sequence), so each is relayed at most once |
| `BeaconRelay.MomentKeepsBounds` | firmware/main/src/mesh/MasterBeacon.cpp:158-175 | A moment leaves the relay slot alone, or sends exactly the waiting relay and empties it, or takes a beacon newer than all before under this node's MAC and just-derived distance; distances stay 1 .. 8 or 0xFF |
| `BeaconRelay.HearingArms` | firmware/main/src/mesh/MasterBeacon.cpp:150-177 | A reception leaves the relay slot and its deadline alone, or takes a copy of this very beacon, newer than the relay mark, and raises the mark to it; it puts no beacon on the air |
| `BeaconRelay.NextHopAfterBeacon` | firmware/main/src/mesh/NeighborTable.h:119-139 | Right after an accepted beacon the node has a next hop: a fresh neighbour strictly closer than itself |
| `SourceRoute.RouteUsableIff` | firmware/main/src/mesh/DownlinkRouter.cpp:28-44 | A frame reaches its destination along its source route exactly when no node repeats before the destination's place on it |
| `SourceRoute.LoopNeverLeaves` | firmware/main/src/mesh/DownlinkRouter.cpp:32-41 | From a repeated node on, no number of hops leads past the loop; the hop limit ends it |
| `LoopFree.EveryRecordedPathIsUsable` | firmware/main/src/mesh/RouteReportHandler.cpp:106-163 | Over network runs in which no node meets more than twelve origins and no relay restarts under a report in the air, no recorded path repeats a node, and by the routing decision of nodes that are no masters every downlink sent along one reaches its destination |
| `LoopFree.EveryRecordedPathDelivers` | firmware/main/src/mesh/Mesh.cpp:352-402 | In such runs, when the nodes before the destination are running, no masters and let the frame through their gates, each reception hands the frame on, alone, to the next node, and the destination delivers exactly the payload |
| `LoopFree.AnswerCarriedIff` | firmware/main/src/mesh/MeshMessenger.cpp:181-204 | Whatever path is on record, by the routing decision of nodes that are no masters the downlink sent along it reaches its destination if and only if no node repeats on the way there |
| `LoopFree.ExtensionSettled` | firmware/main/src/mesh/RouteReportHandler.cpp:117-163 | A report grows by a node that was not on its path, since a node on it would have dropped the copy; the new path has no repeats and all its nodes drop further copies |
| `LoopFree.HearingExtends` | firmware/main/src/mesh/RouteReportHandler.cpp:117-163 | A report leaves a reception only through the replay gate and only with this node as one more hop |
| `LoopFree.AdmittedIsBlocked` | firmware/main/src/mesh/ReplayCache.h:42-79 | A replay cache with room for its origins goes on dropping what it dropped, and drops what it has just let through |
| `Termination.DeliveryLowersMeasure` | firmware/main/src/mesh/Mesh.cpp:331-402 | For any topology, routing loops and replay-cache contents, every delivery strictly lowers a measure of the frames in the air |
| `Termination.QuietRunsEnd` | firmware/main/src/mesh/MeshMessenger.cpp:300-331 | Without new originations no run of deliveries, losses and deferred beacon relays is longer than a measure of the state it starts in, so all relaying ends |
| `Termination.HearingSpends` | firmware/main/src/mesh/MasterBeacon.cpp:158-175 | A reception never raises the number of beacons a node may still relay: a relay scheduled is a mark used up |
| `Termination.RelayingSpends` | firmware/main/src/mesh/Mesh.cpp:442-445 | Sending the waiting relay spends more than it can put on the air |
| `Relaying.ReceivedRelays` | firmware/main/src/mesh/Mesh.cpp:134-197 | Any reception is answered with at most ten frames, each the received one below the hop limit, one hop further, of the same type and, unless its own, with an untouched sealed envelope |
| `Relaying.RelaysAreTransparent` | firmware/main/src/mesh/Mesh.cpp:352-375 | After any number of relays of a foreign sealed frame the addressee opens exactly the sealed plaintext |
| `ReturnPath.LearnedPathDelivers` | firmware/main/src/mesh/RouteReportHandler.cpp:41-163 | A report relayed by distinct enrolled relays (one to eight) is accepted, the lookup gives exactly those relays in order, and the one downlink then sent is handed back hop by hop, alone, and delivers exactly the payload at the origin |
| `ReturnPath.MasterLearnsPath` | firmware/main/src/mesh/RouteReportHandler.cpp:41-114 | The master accepts every report that enrolled relays carried and then looks up exactly the relays in order |
| `ReturnPath.ReportTravels` | firmware/main/src/mesh/RouteReportHandler.cpp:117-163 | After j relays the report carries their MACs in order, j hops, an untouched sealed part and the chain over exactly those hops |
| `ReturnPath.RelaySends` | firmware/main/src/mesh/RouteReportHandler.cpp:117-163 | A relay that has a next hop sends its extension of the report to it and nothing else |
| `ReturnPath.OriginSends` | firmware/main/src/mesh/RouteReportHandler.cpp:16-34 | Whatever a node sends as its own report is sealed for the master and seeded with its own link |
| `ReturnPath.MasterSendsBack` | firmware/main/src/mesh/MeshMessenger.cpp:161-210 | With a recorded path the master sends exactly one sealed frame, to the last relay, carrying the reversed path |
| `ReturnPath.RouteIsFollowed` | firmware/main/src/mesh/DownlinkRouter.cpp:28-44 | Every stop of a duplicate-free source route sends the frame, alone, to its successor with one more hop and the sealed part intact; the hop limit is never reached |
| `ReturnPath.DestinationDelivers` | firmware/main/src/mesh/FrameAuthorizer.cpp:48-61 | The destination of a downlink opens it and delivers exactly the payload |
| `RouteChain.AcceptedIffGenuine` | firmware/main/src/mesh/RouteReportHandler.cpp:41-114 | The master delivers a report and records its path if and only if it opens under the origin's key, reads as a report, names known hops and carries the chain over the whole path; otherwise the route table is unchanged |
| `RouteChain.AcceptedPathsAgree` | firmware/main/src/mesh/RouteReportHandler.cpp:73-104 | For any cache contents, two accepted reports with the same chain value have the same header, relay count and relays in order |
| `RouteChain.ChainInjective` | firmware/main/src/mesh/RouteMac.h:35-70 | Equal chain values come from equal headers and the same hops under the same keys in the same order |
| `FrameCrypto.HopContextInjective` | firmware/main/src/mesh/RouteMac.h:35-49 | The 30 context bytes determine addresses, epoch, sequence and both hops |
| `FrameCrypto.NonceInjective` | firmware/main/src/mesh/E2ECrypto.h:66-70 | The nonce determines epoch, sequence and origin |
| `FrameCrypto.AadInjective` | firmware/main/src/mesh/E2ECrypto.h:72-84 | The additional data determines all seven header fields it covers |
| `FrameCrypto.OpenedWasSealed` | firmware/main/src/mesh/E2ECrypto.h:89-106 | A sealed payload opens exactly when the seven covered header fields are those it was sealed with |
| `Routes.PathAfterRecord` | firmware/main/src/mesh/RouteTable.h:28-53 | A path just recorded is the one found, whatever longer path the slot held |
| `Routes.OtherPathsStay` | firmware/main/src/mesh/RouteTable.h:76-84 | Recording one node's path leaves every other path in place, except the oldest entry of a full table when the node is new |
| `Routes.RecordedKeepsInv` | firmware/main/src/mesh/RouteTable.h:28-40 | Valid routes stay a prefix with distinct nodes and bounded lengths |
| `Routes.RouteTable.Record` | firmware/main/src/mesh/RouteTable.h:28-40 | The table after the call is the specified one |
| `Routes.RouteTable.Lookup` | firmware/main/src/mesh/RouteTable.h:42-53 | Returns the recorded path of a node, if there is one |
| `UplinkData.UplinkDataDelivers` | firmware/main/src/mesh/FrameAuthorizer.cpp:33-46 | Data a joined node transmits, relayed by any nodes, is handed on by the master exactly as sealed; only configuration opcodes are refused, and only from an origin that is not a master it knows |
| `UplinkData.OriginSealsData` | firmware/main/src/mesh/MeshMessenger.cpp:53-94 | Every frame of its own data that a joined node sends is sealed under the key shared with its master and addressed to it |
| `Authorization.AuthorizedIffAdmissible` | firmware/main/src/mesh/FrameAuthorizer.cpp:14-105 | A frame is authorised if and only if it is authentic for this device, is no sealed-type frame passing a master, and any configuration opcode was opened and comes from a known master |
| `Authorization.DeliveredWasSealed` | firmware/main/src/mesh/FrameAuthorizer.cpp:33-61 | Whatever was opened was sealed under the shared key with exactly the header it arrived with |
| `EnrollmentRun.EnrollmentEstablishesKeys` | firmware/main/src/mesh/MeshMessenger.cpp:220-298 | A request and an acknowledgement, each through any relays, leave the node enrolled under its pinned master and both sides deriving the same pair of keys; a secondary master named with its key is on record too if there is room |
| `EnrollmentRun.RegistersIff` | firmware/main/src/mesh/PeerEnrollment.cpp:21-58 | Registering without rekeying puts a key on record if and only if there is room and no other key is established |
| `EnrollmentRun.RegistrationIsSaved` | firmware/main/src/mesh/PeerEnrollment.cpp:37-56 | A registration that changes a saved registry is in flash afterwards, whatever erasures fail |
| `EnrollmentRun.RelayKeepsEnrollment` | firmware/main/src/mesh/PeerEnrollment.cpp:73-93 | A relay changes nothing of a request or acknowledgement but its hop fields |
| `EnrollmentRun.AckCompletes` | firmware/main/src/mesh/Enrollment.cpp:105-186 | An acknowledgement with the right fingerprint, pinned key and origin enrolls the node, registers the master's key and, if there is room, that of the secondary master it names |
| `KeyCoherence.LookupsNeverGoStale` | firmware/main/src/mesh/E2EKeyStore.h:57-82 | After any run of receptions, lookups and actions without peer removal or restart a key lookup answers as a fresh derivation from the key on record, which for a peer established before is still the key it had |
| `KeyCoherence.NextSound` | firmware/main/src/mesh/PeerEnrollment.cpp:21-58 | Every reception, lookup and action but removal and restart keeps established keys unchanged and the cache equal to fresh derivations |
| `KeyCoherence.RegisterKeepsKeys` | firmware/main/src/mesh/PeerEnrollment.cpp:21-58 | Registration keeps all established keys if and only if it is not a rekey of an established peer to a different key |
| `KeyCoherence.RemovalCoherentIff` | firmware/main/src/mesh/PeerRegistry.cpp:48-55 | Removing a peer keeps the cache coherent if and only if no key of that peer is cached |
| `KeyStore.PeerKeysAreFresh` | firmware/main/src/mesh/E2EKeyLookup.h:19-39 | On a coherent cache with room a lookup answers as an uncached derivation and leaves the cache coherent |
| `KeyStore.AfterGetKeepsInv` | firmware/main/src/mesh/E2EKeyStore.h:57-82 | Round-robin insertion keeps slots filled in order with distinct peers |
| `KeyStore.E2EKeyStore.GetKeys` | firmware/main/src/mesh/E2EKeyStore.h:57-82 | Returns and stores exactly what the specified cache does |
| `KeyStore.E2EKeyStore.SetCapacity` | firmware/main/src/mesh/E2EKeyStore.h:49-55 | Empties the cache unless the capacity already matches |
| `KeyStore.E2EKeyStore.Clear` | firmware/main/src/mesh/E2EKeyStore.h:84-88 | Leaves an empty cache of the same capacity |
| `KeyStore.PeerE2EKeys` | firmware/main/src/mesh/E2EKeyLookup.h:31-39 | Looks the peer up, then answers and caches as specified |
| `Keys.DeriveAgrees` | firmware/main/src/mesh/E2ECrypto.h:30-47 | Both ends of a pair derive the same two direction keys |
| `OutboundSequence.NoncesRise` | firmware/main/src/mesh/ReplayCache.h:125-134 | Over any mix of draws, sequence wraps, reboots and failed epoch writes the (epoch, sequence) pairs drawn strictly increase and sequence 0 is never drawn |
| `OutboundSequence.NoncesDistinct` | firmware/main/src/mesh/ReplayCache.h:118-134 | No pair is ever drawn twice while the stored epoch is below its maximum |
| `OutboundSequence.EpochOverflowRepeats` | firmware/main/src/mesh/Mesh.cpp:66-70 | The bound is needed: 2^32 boots after a draw the same pair is handed out again |
| `OutboundSequence.StoreDownRepeats` | firmware/main/src/persistence/eeprom/EepromDiagnostics.cpp:34-51 | With a store that was never initialised every boot hands out the same first pair |
| `OutboundSequence.EpochChangeAdvances` | firmware/main/src/mesh/ReplayCache.h:125-134 | With the store up a reboot or sequence wrap moves forward if and only if the stored epoch is below its maximum; with the store down a reboot does so only for a device that has drawn nothing at epoch 1 or above |
| `OutboundSequence.SealNeverRejected` | firmware/main/src/mesh/ReplayCache.h:144-161 | A frame built and sealed in one call passes the rollback guard from every state that SealedPairs.MomentSound keeps |
| `SealedPairs.NoNonceTwice` | firmware/main/src/mesh/E2ECrypto.h:66-106 | Over any run of receptions, actions and restarts of a node in which no reception reaches the seal path, frames it seals in different moments carry different nonces and rising pairs |
| `SealedPairs.SealedPairsRise` | firmware/main/src/mesh/ReplayCache.h:125-161 | In such runs the pairs the seal guard lets through strictly rise, none has sequence 0, the counters stay consistent, and the device stops only for a failed write or a full registry |
| `SealedPairs.NonceSafeIff` | firmware/main/src/mesh/MeshMessenger.cpp:63-71 | For a node that hears nothing of its own but frames it sealed, the nonce discipline holds of a run if and only if no reception reaches the seal path |
| `SealedPairs.HearingTx` | firmware/main/src/mesh/MeshMessenger.cpp:49-71 | A reception seals or halts exactly when a node hears, through its gate and below the hop limit, data of its own on the way to its master, or a report of its own while it has its master's keys; then the pair heard goes to the guard, and otherwise the counters stay |
| `SealedPairs.ActedTx` | firmware/main/src/mesh/MeshMessenger.cpp:16-37 | Every action draws, seals or restarts exactly as the counter events of OutboundSequence |
| `SealedPairs.MomentSound` | firmware/main/src/mesh/ReplayCache.h:125-161 | Unless a reception reaches the seal path, a moment keeps the counters consistent and seals only under a pair above all earlier ones |
| `SealedPairs.EchoConsistentIff` | firmware/main/src/mesh/ReplayCache.h:144-161 | After hearing a sealed frame of its own a node is consistent if and only if the guard halted it or the pair lies within what it has drawn |
| `SealedPairs.MomentFrames` | firmware/main/src/mesh/E2ECrypto.h:89-98 | Each frame sealed in a moment has the nonce of its own pair, above all earlier pairs and within what the device has drawn |
| `SealedPairs.EchoIsResealed` | firmware/main/src/mesh/Mesh.cpp:352-362 | A joined node that has sealed nothing since its restart and hears its own sealed data seals the ciphertext again under the same key and nonce and sends it |
| `SealedPairs.EchoHalts` | firmware/main/src/mesh/ReplayCache.h:144-161 | With a pair not above its last seal the same reception halts the node and sends nothing |
| `Witnesses.ANonceIsReused` | firmware/main/src/mesh/MeshMessenger.cpp:63-71 | A run in which the discipline fails: send, restart, hear the master, hear a relayed copy; the same pair is sealed under twice |
| `OutboundSequence.OutboundSequenceState.NextSeqGuarded` | firmware/main/src/mesh/ReplayCache.h:125-134 | Draws the specified pair; on the wrap the epoch is stored before it is used |
| `OutboundSequence.OutboundSequenceState.CheckEpochRollback` | firmware/main/src/mesh/ReplayCache.h:144-161 | Lets exactly strictly newer pairs through and remembers them |
| `OutboundSequence.OutboundSequenceState.Init` | firmware/main/src/mesh/Mesh.cpp:66-70 | The epoch after a boot is the stored one plus one, stored before use |
| `OutboundSequence.EpochStore.Save` | firmware/main/src/persistence/eeprom/EepromDiagnostics.cpp:42-51 | The write takes effect, or the device is told it failed (a failed write may still have reached flash), or the store was never initialised and it is dropped silently |
| `Replay.CacheRefinesHighWaterMap` | firmware/main/src/mesh/ReplayCache.h:42-79 | With no more origins than slots the cache answers exactly as an unbounded per-origin high-water map |
| `Replay.FreshCacheRefinesMap` | firmware/main/src/mesh/ReplayCache.h:31-33 | From an empty cache, on any run with at most 12 origins, every answer is that of the unbounded map |
| `Replay.AcceptedMarksRise` | firmware/main/src/mesh/ReplayCache.h:48-56 | On any run, two accepted frames of an origin not evicted in between strictly rise, so none is accepted twice |
| `Replay.AdmitKeepsInv` | firmware/main/src/mesh/ReplayCache.h:58-78 | Used slots stay a prefix with distinct origins |
| `Replay.ReplayCache.IsReplay` | firmware/main/src/mesh/ReplayCache.h:42-79 | Drops exactly what is not strictly newer and leaves the specified cache |
| `Replay.ReplayCache.Init` | firmware/main/src/mesh/ReplayCache.h:33 | Forgets every origin |
| `Neighbors.OnePassExact` | firmware/main/src/mesh/NeighborTable.h:60-116 | The one-pass minimum equals observe followed by the minimum scan, except exactly when a one-entry table evicts a fresh closer neighbour |
| `Neighbors.ScanPicksSlot` | firmware/main/src/mesh/NeighborTable.h:99-107 | The running indices of the one-pass scan choose the slot that the separate scans choose |
| `Neighbors.EvictedIsFarthest` | firmware/main/src/mesh/NeighborTable.h:187-199 | A fresh neighbour is overwritten only when all are fresh, and then it is the farthest |
| `Neighbors.FindSlotIsValidGated` | firmware/main/src/mesh/NeighborTable.h:177-181 | The flag-blind scan answers as a valid-gated one for every MAC, the all-zero one included |
| `Neighbors.ObserveKeepsInv` | firmware/main/src/mesh/NeighborTable.h:36-48 | Valid entries stay a prefix with distinct MACs |
| `Neighbors.NeighborTable.Observe` | firmware/main/src/mesh/NeighborTable.h:36-48 | The table after the call is the specified one |
| `Neighbors.NeighborTable.ObserveAndMinDistance` | firmware/main/src/mesh/NeighborTable.h:60-116 | Leaves the table that observe leaves and returns the minimum fresh distance of that table |
| `Neighbors.NeighborTable.MinFreshDistance` | firmware/main/src/mesh/NeighborTable.h:144-156 | The least distance among fresh entries, or 0xFF |
| `Neighbors.NeighborTable.SelectNextHop` | firmware/main/src/mesh/NeighborTable.h:119-139 | The first of the most recently seen fresh neighbours strictly closer than this node |
| `MacTable.Find` | firmware/main/src/network/mac_table.h:38-47 | The first index carrying the MAC, or none |
| `MacTable.EvictOldest` | firmware/main/src/network/mac_table.h:62-78 | The first index of least timestamp |
| `Downlink.LruIsTruncatedRecency` | firmware/main/src/mesh/DownlinkRouter.cpp:61-116 | For a fixed set of owners the list is the first four of the unbounded most-recent-use list |
| `Downlink.LruShape` | firmware/main/src/mesh/DownlinkRouter.cpp:61-116 | After any calls the list is duplicate-free, at most four long and in most-recent-use order |
| `Downlink.RegisteredIsAccountedFor` | firmware/main/src/mesh/DownlinkRouter.cpp:61-116 | While owners only grow, every ESP-NOW peer the router registered is on the list, enrolled or the master |
| `DownlinkPeers.DroppedIff` | firmware/main/src/mesh/DownlinkRouter.cpp:84-116 | Registering a next hop unregisters a peer, enrolled or not, if and only if that peer is the last of a full list and the next hop is neither listed, enrolled nor the master |
| `DownlinkPeers.UnlistedStaysRegistered` | firmware/main/src/mesh/DownlinkRouter.cpp:61-82 | An enrolled peer off the list is never listed or unregistered by any run of forwards |
| `DownlinkPeers.ListedIsPushedOut` | firmware/main/src/mesh/DownlinkRouter.cpp:61-116 | A peer that was listed before it was enrolled stays listed, and four new next hops unregister it although it is enrolled |
| `Downlink.CopiesReachPeers` | firmware/main/src/mesh/DownlinkRouter.cpp:47-59 | A flood sends one copy to every enrolled peer but this node, and nothing else |
| `Downlink.DownlinkRouter.Classify` | firmware/main/src/mesh/DownlinkRouter.cpp:17-45 | Takes the specified decision |
| `Downlink.DownlinkRouter.RelayDownlink` | firmware/main/src/mesh/DownlinkRouter.cpp:47-59 | Sends the specified copies, none at the hop limit |
| `Downlink.DownlinkRouter.RegisterDownlinkPeer` | firmware/main/src/mesh/DownlinkRouter.cpp:61-116 | The array shifts implement the textbook list, and ESP-NOW forgets exactly the entry pushed out |
| `Peers.ReloadRestores` | firmware/main/src/mesh/PeerRegistry.cpp:88-128 | A reload restores the saved registry if and only if it is non-empty and holds no all-0xFF MAC |
| `Peers.OneSlotSaveIsAtomic` | firmware/main/src/mesh/PeerRegistry.cpp:130-147 | A save that changes one slot, as registration does, leaves the old registry or the new one in flash wherever it is interrupted and whatever erasures fail |
| `Peers.RemovalSaveIsAtomicIff` | firmware/main/src/mesh/PeerRegistry.cpp:130-147 | A save after a removal leaves the old or the new registry in flash if and only if the last peer was removed, or it stopped before the gap was rewritten, or it came to erase the last slot and the erasure worked; otherwise the last peer is held twice |
| `Peers.ReloadIsExactIff` | firmware/main/src/mesh/PeerRegistry.cpp:88-147 | After a save a reload restores exactly the registry if and only if no old record is left behind it by an erasure that failed |
| `Peers.ReloadAfterSave` | firmware/main/src/mesh/PeerRegistry.cpp:88-147 | After a save a reload restores the registry followed by the old records whose erasure failed |
| `Peers.LastPeerComesBack` | firmware/main/src/mesh/PeerRegistry.cpp:130-147 | After a removal whose last erasure fails, a reload brings the last peer back behind the others |
| `Peers.RemovedForgetsOne` | firmware/main/src/mesh/PeerRegistry.cpp:48-55 | Swap-with-last removal forgets exactly that peer |
| `Peers.TouchedKeys` | firmware/main/src/mesh/PeerRegistry.cpp:65-76 | A last-seen update changes no key and no position |
| `Peers.PeerRegistry.SaveToEeprom` | firmware/main/src/mesh/PeerRegistry.cpp:130-147 | Writes the slots in order and erases the rest, ignoring erasures that fail; or, after a failed write, stops with the slots written so far over what flash held, and the device restarts |
| `Peers.PeerRegistry.AddAndPersist` | firmware/main/src/mesh/PeerRegistry.cpp:149-168 | Appends and saves a newcomer other than this device; reports a fault exactly when a newcomer meets a full registry |
| `Peers.PeerRegistry.RemoveAndPersist` | firmware/main/src/mesh/PeerRegistry.cpp:170-178 | Removes the peer and saves the registry |
| `Peers.PeerRegistry.LoadFromEeprom` | firmware/main/src/mesh/PeerRegistry.cpp:88-128 | RAM becomes the stored records in slot order, or the defaults |
| `Peers.PeerRegistry.Remove` | firmware/main/src/mesh/PeerRegistry.cpp:48-55 | The registry after the call is the specified one |
| `Peers.PeerRegistry.Append` | firmware/main/src/mesh/PeerRegistry.cpp:41-46 | Appends unless ten peers are held |
| `Peers.PeerRegistry.UpdateLastSeen` | firmware/main/src/mesh/PeerRegistry.cpp:65-76 | Touches a known peer other than this device |
| `MeshNode.Mesh.HandleReceivedMessage` | firmware/main/src/mesh/Mesh.cpp:134-197 | Ends in exactly the specified state with exactly the specified frames sent and delivered; a master queues each enrollment request that passes the gate for the server, while there is room |
| `MeshNode.Mesh.Gate` | firmware/main/src/mesh/Mesh.cpp:141-158 | Version check, replay check and last-seen update as specified; a dropped frame changes nothing |
| `MeshNode.Mesh.ProcessAdapterData` | firmware/main/src/mesh/Mesh.cpp:331-402 | Routes, floods, forwards or delivers exactly as specified |
| `MeshNode.Mesh.Authorize` | firmware/main/src/mesh/FrameAuthorizer.cpp:14-105 | The verdict and the key-cache state are the specified ones |
| `MeshNode.Mesh.ProcessRouteReport` | firmware/main/src/mesh/RouteReportHandler.cpp:36-163 | Relay and master side as specified |
| `MeshNode.Mesh.RecomputeChain` | firmware/main/src/mesh/RouteReportHandler.cpp:73-98 | The loop computes the specified chain with the specified key lookups |
| `MeshNode.Mesh.ExtendReport` | firmware/main/src/mesh/RouteReportHandler.cpp:129-158 | The relay's copy carries its MAC, one more hop and its link |
| `MeshNode.Mesh.SendRouteReport` | firmware/main/src/mesh/RouteReportHandler.cpp:16-34 | Sends a report as specified, and says whether it tried |
| `MeshNode.Mesh.ProcessBeacon` | firmware/main/src/mesh/MasterBeacon.cpp:52-177 | Learns, derives and schedules exactly as specified |
| `MeshNode.Mesh.LearnMaster` | firmware/main/src/mesh/MasterBeacon.cpp:85-115 | Accepts or refuses the beacon and updates the known masters as specified |
| `MeshNode.Mesh.CheckTimeout` | firmware/main/src/mesh/MasterBeacon.cpp:35-50 | Forgets the master exactly when its beacons are stale |
| `MeshNode.Mesh.FlushRelay` | firmware/main/src/mesh/Mesh.cpp:442-445 | Sends the pending relay once, when its time has come |
| `MeshNode.Mesh.BroadcastMasterBeacon` | firmware/main/src/mesh/Mesh.cpp:236-245 | A master broadcasts a freshly drawn beacon with hop count 0, at most once per interval, and otherwise does nothing |
| `MeshNode.Mesh.IntervalElapsed` | firmware/main/src/mesh/MasterBeacon.cpp:20-26 | True exactly when the interval has passed since it last was, and then remembers the time |
| `MeshNode.Mesh.FindNextHopToMaster` | firmware/main/src/mesh/UplinkRouter.cpp:18-63 | Chooses the specified next hop and keeps at most one unowned forwarding peer registered |
| `MeshNode.Mesh.BuildMessage` | firmware/main/src/mesh/MeshMessenger.cpp:16-37 | Builds the specified message under a freshly drawn pair, or restarts |
| `MeshNode.Mesh.TransmitCore` | firmware/main/src/mesh/MeshMessenger.cpp:39-110 | Targets, guards, seals, seeds and forwards as specified |
| `MeshNode.Mesh.SendDownlinkToNode` | firmware/main/src/mesh/MeshMessenger.cpp:161-210 | Seals and source-routes or copies to all peers as specified |
| `MeshNode.Mesh.ReversePath` | firmware/main/src/mesh/MeshMessenger.cpp:193-196 | The loop writes the recorded path back to front |
| `MeshNode.Mesh.BroadcastAdapterData` | firmware/main/src/mesh/MeshMessenger.cpp:129-143 | One copy to every peer, and locally when asked |
| `MeshNode.Mesh.TransmitDispatch` | firmware/main/src/mesh/MeshMessenger.cpp:112-127 | A master broadcasts its own data, a node sends it uplink |
| `MeshNode.Mesh.AddPeer` | firmware/main/src/mesh/PeerEnrollment.cpp:61-67 | A newcomer is added without a key and registered with ESP-NOW; a full registry restarts the device |
| `MeshNode.Mesh.RemovePeer` | firmware/main/src/mesh/PeerRegistry.cpp:170-183 | The peer leaves registry, flash and the ESP-NOW table |
| `MeshNode.Mesh.EnrollPeer` | firmware/main/src/mesh/MeshMessenger.cpp:220-298 | Registers the cached key and broadcasts the specified acknowledgement |
| `MeshNode.Mesh.RelayEnrollmentUplink` | firmware/main/src/mesh/MeshMessenger.cpp:300-331 | Relays a foreign request one hop toward the master as specified |
| `MeshNode.Mesh.RegisterPeerWithKey` | firmware/main/src/mesh/PeerEnrollment.cpp:21-58 | Registry, flash and ESP-NOW table as specified; a change is written out, slot by slot |
| `MeshNode.Mesh.DispatchJoinAck` | firmware/main/src/mesh/PeerEnrollment.cpp:73-102 | Relays outward or processes as specified |
| `MeshNode.Mesh.ProcessJoinAck` | firmware/main/src/mesh/Enrollment.cpp:105-186 | Enrolls exactly as specified |
| `MeshNode.Mesh.SendEnrollmentRequest` | firmware/main/src/mesh/Mesh.h:368-378 | Broadcasts the node's key under a freshly drawn pair |
| `MeshNode.Mesh.RegisterDownlinkPeer` | firmware/main/src/mesh/DownlinkRouter.cpp:61-116 | Ownership test and list update as specified |
| `MeshNode.Mesh.SetIsMaster` | firmware/main/src/mesh/Mesh.h:311-314 | A device that is no master keeps no routes; a role change empties and resizes the key cache; nothing else changes |
| `MeshNode.Mesh.ReevaluateRouteTable` | firmware/main/src/mesh/Mesh.h:242-255 | Route table and key capacity fit the role, all else unchanged |
| `MeshNode.Mesh.Init` | firmware/main/src/mesh/Mesh.cpp:57-70 | Registry and enrolled record come from flash, tables fit the role, the boot epoch advances and is stored before use, replay and relay records are emptied, and nothing else changes |
| `MeshNode.Mesh.constructor` | firmware/main/src/mesh/Mesh.cpp:25-35 | A new node has no role and no master, remembers nothing and waits for nothing |
| `NodeInvariant.ReceivedInv` | firmware/main/src/mesh/Mesh.cpp:134-197 | Every reception keeps all tables of a node in shape |
| `SerialFraming.PacketRoundTrip` | firmware/main/src/adapter/serial/SerialFraming.cpp:18-123 | Decoding an encoded packet restores all carried fields, with the own MAC for device-originated types |
| `SerialFraming.SizeAtMost148` | firmware/main/src/adapter/serial/SerialFraming.cpp:18-70 | No packet encodes to more than 148 bytes |
| `SerialFraming.SizeReaches148` | firmware/main/src/adapter/serial/SerialFraming.cpp:18-70 | The bound of 148 bytes is reached |
| `SerialFraming.SizeIsExact` | firmware/main/src/adapter/serial/SerialFraming.cpp:18-70 | The exact length of an encoding as a sum over its fields |
| `SerialFraming.EnrollmentRelaySize` | firmware/main/src/adapter/serial/SerialAdapter.cpp:120-141 | An enrollment relay is exactly 128 bytes with a non-zero key and 94 without, so it fits its 128-byte buffer |
| `SerialFraming.Encode` | firmware/main/src/adapter/serial/SerialFraming.cpp:18-70 | Returns the encoding, or nothing exactly when the buffer is too small |
| `SerialFraming.Decode` | firmware/main/src/adapter/serial/SerialFraming.cpp:72-123 | Fails exactly when the protobuf does not decode, else fills the packet as specified |
| `SerialFraming.SendOverLine` | firmware/main/src/adapter/serial/SerialFraming.cpp:18-123 | A 148-byte buffer suffices to deliver any packet |
| `Framing.FramingExact` | firmware/main/src/adapter/serial/SerialFraming.cpp:125-170 | Length-prefixed payloads of 1 to 256 bytes come out exactly, in order |
| `Framing.FramerRefinesParser` | firmware/main/src/adapter/serial/SerialFraming.cpp:125-170 | On arbitrary bytes the framer yields what a recursive parser yields that resynchronises behind a bad length |
| `Framing.SerialFramer.InjectByte` | firmware/main/src/adapter/serial/SerialFraming.cpp:125-170 | One step of the specified framer; the overflow branch is never taken |
| `Framing.SerialFramer.Receive` | firmware/main/src/adapter/serial/SerialAdapter.cpp:69-83 | The receive loop hands on exactly the frames of the specified framer |
| `Framing.PacketsOverLine` | firmware/main/src/adapter/serial/SerialAdapter.cpp:86-118 | A list of packets written to the line arrives as exactly those packets, in order |
| `Protobuf.MessageRoundTrip` | firmware/main/src/mesh/serialization/nanopb/pb_decode.c:990-1112 | Decoding an encoded message restores presence, sizes and contents of every field; absent fields and bytes beyond a size come back zero |
| `PbStreams.OStream.Encode` | firmware/main/src/mesh/serialization/nanopb/pb_encode.c:512-534 | Succeeds exactly when the whole encoding fits, and then appends exactly it |
| `PbStreams.OStream.WriteField` | firmware/main/src/mesh/serialization/nanopb/pb_encode.c:418-469 | Zero singular integers and absent optionals write nothing; all else writes its specified bytes |
| `PbStreams.OStream.Write` | firmware/main/src/mesh/serialization/nanopb/pb_encode.c:84-106 | Appends all bytes or fails exactly when they do not fit |
| `PbStreams.IStream.Decode` | firmware/main/src/mesh/serialization/nanopb/pb_decode.c:990-1112 | The field loop computes the specified message or fails as specified |
| `PbStreams.IStream.DecodeVarint` | firmware/main/src/mesh/serialization/nanopb/pb_decode.c:243-263 | Reads the specified 64-bit varint and leaves the rest |
| `PbStreams.IStream.DecodeVarint32` | firmware/main/src/mesh/serialization/nanopb/pb_decode.c:171-240 | Reads the specified 32-bit varint and leaves the rest |
| `PbStreams.IStream.DecodeU32` | firmware/main/src/mesh/serialization/nanopb/pb_decode.c:1425-1447 | A value beyond 32 bits is an error |
| `PbStreams.IStream.DecodeS32` | firmware/main/src/mesh/serialization/nanopb/pb_decode.c:1449-1494 | A zigzag value beyond 32 signed bits is an error |
| `PbStreams.IStream.DecodeBlob` | firmware/main/src/mesh/serialization/nanopb/pb_decode.c:1497-1535 | Fills size and leading bytes, failing beyond the capacity or the input |
| `PbStreams.IStream.DecodeFixed` | firmware/main/src/mesh/serialization/nanopb/pb_decode.c:1639-1660 | Six bytes, or all zeros for an empty string |
| `PbStreams.IStream.SkipField` | firmware/main/src/mesh/serialization/nanopb/pb_decode.c:308-318 | Skips a field of a known wire type and fails on any other |
| `Varints.VarintRoundTrip` | firmware/main/src/mesh/serialization/nanopb/pb_decode.c:243-263 | Reading inverts writing for every 64-bit value and leaves the rest of the stream |
| `Varints.Base128Minimal` | firmware/main/src/mesh/serialization/nanopb/pb_encode.c:573-604 | The base-128 form is the only shortest varint of its value |
| `Varints.Varint32Agrees` | firmware/main/src/mesh/serialization/nanopb/pb_decode.c:171-240 | Whenever the 32-bit reader succeeds the 64-bit reader reads the same bytes, and the result is its value modulo 2^32 |
| `Varints.Varint32RoundTrip` | firmware/main/src/mesh/serialization/nanopb/pb_decode.c:171-240 | Every 32-bit value written is read back by the 32-bit reader |
| `Varints.ZigzagBijective` | firmware/main/src/mesh/serialization/nanopb/pb_encode.c:625-635 | Zigzag is the alternating enumeration of the integers and both directions are exact for every 64-bit value |
| `Varints.EncodeVarint32` | firmware/main/src/mesh/serialization/nanopb/pb_encode.c:573-604 | The split encoder emits the base-128 form of the 64-bit value in at most ten bytes |
| `Varints.EncodeVarint` | firmware/main/src/mesh/serialization/nanopb/pb_encode.c:607-622 | Emits the base-128 form of any 64-bit value |
| `FieldIter.FieldIterator.Find` | firmware/main/src/mesh/serialization/nanopb/pb_common.c:195-244 | From any position terminates, succeeds exactly when the iterator is there already or the tag exists as an ordinary field, and leaves index and word offset consistent |
| `FieldIter.FieldIterator.Next` | firmware/main/src/mesh/serialization/nanopb/pb_common.c:188-193 | Steps to the next field, or to the first one past the end |
| `FieldIter.SweepStep` | firmware/main/src/mesh/serialization/nanopb/pb_common.c:217-238 | A circular sweep that returns to its start without a hit has seen every field that could match |
| `FieldIter.FastCheckSound` | firmware/main/src/mesh/serialization/nanopb/pb_common.c:222-226 | The six-bit fast check never rejects the field looked for, in any descriptor format |
| `FieldIter.MeshTagKnown` | firmware/main/src/mesh/serialization/mesh.pb.h:67-82 | For the mesh message a lookup succeeds exactly on tags 1 to 14 and 17 |
| `Keypair.DamageRejected` | firmware/main/src/persistence/eeprom/EepromIdentity.cpp:9-28 | A saved keypair damaged only within two consecutive bytes of its 64-byte image is rejected |
| `Keypair.BurstDetected` | firmware/main/src/persistence/eeprom/EepromCore.cpp:33-44 | Images that differ only within two consecutive bytes have different CRCs |
| `Keypair.PairDetected` | firmware/main/src/persistence/eeprom/EepromCore.cpp:33-44 | From one register value, two different pairs of bytes never lead to the same value |
| `Keypair.EightShiftsSound` | firmware/main/src/persistence/eeprom/EepromCore.cpp:38-41 | Eight register shifts are injective, linear and spill a high-byte difference into the low byte |
| `Keypair.LoadAfterSave` | firmware/main/src/persistence/eeprom/EepromIdentity.cpp:9-44 | Loading after a complete save returns the saved pair |
| `Keypair.FirstSaveIsAtomic` | firmware/main/src/persistence/eeprom/EepromIdentity.cpp:30-44 | A first save interrupted anywhere leaves the pair being saved or nothing, the pair exactly when the CRC reached flash |
| `Keypair.KeypairStore.Crc16` | firmware/main/src/persistence/eeprom/EepromCore.cpp:33-44 | The branching loops compute the specified CRC |
| `Keypair.KeypairStore.Save` | firmware/main/src/persistence/eeprom/EepromIdentity.cpp:30-44 | Writes private key, public key and CRC in order, stopping at the first failed write |
| `Keypair.KeypairStore.Load` | firmware/main/src/persistence/eeprom/EepromIdentity.cpp:9-28 | Returns the stored pair exactly when sizes and CRC agree |

## Left out

- `lib/lattice-protocol` is not part of this model: message types, opcodes and the layout of the mesh message are taken as the rest of the repository uses them.
- Radio, Wi-Fi, UART, GPIO and the NVS driver: only their effects are kept (registered peers, frames handed over, stored values); ESP-NOW send failures are not modelled.
- The cryptographic primitives: idealised as described above; truncation of the HMAC to eight bytes and its all-zero result on a backend error have no counterpart.
- Interleaving of the mesh task and the housekeeping task inside a handler: each handler is one step.
- Ciphertext as bytes: a sealed payload has no first byte, so it never passes for a configuration opcode without being opened.
- A master-pin bypass in development mode, and its development epoch.
- MeshNode.Mesh.RegisterPeerWithKey: is stated for flash writes that succeed; a restart in the middle is the restart of the network runs, and Peers.OneSlotSaveIsAtomic says what flash then holds.
- LoopFree.EveryRecordedPathIsUsable: assumes that no replay cache overflows, that no relay restarts under a report it relayed, and reports under a non-zero epoch; without them LoopFree.AnswerCarriedIff still says exactly which recorded paths are usable.
- BeaconRelay.RelaysRise: the relay mark is shared by all masters, so the claim is per node and not per master.
- KeyCoherence.LookupsNeverGoStale: is about one boot and excludes peer removal, after which KeyCoherence.RemovalCoherentIff says exactly when the cache is still coherent.
- OutboundSequence.SealNeverRejected: is about frames built in the same call; SealedPairs.HearingTx and SealedPairs.EchoHalts say what the guard does to a frame of its own that a node hears.
- OutboundSequence.NoncesRise: is about the pairs a device draws; SealedPairs.SealedPairsRise and SealedPairs.NonceSafeIff are about those a node seals under, which repeat when it hears its own sealed frame after a restart (Witnesses.ANonceIsReused). The stored epoch stays below its 32-bit maximum at every event, and the store is initialised (`firmware/main/main.cpp:405-409` restarts the device without one before the mesh starts); OutboundSequence.EpochOverflowRepeats and OutboundSequence.StoreDownRepeats show that both are needed.
- ReturnPath.LearnedPathDelivers: assumes that the replay gates on the way let the frames pass, as they do for newer pairs.
- Termination.QuietRunsEnd: counts receptions, losses and deferred relays; the report, enrollment and beacon timers of `Mesh::loop` are originations.
- What drains the queue of enrollment requests to the server, health reports and the opcodes handled by the adapters.
- nanopb features the mesh message never uses: extensions, oneofs, submessages, pointer fields, packed and repeated fields, defaults, floats, strings.
- FieldIter.FieldIterator.Find: models index, word offset, tag and type of the iterator, not its pointers into the message struct.
- Aliasing of the derived-key pointers into the cache: lookups return values.
- LED, button, display, sensors, logging, boot manager and adapter selection.
