# Verified models of the proxy core

Dafny models of the parts of this proxy whose correctness is hardest to see by
reading: code in which several goroutines share maps under a mutex, fast
structures that stand in for a full history, in-place algorithms over
configuration and DNS messages, and fixed-width arithmetic. Each model follows
its source file branch by branch, and every theorem is about all inputs, all
interleavings or all histories.

`dafny verify dfyconfig.toml` checks everything.

## How it is organised

| files | what they model |
|---|---|
| `UdpTarget`, `UdpTargetSafety`, `UdpDecisions`, `UdpRace`, `UdpDelivery`, `UdpRaceConn`, `QuicHeader` | the DIRECT UDP race: one logical destination, several candidate addresses, one winner |
| `PacketScheduler`, `PacketSchedulerSafety`, `PacketSender` | the bounded UDP packet sender with its resolver workers |
| `UdpMapping`, `UdpMappingRuns`, `MappingHistory`, `UdpIdentity`, `RestorePhases` | the identity maps that restore a reply's source address, and its two locked phases |
| `AddressPool`, `AddressRace`, `AddressHistory` | DNS clients per server address, and the selection of a winner among them |
| `Graphs`, `GroupGraph`, `GroupSort`, `GroupLoops`, `CycleChecks` | the topological sort of proxy groups with its loop report, and the two recursive cycle checks |
| `RejectBan`, `DropParker` | bans after repeated rejections, and parked connections |
| `ServiceBinding`, `ServiceMessage`, `TtlAgeing`, `DirectLookup` | SVCB/HTTPS rewriting, ageing of cached answers, the progressive lookup |
| `SocksAddr` | SOCKS addresses |
| `NetTypes` | bytes and addresses shared by all |

State that the source updates under a mutex or in an event loop is a class,
whose methods are proved to be steps of a state machine. A step is one locked
section or one event of a loop; everything between locked sections interleaves
freely. Safety theorems quantify over every sequence of steps. Loops over a Go
map take the keys in any order.

Clocks, sockets, DNS upstreams, fake-IP pools and caches are inputs: the time a
step reads, what a send or a fetch returns, what a pool or a cache answers.

## What the proofs turned up

- UDP race: a datagram whose sender is nobody's candidate is passed through
  under its own address. When that address is a logical destination, it is
  shown under that destination although it did not come from the winner.
  `UdpRace.ShownUnderLogical` gives the exact condition. It takes a logical
  address whose own family had no socket when it was registered, since the
  address is always offered as a candidate of its own
  (`adapter/outbound/direct_udp_resolver.go:42-47`);
  `UdpRace.PassThroughUnderLogical` is such a run.
- SOCKS: the parser computes indices in one byte. A name of 253 bytes keeps its
  port only if the port's low byte is 3, names of 254 or 255 bytes (modulo 256)
  cannot be parsed at all, longer ones are cut. `SocksAddr.RoundTrip` and
  `SocksAddr.PrintedButUnreadable` are exact.
- TTL ageing: with a positive target no TTL is ever raised, for all unsigned
  32-bit values. Wrapping shows only for a target above the smallest TTL, and
  `TtlAgeing.AgedUp` says exactly when. A response without answers that gets
  the 30-second floor is the one case that is not aged
  (`TtlAgeing.FlooredReplyStands`).
- Reject bans: the ring and the lazy expiry lose nothing as long as no clock
  reading is older than an earlier lookup's. Rejections may carry older
  readings than other rejections. For a key with an entry,
  `RejectBan.LateLookupForgets` and `RejectBan.LateRejectForgets` say exactly
  when a lookup or rejection that follows a lookup with an older reading still
  answers as the history does, and `RejectBan.LateRejectDiverges` when the two
  stay in step. `RejectBan.LateReadingDiverges` is a run from an empty cache in
  which they part.
- Dialer chains: since a proxy has one dialer, the visited set of the recursion
  always equals its path, so its test never decides anything.
- Drop parker: the queue is ordered by deadline because both of its users park
  for 60 seconds (`tunnel/tunnel.go:64`, `constant/adapters.go:63`,
  `component/dialer/dialer.go:23`). The parker itself does not enforce it.
- Progressive lookup: at most one batch more than there are sources is sent,
  one less than the channel holds.

## Model

| member | source | states |
|---|---|---|
| `QuicHeader.ReadsWhatWasPrinted` | adapter/outbound/direct_udp.go:483-502 | a long header laid out as section 17.2 of RFC 9000 says is read back as its two connection IDs |
| `QuicHeader.AcceptsOnlyPrinted` | adapter/outbound/direct_udp.go:483-502 | whatever the reader accepts is such a header, so reading and printing are inverse |
| `UdpTargetSafety.InvKept` | adapter/outbound/direct_udp.go:405-467 | every step of a target keeps the whole invariant over its history: shape, start, budget, ID table, delivery, warm preference |
| `UdpTargetSafety.ApplyExtends` | adapter/outbound/direct_udp.go:405-467 | a step never takes back a winner of a non-QUIC target, a candidate, an ambiguous ID or a QUIC mark |
| `UdpTargetSafety.WriteSettles` | adapter/outbound/direct_udp.go:405-451 | after a write there is a winner exactly when there was one, the write named one by its connection ID, or the race is overdue (900 ms with QUIC; 300 ms, four datagrams or the byte budget without) and some candidate is live, which then wins |
| `UdpTargetSafety.ReplySettles` | adapter/outbound/direct_udp.go:593-643 | after an examined reply there is a winner exactly when there was one, the window is past and somebody is live, or, without QUIC, the sender is live and so wins |
| `UdpTargetSafety.SettlesOnWrite` | adapter/outbound/direct_udp.go:429-437 | the settling of a write changes the winner alone, and sets one exactly when the race is overdue and some candidate is live |
| `UdpTargetSafety.SettlesOnReply` | adapter/outbound/direct_udp.go:618-626 | the settling of a reply, likewise for its windows |
| `UdpTargetSafety.SettlesAmongLive` | adapter/outbound/direct_udp.go:538-556 | either choice of a candidate is a live one, and nobody exactly when none is live |
| `UdpTargetSafety.FanOutWithinBudget` | adapter/outbound/direct_udp.go:452-466 | a fan-out is the first one or fits into 16 KiB together with all before it |
| `UdpTargetSafety.ReplayWithinBudget` | adapter/outbound/direct_udp.go:256-265 | replays to late candidates fit into 16 KiB together with all sent before |
| `UdpTargetSafety.CidTableNote` | adapter/outbound/direct_udp.go:597-614 | noting a reply keeps the ID table exact about all replies seen: sole source, ambiguous, or table full |
| `UdpTarget.AddedIs` | adapter/outbound/direct_udp.go:234-250 | a registration adds exactly the offered candidates of an open address family that are not live yet, each once |
| `UdpTarget.ReplayIsLongest` | adapter/outbound/direct_udp.go:256-265 | the replay stops only where the next datagram would exceed 16 KiB |
| `UdpTarget.LiveOf` | adapter/outbound/direct_udp.go:456-461 | contains exactly the candidates that are live |
| `UdpTarget.FirstLiveIs` | adapter/outbound/direct_udp.go:549-556 | the earliest listed live candidate, or the unset address exactly when none is live |
| `UdpDecisions.LiveOfIsAllLive` | adapter/outbound/direct_udp.go:456-461 | the copies of a fan-out stand at exactly the live places of the list, in order |
| `UdpDecisions.BornRecalls` | adapter/outbound/direct_udp.go:597-643 | whatever sections ran, the counters, the responder (first live replier), the QUIC mark and the size of the kept datagrams are functions of the history |
| `UdpDecisions.WriteSends` | adapter/outbound/direct_udp.go:405-467 | a datagram goes to the winner the target then has, or to all live candidates in order if it has none |
| `UdpDecisions.WriteChooses` | adapter/outbound/direct_udp.go:405-451 | who wins after a write, from what happened before it: the address a long header names, else the old winner, else, if late, the survivor (first live replier for QUIC, earliest listed otherwise), else nobody |
| `UdpDecisions.WriteKeepsOpenings` | adapter/outbound/direct_udp.go:440-466 | a datagram is kept for late candidates exactly while there is no winner, fewer than 4 are kept and 16 KiB suffice |
| `UdpDecisions.ReplyChooses` | adapter/outbound/direct_udp.go:593-643 | who wins after a reply, in the same terms; without QUIC a live sender within the window wins |
| `UdpDecisions.FailLeaves` | adapter/outbound/direct_udp.go:469-479 | failed candidates alone stop being live; after a fan-out without QUIC or winner a lone survivor wins, and otherwise the winner stays |
| `UdpDecisions.LoneSurvivorIs` | adapter/outbound/direct_udp.go:558-566 | counting live candidates to one is having one live place |
| `UdpRace.NextKeeps` | adapter/outbound/direct_udp.go:196-281 | every step of the connection (register, write, failed sends, read, socket) keeps the invariant and only extends the targets |
| `UdpRace.OneWinner` | adapter/outbound/direct_udp.go:568-656 | over every run a non-QUIC target never changes its winner, the winner is a registered candidate, and every datagram attributed to it came from that winner |
| `UdpRace.RaceIsBounded` | adapter/outbound/direct_udp.go:429-466 | over every run a non-QUIC target fans out at most 4 datagrams; its byte counter equals the bytes really sent and stays within the larger of 16 KiB and the first fan-out |
| `UdpRace.TableRefinesReplies` | adapter/outbound/direct_udp.go:597-614 | over every run the server-ID table (at most 32) is exact about the full reply history, and an ambiguous ID stays ambiguous |
| `UdpRace.WarmPreferenceOnce` | adapter/outbound/direct_udp.go:405-451 | over every run a warm preference is stored at most once, for the current winner, after a short-header packet carrying its ID |
| `UdpRace.ShownUnderLogical` | adapter/outbound/direct_udp.go:585-656 | a datagram shown under a non-QUIC logical address came from its winner if and only if its sender is a registered candidate of some target |
| `UdpRace.PassThroughUnderLogical` | adapter/outbound/direct_udp.go:644-651 | the concrete run behind the exception: the logical address is offered at registration but its family has no socket yet, so a later datagram from it is passed through although there is no winner |
| `UdpRace.WinnerMoves` | adapter/outbound/direct_udp.go:405-413 | over every run a target with a winner changes it exactly when a datagram written to it carries a long-header destination ID that the table gives to another address, and then to that address, the only one any reply with that ID came from |
| `UdpRace.SettledByWrite` | adapter/outbound/direct_udp.go:383-467 | over every run a write leaves its target with a winner exactly as above |
| `UdpRace.SettledByReply` | adapter/outbound/direct_udp.go:585-643 | over every run a reply from a candidate of a target past its window leaves it with a winner, unless another target takes the reply first |
| `UdpRace.RunGrows` | adapter/outbound/direct_udp.go:196-281 | over every run targets are never removed and evolve only by their own steps |
| `UdpDelivery.RepliesAreHandedUp` | adapter/outbound/direct_udp.go:585-656 | over every run a datagram is handed up under the first target listing its sender whose winner afterwards is the sender (or which speaks QUIC and has none); not at all if there is no such target; as it came exactly when nobody lists the sender |
| `UdpDelivery.OnlyRepliesAreHandedUp` | adapter/outbound/direct_udp.go:585-656 | over every run nothing else is handed up |
| `UdpDelivery.RepliesAreExamined` | adapter/outbound/direct_udp.go:585-643 | over every run exactly the targets listed up to the one that takes a reply note it, each getting the winner its history calls for; the others stay as they are |
| `UdpDelivery.WritesAreDecided` | adapter/outbound/direct_udp.go:383-467 | over every run a written datagram goes to the winner its target has afterwards or to all its live candidates in order, the winner is the one the history calls for, a warm preference is stored exactly with the first proof of the winner |
| `UdpDelivery.RegistrationsAdd` | adapter/outbound/direct_udp.go:196-265 | over every run a registration adds exactly the first offers of an open family that are not live, in order, if and only if the connection is open, has a socket and the target is the same request, undecided and within its window; each is linked behind earlier targets |
| `UdpDelivery.FailuresSettle` | adapter/outbound/direct_udp.go:469-479 | over every run failed sends end the liveness of exactly those candidates and decide the race only for a lone survivor |
| `UdpDelivery.ReplyLeaves` | adapter/outbound/direct_udp.go:597-643 | an examined reply changes nothing but winner, responder and ID table |
| `UdpDelivery.AddedPlaces` | adapter/outbound/direct_udp.go:234-250 | the candidates added stand at the places of the first offers |
| `UdpDelivery.LinksInOrder` | adapter/outbound/direct_udp.go:243-249 | linking puts the target last in the list of each added address and of no other |
| `UdpRaceConn.UniqueIs` | adapter/outbound/direct_udp.go:165-180 | valid, unmapped, pairwise different, and exactly the valid unmapped inputs |
| `UdpRaceConn.UniquePlaces` | adapter/outbound/direct_udp.go:165-180 | they stand in the order of their first places |
| `UdpRaceConn.UniqueIps` | adapter/outbound/direct_udp.go:165-180 | the loop yields them at their first places |
| `UdpRaceConn.CandidatesOf` | adapter/outbound/direct_udp.go:148-154 | one valid candidate with the destination port for each unique address, in order |
| `UdpRaceConn.LiveCandidates` | adapter/outbound/direct_udp.go:456-461 | the loop yields the live candidates in order |
| `UdpRaceConn.FirstLiveCandidate` | adapter/outbound/direct_udp.go:549-556 | the loop finds the earliest listed live candidate |
| `UdpRaceConn.CountLive` | adapter/outbound/direct_udp.go:558-566 | the number of live candidates |
| `UdpRaceConn.NoteQuicWrite` | adapter/outbound/direct_udp.go:405-428 | for any order of the ID table: marks QUIC on a long header, and confirms exactly a short header carrying the winner's sole ID |
| `UdpRaceConn.LinkCandidates` | adapter/outbound/direct_udp.go:234-250 | links exactly the added candidates to the target, in order, and makes them live |
| `UdpRaceConn.RacePacketConn.Register` | adapter/outbound/direct_udp.go:215-265 | the second locked section of register is one step of the race; says when it refuses, what is added and what is replayed |
| `UdpRaceConn.RacePacketConn.RegisterTarget` | adapter/outbound/direct_udp.go:231-265 | the target with the added candidates live and linked, and what is replayed to them |
| `UdpRaceConn.RacePacketConn.ReplayLoop` | adapter/outbound/direct_udp.go:259-265 | the loop that charges datagrams until one would exceed the budget |
| `UdpRaceConn.RacePacketConn.TakeReplay` | adapter/outbound/direct_udp.go:256-265 | takes the longest prefix of the opening datagrams that fits the budget and charges its cost |
| `UdpRaceConn.RacePacketConn.WriteTo` | adapter/outbound/direct_udp.go:383-467 | the locked section of WriteTo is one step of the race; the decision returned goes to the winner afterwards or to all live candidates in order, and is the one recorded |
| `UdpRaceConn.RacePacketConn.DecideWrite` | adapter/outbound/direct_udp.go:405-467 | the same for the target alone |
| `UdpRaceConn.RacePacketConn.FailSends` | adapter/outbound/direct_udp.go:469-479 | removing failed candidates is one step of the race |
| `UdpRaceConn.RacePacketConn.HandleReply` | adapter/outbound/direct_udp.go:585-656 | the locked section of WaitReadFrom is one step of the race, and hands up what the first taker among the sender's targets says |
| `PacketScheduler.CustodyKept` | tunnel/packet_sender_prepare.go:26-59 | every step of Send, Close and the event loop keeps each accepted packet in exactly one place, and slots equal to the packets not dropped |
| `PacketScheduler.KeysShared` | tunnel/packet_sender_prepare.go:13-24 | packets share a key exactly if they go to the same port of the same host, or of the same address where neither names a host |
| `PacketSchedulerSafety.SafeKept` | tunnel/packet_sender_prepare.go:48-145 | every step keeps custody, phases, scheduling, order and preparation together |
| `PacketSchedulerSafety.SlotsAreConserved` | tunnel/connection.go:463-488 | over every interleaving slots held equal accepted packets not dropped (at most 128), and no packet is dropped twice |
| `PacketSchedulerSafety.ChannelNeverFull` | tunnel/connection.go:480-487 | over every interleaving the two branches of Send after taking a slot (channel full, sender closed) are unreachable |
| `PacketSchedulerSafety.CloseReleasesEverything` | tunnel/connection.go:490-495 | once Close has finished and the loop has stopped, no slot is held and every accepted packet was dropped |
| `PacketSchedulerSafety.LoopStops` | tunnel/packet_sender_prepare.go:51-145 | over every continuation of a cancelled run, whatever callers do, the loop takes a bounded number of steps more, and until it has stopped one of its steps is enabled |
| `PacketSchedulerSafety.LoopNeverStuck` | tunnel/packet_sender_prepare.go:99-145 | in every safe cancelled state that is not stopped some step of the loop is enabled |
| `PacketSchedulerSafety.WorkersAreUsed` | tunnel/packet_sender_prepare.go:68-92 | over every interleaving pending keys are the disjoint union of waiting and in-flight keys, groups are non-empty, workers are never over-committed nor idle while a key waits |
| `PacketSchedulerSafety.WrittenInOrder` | tunnel/packet_sender_prepare.go:103-142 | over every interleaving packets of one key are written in arrival order and none before its key was prepared |
| `PacketSchedulerSafety.DroppedMeansWritten` | tunnel/packet_sender_prepare.go:103-142 | over every interleaving, until a cancellation or a failed preparation the packets released are exactly those written, in the same order |
| `PacketSender.Sender.Process` | tunnel/packet_sender_prepare.go:48-145 | the whole life of a sender for any sequence of arrivals, packets, results, mappings, closings and cancellations: it ends with nothing queued, pending or holding a slot, every accepted packet released exactly once, and what was written in order of arrival for each key and only to prepared targets |
| `PacketSender.Sender.Send` | tunnel/connection.go:463-488 | a packet is queued, under a new name and last in the channel, exactly when the sender is open and a slot is free; otherwise nothing changes, and the loop is not touched |
| `PacketSender.Sender.Put` | tunnel/connection.go:480-487 | the send on the channel never finds it full nor the sender cancelled |
| `PacketSender.Sender.Close` | tunnel/connection.go:490-495 | cancels, and releases what was queued in order, one slot each; the loop is not touched |
| `PacketSender.Sender.Start` | tunnel/packet_sender_prepare.go:48-71 | the loop begins with nothing pending |
| `PacketSender.Sender.StartWaiting` | tunnel/packet_sender_prepare.go:72-93 | hands waiting keys to idle workers, oldest first, until workers or keys run out or the sender is cancelled |
| `PacketSender.Sender.Dispatch` | tunnel/packet_sender_prepare.go:128-142 | a packet joins its pending group, is written at once if its key is prepared, or opens a group whose key waits behind the others; keys in waiting order become keys in work |
| `PacketSender.Sender.HandlePacket` | tunnel/packet_sender_prepare.go:123-142 | the whole turn for the oldest queued packet, in the same terms; after cancellation it is dropped and the loop is left |
| `PacketSender.Sender.FlushGroup` | tunnel/packet_sender_prepare.go:107-121 | a group is written whole and in order, or dropped whole |
| `PacketSender.Sender.HandleReady` | tunnel/packet_sender_prepare.go:103-122 | the turn for a result of a key in work: the key leaves work, prepared or not, its group is gone with its slots, and the next keys are handed out |
| `PacketSender.Sender.Leave` | tunnel/packet_sender_prepare.go:51-59 | the deferred cleanup drops every packet of every pending group and of the channel, one slot each |
| `PacketSender.Sender.DrainChannel` | tunnel/connection.go:452-461 | drains the channel in order, giving back one slot per packet |
| `PacketSender.Sender.DropGroups` | tunnel/packet_sender_prepare.go:53-57 | drops every pending group, in any order of the groups |
| `PacketSender.Sender.DropGroup` | tunnel/packet_sender_prepare.go:54-56 | drops one pending group in order, giving back its slots |
| `PacketSender.LeadsToSafe` | tunnel/packet_sender_prepare.go:48-145 | whatever steps led to the state the object is in, the state is safe, and the packets it knows are exactly those accepted |
| `PacketSender.LeavesNothing` | tunnel/connection.go:452-495 | wherever steps lead, a stopped loop after a finished Close keeps no slot and has released every accepted packet exactly once |
| `UdpMapping.AddMappingKeeps` | tunnel/connection.go:147-209 | a mapping keeps stamps distinct and the identity maps disjoint and justified, and overwrites no exact entry, prepared target or first target of an origin |
| `UdpMapping.AddMappingPrepares` | tunnel/connection.go:147-209 | a mapping with a destination prepares the key of the packets it is for and no other, which is the step of the packet scheduler |
| `UdpMapping.RestoreKeeps` | tunnel/connection.go:241-294 | a restore keeps the same and changes nothing but the learned addresses |
| `UdpMappingRuns.AttributedToLastRequest` | tunnel/connection.go:211-239 | over every history an IP-only reply is attributed by port to the current origin of the domain in the last mapping call for that port; map order plays no part |
| `UdpMappingRuns.IdentitiesHold` | tunnel/connection.go:177-209 | over every history exact and learned keys are disjoint, at most 512 are learned, every learned origin is some domain's current origin, request numbers are distinct |
| `UdpMappingRuns.ExactNeverOverwritten` | tunnel/connection.go:147-196 | over every continuation of a history exact mappings and prepared targets stay as they are |
| `UdpMappingRuns.DomainRestored` | tunnel/connection.go:243-252 | over every history a reply that names a domain is restored to the origin it was last mapped with |
| `RestorePhases.RestoresAreAtomic` | tunnel/connection.go:241-294 | every history of mapping calls and two-phase restores, any number of them in flight, has an atomic history with the same maps, the same answers and the same mapping calls, in which each restore takes effect between its first phase and its answer |
| `RestorePhases.EffectsExplain` | tunnel/connection.go:259-293 | that history is the one in which a restore takes effect at its read phase if that answers, else at its write phase |
| `RestorePhases.PhasesKeep` | tunnel/connection.go:241-294 | the identity maps keep their invariant in phases, too |
| `UdpMappingRuns.RunRefines` | tunnel/connection.go:147-188 | the maps are the function of the call history that the reference reads off it |
| `MappingHistory.AnswersAreHistory` | tunnel/connection.go:241-294 | over every history a reply is restored to the origin first mapped to its address, else to what it was given before unless superseded, else to the domain last requested at its port while fewer than 512 are learned, else to itself; a fold over the calls |
| `MappingHistory.PeeksAreHistory` | tunnel/connection.go:254-273 | the read phase gives the same answer, and none exactly when it would have to learn |
| `MappingHistory.RunExact` | tunnel/connection.go:189-195 | the exact map holds the origin of the first mapping call for each address |
| `MappingHistory.RunGuesses` | tunnel/connection.go:197-209 | the learned map holds the guesses still standing, each made once, dropped when superseded or mapped |
| `MappingHistory.TargetsAreHistory` | tunnel/connection.go:147-176 | over every history packets of a key go where the first mapping call for that key with a destination said |
| `MappingHistory.CanonicalIff` | tunnel/connection.go:115-117 | domains are the same exactly up to case and one final dot |
| `UdpIdentity.IdentityMaps.ForgetLearned` | tunnel/connection.go:200-209 | removes exactly the learned addresses of one origin, for any map order |
| `UdpIdentity.IdentityMaps.AddMapping` | tunnel/connection.go:147-196 | the maps follow the history of calls, now one call longer |
| `UdpIdentity.IdentityMaps.OriginForPort` | tunnel/connection.go:211-239 | the search over all domains finds the newest request for the port |
| `UdpIdentity.IdentityMaps.RestoreRead` | tunnel/connection.go:254-273 | the read-locked phase changes nothing, and what it answers is what the history says |
| `UdpIdentity.IdentityMaps.RestoreWrite` | tunnel/connection.go:280-293 | the write-locked phase answers what the history says and leaves the maps of the history one restore longer |
| `UdpIdentity.IdentityMaps.RestoreReadFrom` | tunnel/connection.go:241-294 | the whole operation: a domain gets its current origin, an address the answer of the history, anything else none |
| `AddressPool.AcquireKeeps` | dns/address_race.go:87-113 | acquiring keeps the pool invariant: users are unreleased closures, a used entry is the mapped one |
| `AddressPool.ReleaseKeeps` | dns/address_race.go:101-112 | releasing keeps it and retires an entry only when stale and unused |
| `AddressPool.PruneKeeps` | dns/address_race.go:115-132 | pruning keeps it and retires exactly the unused entries outside the kept set |
| `AddressPool.ResetKeeps` | dns/address_race.go:128-131 | the reset after unlocking keeps it, once per retired entry |
| `AddressPool.ClientPool.AcquireClient` | dns/address_race.go:93-113 | finds or creates the client and counts a user |
| `AddressPool.ClientPool.ReleaseClient` | dns/address_race.go:101-112 | gives back a user and says whether to reset |
| `AddressPool.ClientPool.PruneClients` | dns/address_race.go:115-132 | for any map order: marks, unmaps and returns exactly the unused clients outside the kept set |
| `AddressPool.ClientPool.MarkOne` | dns/address_race.go:119-126 | visiting one client extends the prune by exactly that address |
| `AddressPool.ClientPool.MarkStale` | dns/address_race.go:118-127 | the loop of prune |
| `AddressRace.InvKept` | dns/address_race.go:146-208 | every step of every exchange, race, query and prune keeps the pool invariant, token ownership, versions and selection; whom the exchanges use is stated by the members of AddressHistory |
| `AddressRace.RunInv` | dns/address_race.go:146-208 | so it holds throughout every run |
| `AddressRace.RetiredOnceAndUnused` | dns/address_race.go:87-132 | over every run a used entry is the one in the map, and a client is reset by release or prune at most once and never while used |
| `AddressRace.OneRaceAtATime` | dns/address_race.go:146-170 | over every run at most one race runs, only while no winner is set |
| `AddressRace.LateFailureKeepsNewWinner` | dns/address_race.go:187-208 | over every run a late failure clears the winner only if it is the very choice it used |
| `AddressRace.OneFreshEntry` | dns/address_race.go:237-287 | over every run, while no selection is held, at most one entry is not stale |
| `AddressHistory.WinnerIsLastChosen` | dns/address_race.go:186-208 | over every run the winner is the last race's unless an exchange that used that very choice has failed since; a fold over the steps |
| `AddressHistory.ExchangesUseTheChoice` | dns/address_race.go:146-170 | over every run an exchange that looks uses exactly that choice with a counted closure of its client, and goes for the selection or races exactly when there is none |
| `AddressHistory.QueriesUseTheirAddress` | dns/address_race.go:237-260 | over every run a query of a race holds a counted closure of its own address |
| `AddressHistory.PrunesKeepTheWinner` | dns/address_race.go:115-132 | over every run the prune after a race keeps the address that won it and no other: the rest are stale, and reset exactly if unused |
| `AddressHistory.NoClosureForgotten` | dns/address_race.go:87-113 | over every run whatever is not released belongs to an exchange or a query under way |
| `AddressHistory.FailedExchangesGoOn` | dns/address_race.go:187-208 | over every run an exchange whose winner failed goes on to the selection or a race, and any other is over |
| `AddressHistory.AcquireGives` | dns/address_race.go:93-113 | acquiring gives a closure of the address's fresh mapped entry with one user more and touches no other |
| `AddressHistory.PruneLeaves` | dns/address_race.go:115-132 | what a prune leaves of every mapped client |
| `GroupSort.CountUp` | config/utils.go:54-60 | adds one to the degree of every listed name, creating unseen ones |
| `GroupSort.CountDown` | config/utils.go:84-90 | takes one from every listed name and queues exactly those that reach zero |
| `GroupSort.AddGroup` | config/utils.go:43-60 | one more group keeps degrees equal to the number of listings |
| `GroupSort.Build` | config/utils.go:37-61 | builds the degrees and the index, or reports the first name that a second group bears |
| `GroupSort.ZeroDegree` | config/utils.go:67-71 | for any map order: the queue of all nodes of degree zero |
| `GroupSort.TakeKeeps` | config/utils.go:73-93 | taking an unlisted node keeps every cycle among what is left and every taken group after all that list it |
| `GroupSort.TakeHead` | config/utils.go:74-92 | removing the head keeps degrees and queue exact |
| `GroupSort.PlaceHead` | config/utils.go:77-78 | writes a group into the next place from the end of the array |
| `GroupSort.TakeAll` | config/utils.go:66-93 | when the queue is empty everything left is listed by something left, and the array holds what was taken, backwards |
| `GroupLoops.LinkBack` | config/utils.go:102-119 | for any map order: outdegrees and the groups listing each node, with multiplicity |
| `GroupLoops.DropHead` | config/utils.go:131-138 | removing a dead end keeps outdegrees and queue exact |
| `GroupLoops.DropDeadEnds` | config/utils.go:121-139 | what remains leads on, keeps every cycle, and nothing removed leads into it |
| `GroupLoops.NothingLeft` | config/utils.go:95-98 | with nothing left the array is a permutation with every group after those it lists |
| `GroupLoops.ReportLoops` | config/utils.go:100-146 | the report is non-empty, without repeats, contains every node on a cycle, and each member has a reported predecessor and successor |
| `GroupLoops.SortDistinct` | config/utils.go:62-146 | for groups of different names: sorted exactly when the graph is acyclic, else the loops are located |
| `GroupLoops.DagSort` | config/utils.go:20-147 | for any map order: fails on a repeated name exactly when there is one and names the first, succeeds exactly when the graph is acyclic, and then the array is a permutation with every group after those it lists; otherwise the loops are located |
| `Graphs.PredecessorsGiveCycle` | config/utils.go:100-146 | a finite non-empty set whose members all have a predecessor in it contains a cycle |
| `CycleChecks.HasCycle` | config/utils.go:181-203 | terminates; false means nothing walked from here meets itself or the path, true means the graph has a cycle that this chain runs into; the visited test never decides |
| `CycleChecks.ValidateChains` | config/utils.go:169-178 | passes exactly when the chains have no cycle, and names a proxy whose own chain loops |
| `CycleChecks.ValidateDialers` | config/utils.go:150-178 | passes exactly when every dialer exists and there is no cycle, and then every chain ends within the number of dialers; otherwise names a real fault |
| `CycleChecks.WalksEnd` | config/utils.go:168-178 | without cycles every chain ends |
| `CycleChecks.VerifyFrom` | config/config.go:1067-1089 | terminates; a missing list or a path closing on itself is reported as it is, otherwise nothing reachable returns to the path |
| `CycleChecks.VerifySubRules` | config/config.go:1057-1065 | passes exactly when every referenced list exists and the references have no cycle |
| `RejectBan.CacheCountsExactly` | tunnel/reject_ban.go:103-156 | for every run of lookups, rejections, forgets, resets and evictions in which no reading is older than an earlier lookup of its key, every answer equals that of a record keeping the whole history |
| `RejectBan.StepAgrees` | tunnel/reject_ban.go:103-156 | one step keeps cache and history in agreement and gives the same answer |
| `RejectBan.TenInWindow` | tunnel/reject_ban.go:149-151 | ten rejections lie in the window exactly when the tenth newest does |
| `RejectBan.CountMore` | tunnel/reject_ban.go:143-155 | the ring keeps the ten newest rejections by number modulo ten and bans exactly when they fit the window |
| `RejectBan.LateLookupForgets` | tunnel/reject_ban.go:103-120 | after a lookup of a key with an entry, a second lookup with any reading answers as the history does unless a ban ends between the two readings |
| `RejectBan.LateRejectForgets` | tunnel/reject_ban.go:127-156 | after a lookup, a rejection with any reading answers as the history does unless the entry had lapsed at the lookup's reading and the rejection is the tenth in its window |
| `RejectBan.LateRejectDiverges` | tunnel/reject_ban.go:127-156 | and cache and history stay in step unless the entry had lapsed at the lookup's reading but not at the rejection's |
| `RejectBan.LateReadingDiverges` | tunnel/reject_ban.go:103-120 | the concrete run behind the condition: ten rejections, a lookup as their ban ends, and a lookup with an older reading, which misses the ban the history still has |
| `RejectBan.BanIsFixed` | tunnel/reject_ban.go:127-141 | for any clock readings: until a step that may end it, a ban's deadline never moves, every lookup finds it and no rejection reports it |
| `RejectBan.StartIsNew` | tunnel/reject_ban.go:149-156 | a reported start is a new ban of one minute for the given proxy |
| `RejectBan.StartedOnce` | tunnel/reject_ban.go:127-156 | one rejection reports each ban |
| `RejectBan.OldResultsAreDropped` | tunnel/reject_ban.go:130-132 | a result obtained before a reset changes nothing after it |
| `RejectBan.RejectBans.Lookup` | tunnel/reject_ban.go:103-120 | is the specification step |
| `RejectBan.RejectBans.Reject` | tunnel/reject_ban.go:127-156 | is the specification step |
| `RejectBan.RejectBans.Forget` | tunnel/reject_ban.go:158-164 | is the specification step |
| `RejectBan.RejectBans.Reset` | tunnel/reject_ban.go:166-171 | is the specification step |
| `DropParker.InvKept` | tunnel/reject.go:41-92 | every step of Park, the runner and the callbacks keeps the invariant |
| `DropParker.NoneLostNoneTwice` | tunnel/reject.go:41-92 | over every interleaving parked callbacks are those queued, about to be called, and called; none is called twice |
| `DropParker.BoundedAndServed` | tunnel/reject.go:41-75 | over every interleaving the queue stays within 4096 with rising numbers, is served whenever non-empty, and never by two runners |
| `DropParker.NeverEarly` | tunnel/reject.go:66-92 | over every interleaving the runner releases nothing before its deadline and in order; anything else released had 4096 newer ones behind it |
| `DropParker.QueueInDeadlineOrder` | tunnel/reject.go:28-36 | with one lifetime for all, over every interleaving the queue is ordered by deadline |
| `DropParker.ParkedIs` | tunnel/reject.go:41-56 | over every interleaving what was parked is what the calls asked for, numbered in their order with the deadline of their moment |
| `DropParker.DueHeadIsReleased` | tunnel/reject.go:66-92 | over every interleaving three steps of the runner release a due head then and there, and nothing else |
| `DropParker.ParkerQueue.Park` | tunnel/reject.go:41-63 | evicts exactly the oldest in excess, queues the new one, starts a runner exactly when none runs |
| `DropParker.ParkerQueue.Look` | tunnel/reject.go:66-75 | the head of the queue, or the runner stops |
| `DropParker.ParkerQueue.Pop` | tunnel/reject.go:81-86 | takes the drop out exactly when it is still the head |
| `ServiceBinding.HintsAreOwned` | dns/fakeip_svcb.go:153-179 | every hint left in a ServiceMode record is the one address the pool gives for the target |
| `ServiceBinding.HintsSurviveIff` | dns/fakeip_svcb.go:106-151 | a family's hints survive if and only if there are some, none is malformed, the pool serves the family and answers |
| `ServiceBinding.MandatoryStaysConsistent` | dns/fakeip_svcb.go:181-203 | a mandatory list that named only present keys still does |
| `ServiceBinding.OthersStay` | dns/fakeip_svcb.go:205-206 | no other parameter is touched |
| `ServiceBinding.SameIffAllSame` | dns/fakeip_svcb.go:153-211 | the list is unchanged if and only if every parameter is |
| `ServiceBinding.SecondPassChangesNothing` | dns/fakeip_svcb.go:100-211 | rewriting twice equals rewriting once |
| `ServiceBinding.RewriteIs` | dns/fakeip_svcb.go:100-211 | the rewrite place by place: what each parameter becomes, which vanish, and that order is kept |
| `ServiceBinding.FindMalformed` | dns/fakeip_svcb.go:118-129 | marks a family exactly when one of its hints has an unexpected representation |
| `ServiceBinding.LookUp` | dns/fakeip_svcb.go:136-151 | looks up once and only if there is a hint, and yields the family's plan |
| `ServiceBinding.KeepCodes` | dns/fakeip_svcb.go:187-194 | filters the mandatory codes |
| `ServiceBinding.RewriteParam` | dns/fakeip_svcb.go:153-208 | one parameter's fate, and whether it differs |
| `ServiceBinding.RewriteParams` | dns/fakeip_svcb.go:100-211 | computes the rewrite and reports a change exactly when the result differs |
| `ServiceMessage.NoForeignHint` | dns/fakeip_svcb.go:22-98 | after the rewrite every ServiceMode hint in all three sections is the pool's address for the name a client wants: the target, or the owner for a root target, without a final dot |
| `ServiceMessage.MessageBecomes` | dns/fakeip_svcb.go:22-98 | the whole rewrite record by record: parameters for the wanted name, the configured TTL (at least 1) where something changed, signatures over altered sets gone and nothing else, and authenticated exactly if it was and nothing changed |
| `ServiceMessage.WantedIs` | dns/fakeip_svcb.go:69-72 | the effective target is that name and no other |
| `ServiceMessage.TouchBecomes` | dns/fakeip_svcb.go:36-83 | what becomes of one record |
| `ServiceMessage.ModifiedIs` | dns/fakeip_svcb.go:74-83 | a set counts as modified exactly if some record of that owner, up to case and final dot, and type got other parameters |
| `ServiceMessage.NoStaleSignature` | dns/fakeip_svcb.go:93-95 | no signature over a modified set remains in any section |
| `ServiceMessage.KeptInPlace` | dns/fakeip_svcb.go:86-95 | dropping signatures and rewriting hints commute |
| `ServiceMessage.OthersStayPut` | dns/fakeip_svcb.go:61-67 | among the records kept, AliasMode records, other signatures and other types are the same at the same places, and ServiceMode ones keep all but hints and TTL |
| `ServiceMessage.KeptHas` | dns/fakeip_svcb.go:217-228 | exactly the uncovered records remain |
| `ServiceMessage.KeptConcat` | dns/fakeip_svcb.go:217-228 | and in their order |
| `ServiceMessage.UnchangedIsIdentical` | dns/fakeip_svcb.go:86-97 | the message is identical if and only if no set was modified |
| `ServiceMessage.SecondPassIsIdle` | dns/fakeip_svcb.go:22-98 | a second pass finds nothing to do |
| `ServiceMessage.RewriteRecord` | dns/fakeip_svcb.go:36-83 | the record becomes what the wanted name calls for, TTL included, and its set is noted exactly when it changed |
| `ServiceMessage.RewriteSection` | dns/fakeip_svcb.go:35-84 | rewrites a section in place and collects exactly the modified sets |
| `ServiceMessage.RemoveSignatures` | dns/fakeip_svcb.go:217-228 | compacts the slice in place to exactly the kept records |
| `ServiceMessage.RewriteBindings` | dns/fakeip_svcb.go:22-98 | the whole rewrite in place; reports a change exactly when the message differs |
| `TtlAgeing.MinIsLeast` | dns/util.go:27-35 | the minimum is a lower bound that some record attains |
| `TtlAgeing.NeverRaised` | dns/util.go:37-45 | a positive target never raises a TTL, for any unsigned 32-bit values |
| `TtlAgeing.AgedDown` | dns/util.go:37-45 | down to a reachable target all TTLs fall by the same amount, without wrapping, and the smallest becomes the target |
| `TtlAgeing.AgedUp` | dns/util.go:37-45 | a target above the smallest leaves the section as it is if and only if each TTL is 1 or the wrapped subtraction stays in range |
| `TtlAgeing.FreshReplyIsAged` | dns/resolver.go:187-199 | for every response whose own TTLs set its lifetime, in all sections of a fresh reply every TTL is at least 1 and at most the original minus the time stored, rounded up only in the last second of the lifetime, with differences kept |
| `TtlAgeing.StaleReplyIsShort` | dns/resolver.go:187-199 | a stale reply keeps every record in its place with a TTL of 3, OPT in the extra section untouched; without a due time nothing changes |
| `TtlAgeing.LifetimeIs` | dns/util.go:62-85 | a response is fresh for its smallest TTL, OPT aside, but without answers for no less than 30 seconds |
| `TtlAgeing.StandsIff` | dns/util.go:37-45 | a section is sent as stored if and only if it is empty, its smallest TTL is the target, or that is below the target and nothing wraps |
| `TtlAgeing.FlooredReplyStands` | dns/util.go:77-85 | under the negative floor that decides about both sections that can hold records |
| `TtlAgeing.WithoutOptHas` | dns/util.go:73-76 | exactly the OPT records are left out of what is stored |
| `TtlAgeing.MinimalTtl` | dns/util.go:27-35 | the loop computes the minimum, 0 without records |
| `TtlAgeing.UpdateTtl` | dns/util.go:37-45 | ages a section in place |
| `TtlAgeing.SetTtl` | dns/util.go:88-103 | overwrites a section in place, sparing OPT where asked |
| `TtlAgeing.CachedReply` | dns/resolver.go:187-199 | works on fresh copies, so the cached message stays; stale replies carry 3 seconds, fresh ones are aged |
| `DirectLookup.DistinctIs` | dns/direct_candidates.go:72-90 | each retained address once, unmapped, and none lost |
| `DirectLookup.DistinctPlaces` | dns/direct_candidates.go:72-90 | in the order of their first places |
| `DirectLookup.OpeningIs` | dns/direct_candidates.go:137-170 | what is published first: every retained address once in the order of the sources, then the aggregate's only if no source has any |
| `DirectLookup.RetainedAre` | dns/direct_candidates.go:72-90 | retained addresses come source by source |
| `DirectLookup.SettledIff` | dns/direct_candidates.go:157-186 | nobody is asked exactly if no answer is due and there is something to publish from a source or a current aggregate, or every source has an answer |
| `DirectLookup.PublishedIs` | dns/direct_candidates.go:220-246 | exactly the answers that arrived are published, in order of arrival |
| `DirectLookup.CachedCandidates` | dns/direct_candidates.go:72-90 | the loops yield the retained addresses in order of the sources |
| `DirectLookup.Survey` | dns/direct_candidates.go:140-156 | the flags say exactly whether sources have entries, some fresh, all fresh, some stale |
| `DirectLookup.WantedSources` | dns/direct_candidates.go:210-219 | the first two sources and exactly those whose answer is due |
| `DirectLookup.AskTogether` | dns/direct_candidates.go:220-246 | for any order of arrival: each source is asked once and every answer published |
| `DirectLookup.AskInTurn` | dns/direct_candidates.go:247-263 | asks the rest in order, skips none, stops at the first with addresses, asks none twice |
| `DirectLookup.Open` | dns/direct_candidates.go:137-186 | what is published first; the aggregate cache counts only when no source has an entry |
| `DirectLookup.Ask` | dns/direct_candidates.go:206-263 | the sources asked together are exactly those wanted; the others follow in turn, none skipped, and none after one that had addresses; nobody is left out unless addresses were found |
| `DirectLookup.Lookup` | dns/direct_candidates.go:137-267 | at least one batch, at most one more than there are sources, each source at most once; the exact batches; the two phases as above; an error exactly when every source was asked and failed |
| `DirectLookup.ErrorMeansAllFailed` | dns/direct_candidates.go:264-267 | an error is sent if and only if every source was asked and failed |
| `DirectLookup.LookupCandidates` | dns/direct_candidates.go:94-269 | the same without a policy; with one nobody is asked and exactly one batch is sent: the retained aggregate if there is one, else the answer of the servers of the policy, else an error |
| `SocksAddr.RoundTrip` | adapter/outbound/util.go:15-33 | parsing the printed form gives the same port and host, or unmapped address, if and only if the name has no final dot and at most 252 bytes, or 253 with a port whose low byte is 3 |
| `SocksAddr.PrintedForm` | adapter/outbound/util.go:15-33 | the printed form is that of section 5 of RFC 1928: type, name after its length or address, port in network order |
| `SocksAddr.IpRoundTrip` | adapter/outbound/util.go:25-30 | for every address |
| `SocksAddr.ParsedDomain` | adapter/inbound/util.go:18-21 | what parsing gives for a printed name of any length |
| `SocksAddr.PrintedButUnreadable` | adapter/inbound/util.go:18-21 | parsing fails if and only if the name's length is 254 or 255 modulo 256 |
| `SocksAddr.TrimmedIs` | adapter/inbound/util.go:20 | trimming gives a prefix, the whole exactly without a final dot |

## Left out

- Sockets, deadlines, contexts, logging and goroutine scheduling: a step's result stands for them.
- UDP race: how candidates are resolved and sorted (`adapter/outbound/direct_udp.go:113-147`), and the read loops of the sockets.
- UDP race: a target is named by its logical address, under which the source keeps one object for the whole life of the connection.
- PacketSender.Sender.Process: its events follow one another; a method of `Sender` runs without interruption, and what happens when other goroutines act in between is the business of the machine, whose theorems cover every interleaving of its steps.
- Packet sender: the contents of packets, the write itself and the resolver's work; a preparation succeeds or fails at will.
- UdpMapping.AddMappingKeeps: lower-cases ASCII only, and takes the text of an address as an input.
- Sequence numbers (`sendSeq`, parker `seq`, cache generation) are unbounded; 64-bit wrap-around is not modelled.
- Address race: the counting of outstanding events in `race`, since an exchange may end at any time; and explicit `ResetConnection` of live clients, which resets clients in use on purpose.
- GroupLoops.DagSort: a group arrives decoded; errors of the decoder are not modelled.
- RejectBan.CacheCountsExactly: which key the LRU evicts is any key at any time, and the 4096-entry bound of the LRU is not modelled.
- Reject bans: how a connection's metadata becomes a key (`tunnel/reject_ban.go:38-60`).
- DropParker.QueueInDeadlineOrder: assumes one lifetime for all calls, as its two callers have.
- ServiceMessage.NoStaleSignature: names are compared in ASCII lower case with a final dot; escaped dots in names are not modelled.
- ServiceBinding.SecondPassChangesNothing: the pools answer a name the same way every time.
- TTL ageing: the exception for ACME challenge names, which are not cached.
- DirectLookup.AskTogether: what one fetch does to its cache; a fetch is an oracle, and each source is asked by at most one call.
- DirectLookup.Lookup: assumes one cache per source, as the constructor of the resolver builds them.
- SocksAddr.ParsedDomain: a slice that ends past the length but within the capacity of its buffer counts as out of range.
- Transports, listeners, rules, providers, the DNS transports and the tunnel's routing.
