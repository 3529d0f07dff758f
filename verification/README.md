# Verified model of an AX.25 v2.2 and NET/ROM stack

A Dafny model of the protocol logic of a TypeScript AX.25 v2.2 and NET/ROM stack, with proofs of what that logic is
for. Code that changes fields step by step is modelled by classes and methods with loops, each proved against a
function or relation on values; the main results are lemmas about those functions, over every input and every run.
`dafny verify dfyconfig.toml` checks everything.

Sections are numbered as in the AX.25 v2.2 specification.

| Files | What they model |
|---|---|
| `CircuitSpec`, `CircuitMachine` | one NET/ROM layer 4 circuit: windows, retransmission, NAK, choke, fragments, lifecycle |
| `CircuitPair`, `CircuitInvariant`, `CircuitSafety`, `CircuitRecovery`, `CircuitReuse` | two circuits over ordered lossy channels; the inductive invariant; safety, recovery and lifecycle of every run; connecting a closed circuit again |
| `CircuitGap`, `CircuitEffects`, `CircuitOrder` | recovery from a gap by NAK alone; what each operation of a circuit does as seen from outside; what every run keeps besides the data |
| `CircuitTable`, `CircuitAllocation` | the table of circuits: key allocator, three maps, demultiplexing; every run of the manager with the keys the allocator gives out |
| `Ax25Window`, `Ax25Effects`, `Ax25Context` | sequence guards and verbs of an AX.25 link, what the guards come to, and the context they change |
| `Ax25Link`, `Ax25Invariant`, `Ax25Safety`, `Ax25Necessity`, `Ax25Replay` | two stations over ordered lossy channels; selective repeat is safe exactly when the windows fit the ring |
| `RoutingSpec`, `RouteOrder`, `RoutingTable`, `RoutingSafety`, `RoutingEffects`, `RifBuilder` | the two-metric routing table: caps, ageing, teardown, withdrawn set, the frame built for a neighbour |
| `InterlinkNetwork`, `RoutingExamples` | any set of nodes exchanging INP3 frames through the wire format; poison reverse; short runs in which routing information is lost |
| `Inp3Rif`, `Inp3RifCodec`, `RifDamage`, `Callsign`, `Address` | the INP3 frame on the wire, the exact condition under which it round-trips, and what is left of it when it does not |
| `Xid`, `XidNegotiation` | the XID information field, and two stations negotiating through it |
| `Segmentation` | segmenter, reassembler and the layer around them |
| `Frame`, `Fcs`, `Kiss` | frame codec, frame check sequence, serial framing |
| `UpdateScheduler`, `Forwarding`, `Sntt` | fan-out timing, forwarding decision, transport-time filter |
| `Sorting`, `Common` | an insertion sort and shared vocabulary |

## What does not hold unconditionally

Each of these is proved with the exact condition, over all inputs, and with an input or a short run that fails it.

- A frame of INP3 entries survives its own encoding only when every end marker is followed by a large enough octet
  (`Inp3Rif.RifRoundTripIff`); nine entries always do, ten may not, eighteen never do. What a parser makes of a frame
  that does not survive is still some of its entries, in order, and never one that was not sent
  (`RifDamage.DamageInventsNothing`).
- Poison reverse clears the neighbour's reverse time-route only when the sender itself holds a time-route to the
  destination or announces it as withdrawn (`InterlinkNetwork.PoisonReverse`): a kept route with a quality alone is
  not in the frame at all (`RoutingExamples.PoisonMisses`). Even then the frame must come through: with its first end
  marker misread, as in every frame of eighteen entries or more, the fastest destination is not heard of
  (`InterlinkNetwork.PoisonIsLost`).
- A NODES entry can cost a destination its last time-route without recording a withdrawal: below the floor, exactly
  when that route goes via the advertiser (`RoutingSafety.NodesLossIsSilent`, `RoutingExamples.DropsUnrecorded`); above
  it, exactly when the list is full without the advertiser and the only time-route ranks below all the others and the
  new one (`RoutingSafety.NodesEvictionIsSilent`, `RoutingExamples.EvictsUnrecorded`). The latter is stated for lists in
  which no two routes rank equal, which well-formed callsigns on distinctly ranked ports guarantee
  (`RoutingSafety.DistinctPortsNeverTie`); between equals the cap keeps whichever the sort leaves first.
- A closed circuit may be connected again, but keeps its old V(s), V(r) and choke: its peer takes its first frame only
  if V(s) happens to be 0 and the peer had not choked it, in which case it is mute (`CircuitReuse.ReuseIsHeardIff`,
  `CircuitReuse.ChokedReuseIsMute`, `CircuitReuse.DeafReuse`), and it takes the peer's first frame only if V(r) is 0
  (`CircuitReuse.ReuseHearsIff`).
- Over every run each datagram of a circuit names the pair its peer goes by, except the answer to a Disconnect Request
  that overtook the acknowledgement of the call, which is addressed to (0, 0) (`CircuitOrder.DatagramsReach`,
  `CircuitOrder.AnswerToNobody`).
- A circuit that closes again after it was dropped takes the entry of whichever circuit goes by its key by then
  (`CircuitTable.StaleDeregisterIff`), and if that one is inbound the maps no longer agree
  (`CircuitTable.RunIsConsistentIff`). The allocator puts this off until all 65536 keys have been given out
  (`CircuitAllocation.FirstLapIsConsistent`), and not one circuit longer (`CircuitAllocation.SecondLapBreaks`).
- The Disconnect Acknowledge reflected for an unknown circuit carries the pair the request was addressed to, so it
  reaches the requesting circuit only if both ends happen to go by the same pair (`CircuitTable.ReflectedAckReachesIff`,
  `CircuitTable.ReflectedAckMisses`). The comment in the source says the request carries the peer's own pair; the model
  follows the code.
- Two negotiating stations agree on the lesser window only while the offered one fits seven bits
  (`XidNegotiation.DefaultsConverge`, `XidNegotiation.WideWindowShrinks`), and the exchange completes only when the
  timers involved are whole numbers (`XidNegotiation.CompletesIff`), which one measured round trip is enough to break
  (`XidNegotiation.OneRoundTripStopsNegotiation`).
- A payload that is split in the figure's own format arrives with PID 0xF0 whatever it was sent with
  (`Segmentation.LayerToLayer`, `Segmentation.FigureLiteralLosesPid`).
- An unsegmented payload sent with the segment PID is not delivered as sent, unless it happens to end a series whose
  payload is itself (`Segmentation.UnsegmentedIff`, `Segmentation.SelfEndingSeries`).

## Model

| member | source | states |
|---|---|---|
| CircuitMachine.NetRomCircuit.Send | src/netrom/circuit.ts:243-264 | the fragmenting loop queues exactly the fragments of the data and then transmits what the window and choke allow |
| CircuitMachine.NetRomCircuit.OnPacket | src/netrom/circuit.ts:300-333 | dispatch of every opcode moves the whole circuit value as the specification function does |
| CircuitMachine.NetRomCircuit.OnInformation | src/netrom/circuit.ts:503-551 | the in-place receive path: piggybacked ack, in-sequence delivery, duplicate and gap handling, NAK, choke |
| CircuitMachine.NetRomCircuit.Tick | src/netrom/circuit.ts:375-418 | control and data timeouts, retries and give-up, with the resend loop over the in-flight list |
| CircuitMachine.NetRomCircuit.AbsorbAck | src/netrom/circuit.ts:733-745 | the in-place removal leaves exactly the unacknowledged frames and V(a) moves to the acknowledged sequence |
| CircuitMachine.NetRomCircuit.Retransmit | src/netrom/circuit.ts:747-761 | frames from a sequence on are resent in order under their own numbers and restamped |
| CircuitPair.AssembleFragments | src/netrom/circuit.ts:248-260 | fragmenting any list of frames and reassembling gives the list back |
| CircuitPair.JoinFragments | src/netrom/circuit.ts:248-260 | fragmenting loses, adds and reorders no byte |
| CircuitInvariant.KeepsFrom | src/netrom/circuit.ts:859-866 | with at most 127 in flight the octet test acknowledges exactly the positions before the acknowledged one |
| CircuitSafety.ActKeeps | src/netrom/circuit.ts:223-431 | every action at either end, including losses, keeps the invariant of the pair |
| CircuitSafety.DeliveredIsPrefix | src/netrom/circuit.ts:503-571 | over every run, what each end delivers is a prefix of what was accepted at the other, both ways at once |
| CircuitSafety.AckedIsDelivered | src/netrom/circuit.ts:733-745 | a connected end with nothing queued or in flight has had everything delivered |
| CircuitSafety.WindowIsExact | src/netrom/circuit.ts:706-745 | in-flight sequences are exactly V(a)..V(s)-1 within the window, and acked, in-flight and queued fragments join to exactly the accepted bytes |
| CircuitRecovery.CleanRoundRecovers | src/netrom/circuit.ts:375-418 | however much was lost, one due tick and a loss-free delivery bring the peer everything transmitted |
| CircuitGap.GapIsReported | src/netrom/circuit.ts:503-551 | an out-of-sequence frame changes nothing received; the answer asks for V(r), as a NAK exactly when the frame is 1 to 128 ahead of it |
| CircuitGap.InSequenceIsAcknowledged | src/netrom/circuit.ts:503-551 | an in-sequence frame moves V(r) on and is acknowledged plainly with the new one |
| CircuitGap.NakIffAhead | src/netrom/circuit.ts:503-551 | in a pair as every run leaves it, a NAK answers exactly the frames beyond the one expected, never a duplicate |
| CircuitGap.NakResends | src/netrom/circuit.ts:553-571 | a NAK makes the sender send all that it does not acknowledge again, in order |
| CircuitGap.NakRoundRecovers | src/netrom/circuit.ts:503-571 | from any reachable connected state, a NAK that arrives and a loss-free delivery bring the peer everything transmitted, with no timer |
| CircuitRecovery.LifecycleIsOneShot | src/netrom/circuit.ts:799-829 | each end reports connected at most once, before closed, and closed at most once |
| CircuitEffects.CallAgrees | src/netrom/circuit.ts:335-476 | a call accepted and acknowledged leaves both ends connected with each other's pair and the least of the windows |
| CircuitEffects.RefusalCloses | src/netrom/circuit.ts:358-476 | a refused one leaves both closed and the caller told so |
| CircuitEffects.HangUpIsMutual | src/netrom/circuit.ts:272-292 | a Disconnect Request closes the peer, whose acknowledgement closes the caller |
| CircuitEffects.RepeatedCallIsAcknowledged | src/netrom/circuit.ts:478-486 | a Connect Request that comes again is acknowledged again and changes nothing else |
| CircuitEffects.HangUpIsAlwaysAnswered | src/netrom/circuit.ts:488-494 | a Disconnect Request is acknowledged in every state and reported once |
| CircuitEffects.StraysAreIgnored | src/netrom/circuit.ts:300-333 | a datagram that does not belong to the state changes nothing |
| CircuitEffects.StatusIsTaken | src/netrom/circuit.ts:503-571 | V(a) and the choke of the peer are as its last datagram says, and nothing that may go out is held back |
| CircuitEffects.AcknowledgedGo | src/netrom/circuit.ts:733-745 | what stays in flight is exactly what is not up to 128 behind the acknowledged sequence |
| CircuitEffects.OneIsResent | src/netrom/circuit.ts:747-761 | a frame is repeated under its own number, restamped and counted, exactly when it is the requested one or up to 128 after it |
| CircuitEffects.NextIsSent | src/netrom/circuit.ts:706-725 | transmitting takes the head of the queue under V(s), stamped, with no retries yet |
| CircuitEffects.FragmentsAreFull | src/netrom/circuit.ts:243-264 | all fragments but the last are full and say that more follow; the last is not empty |
| CircuitEffects.DueTickAsksAgain | src/netrom/circuit.ts:375-400 | a due control timer repeats the request and starts again, or closes with Timeout once the retries are used up |
| CircuitEffects.UnansweredGivesUp | src/netrom/circuit.ts:375-400 | over any due ticks, a request never answered is repeated exactly as often as configured, then the circuit closes |
| CircuitEffects.DueTickResends | src/netrom/circuit.ts:401-418 | a due data timer sends everything in flight again in order, or closes with Timeout |
| CircuitEffects.UnacknowledgedGivesUp | src/netrom/circuit.ts:401-418 | frames never acknowledged are sent again as often as configured, then the circuit closes |
| CircuitEffects.EarlyTickIsQuiet | src/netrom/circuit.ts:375-418 | a tick with no timer due does nothing |
| CircuitEffects.DrainTells | src/netrom/circuit.ts:431-438 | a drained delivery counts once, and lifting the choke is told to the peer |
| CircuitOrder.DatagramsReach | src/netrom/circuit.ts:575-704 | over every run each datagram names the pair of the end it is for, but for the one answer to (0, 0) |
| CircuitOrder.AnswerToNobody | src/netrom/circuit.ts:488-494 | a run of a few actions in which that answer is given |
| CircuitOrder.NothingWaits | src/netrom/circuit.ts:706-731 | over every run a connected end that is not choked has nothing queued or a full window |
| CircuitOrder.ChokeIsExact | src/netrom/circuit.ts:763-792 | over every run an end chokes its peer exactly while as many frames are undrained as its threshold |
| CircuitReuse.ClosedIsCleared | src/netrom/circuit.ts:799-809 | over every run a closed end has nothing queued and nothing in flight |
| CircuitReuse.ReuseIsHeardIff | src/netrom/circuit.ts:223-232 | a peer expecting 0 takes a reconnected circuit's first frame exactly when the old V(s) is 0, it was not choked, and it has a window |
| CircuitReuse.ChokedReuseIsMute | src/netrom/circuit.ts:799-809 | reconnected after closing while choked, it transmits nothing |
| CircuitReuse.ReuseHearsIff | src/netrom/circuit.ts:503-551 | it takes a freshly accepted peer's first frame exactly when its old V(r) is 0 |
| CircuitReuse.DeafReuse | src/netrom/circuit.ts:223-232 | a run of six or eight actions leaves a circuit that is not heard when reconnected, or mute |
| CircuitTable.CircuitManager.AllocateKey | src/netrom/circuit-manager.ts:319-334 | the probe returns the first key in its order that no live circuit holds, and none only when all are held |
| CircuitTable.CircuitManager.OnConnectRequest | src/netrom/circuit-manager.ts:172-197 | a Connect Request goes to the circuit made for that peer circuit, or makes one under a free key |
| CircuitTable.CircuitManager.OnOther | src/netrom/circuit-manager.ts:199-226 | any other datagram goes to the live circuit that holds the key; with none, a Disconnect Request is answered to its origin under that key and anything else is dropped |
| CircuitTable.RoutesOneWay | src/netrom/circuit-manager.ts:199-226 | that determines where a datagram goes |
| CircuitTable.CircuitManager.Deregister | src/netrom/circuit-manager.ts:341-348 | the three maps lose exactly that circuit's entries |
| CircuitTable.DeregisterKeepsIff | src/netrom/circuit-manager.ts:341-348 | dropping a circuit, live or not, costs exactly the live circuit under its key, and keeps the maps consistent exactly when that is not another inbound one |
| CircuitTable.StaleDeregisterIff | src/netrom/circuit-manager.ts:341-348 | dropping a circuit that is no longer live changes the table exactly when another live one holds its key, and then drops that one |
| CircuitTable.RunIsConsistentIff | src/netrom/circuit-manager.ts:265-348 | over every run, whatever closes and however often, the three maps have agreed all along exactly when no close met another live inbound circuit under its key |
| CircuitAllocation.ManagerRunIsRun | src/netrom/circuit-manager.ts:265-348 | the runs in which each key is the one the allocator gives out are runs of the table |
| CircuitAllocation.FirstLapIsConsistent | src/netrom/circuit-manager.ts:319-348 | until more than 65536 circuits have been made the maps agree, whatever closes and however often |
| CircuitAllocation.SecondLapBreaks | src/netrom/circuit-manager.ts:319-348 | a run to the 65537th circuit, ours or a peer's, that then loses it to a second close of the first one; if it was a peer's the maps disagree and its Connect Request still goes to it |
| CircuitTable.OneCircuitPerPeer | src/netrom/circuit-manager.ts:172-197 | as long as the maps agree, no two live circuits were made for one peer circuit, and a Connect Request reaches only the one made for it |
| CircuitTable.ReflectedAckReachesIff | src/netrom/circuit-manager.ts:204-226 | the reflected Disconnect Acknowledge reaches the requester exactly when both ends use the same pair |
| CircuitTable.ReflectedAckMisses | src/netrom/circuit-manager.ts:204-226 | two short runs after which it reaches another circuit of the requester |
| Ax25Context.SessionContext.EmitIFrame | src/sdl/action-dispatcher.ts:896-926 | a fresh frame goes out at V(s), is stored under its bare number and clears its replay mark |
| Ax25Context.SessionContext.AdvanceVa | src/sdl/action-dispatcher.ts:950-957 | acknowledgement progress clears the replay marks and keeps exactly the outstanding stored frames |
| Ax25Context.SessionContext.PruneAcknowledged | src/sdl/session-context.ts:221-226 | the deleting loop leaves exactly the outstanding frames |
| Ax25Context.SessionContext.EmitOldIFrame | src/sdl/action-dispatcher.ts:1006-1035 | replay under the original number, with the outstanding and once-per-cycle gates of the selective form |
| Ax25Context.SessionContext.DrainIFrameQueue | src/sdl/session-driver.ts:783-815 | queued data goes out in order while the window has room and the peer is not busy |
| Ax25Window.BusyHolds | src/sdl/session-driver.ts:783-815 | to a busy peer nothing is transmitted, whatever is queued |
| Ax25Window.DrainFills | src/sdl/session-driver.ts:783-815 | to one that is not, payloads leave in order, numbered from V(s) on, until the queue is empty or the window full |
| Ax25Effects.WindowIs | src/sdl/session-context.ts:149-182 | the window is the configured one within 7 or 127, and within 4 or 64 under selective reject |
| Ax25Effects.BadNumberIsIgnored | src/sdl/session-bindings.ts:190-197 | a frame that acknowledges beyond V(s) changes nothing, whatever it carries |
| Ax25Effects.GoodNumberIsTaken | src/sdl/action-dispatcher.ts:950-957 | one that acknowledges no further than V(s) moves V(a) there |
| Ax25Effects.ProgressRenewsReplays | src/sdl/action-dispatcher.ts:950-957 | progress clears the replay marks and keeps the outstanding payloads |
| Ax25Context.SessionContext.TakeData | src/sdl/action-dispatcher.ts:1037-1083 | in-sequence delivery with the loop that drains stored successors, or storing inside the receive window |
| Ax25Link.ClampAgrees | src/sdl/session-context.ts:175-182 | the half-modulus clamp makes any two configured windows unambiguous |
| Ax25Safety.ActKeeps | src/sdl/action-dispatcher.ts:896-1083 | every action at either station, including losses and replays, keeps the invariant of the pair |
| Ax25Safety.DeliveredIsPrefix | src/sdl/session-bindings.ts:183-197 | over every run, delivery is an in-order prefix of what the other side was asked to send |
| Ax25Safety.NoSequenceError | src/sdl/session-bindings.ts:190-197 | every acknowledgement that arrives lies between V(a) and V(s) |
| Ax25Safety.StoreIsExact | src/sdl/session-context.ts:206-226 | the store holds exactly the outstanding numbers, fewer than the modulus, each with a payload that was accepted |
| Ax25Necessity.OverlapIsUnsafe | src/sdl/session-context.ts:149-182 | with SREJ and windows that overlap on the ring, a concrete run delivers something never sent |
| Ax25Necessity.SafeIffUnambiguous | src/sdl/session-context.ts:149-182 | two stations are safe in every run exactly when their windows fit the ring |
| Ax25Replay.OneCopyPerCycle | src/sdl/action-dispatcher.ts:1006-1019 | any burst of selective rejects is answered with exactly one copy of each outstanding frame not yet replayed |
| Callsigns.ShiftedRoundTrip | src/netrom/callsign.ts:48-82 | decoding the shifted form of any callsign gives it back |
| Callsigns.ReadIsValid | src/netrom/callsign.ts:48-82 | whatever decodes is a well-formed callsign |
| Callsigns.ReadIff | src/netrom/callsign.ts:48-82 | a field reads as a callsign exactly when its halved octets are that callsign's characters, spaces, and SSID |
| Addresses.WriteShifted | src/netrom/callsign.ts:114-136 | the callsign's seven octets land at the offset and nothing else changes |
| Addresses.TryReadShifted | src/netrom/callsign.ts:48-82 | the field decodes as specified, with its rejections |
| Inp3Rif.RipRoundTrip | src/netrom/inp3-rif.ts:365-541 | one encoded entry parses back to itself exactly when its end marker is not taken for a TLV |
| Inp3Rif.RipLayout | src/netrom/inp3-rif.ts:365-419 | seven octets of callsign, the hops, the time in tens of milliseconds high octet first, the TLVs, a zero |
| Inp3Rif.ParseNeeds | src/netrom/inp3-rif.ts:598-642 | what the parser refuses, and what each option lets through |
| Inp3Rif.KnownEntry | src/netrom/inp3-rif.ts:365-419 | one entry with an alias, octet by octet |
| Inp3Rif.RifRoundTripIff | src/netrom/inp3-rif.ts:563-642 | a frame parses back to itself exactly when every end marker is followed by a large enough octet |
| Inp3Rif.NineAlwaysFit | src/netrom/inp3-rif.ts:446-494 | nine entries without TLVs and with non-empty callsigns always do |
| Inp3Rif.TenMayFail | src/netrom/inp3-rif.ts:446-494 | ten entries do not when the second callsign begins with the digit 0 |
| Inp3Rif.EighteenNeverFit | src/netrom/inp3-rif.ts:446-494 | eighteen or more never do |
| RifDamage.OnlyStartsParse | src/netrom/inp3-rif.ts:423-541 | off the start of an entry, behind a zero octet, no entry parses |
| RifDamage.DamageInventsNothing | src/netrom/inp3-rif.ts:598-642 | whatever a parser makes of a frame of TLV-free entries, misread end markers included, is some of those entries in order with destination, hops and time as sent |
| RifDamage.FirstMisreadLosesNext | src/netrom/inp3-rif.ts:446-494 | when the first end marker is misread the second entry is lost |
| Inp3RifCodec.RifToBytes | src/netrom/inp3-rif.ts:563-589 | the buffer-filling encoder writes the specified bytes, or refuses exactly the unencodable lists |
| Inp3RifCodec.ParseRifBytes | src/netrom/inp3-rif.ts:598-642 | the parsing loop computes the specified parse under every option |
| Inp3RifCodec.ParseRipAt | src/netrom/inp3-rif.ts:423-541 | the TLV loop with its end-marker test computes the specified parse of one entry |
| RouteOrders.OrderTransitive | src/netrom/routing-table.ts:1444-1460 | the route order is transitive under any port ranking |
| RouteOrders.EnforceRouteCap | src/netrom/routing-table.ts:1307-1320 | what is kept is as many as fit, unchanged, with no evicted route outranking a kept one |
| RoutingEffects.RouteOrderIs | src/netrom/routing-table.ts:1444-1460 | routes rank by quality, then by the host's port order or the port's text, then by the callsign's text |
| RoutingEffects.CapKeepsBest | src/netrom/routing-table.ts:1307-1320 | no evicted route has a better quality than a kept one |
| RouteOrders.OrdinalIs | src/netrom/routing-table.ts:1503-1505 | the text order is the lexicographic one by character |
| RoutingTables.NetRomRoutingTable.Ingest | src/netrom/routing-table.ts:495-571 | a NODES broadcast updates the neighbour and then applies each entry in order |
| RoutingEffects.CombineIs | src/netrom/quality.ts:36-45 | a combined quality is the product of the two over 256 to the nearest, and no better than either |
| RoutingEffects.CombineMonotone | src/netrom/quality.ts:36-45 | the better either, the better the combination |
| RoutingEffects.EntryInstalls | src/netrom/routing-table.ts:545-571 | an entry installs exactly that number via the advertiser with a fresh count, keeping a time held, or removes that route when the number is below the floor; no other route changes |
| RoutingEffects.LoopEntryRemoves | src/netrom/routing-table.ts:545-571 | an entry whose best neighbour is the hearer removes the route via the advertiser |
| RoutingEffects.OwnEntryIsSkipped | src/netrom/routing-table.ts:545-571 | nothing is learned about the hearer |
| RoutingEffects.AdvertiserIsKnown | src/netrom/routing-table.ts:495-544 | over a whole broadcast the sender becomes a neighbour as heard and no other neighbour changes |
| RoutingEffects.AdvertiserIsReached | src/netrom/routing-table.ts:495-544 | and gets a direct route at the quality of the path |
| RoutingEffects.FullListLearnsNothing | src/netrom/routing-table.ts:1256-1265 | a full destination list takes in no new destination |
| RoutingTables.NetRomRoutingTable.IngestRif | src/netrom/routing-table.ts:625-686 | an INP3 frame applies each entry in order: learn, withdraw at the horizon, or skip |
| RoutingEffects.RipInstalls | src/netrom/routing-table.ts:646-683 | an entry within the limits gives a route the advertised time plus the link's and 10 ms, one hop further, with the quality held |
| RoutingEffects.RipIsSkipped | src/netrom/routing-table.ts:646-683 | beyond the hop limit, over an unmeasured link, or about the hearer it changes nothing |
| RoutingEffects.RipWithdraws | src/netrom/routing-table.ts:1385-1423 | at the horizon the route via the sender loses its time, and goes unless its quality is acceptable; the loss of the last time is recorded |
| RoutingTables.NetRomRoutingTable.UpsertRoute | src/netrom/routing-table.ts:1239-1293 | quality floor, destination cap, kept time metric, alias refresh and route cap |
| RoutingTables.NetRomRoutingTable.UpsertInp3Route | src/netrom/routing-table.ts:1333-1377 | the time metric is attached without touching the quality, under the same caps |
| RoutingTables.NetRomRoutingTable.WithdrawInp3 | src/netrom/routing-table.ts:1385-1423 | clears the time metric, drops what is left unusable, and records a lost last time-route |
| RoutingTables.NetRomRoutingTable.Sweep | src/netrom/routing-table.ts:695-743 | ages every route, drops the dead, the empty and the orphaned, and records lost time-routes |
| RoutingEffects.SweepKeepsIff | src/netrom/routing-table.ts:695-743 | a route survives a sweep exactly when its count is two or more, one lower and otherwise unchanged |
| RoutingEffects.RouteOutlives | src/netrom/routing-table.ts:695-743 | left alone, a route survives exactly one sweep fewer than its count |
| RoutingEffects.FreshOutlives | src/netrom/routing-table.ts:695-743 | so a fresh one survives exactly the configured count less one |
| RoutingEffects.NeighboursAfter | src/netrom/routing-table.ts:1484-1499 | ageing and teardown drop exactly the neighbours torn down or no longer gone through |
| RoutingTables.NetRomRoutingTable.MarkNeighbourDown | src/netrom/routing-table.ts:764-797 | removes exactly the routes by one port and neighbour, and records lost time-routes |
| RoutingTables.NetRomRoutingTable.MarkNeighbourDownAllPorts | src/netrom/routing-table.ts:811-818 | does that for each port the callsign is known on, once each |
| RoutingEffects.AllPortsDownIs | src/netrom/routing-table.ts:811-818 | afterwards no route goes through the callsign on any port, and every other route is left |
| RoutingTables.NetRomRoutingTable.MarkPortDown | src/netrom/routing-table.ts:830-877 | removes exactly one port's routes and neighbours, and records lost time-routes |
| RoutingEffects.PortDownIs | src/netrom/routing-table.ts:830-877 | exactly the routes on other ports stay, unchanged |
| RoutingTables.NetRomRoutingTable.PruneOrphanNeighbours | src/netrom/routing-table.ts:1484-1499 | keeps exactly the neighbours some kept route goes through |
| RoutingTables.NetRomRoutingTable.DrainRecentlyWithdrawn | src/netrom/routing-table.ts:1217-1221 | hands out the withdrawn set and empties it |
| RoutingSafety.StepKeepsTable | src/netrom/routing-table.ts:495-877 | every operation keeps the caps, the keys, no empty destination and no dead or useless route |
| RoutingSafety.ReachableTables | src/netrom/routing-table.ts:389-446 | so does every run from the empty table |
| RoutingSafety.BroadcastIsRun | src/netrom/routing-table.ts:495-571 | taking in a whole NODES broadcast is a run of its operations: the neighbour, the direct route, then each entry |
| RoutingSafety.StepAccounts | src/netrom/routing-table.ts:728-863 | every operation but a NODES entry or a drain adds to the withdrawn set exactly what lost its last time-route |
| RoutingSafety.UpsertTimeAccounts | src/netrom/routing-table.ts:1333-1377 | learning a time never costs a destination its last time-route, whatever the cap evicts |
| RoutingSafety.DrainHandsOutWhatWasLost | src/netrom/routing-table.ts:1199-1221 | whatever operations come in between, a drain hands out exactly what lost its last time-route since the previous one in an operation other than a NODES entry |
| RoutingSafety.BetweenDrains | src/netrom/routing-table.ts:1217-1221 | so it is from one drain of a run to the next, which starts from nothing again |
| RoutingSafety.QualityOnlyIsQuiet | src/netrom/routing-table.ts:728-734 | on a table without time-routes the withdrawn set never grows |
| RoutingSafety.NodesLossIsSilent | src/netrom/routing-table.ts:1276-1283 | when exactly a NODES entry drops the last time-route, unrecorded |
| RoutingSafety.NodesEvictionIsSilent | src/netrom/routing-table.ts:1285-1320 | when exactly an acceptable NODES entry makes the route cap evict the last time-route, unrecorded, where no two routes rank equal |
| RoutingSafety.DistinctPortsNeverTie | src/netrom/routing-table.ts:1444-1460 | keyed routes of well-formed callsigns on distinctly ranked ports never rank equal |
| RoutingSafety.SweepsEmpty | src/netrom/routing-table.ts:695-743 | as many sweeps as a fresh route's count empty the table and withdraw every time-route |
| RifBuilder.BuildRif | src/netrom/routing-table.ts:1073-1187 | the frame for a neighbour: itself, each timed destination once by ascending time, poisoned when a kept route goes via the neighbour, then the rest of the withdrawn ones |
| RoutingEffects.FrameIs | src/netrom/routing-table.ts:1073-1187 | the sender first at no time, then ascending times, then the withdrawn ones at the horizon, without TLVs |
| RoutingEffects.ListedIs | src/netrom/routing-table.ts:1099-1144 | each listed destination says its least time on the wire's granule, or the horizon when a kept route goes via the neighbour |
| RoutingEffects.QuantiseIs | src/netrom/routing-table.ts:1514-1517 | times round down to ten milliseconds and stay below the horizon |
| InterlinkNetwork.NetStepKeeps | src/netrom/routing-table.ts:625-686 | any operation, advertisement or delivery at any node, through the encoder and a parser of any leniency, keeps every metric and every frame in flight well-founded |
| InterlinkNetwork.MetricsAreFinite | src/netrom/routing-table.ts:646-683 | over every run, ten times the hops is at most the target time, below 600000, for a node other than oneself that really advertised |
| InterlinkNetwork.FramesArriveIff | src/netrom/inp3-rif.ts:563-642 | over every run, each frame sent parses back to itself exactly when its end markers do |
| InterlinkNetwork.HopStrictlyIncreases | src/netrom/routing-table.ts:1514-1517 | a metric learned from a frame is strictly worse than the best one its sender held, despite rounding and free links |
| InterlinkNetwork.PoisonReverse | src/netrom/routing-table.ts:1099-1144 | when exactly the neighbour a route goes through is left without a time-route back, whatever its parser makes of the frame |
| InterlinkNetwork.PoisonIsLost | src/netrom/inp3-rif.ts:446-494 | when the first end marker is misread, as in every frame of eighteen entries or more, the fastest destination's poison is lost |
| RoutingExamples.PoisonMisses | src/netrom/routing-table.ts:1099-1144 | an INP3 frame, two NODES broadcasts and two frames between them, off the wire, after which each of two neighbours goes by way of the other |
| RoutingExamples.DropsUnrecorded | src/netrom/routing-table.ts:495-571 | an INP3 frame and a NODES broadcast that drops the time-route it gave without recording it |
| RoutingExamples.EvictsUnrecorded | src/netrom/routing-table.ts:1285-1320 | the same through the route cap and another neighbour's broadcast |
| Xid.DigitsRoundTrip | src/xid.ts:450-475 | decoding an encoded number gives it back, up to the saturation point |
| Xid.EncodeUnsigned | src/xid.ts:450-465 | the unshifting loop yields the shortest big-endian form |
| Xid.DecodeUnsigned | src/xid.ts:468-475 | the accumulating loop yields the saturated big-endian value |
| Xid.BitFieldsRoundTrip | src/xid.ts:131-341 | the duplex and HDLC function fields decode to what they encode |
| Xid.EncodeXid | src/xid.ts:493-561 | the parameters in ascending order under the header, or a refusal |
| Xid.TryParseXid | src/xid.ts:587-708 | the parsing loop computes the specified parse under every option |
| Xid.XidRoundTrip | src/xid.ts:493-708 | parsing an encoding gives back every parameter as the wire can carry it |
| Xid.KnownFrame | src/xid.ts:493-561 | an offer of all six parameters, octet by octet |
| Xid.BitsMean | src/xid.ts:131-341 | what the bits of a peer's octets mean, whatever the others say |
| Xid.NumbersMean | src/xid.ts:587-708 | two-octet numbers are read high octet first, a window by the low seven bits of its first octet |
| Xid.HeaderNeeds | src/xid.ts:587-640 | a wrong header is refused, an overlong length unless it may be |
| Xid.CutFieldNeeds | src/xid.ts:640-708 | a field cut short is refused, or counts for what there is of it |
| Xid.OddFields | src/xid.ts:640-708 | empty and unknown fields change nothing, a later value replaces an earlier one |
| XidNegotiation.ManagementDataLink.ApplyNegotiated | src/sdl/xid-negotiator.ts:45-141 | the field-by-field updates amount to the merge of the two offers |
| XidNegotiation.MergeIs | src/sdl/xid-negotiator.ts:45-141 | a capability needs both ends, windows and lengths take the lesser, timers and retries the greater, with the defaults for what is absent |
| XidNegotiation.ManagementDataLink.RespondToXidCommand | src/sdl/management-data-link.ts:291-310 | the responder merges, then answers with its own merged link |
| XidNegotiation.Negotiate | src/sdl/management-data-link.ts:291-332 | two stations run through command and response end as the exchange says, or as far as the first that had nothing it could send |
| XidNegotiation.CompletesIff | src/sdl/management-data-link.ts:291-332 | the exchange completes exactly when the timers put on the wire are whole numbers |
| XidNegotiation.OneRoundTripStopsNegotiation | src/sdl/action-dispatcher.ts:450-484 | after one smoothed round trip a fresh link negotiates exactly when that took a multiple of four milliseconds |
| XidNegotiation.ConvergesIff | src/sdl/management-data-link.ts:291-332 | both ends hold identical parameters exactly under the stated window and timer conditions, for any two offers |
| XidNegotiation.DefaultsConverge | src/sdl/management-data-link.ts:347-372 | without explicit offers both ends always agree, on the lesser or greater of the two values field by field |
| XidNegotiation.WideWindowShrinks | src/xid.ts:527-537 | an offered window of 130 makes both ends agree on 2 |
| XidNegotiation.RepeatedCommandChangesNothing | src/sdl/management-data-link.ts:291-310 | answering the same command again changes nothing |
| XidNegotiation.RenegotiationChangesNothing | src/sdl/management-data-link.ts:291-332 | two stations that have agreed stay as they are after a further exchange |
| Segmentation.SegmentFigureLiteral | src/sdl/segmenter.ts:114-146 | the loop yields the specified segments, or refuses |
| Segmentation.SegmentWithInnerPid | src/sdl/segmenter.ts:158-206 | the loop over the PID-carrying format yields the segments of the PID-prefixed payload |
| Segmentation.SegmentsIff | src/sdl/segmenter.ts:118-136 | splitting succeeds exactly when 128 segments have room |
| Segmentation.SegmentsFit | src/sdl/segmenter.ts:139-145 | no segment is longer than N1 |
| Segmentation.SegmentHeaders | src/sdl/segmenter.ts:114-206 | each segment counts those still to come, the first is marked and has the PID, all but the last are full and none but a lone one is empty |
| Segmentation.Reassembler.PushSegment | src/sdl/segmenter.ts:265-324 | one segment moves the series as specified, with every rejection |
| Segmentation.SegmentationLayer.BuildSendRequests | src/sdl/segmentation-layer.ts:118-152 | refused exactly when too long and splitting is off or has no room; otherwise the payload as it is, or exactly its segments in order, each within N1 and under the segment PID |
| Segmentation.SegmentationLayer.OnDataIndication | src/sdl/segmentation-layer.ts:191-228 | pass-through, series under way, delivery, or drop with reset |
| Segmentation.BadEndsSeries | src/sdl/segmentation-layer.ts:191-228 | a segment that does not fit ends its series, and only a first segment starts another |
| Segmentation.SegmentationRoundTrip | src/sdl/segmentation-layer.ts:191-228 | from any state and with other indications interleaved, the payload and PID come out once, on the last segment |
| Segmentation.LayerToLayer | src/sdl/segmentation-layer.ts:118-228 | what one layer builds, the other, in any state and with other indications interleaved, delivers whole on the last request and not before, with its PID exactly when the format carries it or it is 0xF0 |
| Segmentation.FigureLiteralLosesPid | src/sdl/segmentation-layer.ts:191-228 | three octets in the figure's format arrive with PID 0xF0 |
| Segmentation.UnsegmentedIff | src/sdl/segmentation-layer.ts:191-228 | in every state of the layer, an unsegmented payload is delivered as sent exactly when its PID is not the segment PID or it ends a series whose payload is itself |
| Segmentation.SelfEndingSeries | src/sdl/segmentation-layer.ts:191-228 | such a series, from a fresh layer |
| Fcs.ComputeFcs | src/fcs.ts:41-54 | the nested shift loops compute the register of the data |
| Fcs.KnownSequences | src/fcs.ts:41-54 | the check sequence of no octets and of one zero octet |
| Fcs.DatagramIs | src/fcs.ts:71-101 | a datagram is accepted exactly when it has 17 octets and ends in the check sequence of the rest, low octet first |
| Fcs.AppendFcs | src/fcs.ts:62-69 | the buffer holds the body and its check sequence, low octet first |
| Fcs.AcceptedIffResidue | src/fcs.ts:71-101 | a datagram is accepted exactly when its own raw register ends at 0xF0B8 |
| Fcs.StripUndoesAppend | src/fcs.ts:62-101 | stripping an appended body of at least 15 octets gives it back |
| Fcs.BurstIsRejected | src/fcs.ts:87-101 | damage within any sixteen consecutive bits of an appended datagram is rejected, at any place and length |
| UpdateScheduler.Inp3UpdateScheduler.SetTargetNeighbours | src/netrom/inp3-update-scheduler.ts:230-252 | the targets become the distinct given callsigns in order |
| UpdateScheduler.Inp3UpdateScheduler.Mark | src/netrom/inp3-update-scheduler.ts:430-454 | upgrades only, and anchors the earliest pending positive mark |
| UpdateScheduler.Inp3UpdateScheduler.Tick | src/netrom/inp3-update-scheduler.ts:312-376 | what is raised and what is cleared in each of the three cases |
| UpdateScheduler.NegativeGoesOutNextTick | src/netrom/inp3-update-scheduler.ts:312-376 | a negative mark or upgrade reaches every current target at the very next tick |
| UpdateScheduler.PositiveGoesOutAfterDebounce | src/netrom/inp3-update-scheduler.ts:312-376 | a positive mark reaches every target there then is by the first tick a debounce after it |
| UpdateScheduler.PeriodicSpacing | src/netrom/inp3-update-scheduler.ts:317-361 | periodic fan-outs are at least one interval apart |
| UpdateScheduler.RefreshesIff | src/netrom/inp3-update-scheduler.ts:312-376 | over every run a tick makes a refresh exactly when an interval has passed since the start and since every earlier one, to every target |
| UpdateScheduler.TriggeredOnlyByMarks | src/netrom/inp3-update-scheduler.ts:317-361 | a triggered fan-out always carries a mark made since the fan-out before it: a negative one, or a positive one that has waited for the debounce |
| Forwarding.SelectWeighted | src/netrom/forwarding.ts:206-228 | picks the one route whose share covers the residue; none only when none is eligible |
| Forwarding.SharesAreExact | src/netrom/forwarding.ts:206-228 | each route not by way of the sender is picked for exactly `quality` of the residues |
| Forwarding.SelectInp3NextHop | src/netrom/forwarding.ts:166-190 | a time-route not by way of the sender, if any, with the least target time, then the fewest hops, then callsign and port |
| Forwarding.DecideForward | src/netrom/forwarding.ts:82-141 | when a datagram is dropped and why, and the route and time to live it leaves with |
| Forwarding.JourneyIsBounded | src/netrom/forwarding.ts:92-119 | whatever the tables, a datagram is forwarded at most t - 1 times and as the caps allow, and never straight back |
| Sntt.StepMoves | src/netrom/inp3-sntt.ts:226-252 | a step moves toward the sample without passing it and stands still exactly inside the rounding band |
| Sntt.UpdateIs | src/netrom/inp3-sntt.ts:226-252 | the first sample is taken as it is; later ones move the filter by the distance over two to the gain, to the nearest |
| Sntt.StaysInRange | src/netrom/inp3-sntt.ts:101-108 | the filter stays within 0..600000 for every gain in range, and refuses the others |
| Sntt.Settles | src/netrom/inp3-sntt.ts:226-252 | under a constant sample it reaches the band in bounded time and never moves again |
| Sntt.SettlesFast | src/netrom/inp3-sntt.ts:226-252 | less than 2^k away, it is in the band for good after k times the gain's denominator: the time is logarithmic in the distance |
| Sntt.SettlesInTwenty | src/netrom/inp3-sntt.ts:101-108 | from anywhere in its range, twenty times the denominator is enough |
| Frames.EncodeFrame | src/frame.ts:344-367 | the buffer holds the addresses, control, PID and information in order |
| Frames.FrameLayout | src/frame.ts:344-367 | which octets of the encoding are each address, the control, the PID and the information |
| Frames.IFrameLayout | src/frame.ts:836-869 | where N(S), N(R) and the poll bit are in the control octets, at either modulo |
| Frames.SFrameLayout | src/frame.ts:734-763 | where type, N(R) and poll/final bit are |
| Frames.DecodeFrame | src/frame.ts:388-505 | the digipeater loop and the checks compute the specified decoding under every option |
| Frames.EightDigipeaters | src/frame.ts:409-434 | an otherwise well-formed frame decodes exactly when it has at most eight digipeaters |
| Frames.CutFrameFails | src/frame.ts:436-478 | a frame that ends before its control, second control or PID octet does not decode |
| Frames.ControlIs | src/frame.ts:436-505 | which control octets carry a PID, may carry information, and are commands only |
| Frames.PermittedIs | src/frame.ts:480-505 | what each option lets through that is otherwise refused |
| Frames.FrameRoundTrip | src/frame.ts:344-505 | a well-formed frame decodes at its own modulo to itself exactly when the options permit it |
| Frames.DecodedIsWellFormed | src/frame.ts:388-505 | whatever decodes, under any options, is a well-formed frame of that modulo that the options permit |
| Frames.ReencodedIsSame | src/frame.ts:344-505 | what was decoded, encoded again, decodes to the same under the same options |
| Frames.NarrowDecodeRoutes | src/frame.ts:388-435 | decoding a modulo-128 frame as modulo 8 succeeds with the same addresses |
| Frames.IFrameRoundTrip | src/frame.ts:836-869 | an I frame comes back with the N(S), N(R), poll bit, PID and information it was built with |
| Frames.SFrameRoundTrip | src/frame.ts:734-763 | a supervisory frame comes back with its type, N(R) and poll/final bit |
| Addresses.WriteAddress | src/address.ts:59-79 | the slot's seven octets land at the offset and nothing after them changes |
| Addresses.AddressLayout | src/address.ts:59-79 | the seven octets of a slot, bit by bit |
| Addresses.ReadAddressAt | src/address.ts:27-56 | the reading loop computes the specified slot, with its rejections |
| Addresses.AddressRead | src/address.ts:27-79 | an address slot reads back with its callsign, command/repeated bit and end bit |
| Kiss.EncodeKiss | src/kiss.ts:45-80 | the buffer-filling loop writes the delimited, escaped content, or refuses the port |
| Kiss.FrameOnTheWire | src/kiss.ts:45-80 | a frame is a delimiter, port and command in one octet, the payload escaped, a delimiter, with none in between |
| Kiss.EscapesAre | src/kiss.ts:45-80 | the two special octets are escaped and no others |
| Kiss.OddOctets | src/kiss.ts:93-135 | a malformed escape is dropped and empty frames are passed over |
| Kiss.KissDecoder.PushChunk | src/kiss.ts:93-118 | a chunk yields exactly the frames it completes and the state carries over |
| Kiss.ChunksDoNotMatter | src/kiss.ts:93-118 | how a stream is cut into chunks makes no difference |
| Kiss.KissRoundTrip | src/kiss.ts:45-135 | from any state, a run of frames comes out complete and in order, with at most one damaged or extra frame in front |
| Kiss.ContentRoundTrip | src/kiss.ts:45-135 | a frame reads back as the port, low command nibble and payload it was encoded from |
| Kiss.EncodedComesBack | src/kiss.ts:45-135 | a fresh decoder given the encodings of any frames, cut in two anywhere, returns exactly those frames with port, command nibble and payload |

## Left out

- Ax25Safety.DeliveredIsPrefix: stays within one link establishment from a fresh context, because re-establishing sets the sequence variables back without clearing the stores.
- CircuitSafety.DeliveredIsPrefix: each end connects or is accepted once; what a second `connect` on a closed circuit does is stated separately.
- RoutingSafety.NodesEvictionIsSilent: does not fix which of two routes that rank equal the cap keeps.
- The generated state tables that string the AX.25 verbs together are not part of this model. An arriving frame is taken to check N(R), advance V(a), then deliver, store or discard, in the order of figure C4.4; go-back-N is covered as resending any stored frame at any time.
- Timers, retry counts, busy signalling and the error signals of the AX.25 data-link states.
- Real timers, sockets, serial ports and carrier sensing; the clock is an integer input.
- Callbacks that call back into a circuit or the routing table while it is still working.
- The network header of a circuit's datagrams, and the callsigns inside a Connect Request; the pair of circuits is already demultiplexed to each other.
- Inbound circuits that are neither accepted nor refused, and the application's choice between the two, which is an input.
- The counts of dropped routes the routing operations return, and the sorted snapshot and NODES advertisement views, which add only easy members.
- The separator check inside a port id; a route's key is a pair.
- Text handling of aliases beyond printable characters and trailing spaces, and IP address TLVs.
- The value of the per-flow hash; a flow is an arbitrary number that stays the same for all its datagrams.
- The retry timer of a negotiation and its fallback to version 2.0 on a frame reject.
- Negative and fractional counts in an XID offer; the timer may be fractional.
- The command/response and frame-type classification beyond what decoding needs, and the unnumbered frame factories.
- The listener, session cache, connector, originator and service wiring.
