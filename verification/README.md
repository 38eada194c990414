# Verified models of a network-simulation library

The library's modules are event handlers that change a few fields at a time: an Ethernet MAC, a
switch, a bus, DHCP, fragment reassembly, a radio neighbour cache, a script interpreter, a byte
format. Their promises are about whole runs. This project models the hardest of them and proves
those promises for every run, every input or every reachable state. `dafny verify dfyconfig.toml`
checks all of it.

Two layers stand side by side. Transition functions over values say what one event does, and the
lemmas about runs are stated over them. Classes hold the source's fields, and their methods,
written with the source's branches and loops, are proved to leave exactly the state those functions
give. Errors (`error(...)`, `ASSERT`, exceptions) are results that the lemmas show to be
unreachable, or to happen exactly when stated.

| file | source component | what is proved |
|---|---|---|
| `EtherMac.dfy`, `EtherMacLaws.dfy`, `EtherMacModule.dfy` | EtherMAC, EtherMACBase | timers and states, no internal error, what becomes of each frame, backoffs and pauses to the bit time, channel time, exact condition for progress |
| `Turtle.dfy` | TurtleMobility | the cursor-and-counters machine executes the recursive unrolling; it ends exactly if the unrolling is clean |
| `Dhcp.dfy`, `DhcpLaws.dfy`, `DhcpModules.dfy` | DHCPClient, DHCPServer | no shared addresses over a lossy, duplicating, reordering network; client timers; acquisition and renewal succeed |
| `SwitchTable.dfy` | MACRelayUnitBase | the address table, and where each frame is sent, against the history of frames |
| `RelayNP.dfy`, `RelayLaws.dfy` | MACRelayUnitNP | N CPUs never reorder; exact buffer accounting; which frames are dropped and when each is dispatched |
| `Reassembly.dfy` | ReassemblyBuffer | complete exactly when all fragments have arrived |
| `ChannelControl.dfy` | ChannelControl | the neighbour cache against the in-range relation; the list of transmissions |
| `EtherBus.dfy` | EtherBus | each tap exactly once, at the exact time, in order |
| `TraCI.dfy`, `TraCIModules.dfy` | TraCIBuffer, TraCIScenarioManager, sumo-launchd.py | round trips on either endianness; when the Python receiver recovers what was sent |
| `Motion.dfy` | LineSegmentsMobilityBase, BasicMobility | distance to the target in steps, under every border policy |
| `DelayedClose.dfy`, `ReplyTimes.dfy` | TCPGenericSrvApp | replies before the close, each exactly when it is due |
| `EventList.dfy` | the simulation's event list | by time, then by order of scheduling |
| `Sets.dfy`, `Options.dfy`, `Coords.dfy` | | shared helpers |

Properties that turned out to be false of the code, each with the exact condition or a witness:

- The MAC can strand a queued frame for ever. `EtherMac.LiveUnlessHazard` says exactly when a step
  loses progress; `EtherMac.ZeroPauseStrands` and `EtherMac.DropWhileIdleStrands` reach both cases.
- The gigabit burst limit does not hold: a burst goes on exactly as long as there are frames and no
  PAUSE (`EtherMac.BurstGoesOn`), to any number of bytes (`EtherMac.BurstUnbounded`), because the
  bytes sent are assigned and not added up.
- The frame that the MAC takes from its queue as sent or given up need not be the one it sent: it is
  another exactly if a PAUSE frame came from above since that was put on the wire
  (`EtherMac.PopsAnotherIffJumped`). Such a frame is counted as sent without being sent
  (`EtherMac.PauseCountedUnsent`), or given up untried (`EtherMac.PauseGivenUpUntried`).
- A script that executes a `<repeat>` that is infinite, without children or with a negative count,
  or another statement with children, a negative duration or invalid attributes, never ends
  normally; `Turtle.EndsIffClean` is an if-and-only-if, and `Turtle.EmptyRepeatNeverEnds` an
  instance.
- DHCP clients that draw the same transaction id can end up with the same address
  (`Dhcp.SharedIdsShareAddress`), exactly by taking a reply made to another
  (`Dhcp.BrokenIffStolen`); with ids distinct across clients they cannot (`Dhcp.Safety`).
- Fragments that overlap and together cover a datagram may or may not be reassembled
  (`Reassembly.OverlapIsLost`, `Reassembly.OverlapIsPassed`). If no two different ones begin at the
  same offset, they are if and only if a chain of fragments, each beginning where the one before
  ends, leads from 0 to a last fragment (`Reassembly.MainIsChain`). Otherwise such a chain is
  needed (`Reassembly.CompleteHasPath`), and the order decides (`Reassembly.OrderMatters`).
- Reflection leaves a host that lands exactly on the far edge outside the playground
  (`Motion.ReflectedInside`).
- A host can fall behind its plan without bound (`Motion.ShortSegmentsFallBehind`): a movement makes
  it later if and only if it is shorter than the update interval (`Motion.FallsBehindIffShort`),
  and by how much is an exact law (`Motion.SlackLaw`).
- The launch daemon reads the file name and the contents by one `recv` each. It recovers the
  contents if and only if both calls return everything and the contents are shorter than 2^31
  bytes (`TraCI.LaunchRecovered`).

## Model

| member | source | states |
|---|---|---|
| `EtherMac.StepKeepsInv` | src/linklayer/ethernet/EtherMAC.cc:202-598 | from a consistent state an event fails exactly if the environment offends (cable too long, stray jam, frame to itself, frame or queue too long), never by an internal check, and otherwise keeps the invariant, changes queue and counters only as that event may, and keeps the channel time in balance |
| `EtherMac.BeforeReady` | src/linklayer/ethernet/EtherMAC.cc:221-262 | when an event is due, the state its handler finds is the one it expects: the expiring timer belongs to the present transmit or receive state |
| `EtherMac.RunKeepsInv` | src/linklayer/ethernet/EtherMAC.cc:202-598 | every state of every run from the end of autoconfig satisfies the whole invariant |
| `EtherMac.RunIsSafe` | src/linklayer/ethernet/EtherMAC.cc:217-598 | in every run: IFG, transmission, jam and backoff timers are pending exactly in their states, a pause timer only when paused, endRx exactly when the receiver is busy; a frame is held exactly while receiving, with one concurrent transmission, none when idle; half-duplex never sends while receiving; no internal consistency error can follow |
| `EtherMac.CollideGood` | src/linklayer/ethernet/EtherMAC.cc:288-309 | a frame arriving during a half-duplex transmission turns it into a jam and a collision without breaking the invariant or the time balance |
| `EtherMac.FollowGood` | src/linklayer/ethernet/EtherMAC.cc:323-341 | completing one frame and starting the next in one event, PAUSE commands included, keeps the invariant |
| `EtherMac.NetGood` | src/linklayer/ethernet/EtherMAC.cc:282-391 | a message from the wire is refused exactly if it took too long on a half-duplex cable or is a jam with nothing to jam, and otherwise keeps the invariant |
| `EtherMac.EndTxGood` | src/linklayer/ethernet/EtherMAC.cc:465-503 | the end of a transmission removes exactly the first frame, counts it, resets the backoffs and goes on to a pause, a burst, a gap or idleness consistently |
| `EtherMac.EndRxGood` | src/linklayer/ethernet/EtherMAC.cc:505-529 | the end of a reception pays its time to success or collision and restarts a waiting transmitter consistently |
| `EtherMac.OtherTimersGood` | src/linklayer/ethernet/EtherMAC.cc:531-598 | the ends of backoff, jam and pause keep the invariant; a frame is given up only after 16 backoffs, and otherwise waits the slots drawn |
| `EtherMac.ArriveKeeps` | src/linklayer/ethernet/EtherMACBase.cc:301-328 | a frame accepted, data last or PAUSE first, keeps accepted = departed + queued by number, each once, in order while all are data, and keeps track of the frame on the wire behind it |
| `EtherMac.StepKeepsBook` | src/linklayer/ethernet/EtherMAC.cc:465-598 | every event keeps the book of frames: which one is on the wire and where it is in the queue, which one made each draw, how many PAUSE frames came since, and the number of tries |
| `EtherMac.KeepsTimeAccounted` | src/linklayer/ethernet/EtherMAC.cc:454-522 | one step keeps success + collision + present busy interval + idle time equal to the time elapsed |
| `EtherMac.RunAccounts` | src/linklayer/ethernet/EtherMAC.cc:465-598 | in every run: every frame accepted has departed or is queued, once; the frame that departs is the one last put on the wire if and only if no PAUSE frame was accepted from above since; the draws since the last departure are all its own if and only if none was accepted since the first try, or there are none; they are at most 16, the k-th below 2^min(k,10), 8174 slots in all, and 16 if it is given up; it departs within 50 ends of gaps, jams, backoffs and transmissions |
| `EtherMac.EachFrameItsOwn` | src/linklayer/ethernet/EtherMAC.cc:465-598 | without PAUSE frames from above the i-th frame accepted is the i-th to depart and the one on the wire, and its draws are its own, at most 16 and 8174 slots in all |
| `EtherMac.RunWaits` | src/linklayer/ethernet/EtherMAC.cc:588-594 | in every run each backoff that is over lasted exactly the slots drawn times the slot time, so a departed frame has waited the sum of its draws, 8174 slot times at most; a pending backoff timer is due at the draw plus its slots |
| `EtherMac.PopsAnotherIffJumped` | src/linklayer/ethernet/EtherMACBase.cc:319-328 | in one step: the frame taken from the queue is another than the one last put on the wire if and only if a PAUSE frame from above was accepted since |
| `EtherMac.PauseCountedUnsent` | src/linklayer/ethernet/EtherMACBase.cc:324-325 | a PAUSE frame accepted from above during any transmission is counted as sent at its end, never having been on the wire, and the frame that was goes out again |
| `EtherMac.PauseCountedUnsentReached` | src/linklayer/ethernet/EtherMACBase.cc:324-325 | such a run exists: a data frame on the wire from 96 to 672 and a PAUSE frame meanwhile |
| `EtherMac.PauseGivenUpUntried` | src/linklayer/ethernet/EtherMAC.cc:577-586 | a PAUSE frame accepted from above during any jam after the sixteenth backoff is given up untried in place of the frame that collided, which stays with its backoffs forgotten |
| `EtherMac.PauseGivenUpReached` | src/linklayer/ethernet/EtherMAC.cc:577-586 | such a run exists, after sixteen collisions |
| `EtherMac.TriesLessen` | src/linklayer/ethernet/EtherMAC.cc:394-598 | every end of a gap, jam, backoff or transmission brings the first frame nearer to its departure, and no other event takes it farther away, PAUSE included |
| `EtherMac.RunAccountsTime` | src/linklayer/ethernet/EtherMAC.cc:454-632 | in every run success plus collision time never exceeds elapsed time and the idle time reported is the true one |
| `EtherMac.WithinBudget` | src/linklayer/ethernet/EtherMAC.cc:588-594 | the sum of k draws is bounded by the sum of their ranges |
| `EtherMac.FullBudget` | src/linklayer/ethernet/EtherMAC.cc:588-594 | that bound is 8174 for 16 draws |
| `EtherMac.BurstGoesOn` | src/linklayer/ethernet/EtherMAC.cc:480-502 | at the end of a transmission the next frame follows without a gap if and only if bursting is on, no PAUSE is requested and there is a frame: the 8192-byte limit has no say |
| `EtherMac.BurstUnbounded` | src/linklayer/ethernet/EtherMAC.cc:424-428 | for any number of queued frames of full length a run from the end of autoconfig sends them in one burst, of 1526 bytes each, above the 8192-byte limit from the sixth on |
| `EtherMac.LiveUnlessHazard` | src/linklayer/ethernet/EtherMAC.cc:505-586 | a step keeps the transmitter alive if and only if it is neither the reception of a zero-unit PAUSE while paused nor an excessive-collision drop with an idle receiver and a frame behind |
| `EtherMac.LiveHasEvent` | src/linklayer/ethernet/EtherMAC.cc:524-528 | a live transmitter with a frame to send has such an event coming |
| `EtherMac.RunProgresses` | src/linklayer/ethernet/EtherMACBase.cc:398-420 | in a run without those two hazards, in every state with a frame queued, a timer of the transmitter is pending or it is idle with the end of a reception pending |
| `EtherMac.ZeroPauseStrands` | src/linklayer/ethernet/EtherMACBase.cc:406-411 | a reachable state holds a frame with no timer pending, after a zero-unit PAUSE while paused |
| `EtherMac.DropWhileIdleStrands` | src/linklayer/ethernet/EtherMAC.cc:575-586 | another one, after sixteen backoffs and a drop with the receiver already idle |
| `EtherMacLaws.StepLawful` | src/linklayer/ethernet/EtherMAC.cc:202-598 | every step from a consistent state obeys the laws: the next transmit state by state and event; each timer runs from when its state is entered for exactly 96 bit times, 32, the frame with its 8 bytes of preamble; a reception ends with the latest frame heard, or with the jam that ends the last one; a busy interval is paid to success or collision; no frame is sent shorter than 512 bytes where carriers are extended; a PAUSE is obeyed at once if idle or paused, else remembered |
| `EtherMacLaws.RunIsLawful` | src/linklayer/ethernet/EtherMAC.cc:202-598 | so does every step of every run |
| `EtherMacLaws.RunPauses` | src/linklayer/ethernet/EtherMACBase.cc:398-531 | in every run the end of a transmission leads to a pause if and only if a PAUSE of more than zero units was completely received while busy and not obeyed; the pause lasts exactly its units times 512 bit times; any pending pause timer is due as the PAUSE frames heard say |
| `EtherMacLaws.RefusedIff` | src/linklayer/ethernet/EtherMACBase.cc:286-346 | exactly what is refused, and with which error |
| `EtherMacModule.EtherMAC.HandleMessage` | src/linklayer/ethernet/EtherMAC.cc:202-262 | the whole new state is that of the step function; from a consistent state the only errors are the environment's, the state stays consistent and the laws are obeyed |
| `EtherMacModule.EtherMAC.FrameFromUpperLayer` | src/linklayer/ethernet/EtherMAC.cc:270-279 | from a consistent state: refused exactly for a frame to itself, too long, or a queue too long; otherwise the frame is in the queue, data last and PAUSE first, nothing else of queue and counters changes, and the state is consistent |
| `EtherMacModule.EtherMAC.MsgFromNetwork` | src/linklayer/ethernet/EtherMAC.cc:282-391 | from a consistent state: refused exactly for a cable too long or a stray jam; otherwise queue and counters are untouched, the channel time stays in balance and the state is consistent |
| `EtherMacModule.EtherMAC.EndIFGPeriod` | src/linklayer/ethernet/EtherMAC.cc:394-410 | when the gap ends in a consistent state: no error, the same frames queued under the same ids, and a consistent state, sending or jamming |
| `EtherMacModule.EtherMAC.EndTxPeriod` | src/linklayer/ethernet/EtherMAC.cc:465-503 | when a transmission ends in a consistent state: no error, exactly the first frame is gone and counted, the backoffs are reset, the busy time is accounted for and the state is consistent |
| `EtherMacModule.EtherMAC.EndRxPeriod` | src/linklayer/ethernet/EtherMAC.cc:505-529 | when a reception ends in a consistent state: no error, the busy interval is paid to success or collision, a PAUSE received is obeyed or remembered, a waiting transmitter starts its gap, queue and counters are untouched and the state is consistent |
| `EtherMacModule.EtherMAC.EndBackoffPeriod` | src/linklayer/ethernet/EtherMAC.cc:531-548 | when a backoff ends in a consistent state: no error, nothing of queue and counters changes and the state is consistent |
| `EtherMacModule.EtherMAC.EndJammingPeriod` | src/linklayer/ethernet/EtherMAC.cc:550-556 | when a jam ends in a consistent state: no error; one more backoff below the limit of 16, else exactly the first frame is given up; the state is consistent, by the laws |
| `EtherMacModule.EtherMAC.EndPausePeriod` | src/linklayer/ethernet/EtherMACBase.cc:477-483 | when a pause ends in a consistent state: no error, nothing of queue and counters changes and the state is consistent |
| `EtherMacModule.EtherMAC.CheckAndScheduleEndPausePeriod` | src/linklayer/ethernet/EtherMACBase.cc:518-531 | a remembered PAUSE is obeyed once and forgotten; without one nothing changes |
| `Turtle.RunFollowsUnrolling` | src/mobility/TurtleMobility.cc:74-299 | any script, infinite repeats included: m steps execute the first m statements of the recursive unrolling, with one counter for each enclosing repeat, no ASSERT or error, and end with an empty stack if that is all |
| `Turtle.EndsIffClean` | src/mobility/TurtleMobility.cc:74-299 | every script ends normally if and only if the statements executed hold no infinite repeat, no repeat that is empty or has a negative count, no other statement with children or a negative duration, and none with missing or invalid attributes; it has then executed exactly the unrolling |
| `Turtle.InfiniteNeverEnds` | src/mobility/TurtleMobility.cc:256-299 | a script that reaches an infinite repeat never ends normally |
| `Turtle.EmptyRepeatNeverEnds` | src/mobility/TurtleMobility.cc:97-109 | a script that executes one empty repeat never ends normally |
| `Turtle.StepSimulates` | src/mobility/TurtleMobility.cc:256-299 | one statement and one move of the cursor take the head off what the cursor and the counters stand for |
| `Turtle.LeaveSimulates` | src/mobility/TurtleMobility.cc:268-299 | going on past a statement, to a sibling, back to the beginning of the body or out of finished loops, leaves what follows it in the unrolling |
| `Turtle.ExecSimulates` | src/mobility/TurtleMobility.cc:74-90 | from any configuration that stands for a rest of the unrolling, m steps execute the first m statements of that rest |
| `Turtle.OverfullNeverEnds` | src/mobility/TurtleMobility.cc:108-261 | a counter too many is never popped, so no run ends with one |
| `Turtle.BadNeverEnds` | src/mobility/TurtleMobility.cc:97-109 | a bad statement any number of statements ahead keeps a run from ending normally, however long |
| `Turtle.TurtleMobility.ExecuteStatement` | src/mobility/TurtleMobility.cc:92-224 | pushes the counter of a repeat, advances the target time otherwise, or fails on a negative count or time, a missing or invalid attribute, speed or distance |
| `Turtle.TurtleMobility.GotoNextStatement` | src/mobility/TurtleMobility.cc:256-299 | the recursive cursor move equals the specification; false exactly where the ASSERT fails |
| `Turtle.TurtleMobility.DoStatement` | src/mobility/TurtleMobility.cc:84-89 | the body of the loop is one step of the machine; false exactly where that fails |
| `Turtle.TurtleMobility.ResumeScript` | src/mobility/TurtleMobility.cc:74-90 | executes a prefix of the run that takes no time before its last statement, and stops because time has advanced or the script has ended; or fails at a statement reached in no time, exactly if that statement fails |
| `Dhcp.Safety` | src/applications/dhcp/DHCPClient.cc:75-438 | over every interleaving with loss, duplication and reordering, if no two clients draw the same id and none draws 0: no client uses a lease it has not got, each configured address is the one the server's table records for that client, a bound client has configured its lease, no two clients share an address, the timer invariant holds |
| `Dhcp.HonestSafety` | src/applications/dhcp/DHCPClient.cc:208-294 | the same for any ids, in every run in which no client takes an offer made to another, or an ACK to another before it has a lease |
| `Dhcp.BrokenIffStolen` | src/applications/dhcp/DHCPClient.cc:208-294 | from a consistent world one event leads to a crash or an inconsistent world if and only if a client takes such a reply, which it can because it compares the id and not the hardware address |
| `Dhcp.FreshIsHonest` | src/applications/dhcp/DHCPClient.cc:316-396 | with ids distinct across clients no run has such a reply taken |
| `Dhcp.RunKeepsInv` | src/applications/dhcp/DHCPClient.cc:75-438 | every run in which no client takes another's reply never fails and keeps the invariant over clients, table and every message ever sent |
| `Dhcp.ServerStepKeeps` | src/applications/dhcp/DHCPServer.cc:82-159 | any message ever sent, delivered to the server at any time, keeps that invariant |
| `Dhcp.ClientStepKeeps` | src/applications/dhcp/DHCPClient.cc:163-294 | a timer, a message that is not another's or an association at a client keeps it, and never fails |
| `Dhcp.ServeGood` | src/applications/dhcp/DHCPServer.cc:82-159 | the table keeps one address for each MAC and takes none away; an answer is about an address the table records for the one who asked (when there is one: `DhcpLaws.AnswersIffItCan`) |
| `Dhcp.ReplyIsProper` | src/applications/dhcp/DHCPClient.cc:208-294 | a reply that is taken and not another's brings an address of this client, and an ACK finds a lease |
| `Dhcp.T2OnlyWhileRenewing` | src/applications/dhcp/DHCPClient.cc:163-206 | T2 expires only while renewing, because T1 is due no later and was scheduled first |
| `Dhcp.TimerKeepsTimers` | src/applications/dhcp/DHCPClient.cc:163-206 | each expiry leaves exactly the timers of the new client state pending |
| `Dhcp.MessageKeepsTimers` | src/applications/dhcp/DHCPClient.cc:208-294 | so does each message |
| `Dhcp.SharedIdsShareAddress` | src/applications/dhcp/DHCPClient.cc:316-396 | with a shared transaction id two clients reach the same address |
| `DhcpLaws.AnswersIffItCan` | src/applications/dhcp/DHCPServer.cc:82-285 | the server answers if and only if the message is a Request from a known client, or a Discover from a known one or with an address of the range free; the answer is the client's own address or the lowest free one, which is then leased to it, and nothing else changes |
| `DhcpLaws.TimerLawful` | src/applications/dhcp/DHCPClient.cc:163-206 | what each expiry leads to: the same question again, renewing at T1, rebinding at T2, with its message, time-out and retry count; lease and address stay |
| `DhcpLaws.MessageLawful` | src/applications/dhcp/DHCPClient.cc:208-294 | an offer taken is asked for at its server; an ACK configures the address of the lease and sets T1 and T2; anything else changes nothing |
| `DhcpLaws.AssociateLawful` | src/applications/dhcp/DHCPClient.cc:296-314 | an interface that comes up makes the client discover, with no timer left over |
| `DhcpLaws.RenewalSucceeds` | src/applications/dhcp/DHCPClient.cc:427-438 | in every consistent world: when T1 expires, the renewal, once delivered, leaves an ACK with its id, and that, once delivered, leaves the client bound to the same address with T1 and T2 set anew |
| `DhcpLaws.AcquisitionSucceeds` | src/applications/dhcp/DHCPClient.cc:75-146 | in every consistent world: a client, known or new with an address free, is configured by four delivered messages with its own address or the lowest free one |
| `DhcpModules.DHCPServer.GetLeaseByMac` | src/applications/dhcp/DHCPServer.cc:243-254 | finds a lease of that MAC if there is one |
| `DhcpModules.DHCPServer.GetAvailableLease` | src/applications/dhcp/DHCPServer.cc:256-285 | the first address in range order that is not leased, or none |
| `DhcpModules.DHCPServer.SendOffer` | src/applications/dhcp/DHCPServer.cc:202-241 | the offer is for the client that the table records for the address |
| `DhcpModules.DHCPServer.SendACK` | src/applications/dhcp/DHCPServer.cc:161-200 | so is the ACK, and T1 comes before T2 within the lease time |
| `DhcpModules.DHCPServer.ProcessPacket` | src/applications/dhcp/DHCPServer.cc:82-159 | table and answer are those of the specification, so there is an answer exactly if there can be one; the table stays consistent and takes no address from anyone; an answer goes to the one who asked, with its own address |
| `DhcpModules.DHCPClient.TimerMessage` | src/applications/dhcp/DHCPClient.cc:148-206 | a client whose lease and timers are in order for the server's table stays so at every expiry, misses no lease, and sends nothing but a request under the new id |
| `DhcpModules.DHCPClient.NetworkMessage` | src/applications/dhcp/DHCPClient.cc:148-294 | so at every message, if an offer taken is for its own address and an ACK finds a lease |
| `SwitchTable.TableAgreesWithHistory` | src/linklayer/etherswitch/MACRelayUnitBase.cc:142-228 | in every run a port found is that of the latest frame from the address, seen less than the aging time ago; without a limit if and only if; with limit N the table never exceeds N and a missing address is unseen, aged, or has had N others seen no earlier |
| `SwitchTable.RunKeepsConsistent` | src/linklayer/etherswitch/MACRelayUnitBase.cc:88-228 | every run keeps the table consistent with the history, from any preload within the limit |
| `SwitchTable.LearnKeeps` | src/linklayer/etherswitch/MACRelayUnitBase.cc:177-210 | learning an address, with aging and eviction to make room, keeps it so |
| `SwitchTable.LookupKeeps` | src/linklayer/etherswitch/MACRelayUnitBase.cc:212-228 | looking up, which may delete, keeps it so |
| `SwitchTable.LookupMeans` | src/linklayer/etherswitch/MACRelayUnitBase.cc:212-228 | what a hit and a miss say about the history |
| `SwitchTable.RoomIsFair` | src/linklayer/etherswitch/MACRelayUnitBase.cc:184-197 | making room drops only entries that are aged or older than N others |
| `SwitchTable.EvictedIsCrowded` | src/linklayer/etherswitch/MACRelayUnitBase.cc:157-175 | the oldest entry of a full table has N other addresses seen no earlier |
| `SwitchTable.OthersOnce` | src/linklayer/etherswitch/MACRelayUnitBase.cc:123-129 | a broadcast goes once to every port but the input |
| `SwitchTable.NeverSentBack` | src/linklayer/etherswitch/MACRelayUnitBase.cc:88-121 | no frame goes out where it came in |
| `SwitchTable.RunForwards` | src/linklayer/etherswitch/MACRelayUnitBase.cc:88-129 | every frame of every run goes where the history says: a broadcast, or a frame to an address not seen within the aging time, once to every port but the input; any other to exactly the port where its destination was seen last, or nowhere if that is the input; with a limit it may be flooded, and then its destination is crowded out |
| `SwitchTable.HandledRight` | src/linklayer/etherswitch/MACRelayUnitBase.cc:88-129 | the same for one frame and any consistent table |
| `SwitchTable.LookupForgets` | src/linklayer/etherswitch/MACRelayUnitBase.cc:212-228 | a lookup deletes the entry looked up exactly if it is aged |
| `SwitchTable.LearnPurges` | src/linklayer/etherswitch/MACRelayUnitBase.cc:184-193 | a full table that learns a new address keeps no aged entry |
| `SwitchTable.LearnsUnique` | src/linklayer/etherswitch/MACRelayUnitBase.cc:157-210 | what is learned is determined, ties included |
| `SwitchTable.LearnOverfull` | src/linklayer/etherswitch/MACRelayUnitBase.cc:185-193 | a table above its limit, as preloaded, loses nothing |
| `SwitchTable.MACRelayUnitBase.RemoveAgedEntriesFromTable` | src/linklayer/etherswitch/MACRelayUnitBase.cc:142-155 | exactly the aged entries go |
| `SwitchTable.MACRelayUnitBase.RemoveOldestTableEntry` | src/linklayer/etherswitch/MACRelayUnitBase.cc:157-175 | exactly the oldest entry goes, the first in address order of equally old ones, if there is any |
| `SwitchTable.MACRelayUnitBase.UpdateTableWithAddress` | src/linklayer/etherswitch/MACRelayUnitBase.cc:177-210 | the table stays consistent with a history in which the address was now seen on this port |
| `SwitchTable.MACRelayUnitBase.GetPortForAddress` | src/linklayer/etherswitch/MACRelayUnitBase.cc:212-228 | a hit is the port of the last frame from the address, seen less than the aging time ago; a miss means unseen, aged, or N others seen no earlier; the table stays consistent with the history |
| `SwitchTable.MACRelayUnitBase.BroadcastFrame` | src/linklayer/etherswitch/MACRelayUnitBase.cc:123-129 | the ports other than the input, in order |
| `SwitchTable.MACRelayUnitBase.HandleAndDispatchFrame` | src/linklayer/etherswitch/MACRelayUnitBase.cc:88-121 | learns the source, then sends where the history says, flooding included, and never back; the table stays consistent with the history |
| `RelayNP.NeverReorders` | src/linklayer/etherswitch/MACRelayUnitNP.cc:119-199 | for any number of CPUs and every run: accepted frames are dispatched in order of arrival, a CPU has an event exactly when it holds a frame, bufferUsed is the total length inside and stays below the buffer size, received = processed + dropped + inside, no ASSERT fails, PAUSE frames are spaced |
| `RelayNP.AssignGood` | src/linklayer/etherswitch/MACRelayUnitNP.cc:137-154 | a new frame goes to the end of what is inside, on a free CPU or in the queue, and the queue holds frames only when all CPUs are busy |
| `RelayNP.ProcessGood` | src/linklayer/etherswitch/MACRelayUnitNP.cc:168-199 | the frame on the CPU that is done is the first one inside, and the CPU takes the next |
| `RelayNP.AcceptKeeps` | src/linklayer/etherswitch/MACRelayUnitNP.cc:119-166 | accepting a frame for which there is room keeps order and accounts (which frames those are: `RelayLaws.AcceptedIffRoom`) |
| `RelayNP.DoneKeeps` | src/linklayer/etherswitch/MACRelayUnitNP.cc:168-199 | so does finishing one |
| `RelayNP.RunKeepsInv` | src/linklayer/etherswitch/MACRelayUnitNP.cc:105-199 | every run keeps the invariant and never fails |
| `RelayLaws.AcceptedIffRoom` | src/linklayer/etherswitch/MACRelayUnitNP.cc:119-162 | in every run a frame is accepted if and only if its length and the total length inside at its arrival are together below the buffer size; the accepted frames are those in order, and all others are dropped |
| `RelayLaws.PausedIffHigh` | src/linklayer/etherswitch/MACRelayUnitNP.cc:128-135 | in every run PAUSE frames are sent exactly when an accepted frame takes the buffer to the watermark and the last PAUSE is longer ago than the interval |
| `RelayLaws.ServedInTime` | src/linklayer/etherswitch/MACRelayUnitNP.cc:137-199 | in every run, for n CPUs, the i-th accepted frame is dispatched exactly one processing time after the later of its arrival and the dispatch of the accepted frame n before it |
| `RelayLaws.DispatchTimes` | src/linklayer/etherswitch/MACRelayUnitNP.cc:168-199 | the same for each dispatch |
| `RelayNP.MACRelayUnitNP.HandleMessage` | src/linklayer/etherswitch/MACRelayUnitNP.cc:105-117 | one event from a consistent state never fails and leaves the specified, consistent state, so it accepts, drops, pauses and dispatches as the laws of the runs say |
| `RelayNP.MACRelayUnitNP.FindFreeCpu` | src/linklayer/etherswitch/MACRelayUnitNP.cc:137-142 | the first CPU whose event is not scheduled, or the number of CPUs |
| `RelayNP.MACRelayUnitNP.AssignFrame` | src/linklayer/etherswitch/MACRelayUnitNP.cc:137-154 | to a free CPU, or to the queue |
| `Reassembly.CompleteIffAllArrived` | src/base/ReassemblyBuffer.cc:37-126 | for every partition into non-empty fragments and every arrival order with duplicates, reassembly is complete exactly when all have arrived, and the length is then the datagram's |
| `Reassembly.MainIsChain` | src/base/ReassemblyBuffer.cc:37-126 | for non-empty fragments that may overlap, in any order, as long as those with the same beginning are the same: the main range is the chain from 0 of fragments that each begin where the one before ends, and reassembly is complete if and only if a last fragment is on it |
| `Reassembly.OrderIsIrrelevant` | src/base/ReassemblyBuffer.cc:37-126 | hence, under the same condition, main range and completeness depend only on which fragments arrived |
| `Reassembly.CompleteHasPath` | src/base/ReassemblyBuffer.cc:37-126 | for any non-empty fragments: if reassembly is complete, received fragments, each beginning where the one before ends, lead from 0 to a last one |
| `Reassembly.OrderMatters` | src/base/ReassemblyBuffer.cc:47-55 | the converse fails where different fragments begin at one offset: two of them are complete in one order and not in the other |
| `Reassembly.MainWasReceived` | src/base/ReassemblyBuffer.cc:37-126 | for arbitrary fragments every offset in the main range, and in the list, was received |
| `Reassembly.AddHolds` | src/base/ReassemblyBuffer.cc:45-79 | what is held grows by exactly the new fragment, unless it partly overlaps the main range; then it is dropped |
| `Reassembly.MergeKeepsOffsets` | src/base/ReassemblyBuffer.cc:81-126 | the merge loop, repeated as long as the list shrinks, neither invents nor loses an offset |
| `Reassembly.PassKeepsOffsets` | src/base/ReassemblyBuffer.cc:89-123 | nor does one pass of its inner loop |
| `Reassembly.AddSettles` | src/base/ReassemblyBuffer.cc:47-62 | after a fragment that connects at either end no stored fragment connects any more |
| `Reassembly.MergeOnPieces` | src/base/ReassemblyBuffer.cc:81-126 | on the fragments of one partition the merge acts as on their numbers |
| `Reassembly.AddOnPieces` | src/base/ReassemblyBuffer.cc:45-79 | so does adding one |
| `Reassembly.ArrivalsAccounted` | src/base/ReassemblyBuffer.cc:37-126 | the buffer is always a prefix of the fragments and a list of later ones that accounts for every arrival |
| `Reassembly.OverlapIsLost` | src/base/ReassemblyBuffer.cc:62-79 | two overlapping fragments that cover a datagram do not complete it: the second is not on the chain |
| `Reassembly.OverlapIsPassed` | src/base/ReassemblyBuffer.cc:73-78 | three fragments with an overlap do complete one: the chain goes past the overlapping one |
| `Reassembly.ReassemblyBuffer.AddFragment` | src/base/ReassemblyBuffer.cc:37-43 | the new contents are those of the specification, and true is returned exactly if they are complete |
| `Reassembly.ReassemblyBuffer.Merge` | src/base/ReassemblyBuffer.cc:45-79 | extends the main range, drops, or lists the fragment, and merges |
| `Reassembly.ReassemblyBuffer.MergeFragments` | src/base/ReassemblyBuffer.cc:81-126 | the nested loops that erase from the list compute the full merge, and terminate |
| `Reassembly.ReassemblyBuffer.OnePass` | src/base/ReassemblyBuffer.cc:89-123 | one walk over the list, erasing on the way |
| `ChannelControl.CacheAgreesWithRange` | src/world/ChannelControl.cc:139-247 | in every state of every run, where a move is the loop over the other hosts in any order: neighbour sets are symmetric, irreflexive and registered; two hosts are neighbours exactly if in range and one has moved since both were registered; a valid list has each neighbour's module once and no other |
| `ChannelControl.RunKeepsInv` | src/world/ChannelControl.cc:139-247 | every run keeps that invariant |
| `ChannelControl.StepKeepsInv` | src/world/ChannelControl.cc:139-247 | so does each registration, removal, move (pair by pair) and query (neighbour by neighbour) |
| `ChannelControl.UpdatePairGood` | src/world/ChannelControl.cc:213-232 | touching the mirror side only on change is enough to keep symmetry and to set exactly this link to the range relation; without change nothing is touched |
| `ChannelControl.UpdateAllGood` | src/world/ChannelControl.cc:205-233 | the loop over any of the hosts in any order sets exactly the links to those hosts, both ways, and keeps symmetry |
| `ChannelControl.UpdateMoves` | src/world/ChannelControl.cc:242-247 | from symmetric sets the loop links the host to exactly the hosts in range of its new position and leaves other pairs as they were |
| `ChannelControl.MoveKeepsInv` | src/world/ChannelControl.cc:201-247 | so a move keeps the invariant, cached lists included |
| `ChannelControl.MoveKeepsLists` | src/world/ChannelControl.cc:201-247 | a list that is still marked valid is still right |
| `ChannelControl.ModulesListed` | src/world/ChannelControl.cc:191-197 | the loop over the neighbours lists each one's module once |
| `ChannelControl.KeepKeeps` | src/world/ChannelControl.cc:292-310 | purging early loses nothing that a later purge would keep |
| `ChannelControl.KeepAppend` | src/world/ChannelControl.cc:292-310 | purging a list is purging its parts |
| `ChannelControl.KeptIff` | src/world/ChannelControl.cc:292-310 | a purge keeps a transmission exactly until one second after its end |
| `ChannelControl.InRangeIsCloser` | src/world/ChannelControl.cc:211-213 | the comparison of squares means that the distance is below the range |
| `ChannelControl.Channels.GetOngoingTransmissions` | src/world/ChannelControl.cc:257-264 | exactly the frames added on the channel that have not expired, in order; an error for an invalid channel |
| `ChannelControl.Channels.AddOngoingTransmission` | src/world/ChannelControl.cc:266-290 | the frame is remembered with its start, whatever is purged meanwhile; nothing with a single channel |
| `ChannelControl.Channels.PurgeOngoingTransmissions` | src/world/ChannelControl.cc:292-310 | each list holds exactly what was added and has not expired |
| `ChannelControl.ChannelControlModule.RegisterHost` | src/world/ChannelControl.cc:139-154 | refused exactly if registered; else a step of the run, which keeps the caches in agreement |
| `ChannelControl.ChannelControlModule.UnregisterHost` | src/world/ChannelControl.cc:156-177 | refused exactly if unknown; else the host is gone from the table and every neighbour set, a step of the run that keeps the caches in agreement |
| `ChannelControl.ChannelControlModule.LookupHost` | src/world/ChannelControl.cc:179-186 | an entry of that host, if there is one |
| `ChannelControl.ChannelControlModule.GetNeighbors` | src/world/ChannelControl.cc:188-199 | exactly the neighbours' modules, each once, rebuilt only if not valid; a step of the run |
| `ChannelControl.ChannelControlModule.UpdateConnections` | src/world/ChannelControl.cc:201-234 | the loop over an iterator is the pair-by-pair update in the order visited, each other host once |
| `ChannelControl.ChannelControlModule.UpdateHostPosition` | src/world/ChannelControl.cc:242-247 | exactly the hosts in range of the new position are neighbours, both ways; a step of the run that keeps the caches in agreement |
| `EtherBus.DeliveredExactlyOnce` | src/linklayer/ethernet/EtherBus.cc:117-175 | in every run with any traffic, a frame is delivered at most once to each tap, never to its own, only at arrival time + distance / speed, and has been delivered once that time is past |
| `EtherBus.FramesKeepOrder` | src/linklayer/ethernet/EtherBus.cc:117-175 | frames from one tap reach every tap in the order in which they were sent |
| `EtherBus.RunKeepsInv` | src/linklayer/ethernet/EtherBus.cc:117-175 | every run keeps deliveries made plus deliveries pending equal to deliveries due, and no frame overtakes another from its tap |
| `EtherBus.HopIsExact` | src/linklayer/ethernet/EtherBus.cc:77-93 | the delay stored for a tap is the difference of the due times of two neighbours, so the hops telescope |
| `EtherBus.ArriveKeeps` | src/linklayer/ethernet/EtherBus.cc:119-147 | a frame entering keeps the invariant: two copies, upstream and downstream |
| `EtherBus.ReachKeeps` | src/linklayer/ethernet/EtherBus.cc:148-174 | so does a delivery with the hop after it |
| `EtherBus.BeyondOnce` | src/linklayer/ethernet/EtherBus.cc:159-173 | the taps beyond a tap are each served once, and no others |
| `EtherBus.OrderedIffGivenOrdered` | src/linklayer/ethernet/EtherBus.cc:62-75 | the check for ascending positions fails exactly if those given and used are not ascending; filled-in ones never break it |
| `EtherBus.FilledIn` | src/linklayer/ethernet/EtherBus.cc:65-70 | the position of every tap in closed form: given, or the last distance repeated, or multiples of 5 |
| `EtherBus.DelaysMirror` | src/linklayer/ethernet/EtherBus.cc:77-93 | the delay between neighbours is the same both ways, and none at the ends |
| `EtherBus.FillPositions` | src/linklayer/ethernet/EtherBus.cc:62-70 | positions given, then the last distance repeated, or 5 |
| `EtherBus.CheckOrder` | src/linklayer/ethernet/EtherBus.cc:71-75 | accepts exactly ascending positions |
| `EtherBus.FillDelays` | src/linklayer/ethernet/EtherBus.cc:77-93 | every tap gets the delays to its neighbours, zero at the ends |
| `EtherBus.EtherBusModule.constructor` | src/linklayer/ethernet/EtherBus.cc:39-93 | the bus is usable exactly if the positions given are in order, and then has the specified taps |
| `EtherBus.EtherBusModule.HandleArrival` | src/linklayer/ethernet/EtherBus.cc:119-147 | schedules the frame for the neighbouring taps, and keeps the invariant of the runs: all due deliveries made or pending at their times, no overtaking |
| `EtherBus.EtherBusModule.HandleSelfMessage` | src/linklayer/ethernet/EtherBus.cc:148-174 | delivers at the tap and schedules the next, unless the bus ends, and keeps that invariant |
| `TraCI.RoundTrip` | src/world/TraCIScenarioManager.h:117-167 | any list of integers of any size, signed or not, and strings reads back identically, and leaves exactly what follows |
| `TraCI.TruncatedFails` | src/world/TraCIScenarioManager.h:117-134 | with any byte missing at the end the read fails |
| `TraCI.TextRoundTrip` | src/world/TraCIScenarioManager.cc:412-427 | a string comes back cut to its length modulo 2^32 |
| `TraCI.WireIsDigits` | src/world/TraCIScenarioManager.h:136-148 | the bytes sent are the big-endian digits on hosts of either endianness |
| `TraCI.MessageRoundTrip` | src/world/TraCIScenarioManager.cc:67-105 | a message is received as sent exactly if it is shorter than 2^32 bytes, although its length field wraps before |
| `TraCI.MessageAnnounced` | src/world/TraCIScenarioManager.cc:93-96 | the announced length is that of the whole message exactly if 32 bits can hold it |
| `TraCI.CommandHeader` | src/world/TraCIScenarioManager.cc:107-114 | a command announces its own length, in one byte exactly if one can hold it, then its id and parameters |
| `TraCI.CommandLengthFound` | src/world/TraCIScenarioManager.cc:107-114 | in the short and the extended form the receiver finds the command, and its length exactly if a signed 32-bit integer can say it |
| `TraCI.LaunchRecovered` | etc/sumo-launchd.py:393-443 | the daemon recovers exactly the contents sent and consumes exactly the message if and only if the contents are shorter than 2^31 bytes and the two single recv calls return the whole name and contents |
| `TraCI.FileRecovered` | src/world/TraCIScenarioManagerLaunchd.cc:54-60 | the same for any file name both sides agree on |
| `TraCI.LaunchIsGenuine` | etc/sumo-launchd.py:405-443 | what the daemon returns as a launch file is one: the id, the expected name and the data stand in the stream where they must |
| `TraCI.CommandFails` | etc/sumo-launchd.py:418-422 | a missing id crashes, and exactly another id is a wrong command |
| `TraCI.FileFails` | etc/sumo-launchd.py:426-432 | a length cut short stalls, a negative one crashes, and exactly another name, or a part of it, is a wrong name |
| `TraCI.ContentsFail` | etc/sumo-launchd.py:436-440 | the same for the contents |
| `TraCI.HeadFails` | etc/sumo-launchd.py:398-414 | the same for the two lengths before the command |
| `TraCI.ResponseAccepted` | src/world/TraCIScenarioManagerLaunchd.cc:62-69 | the daemon's response is received as the echoed command, OK, an empty description and end of buffer |
| `TraCIModules.TraCIBuffer.Write` | src/world/TraCIScenarioManager.h:136-148 | appends exactly the encoding, on either endianness |
| `TraCIModules.TraCIBuffer.WriteMemory` | src/world/TraCIScenarioManager.h:136-148 | the loop appends the memory in network order |
| `TraCIModules.TraCIBuffer.WriteText` | src/world/TraCIScenarioManager.cc:412-416 | appends the length and that many bytes |
| `TraCIModules.TraCIBuffer.Read` | src/world/TraCIScenarioManager.h:117-134 | gives what the specification decodes and leaves the rest; on failure the buffer is at its end |
| `TraCIModules.TraCIBuffer.ReadMemory` | src/world/TraCIScenarioManager.h:117-134 | the loop fills the memory from network order, or fails exactly if there are too few bytes |
| `TraCIModules.TraCIBuffer.ReadText` | src/world/TraCIScenarioManager.cc:418-427 | reads length and bytes as specified |
| `TraCIModules.Connection.RecvInt` | etc/sumo-launchd.py:398-402 | whatever pieces recv returns, the loop assembles the first four bytes |
| `TraCIModules.Connection.ReadLaunchConfig` | etc/sumo-launchd.py:393-443 | outcome and bytes left are those of the specification, for some sizes returned by the two single recv calls |
| `Motion.TargetIsStepsAway` | src/mobility/LineSegmentsMobilityBase.cc:39-104 | after any number of steps under any mix of border policies, target minus position is the step times the remaining intervals, in both coordinates |
| `Motion.RunKeepsInv` | src/mobility/LineSegmentsMobilityBase.cc:39-104 | every run keeps that invariant, with a self-message pending until the host is stationary |
| `Motion.FixKeepsAway` | src/mobility/BasicMobility.cc:123-207 | reflection, wrapping and random placement change position, target and step consistently |
| `Motion.BeginPoised` | src/mobility/LineSegmentsMobilityBase.cc:39-77 | a new segment starts with the step that covers it in its planned intervals |
| `Motion.JoinsAreShort` | src/mobility/LineSegmentsMobilityBase.cc:41-88 | if movements last an update interval at least, the jump to the exact target at the end of a segment is of less than two steps, of less than one if the segment was begun before its time |
| `Motion.RunKeepsPunctual` | src/mobility/LineSegmentsMobilityBase.cc:79-95 | such runs are never an update interval behind their plan |
| `Motion.SlackLaw` | src/mobility/LineSegmentsMobilityBase.cc:39-95 | exactly: a host that keeps moving is ahead of its plan by what it was ahead at first, plus the time planned since, less an update interval for each event |
| `Motion.FallsBehindIffShort` | src/mobility/LineSegmentsMobilityBase.cc:57-88 | a movement makes the host later if and only if it is planned to last less than an update interval |
| `Motion.StepSlack` | src/mobility/LineSegmentsMobilityBase.cc:51-95 | what every event, waits included, does to the slack |
| `Motion.ShortSegmentsFallBehind` | src/mobility/LineSegmentsMobilityBase.cc:57-88 | with segments of half an interval the host is n half intervals late after n of them |
| `Motion.ReflectedInside` | src/mobility/BasicMobility.cc:123-153 | reflection ends inside if and only if the coordinate was above minus one playground, at most two, and not on the far edge |
| `Motion.WrappedInside` | src/mobility/BasicMobility.cc:155-177 | wrapping ends inside if and only if the coordinate was at most one playground too low and less than one too high |
| `Motion.BorderEffect` | src/mobility/BasicMobility.cc:123-207 | a host inside stays as it is under every policy; one outside is mirrored in the wall or shifted by the playground on each axis that is out, put at the chosen place with its target moved along, or an error |
| `Motion.StopsAtTarget` | src/mobility/LineSegmentsMobilityBase.cc:52-57 | a host that is to stop does so where its segment was to end, without further messages, and stays |
| `Motion.FailsIff` | src/mobility/LineSegmentsMobilityBase.cc:48-50 | exactly which plans are errors |
| `Motion.LineSegmentsMobility.SelfMsg` | src/mobility/LineSegmentsMobilityBase.cc:79-104 | the target stays the remaining steps away, a message stays pending until the host is stationary, and the slack changes by the law of one event |
| `Motion.LineSegmentsMobility.StartNextMove` | src/mobility/LineSegmentsMobilityBase.cc:39-77 | the host is where the last segment was to end, and the new step covers the new segment in its planned intervals |
| `Motion.LineSegmentsMobility.ReflectIfOutside` | src/mobility/BasicMobility.cc:123-153 | position, target and step mirrored on each axis that is out |
| `Motion.LineSegmentsMobility.WrapIfOutside` | src/mobility/BasicMobility.cc:155-177 | position and target shifted on each axis that is out |
| `Motion.LineSegmentsMobility.PlaceRandomlyIfOutside` | src/mobility/BasicMobility.cc:179-187 | the target moves with the host |
| `Motion.LineSegmentsMobility.HandleIfOutside` | src/mobility/BasicMobility.cc:198-207 | whatever the policy, the target stays as many steps away; false exactly where an error is raised |
| `DelayedClose.RepliesComeFirst` | src/applications/tcpapp/TCPGenericSrvApp.cc:75-130 | in every run, for any delays, each reply owed for a request received no later than the decision to close was sent before that close |
| `DelayedClose.NoReplyAfterClose` | src/applications/tcpapp/TCPGenericSrvApp.cc:75-130 | after a close no reply to such a request is sent or pending, on any connection |
| `DelayedClose.EachRequestOnce` | src/applications/tcpapp/TCPGenericSrvApp.cc:83-130 | what is sent and pending is exactly one reply for each request that wants bytes and one close for each decision |
| `ReplyTimes.SentWhenDue` | src/applications/tcpapp/TCPGenericSrvApp.cc:42-130 | in every run each reply was sent exactly its own delay after its request came, and each close exactly the longest delay asked for until then after its message, both later by the module's delay; what is pending is scheduled for such times |
| `DelayedClose.FailsIff` | src/applications/tcpapp/TCPGenericSrvApp.cc:42-91 | exactly what is an error: data of another class, and a reply or close due in the past |
| `DelayedClose.RunKeepsInv` | src/applications/tcpapp/TCPGenericSrvApp.cc:69-130 | nothing pending is ever due later than a close decided now would be |
| `DelayedClose.CloseKeeps` | src/applications/tcpapp/TCPGenericSrvApp.cc:75-82 | a close delayed by the running maximum goes after everything pending, equal times included |
| `DelayedClose.RespondKeeps` | src/applications/tcpapp/TCPGenericSrvApp.cc:96-120 | a reply keeps every earlier close after its own requests |
| `DelayedClose.SendOrSchedulePlaces` | src/applications/tcpapp/TCPGenericSrvApp.cc:42-48 | a message sent or scheduled goes somewhere after what has been sent, and after everything if nothing is due later, equal times included |
| `DelayedClose.TCPGenericSrvApp.TcpMessage` | src/applications/tcpapp/TCPGenericSrvApp.cc:75-137 | exactly what is owed for the message is sent or pending as well, and still no close is ahead of a reply it must wait for |
| `DelayedClose.TCPGenericSrvApp.SelfMessage` | src/applications/tcpapp/TCPGenericSrvApp.cc:71-74 | sending what is due first leaves the order of everything sent and pending as it was |

## Left out

- `Turtle.TurtleMobility.ResumeScript`: requires that within some number of statements one fails, time advances or the script ends; an infinite repeat that takes no time makes the source loop for ever.
- `EtherBus.FillDelays`: not for a single tap, where the source reads past the end of its array; nor for a propagation speed that is not positive, where delays are infinite or negative.
- `EtherBus.EtherBusModule.constructor`: the same two exclusions.
- `TraCIModules.TraCIBuffer.ReadText`: the buffer of that length on the stack is not modelled.
- EtherMAC: autoconfig and the choice of rate and duplex mode, the external queue module, disabled and unconnected MACs, the collision counter and other statistics.
- EtherMAC: where the shortest frame duration of the cable-length check comes from; the source sets it to a number of bytes, the model takes any.
- EtherMAC2: it pauses before it removes the frame it has sent, so the per-frame results do not carry over.
- TurtleMobility: what a movement does to position and angle, how attributes are evaluated (a statement is a count, a duration or faulty once it is), and the initial rewind of the cursor.
- DHCP: lease expiry, NAK and several servers are not implemented in the source; options other than those that carry addresses and times, the server's processing delay and UDP are not modelled.
- Switch: reading the address table from a file, STP frames, and MACRelayUnitPP.
- `Reassembly.MainIsChain`: not for different fragments that begin at one offset, for which it is false; `Reassembly.CompleteHasPath` and `Reassembly.OrderMatters` say what holds then.
- ReassemblyBuffer: offsets are natural numbers, not 16-bit ones; fragments with an end before their beginning.
- ChannelControl: the interference distance formula, the host's own channel, display strings; ChannelControlExtended is mostly a copy.
- EtherBus: the advertisement of 10 Mb half-duplex operation, message counters, parsing of the positions.
- TraCI: floating-point values as such (their bytes are covered by integers of the same size), sockets, the other commands, and the rest of the launch daemon.
- Mobility: the angle that reflection also turns, display and notification; a movement planned to take no time, where the step would be infinite, is an error.
- TCPGenericSrvApp: byte and message counters, binding and listening.
- Reals stand for floating-point numbers and simulation times; MAC and DHCP times are integers. Memory ownership, gates and logging are not modelled.
