# A verified model of adb

This project models, in Dafny, the parts of adb that multiplex streams over a transport and the code
around them that has to agree with itself across functions, threads or machines. `dafny verify
dfyconfig.toml` checks all of it.

| module | file | what it models |
|---|---|---|
| AdbBase | adb_base.dfy | bytes, limits, lists |
| StreamSocket, StreamPair, StreamCredit, StreamSystem, StreamTheorems, StreamFlow, StreamSpill, StreamClosing, StreamDebt, StreamRank | stream_*.dfy | one socket as a value; two endpoints joined by FIFO channels, any number of streams, every run |
| KernelLog | kernel_log.dfy | the answers of adb_read and adb_write, call by call |
| SocketLists | socket_list.dfy | the two circular lists as prev and next pointers |
| SocketGraph, Sockets, AdbPackets | socket_graph.dfy, sockets.dfy, adb_packets.dfy | the asocket graph in explicit memory, edited in place by the functions of sockets.cpp and by handle_packet |
| LocalPairs, ClientDial | local_pairs.dfy, client_dial.dfy | the event handler of a socket whose peer is another local socket, and how such pairs arise; a client whose request goes to the device |
| EndpointRefinement, LayerTheorems, LayerSettling, LayerOpens | endpoint_refinement.dfy, layer_theorems.dfy, layer_settling.dfy, layer_opens.dfy | every step of that graph is a step of the two-endpoint system, so the theorems about runs hold of two graphs that exchange packets |
| PayloadAgreement, LayerLimits | payload_agreement.dfy, layer_limits.dfy | the CNXN exchange and the payload limit; the exchange and two socket layers together |
| Fdevent, RunQueue | fdevent.dfy, run_queue.dfy | the event loop under arbitrary callbacks; the cross-thread run queue |
| TransportLife | transport_life.dfy | reader, writer and main thread of one transport, every interleaving |
| AdbListeners | adb_listeners.dfy | the listener registry and the transports' disconnect lists |
| AdbIo, PacketFraming, ProtocolStrings, SmartSocket, SmartSession | adb_io.dfy, packet_framing.dfy, protocol_string.dfy, smart_socket.dfy, smart_session.dfy | exact reads and writes; packets, strings and requests on a byte stream; a client's whole conversation with the smart socket |
| ShellProtocols, ShellService | shell_protocol.dfy, shell_service.dfy | the shell protocol and the data pump of a shell service |
| SyncSpec, FileSync | sync_spec.dfy, file_sync.dfy | file push and pull |
| Utf8Console | utf8_console.dfy | streaming UTF-8 to the Windows console |

The stream layer is modelled twice. `StreamSocket` says as functions what each entry point does to one
socket; the system of two endpoints is built from these functions and the theorems about runs are proved
of it. `SocketGraph` holds the real records, with peers as addresses in an explicit memory (a map), the
two lists and the id counter; the lists are circles of prev and next pointers, which spell the sequences that
the graph speaks of (`SocketLists.Spells`). The methods of `Sockets.SocketLayer` and `AdbPackets` work on it step by
step as the C++ does, and their contracts say that on a stream socket they do exactly what the
`StreamSocket` function of the same name says for the answers that the kernel gave: only `AdbRead` and
`AdbWrite` write the log of answers, and the contracts take bytes, end of file and failure from it. `EndpointRefinement` closes the
gap: whatever those contracts allow, for the whole graph and its packets, is a step of the endpoint the
graph represents, and by `LayerTheorems.RunRefines` any run of two socket layers is a run of the system.

What a system call, another thread or a device decides is a nondeterministic choice: every count, EAGAIN,
error or end of file of a read or write, every set of descriptors that poll or select reports, every
callback's list of calls, whether a service, file or port could be opened, and what a host request asks
for. Time, logging and progress output do not appear. The texts of error messages are parameters.

Some members are about inputs for which a natural reading of the code is wrong:

* Flow control fails exactly when an end is made to read unasked, by a read event faked for a hang-up or
  an error (fdevent.cpp:264-273), and finds data to hand to its peer: `StreamFlow.FlowIff`, over any run, and
  `StreamCredit.EventKeepsCreditIff` for one event. `StreamTheorems.HangUpBreaksCredit` is the smallest case.
* Bytes read by such an event while the socket has no peer are thrown away (sockets.cpp:335-336). An end hands
  over all it reads if and only if that never happens: `StreamSpill.NothingLostIff`; `StreamSpill.ByteLost` is
  the smallest case.
* A protocol string of 0x10000 bytes or more prints five length digits and cannot be read back, and one
  with a NUL is cut short (adb_io.cpp:41); `ProtocolStrings.RoundTripIff` gives the exact condition,
  `ProtocolStrings.FiveDigitsLost` and `ProtocolStrings.NulLost` the smallest cases.
* Bytes that follow a request in its packet are dropped (sockets.cpp:744-748, 768-782, 805-819). A client's
  conversation comes to what its bytes say if and only if every request that is followed by anything ends
  where a packet does: `SmartSession.PipelineIff`, and `SmartSession.SessionIff` with no bound on its length;
  `SmartSession.PipelinedRequestLost` is the smallest case. How a single request is cut makes no difference.
* A packet of the socket layer can fail the peer's header check if and only if one of the two limits is 0, and
  then it is an OPEN, because the length check of `connect_to_remote` wraps round:
  `PayloadAgreement.RefusedIff`, with the run in `PayloadAgreement.EarlyOpenRefused`.
* The handler of a socket with a local peer goes on with its own record after the peer's enqueue, which may
  have freed it (sockets.cpp:148-153, 344-364); `LocalPairs.PairEventFunc` says exactly when, and
  `LocalPairs.HandOverKills` shows it for a client and a service with nothing queued.
* A small file is stored exactly if what was read of it fits the server's 64 KiB buffer
  (`FileSync.SmallFileStored`, `FileSync.GrownFileRefused`): the client decides by the size that stat
  reported, not by what it read.
* A pump thread that leaves its loop before its transport is listed (transport.cpp:544-557) kicks it to no effect:
  `TransportLife.KickedIff` says when the device is disconnected, `TransportLife.KickLost` is the smallest case.
* An end may send more than one CLSE for a stream (adb.cpp:449-454): one if it closes with a peer, and one for each
  OKAY that comes after it has closed, so more than one if and only if such an OKAY follows a close with a peer,
  or two of them come (`StreamClosing.SecondClseIff`). An end never made to read unasked sends at most two
  (`StreamDebt.AtMostTwoClses`), and `StreamDebt.TwoClses` is a run of seven steps in which it does.

## Model

| member | source | states |
|---|---|---|
| StreamTheorems.NoOrphan | adb.cpp:417-480 | in every reachable state the far end of a connected socket is connected back to it, or an OKAY or CLSE that will settle it is in flight |
| StreamTheorems.OpenIsAnswered | adb.cpp:417-455 | a socket whose OPEN is unanswered has its OPEN, a refusal or an OKAY in flight |
| StreamTheorems.QuietMeansInverse | adb.cpp:417-480 | with both channels empty every live socket's far end is live and points back, so the two peer relations are inverse |
| StreamFlow.FlowIff | fdevent.cpp:264-273 | along any run after which a stream is open, each direction had exactly one go-ahead at every moment if and only if neither end was ever made to read unasked with data to be found and a peer to take it |
| StreamFlow.CalmIffNever | sockets.cpp:308-365 | the flag of a socket says whether it ever handed over data unasked, over any run |
| StreamCredit.EventKeepsCreditIff | sockets.cpp:250-365 | one fd event keeps the credit of an open stream both ways if and only if it does not hand over data for which there is no go-ahead |
| StreamTheorems.CreditConserved | sockets.cpp:302-365 | per direction of an open stream whose ends never handed over data unasked, the go-ahead is in exactly one place: FDE_READ on, a WRTE in flight, a backlog, an OKAY in flight; so one unanswered WRTE and one queued packet at most |
| StreamTheorems.HangUpBreaksCredit | fdevent.cpp:264-273 | a run with a faked read event in which two WRTEs are in flight at once |
| StreamTheorems.BytesArriveIntact | sockets.cpp:125-177 | bytes written at one end are a prefix of those read at the other, the rest being backlog and WRTEs in flight; a receiver that closed only because the sender did has written everything |
| StreamSpill.BytesAccounted | sockets.cpp:308-365 | over any run every byte an end reads is handed to its peer or thrown away for want of one, and some byte is thrown away exactly if some step read without a peer |
| StreamSpill.NothingLostIff | sockets.cpp:335-337 | what an end handed over is all it ever read, in order, if and only if it was never made to read while it had no peer and there was data |
| StreamSpill.AllReadArrives | sockets.cpp:125-177 | if nothing was lost, the bytes written, queued and in flight at the far end are all the bytes ever read |
| StreamSpill.ByteLost | sockets.cpp:335-337 | a client that writes a byte and hangs up before its OPEN is answered: the byte is lost |
| StreamTheorems.ClosingListShape | sockets.cpp:229-248 | a socket on the closing list has no peer, a backlog and FDE_WRITE on, so the CHECK at line 247 cannot fire |
| StreamTheorems.HistoriesGrow | sockets.cpp:186-248 | over any stretch of any run no socket is forgotten, revived or given another far end, the dead read nothing more, and byte histories only grow |
| StreamSystem.RunInv | adb.cpp:417-496 | the system invariant holds after every run of two endpoints with any number of streams opened from either side |
| StreamSystem.StepKeeps | adb.cpp:417-496 | one step of either endpoint keeps the system invariant |
| StreamPair.PairEvent | sockets.cpp:250-383 | an fd event at one end keeps the stream invariant |
| StreamPair.PairDeliver | adb.cpp:433-496 | delivering a packet keeps the stream invariant |
| StreamCredit.CreditEvent | sockets.cpp:250-365 | an fd event keeps credit |
| StreamCredit.CreditDeliver | adb.cpp:433-496 | delivering a packet keeps credit |
| StreamRank.RankDrops | adb.cpp:417-496 | every delivery and every productive drain lowers the rank over packets, backlogs and live sockets |
| StreamRank.CascadeEnds | adb.cpp:417-496 | without new input a cascade of answers is no longer than the rank it starts from |
| StreamRank.CanSettle | sockets.cpp:457-488 | from any reachable state deliveries alone lead to empty channels |
| StreamClosing.ClsesCounted | adb.cpp:433-496 | over any run an end sends for a stream one CLSE if it closed with a peer, plus one for each OKAY that came after it had closed |
| StreamClosing.SecondClseIff | adb.cpp:449-455 | it sends more than one if and only if an OKAY comes after it closed with a peer, or two come after it closed |
| StreamClosing.EventCounts | sockets.cpp:250-383 | an event sends a CLSE exactly if the socket closes with a peer, and what it does to go-aheads, WRTEs and backlog, whether or not the socket survives |
| StreamClosing.MsgCounts | adb.cpp:433-496 | the same for an arriving packet, with the CLSE that answers a late OKAY |
| StreamDebt.RunDebt | sockets.cpp:302-365 | credit carried past the sender's death: late OKAYs, OKAYs and WRTEs in flight, the far backlog and FDE_READ are never more than one in all |
| StreamDebt.AtMostTwoClses | adb.cpp:449-455 | an end that was never made to read unasked sends at most two CLSEs for a stream, whatever the other end does |
| StreamDebt.TwoClses | adb.cpp:449-455 | a run of seven steps, with nothing read unasked, after which two CLSEs of one stream are in flight |
| StreamSocket.EventKeepsSockInv | sockets.cpp:250-383 | an event keeps the socket's flags in order, and the peer the drain path dereferences is there |
| StreamSocket.DropBytesFlat | sockets.cpp:259-288 | the queue after n bytes were taken holds exactly the remaining bytes |
| SocketLists.InsertSpells | sockets.cpp:78-83 | the four assignments of insert_local_socket append a socket to one circular list and leave the other as it was |
| SocketLists.RemoveSpells | sockets.cpp:98-107 | remove_socket takes a socket off whichever list it is on, closes the gap, clears its pointers, and does nothing to one on neither |
| SocketLists.OnAListIff | sockets.cpp:100 | the guard of remove_socket holds exactly for a socket on one of the lists |
| SocketLists.RingUnique | sockets.cpp:45-56 | the pointers spell at most one sequence |
| SocketGraph.CloseKeeps | sockets.cpp:186-248 | closing any socket leaves peer symmetry, list membership, unique ids and live closing sockets as they must be |
| SocketGraph.CloseView | sockets.cpp:212-248 | what close does to a stream socket is what StreamSocket.Close says, touching only the socket and its peer |
| SocketGraph.CloseEffect | sockets.cpp:186-248 | a close changes no other record and takes off the main list the socket and its peer, no others |
| SocketGraph.CloseDies | sockets.cpp:232-237 | a socket with no backlog, a write error or on the closing list is freed by close |
| SocketGraph.DrainEmpties | sockets.cpp:299-305 | draining the last byte of a live socket is StreamSocket.Drain with its OKAY |
| SocketGraph.DrainBlocks | sockets.cpp:259-268 | a drain that would block keeps exactly the unwritten bytes |
| SocketGraph.DrainFinishes | sockets.cpp:290-297 | a closing socket that empties its backlog is closed for good |
| SocketGraph.ReadEnds | sockets.cpp:367-372 | a read that meets end of file hands over its data and closes the socket |
| SocketGraph.AttachKeeps | adb.cpp:438-442 | tying a new remote socket to a local one keeps the graph sound |
| SocketGraph.InstallKeeps | sockets.cpp:85-96 | a new local socket gets an unused non-zero id and keeps the graph sound |
| Sockets.SocketLayer.Close | sockets.cpp:212-248 | close in all its kinds, mutually recursive, ends, frees what it frees once and sends the CLSE that is owed |
| Sockets.SocketLayer.LocalSocketClose | sockets.cpp:212-248 | local_socket_close has the effect CloseGraph describes |
| Sockets.SocketLayer.RemoteSocketClose | sockets.cpp:478-488 | remote_socket_close has the effect CloseGraph describes and sends nothing itself |
| Sockets.SocketLayer.LocalSocketRetire | sockets.cpp:229-248 | destroy at once or move to the closing list |
| Sockets.SocketLayer.InsertLocalSocket | sockets.cpp:78-83 | the pointers still form two circular lists, one of them longer by this socket |
| Sockets.SocketLayer.RemoveSocket | sockets.cpp:98-107 | the socket leaves the list it is on, with its id set to 0, and the pointers still form two circular lists |
| Sockets.SocketLayer.LocalSocketDestroy | sockets.cpp:186-210 | the socket leaves both lists and the memory, and is never freed twice |
| Sockets.SocketLayer.FindLocalSocket | sockets.cpp:60-76 | found exactly if the listed socket with the id has the wanted peer id |
| Sockets.SocketLayer.CloseAllSockets | sockets.cpp:109-123 | the restart loop ends with no listed socket bound to the transport and every other socket unchanged |
| Sockets.SocketLayer.LocalSocketEnqueue | sockets.cpp:125-177 | StreamSocket.Enqueue on a stream socket, with the CLSE of a failed write; data behind a backlog is not offered to the fd, any other until it is all out or the fd would block or fails |
| Sockets.SocketLayer.DrainOut | sockets.cpp:259-288 | the nested write loops hand over the queue in order as the answers say, leave the queue DropBytes describes, and fail only on an answer of 0 or an error other than EAGAIN |
| Sockets.SocketLayer.EventDrain | sockets.cpp:257-305 | the FDE_WRITE half is StreamSocket.Drain, on as much as the fd takes before it would block or fails |
| Sockets.SocketLayer.EventRead | sockets.cpp:308-373 | the FDE_READ half is StreamSocket.Read, with its packets, on all there is up to the payload limit |
| Sockets.SocketLayer.LocalSocketEventFunc | sockets.cpp:250-383 | the whole handler is StreamSocket.OnEvent on what the kernel answered: new state, packets sent, nothing else touched; the socket closes exactly if the last answer to a read or a write was 0 or an error other than EAGAIN, and it reads exactly if it has come to its read half, until the limit is reached or the fd would block, has ended or failed |
| Sockets.SocketLayer.ReadIn | sockets.cpp:314-333 | what is read is the positive answers put together, up to the limit, and end of file is an answer of 0 or an error other than EAGAIN |
| Sockets.SocketLayer.WriteOut | sockets.cpp:140-159 | what is written is the positive answers put together, in order, and a failure is an answer of 0 or an error other than EAGAIN |
| Sockets.SocketLayer.GetMaxPayload | sockets.cpp:869-878 | at most the constant and the limit of either transport, and equal to one of them |
| Sockets.SocketLayer.RemoteSocketReady | sockets.cpp:457-464 | OKAY from the peer's id to the remote id on the remote's transport |
| Sockets.SocketLayer.RemoteSocketEnqueue | sockets.cpp:447-455 | WRTE with the data from the peer's id to the remote id |
| Sockets.SocketLayer.RemoteSocketShutdown | sockets.cpp:466-476 | CLSE from the peer's id, or 0, to the remote id |
| AdbPackets.HandleOkay | adb.cpp:433-456 | the first OKAY connects, later ones must match, an unknown socket is answered with CLSE |
| AdbPackets.HandleClse | adb.cpp:458-478 | CLSE closes the matching socket; CLSE(0, id) is believed only from the socket's own transport |
| AdbPackets.HandleWrte | adb.cpp:480-496 | WRTE is StreamSocket.Enqueue on what the kernel answered, acknowledged once the fd has taken it all |
| AdbPackets.OpenNames | sockets.cpp:514-528 | the name the far end takes from an OPEN is the destination exactly if that has no NUL, and its C string in any case |
| AdbPackets.HandleOpen | adb.cpp:417-431 | a new connected service socket with the next id and an OKAY, or CLSE(0, id) |
| AdbPackets.CreateLocalSocket | sockets.cpp:385-400 | a listed socket with an unused id, unless the id counter would wrap to 0 |
| AdbPackets.ConnectToRemote | sockets.cpp:514-531 | OPEN with the destination and its NUL, or an abort if it is too long |
| AdbPackets.Ready | sockets.cpp:533-539 | ready turns reading on, after the OKAY a notifying socket owes its fd |
| AdbPackets.HandlePacket | adb.cpp:417-500 | any packet has the effect Handled describes; ignored while offline, and the process aborts only if an accepted OPEN finds no id left |
| AdbPackets.ListenerConnects | adb_listeners.cpp:93-113 | a new socket bound to the listener's transport and its OPEN, or an abort |
| EndpointRefinement.StepSimulated | adb.cpp:417-496 | an fd event, an arriving packet or a new client changes the represented endpoint by one step of StreamSystem, sending the same packets |
| EndpointRefinement.EventSimulated | sockets.cpp:250-383 | an fd event in the graph is the FdEvent step, for live and closing sockets alike |
| EndpointRefinement.FoundSimulated | adb.cpp:433-496 | a packet that finds its socket does what StreamSystem.HandlePacket does |
| EndpointRefinement.NotFoundSimulated | adb.cpp:449-455 | a packet whose socket is gone, or belongs to another stream, changes nothing and is answered only if it is an OKAY for an unlisted id |
| EndpointRefinement.OpenSimulated | adb.cpp:417-431 | an accepted OPEN is the endpoint's Install with its OKAY |
| EndpointRefinement.ClientSimulated | adb_listeners.cpp:93-113 | a listener's new connection is the Connect step |
| EndpointRefinement.OthersSame | sockets.cpp:78-123 | a step of one stream socket leaves every other one's record, far end and place on the lists alone |
| LayerTheorems.RunRefines | adb.cpp:417-496 | every run of two socket layers over FIFO channels is a run of StreamSystem with the same packets in flight |
| LayerTheorems.RunSeen | adb.cpp:417-496 | the state after any run of two layers, seen from either end, is one to which the theorems that follow apply |
| LayerTheorems.NoOrphan | adb.cpp:417-480 | after any run of two layers, the far socket of a connected one is connected back, or an OKAY or CLSE that settles it is in flight |
| LayerTheorems.QuietMeansInverse | adb.cpp:417-480 | with nothing in flight the two layers' peer relations are inverse and nobody waits |
| LayerTheorems.BytesAndCredit | sockets.cpp:125-177 | bytes taken, backlog and WRTEs in flight make up the bytes given, and while neither end handed over data unasked one go-ahead is about, for the records of two layers |
| LayerOpens.ServiceWasDialled | adb_listeners.cpp:93-113 | every OPEN in flight after any run of two layers was dialled by a listener, with the socket whose id it carries, and names the service that was dialled |
| LayerOpens.ActsOpens | sockets.cpp:514-528 | no step of a layer sends an OPEN but the coming of a client |
| LayerSettling.CascadeEnds | adb.cpp:417-496 | after any run of two layers there is a bound on how long packets and drains can go on with nothing new coming in |
| LayerSettling.CanSettle | adb.cpp:417-496 | from any state of two layers, taking the packets in flight and their answers leads to empty channels |
| LayerSettling.CanTake | adb.cpp:417-496 | in every sound graph handle_packet has an outcome for every packet |
| LocalPairs.PairEventFunc | sockets.cpp:250-373 | with a local peer the handler touches only live records if and only if it does not hand data to a peer without backlog whose fd fails while it has no backlog itself; the graph is sound either way |
| LocalPairs.HandToPeer | sockets.cpp:339-364 | data read goes to the peer's enqueue: what the peer wrote and queued grows by just it, and the socket reads on only if the peer took it all |
| LocalPairs.PairRead | sockets.cpp:308-373 | the same for the read half; what the peer wrote and queued grows by just what was read, and the socket goes on reading only if the peer took all of it |
| LocalPairs.PairDrain | sockets.cpp:257-305 | the handler goes on exactly when the whole backlog is out, and then the local peer reads again |
| LocalPairs.PeerOutlives | sockets.cpp:212-248 | a socket whose peer closes is freed with it, or kept on the closing list with its backlog |
| LocalPairs.HandOverKills | sockets.cpp:148-153 | a sound pair with nothing queued and one byte to hand over to an fd that refuses it: the reader's record is freed |
| LocalPairs.ConnectToSmartSocket | sockets.cpp:861-867 | a new socket is tied to a new smart socket and reads |
| LocalPairs.JoinService | sockets.cpp:768-782 | a client is told OKAY and made the peer of the service's socket, which reads, the smart socket is freed, no other record changes, and the graph stays sound |
| LocalPairs.ServeHost | sockets.cpp:768-782 | from any sound layer a client that asks for a host service ends up in a pair |
| ClientDial.DialForClient | sockets.cpp:801-818 | the client's socket is cut loose with the notify functions and sends an OPEN for the service, the smart socket is freed; aborts exactly if the name is too long |
| ClientDial.OneWord | sockets.cpp:533-550 | however ready and close are called, the client is told once: OKAY if ready came first, FAIL if close did |
| ClientDial.ClosedSaysFail | sockets.cpp:542-550 | a socket closed before it is connected says FAIL |
| PayloadAgreement.LimitsAgree | adb.cpp:239-258 | over every run, for any two limits, an online end holds the smaller one, the device is offline until it has answered, and nothing is refused but OPENs, and they only at a limit of 0 |
| PayloadAgreement.RefusedIff | transport.cpp:1061-1065 | some run has a packet of the socket layer refused if and only if one of the limits is 0 |
| PayloadAgreement.ComeOnline | adb.cpp:239-258 | from any state of the link a CNXN that is taken and answered brings both ends online with the smaller limit |
| LayerLimits.NothingRefused | transport.cpp:1061-1065 | in any run of two socket layers together with the CNXN exchange, for any two limits but 0, no packet the layers send is refused |
| LayerLimits.JointRefines | adb.cpp:239-258 | on the link such a run is a run of the exchange: what the layers send by their transport's limit is never held back |
| PayloadAgreement.LayerSends | sockets.cpp:310-338 | whatever an fd event, an arriving packet or a new client makes the socket layer send is allowed by its transport's limit, and fits it unless it is 0 |
| PayloadAgreement.EventsPermitted | sockets.cpp:310-338 | no event makes a stream socket send a WRTE above its transport's limit |
| Fdevent.EventLoop.FdeventInstall | fdevent.cpp:142-159 | active, no interest, sole owner of its fd in the map, marked if fdevent_create made it; aborts exactly on a negative or taken fd |
| Fdevent.EventLoop.FdeventRemove | fdevent.cpp:161-176 | inactive, out of the map and the pending list, its fd given up unless it is not to be closed, no other record changed |
| Fdevent.EventLoop.FdeventDestroy | fdevent.cpp:132-140 | the same and freed; aborts exactly if it was not made by fdevent_create |
| Fdevent.EventLoop.FdeventSet | fdevent.cpp:178-214 | interest and poll bits are the wanted ones, a bit dropped from interest is dropped from pending events, and an fde left with none leaves the list |
| Fdevent.EventLoop.FdeventAdd | fdevent.cpp:216-219 | interest grows by the given bits |
| Fdevent.EventLoop.FdeventDel | fdevent.cpp:221-224 | interest loses the given bits |
| Fdevent.EventLoop.FdeventProcess | fdevent.cpp:241-285 | each active fde is pending for FDE_READ exactly if poll reported POLLIN or trouble for its fd, for FDE_WRITE if POLLOUT, for FDE_ERROR if trouble |
| Fdevent.EventLoop.FdeventCallFdfunc | fdevent.cpp:287-294 | the CHECK on FDE_PENDING cannot fire, and any callback keeps the three views consistent |
| Fdevent.EventLoop.SubprocEvent | fdevent.cpp:300-345 | a shell's fd with nothing left gets FDE_READ: its fde is called at once unless it is pending already; one with data left is only marked, an unknown one ignored; the views agree throughout |
| Fdevent.EventLoop.RunCallback | fdevent.cpp:142-224 | any list of calls a callback makes keeps them consistent and loses no pending fde unrecorded |
| Fdevent.EventLoop.DrainPending | fdevent.cpp:429-433 | the loop ends; everything that was pending has been called, removed or set to want nothing |
| Fdevent.EventLoop.FdeventRound | fdevent.cpp:419-433 | whatever poll reports for an fd is heard before the next poll: the fde that owned it is called, removed, or re-armed without the event |
| Fdevent.EventLoop.FdeventLoop | fdevent.cpp:413-435 | for any number of rounds, whatever the kernel says, nothing poll reports goes unheard, the views agree, and no callback ran without events, for an fde that no longer owned its fd, or with FDE_WRITE where that was not wanted |
| Fdevent.RearmKeepsMap | fdevent.cpp:178-194 | re-arming keeps map entries one to one with active fdes and their POLLIN and POLLOUT bits equal to the interest |
| Fdevent.RearmKeepsList | fdevent.cpp:208-213 | re-arming keeps FDE_PENDING equal to being in the list with some event |
| RunQueue.NoLostWakeUp | fdevent.cpp:362-411 | in every interleaving a non-empty queue means set-up unfinished, an unread byte, or the main thread between read and flush |
| RunQueue.OnceInOrder | fdevent.cpp:362-411 | each closure runs once, in submission order, over any stretch of any run |
| RunQueue.SubmittedInOrder | fdevent.cpp:400-411 | the submission history is the submitters' closures in the order of their critical sections |
| RunQueue.WaitingGetsRun | fdevent.cpp:369-398 | while a closure waits the main thread can move, and after at most two moves all that waited has run |
| RunQueue.Queue.RunOnMainThread | fdevent.cpp:400-411 | one critical section of a submitter |
| RunQueue.Queue.RunSetup | fdevent.cpp:384-398 | set-up flushes what was queued before it |
| RunQueue.Queue.EmptyNotifyFd | fdevent.cpp:369-377 | up to 1024 bytes are read away |
| RunQueue.Queue.RunFunc | fdevent.cpp:379-381 | the flush runs everything queued, in order |
| TransportLife.ClosedOnce | transport.cpp:603-616 | close and removal happen at most once, in that order, after both threads let go |
| TransportLife.ClosedAtLast | transport.cpp:603-616 | once both threads are out the transport is closed, and removed or about to be |
| TransportLife.NoUseAfterFree | transport.cpp:300-307 | no thread's step and no kick touches a transport that has been removed |
| TransportLife.UnrefHasReference | transport.cpp:603-607 | the CHECK on the reference count cannot fire |
| TransportLife.WritesBetweenSyncs | transport.cpp:249-298 | whatever the remote sends, a packet reaches it only after a SYNC with the reader's token and before any SYNC-offline |
| TransportLife.WrittenExactly | transport.cpp:252-297 | while the writer pumps, just those packets it read that are no SYNC and follow a SYNC with the reader's token are on the remote, each once and in order |
| TransportLife.WriterLeavesIff | transport.cpp:258-295 | in any run the writer leaves its loop exactly if it cannot read, reads SYNC-offline, or fails to write a packet that it may pass on |
| TransportLife.PostedExactly | transport.cpp:184-245 | in any run the reader posts SYNC-online with its token, what it gets from the remote, in order, and SYNC-offline once the remote fails; after a failed write nothing more |
| TransportLife.KickedIff | transport.cpp:300-307 | the device is disconnected if and only if some kick came while the transport was listed |
| TransportLife.KickLost | transport.cpp:544-557 | a thread that leaves before its transport is listed kicks to no effect |
| TransportLife.SyncsArriveInOrder | adb.cpp:369-380 | the SYNCs the writer thread sees are those the reader thread posted, in order, its own first |
| TransportLife.RunInv | transport.cpp:184-307 | the life-cycle invariant holds in every interleaving |
| AdbListeners.Registry.InstallListener | adb_listeners.cpp:178-240 | which status in which case; what was bound or rebound, and that nothing else changed |
| AdbListeners.PortNameReads | adb_listeners.cpp:214-217 | the name on a resolved port is tcp: and the port in plain decimal, and no other port has it |
| AdbListeners.Registry.Rebind | adb_listeners.cpp:184-204 | a rebind moves the record between the two transports' disconnect lists |
| AdbListeners.Registry.RemoveListener | adb_listeners.cpp:145-155 | the listener of that name goes, with its disconnect record, and no other |
| AdbListeners.Registry.RemoveAllListeners | adb_listeners.cpp:157-168 | exactly the special listeners stay, in order |
| AdbListeners.Registry.ListenerDisconnect | adb_listeners.cpp:116-125 | the listener goes without its destructor touching a disconnect list |
| AdbListeners.Registry.RunDisconnects | transport.cpp:847-852 | all of the transport's listeners go, all others stay in order, and the list walked is unchanged until cleared |
| AdbListeners.Registry.EraseEntry | adb_listeners.cpp:60-67 | erasing an entry runs the destructor, which takes its record off its transport's list |
| AdbListeners.DropKeeps | adb_listeners.cpp:60-67 | after a listener is destroyed list and disconnect records still agree |
| AdbListeners.RebindKeeps | adb_listeners.cpp:197-202 | after a rebind they agree |
| AdbIo.ReadFdExactly | adb_io.cpp:70-95 | the next len bytes, or failure; without an error it fails exactly if the stream is too short |
| AdbIo.WriteFdExactly | adb_io.cpp:97-124 | all of the buffer is written, or a proper prefix and an error, under any pattern of short writes and EAGAIN |
| PacketFraming.SumBound | adb.cpp:107-117 | the byte sum of any payload is at most 255 per byte and fits in 32 bits |
| PacketFraming.MagicFlips | transport.cpp:156-169 | the magic differs from the command in each of its 32 bits |
| PacketFraming.CalculateApacketChecksum | adb.cpp:107-117 | the 32-bit loop computes the true sum for every legal payload |
| PacketFraming.DecodeEncode | transport.cpp:1054-1072 | magic and checksum of what is sent are always accepted; it is refused exactly if it exceeds the receiver's limit |
| PacketFraming.EncodeDecode | transport_local.cpp:63-86 | conversely whatever is accepted is what some sender would have written |
| PacketFraming.AllArrive | transport_local.cpp:63-98 | any sequence of packets arrives as sent |
| PacketFraming.RemoteWrite | transport_local.cpp:88-98 | send_packet and remote_write emit the encoding |
| PacketFraming.RemoteRead | transport_local.cpp:63-86 | remote_read accepts exactly what Decode accepts and consumes exactly the packet |
| ProtocolStrings.RoundTripIff | adb_io.cpp:32-60 | a string can be read back, whatever follows it, exactly if it has at most 0xffff bytes and no NUL |
| ProtocolStrings.FiveDigitsLost | adb_io.cpp:32-42 | a string of 0x10000 bytes does not come back |
| ProtocolStrings.NulLost | adb_io.cpp:32-42 | a string that ends in a NUL does not come back |
| ProtocolStrings.SendProtocolString | adb_io.cpp:32-42 | length digits and string are written, longer strings refused |
| ProtocolStrings.ReadProtocolString | adb_io.cpp:44-60 | the next string of the stream, found exactly if it is there |
| ProtocolStrings.EitherCase | sockets.cpp:563-580 | a hex digit is read in either case, and nothing else is one |
| SmartSocket.Unhex | sockets.cpp:552-593 | the value of the digits in 32 bits, or all ones if there is a non-digit |
| SmartSocket.FeedIsDecide | sockets.cpp:666-703 | however a request is cut into packets the verdict is that of the concatenated bytes |
| SmartSocket.CutDoesNotMatter | sockets.cpp:666-703 | two ways of cutting the same bytes give the same verdict |
| SmartSocket.RequestParses | sockets.cpp:686-703 | the parse inverts SendProtocolString for every length from 1 to 0xffff and fails for 0 |
| SmartSocket.DecideIs | sockets.cpp:680-703 | four bytes that are no number, or are 0, fail at once; otherwise the socket waits for as many bytes as they say and not longer |
| SmartSession.SessionIff | sockets.cpp:656-839 | for any packets and any host, a conversation comes to what its bytes say (the same services, the same end, the same bytes left over) if and only if the cut is clean |
| SmartSession.PipelineIff | sockets.cpp:656-839 | within the payload limit that is if and only if each request that is followed by anything ends where some packet ends |
| SmartSession.PipelinedRequestLost | sockets.cpp:744-748 | two requests in one packet: the second is dropped; in two packets: both are served |
| SmartSession.SameServicesByteLost | sockets.cpp:744-748 | a lost byte need not show in the services, only in what is left over |
| SmartSession.RunAccounts | sockets.cpp:656-839 | no conversation accounts for more bytes than were sent |
| SmartSession.Smart.Enqueue | sockets.cpp:656-839 | one call of smart_socket_enqueue, with the host's answer, is one step of a conversation |
| ShellProtocols.PieceCount | shell_service_protocol.cpp:32-54 | a packet of n bytes arrives as max(1, ceil(n/cap)) pieces of at most cap bytes with its id |
| ShellProtocols.PacketArrives | shell_service_protocol.cpp:32-54 | the pieces of a packet, and the reader left at the next header |
| ShellProtocols.StreamsSurvive | commandline.cpp:273-291 | every stream of a sequence of packets comes out whole and in order for any buffer size |
| ShellProtocols.ExitArrives | commandline.cpp:286-288 | the exit code sent after all output is the one reported |
| ShellProtocols.ShellProtocol.Read | shell_service_protocol.cpp:32-54 | one call delivers the next piece of the stream, and fails exactly if it is not there |
| ShellProtocols.ShellProtocol.Write | shell_service_protocol.cpp:56-62 | header and payload are written |
| ShellProtocols.ReadAndDump | commandline.cpp:254-305 | the callbacks get the two output streams of what arrived, and the exit code is the last one sent |
| ShellService.OutputArrives | shell_service.cpp:622-641 | what the far side makes of the pump's output is what the child wrote, stream by stream |
| ShellService.StdinIsPrefix | shell_service.cpp:553-620 | stdin has been given a prefix of the payloads sent for it |
| ShellService.Subprocess.PassOutput | shell_service.cpp:622-641 | what was read goes out in one packet with its stream's id; the descriptor is dead exactly at its end or on a lasting error, not when it is only not ready |
| ShellService.Subprocess.TakePacket | shell_service.cpp:553-600 | the next packet, or the end of the protocol descriptor exactly if there is none; a stdin packet is kept whole to be written, only kIdCloseStdin of a raw process shuts stdin |
| ShellService.Subprocess.PushInput | shell_service.cpp:602-619 | stdin takes the next bytes of the packet under any partial write, EAGAIN or error |
| ShellService.Subprocess.PassInput | shell_service.cpp:553-620 | the two together keep stdin a prefix of what was sent |
| ShellService.Subprocess.SelectInput | shell_service.cpp:529-547 | while both descriptors are open: bytes are left over exactly if the protocol descriptor is not read, exactly if stdin is waited for |
| ShellService.Subprocess.SelectLoop | shell_service.cpp:498-551 | the same over any rounds of select; each that reports something does some of the work left, so uninterrupted it ends, and a descriptor dies only at its end or of an error |
| ShellService.Subprocess.Bury | shell_service.cpp:466-487 | the dead descriptor is closed, and all three if it is the protocol's |
| ShellService.Subprocess.PassDataStreams | shell_service.cpp:448-489 | the same over the life of the pump: it ends unless interrupted, and while the protocol descriptor is there and nothing failed both outputs have been read to their ends and sent |
| SyncSpec.SpecRoundTrip | file_sync_client.cpp:677-679 | path and mode come back from the printed pair whatever commas the path holds, for every 32-bit mode |
| SyncSpec.SplitIs | file_sync_service.cpp:363-379 | any argument is split at its last comma, and refused without one or if the mode is out of range |
| SyncSpec.BasesRead | file_sync_service.cpp:374 | the mode may be octal, hexadecimal or decimal |
| SyncSpec.ModeParses | file_sync_service.cpp:373-378 | strtoul gives back every mode as "%d" prints it, negative ones included |
| FileSync.PushRoundTrip | file_sync_service.cpp:201-276 | for every file and every chunking the server stores exactly the content and time, under the path and mode sent, and stands at the next request |
| FileSync.PushServed | file_sync_service.cpp:363-405 | the command for a push: for a regular file's mode the file grows by just the content and the server is at the next request, for a link's mode it is handed on with nothing read |
| FileSync.IdsSpell | file_sync_service.h:23-36 | each id is its four letters on the wire |
| FileSync.StoreRoundTrip | file_sync_service.cpp:235-262 | chunks of up to SYNC_DATA_MAX bytes are stored in order |
| FileSync.SmallFileStored | file_sync_client.cpp:374-416 | a file sent in one message is stored exactly if it fits the server's buffer |
| FileSync.GrownFileRefused | file_sync_client.cpp:374-416 | a small file that is one byte over the server's buffer when read is refused |
| FileSync.PullRoundTrip | file_sync_service.cpp:407-438 | what do_recv sends for a file, sync_recv stores |
| FileSync.RequestRoundTrip | file_sync_client.cpp:281-299 | the server reads back id and argument of a request |
| FileSync.SendRequest | file_sync_client.cpp:281-299 | a request is written unless its path is too long |
| FileSync.SendSmallFile | file_sync_client.cpp:374-416 | request, data and footer in one write |
| FileSync.SendLargeFile | file_sync_client.cpp:418-476 | the file's bytes go out in order, all of them unless the server answers early |
| FileSync.CopyDone | file_sync_client.cpp:478-510 | OKAY is success, FAIL carries the reason that came with it, anything else fails without one |
| FileSync.SyncRecv | file_sync_client.cpp:733-792 | without errors it succeeds exactly if the stream holds a whole file, which it stores |
| FileSync.HandleSendFile | file_sync_service.cpp:201-310 | without errors it succeeds exactly if the stream holds a whole file, which it stores before it says OKAY; otherwise it says FAIL once, and nothing if the stream was cut off |
| FileSync.SwallowData | file_sync_service.cpp:285-305 | after a failure DATA is thrown away until something else comes |
| FileSync.DoSend | file_sync_service.cpp:363-405 | the file is stored for the path and mode the argument names; a link, and only a link, is handed on; the client is told OKAY or FAIL, or nothing if the stream was cut off |
| FileSync.DoRecv | file_sync_service.cpp:407-438 | the file goes out whole in messages of at most SYNC_DATA_MAX bytes, then DONE; otherwise part of it, then FAIL |
| FileSync.HandleSyncCommand | file_sync_service.cpp:461-512 | each successful transfer is the one asked for and leaves the server at the next request; an unknown command, a path too long and a failed transfer are answered with FAIL |
| Utf8Console.LengthIsTable | sysdeps_win32.cpp:2279-2281 | the shift-table length equals the lead-byte table on every byte |
| Utf8Console.CutOnBoundary | sysdeps_win32.cpp:2288-2324 | on a prefix of valid UTF-8 the cut falls behind the last whole character |
| Utf8Console.NothingLost | sysdeps_win32.cpp:2345-2363 | over any writes flushed and held bytes are the input so far, and at most 3 are held |
| Utf8Console.FlushesOnBoundaries | sysdeps_win32.cpp:2345-2363 | if the input is a prefix of valid UTF-8 every flush ends on a character boundary |
| Utf8Console.ParseCompleteUtf8 | sysdeps_win32.cpp:2288-2324 | the backward loop computes the cut |
| Utf8Console.ConsoleBuffer.WriteUtf8 | sysdeps_win32.cpp:2345-2363 | the static buffer follows the specification |

## Left out

- Sockets.SocketLayer.LocalSocketEventFunc: for sockets joined to a remote socket or to none; `LocalPairs.PairEventFunc` has those joined to a local one, `SmartSession` what a smart socket does with a packet. force_eof, which only matters when an fd has nothing left, is not modelled.
- Sockets.SocketLayer.LocalSocketDestroy: addresses are numbers in an explicit memory, and the prev and next fields of all records are kept in one map beside it; fdevent_remove is in Fdevent, exit_on_close is not modelled.
- PayloadAgreement.RefusedIff: OPEN and WRTE are sent only while the end is online; what a listener dials on a transport that has gone offline is not followed.
- EndpointRefinement.StepSimulated: for layers all of whose sockets are ends of streams on one transport; pairs of two local sockets and smart sockets on their way to one are outside it.
- AdbPackets.HandlePacket: SYNC and CNXN are TransportLife and PayloadAgreement; AUTH is not modelled.
- AdbPackets.HandleOpen: whether the named service could be started is a parameter; service names are not interpreted.
- AdbPackets.Ready: the status words a notifying socket writes to its fd are recorded as flags, not as bytes.
- SmartSession.Smart.Enqueue: handle_host_request and whether a service, a transport or a device is there are an oracle on the services asked for so far; serial parsing (skip_host_serial) and the status words sent to the client are not modelled.
- Fdevent.EventLoop.FdeventLoop: runs for a given number of rounds; a CHECK that aborts the process ends it.
- RunQueue.Queue.RunFunc: a closure that submits another while the queue is flushed would deadlock on the mutex; none does here. A notify socket too full to take a byte is not modelled.
- TransportLife.RunInv: the three threads are modelled as one state machine over their steps, not as methods; a step is what a thread does under a lock or by one read or write.
- TransportLife.NoUseAfterFree: who in the main thread sends on a transport is not modelled beyond its being listed.
- AdbListeners.Registry.InstallListener: sockets and the listener's fdevent are not modelled; that port 0 never resolves to a port a listener holds is a precondition, as is that only special listeners have no transport.
- AdbIo.WriteFdExactly: EAGAIN comes a finite number of times.
- ShellService.Subprocess.SelectLoop: runs for a given number of rounds; process exit, signals and window size are not modelled.
- ShellProtocols.ReadAndDump: only with the shell protocol; the exit code is a byte, not a signed char.
- FileSync.SwallowData: on a descriptor that is at its end the original reads again for ever; the model reports that it is stuck.
- FileSync.DoSend: symbolic links, permission bits, owners, labels and capabilities are not modelled; whether files could be opened is a parameter.
- FileSync.HandleSyncCommand: list and stat requests are handed on.
- Authentication, the banner and its features, USB back-ends, mDNS, jdwp sockets, device trackers and the other services.
- The function close_smartsockets compares local_name where the marker is in connect_to, so it promises nothing.
