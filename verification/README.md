# A model of the network testbed's transfer engine

The testbed measures transport protocols. A client splits a buffer into one slice per connection and pushes each slice
through a chunking loop. A server sums what its per-connection workers receive until the end of each stream, shuts
itself down when an active-connection counter returns to zero, and publishes statistics that a monitor samples. Over UDP
the end of a transfer is agreed by a small handshake. Over uTP everything is driven by callbacks.

This project models that engine in Dafny and proves what it keeps in every run. `dafny verify dfyconfig.toml` checks it.

| file | what it is about |
|---|---|
| `Sums.dfy`, `Paths.dfy` | sums of counters that only grow; where a transition relation leads |
| `Slices.dfy` | cutting the buffer into slices |
| `ChunkedSend.dfy` | the chunking loops over partial sends |
| `SessionLists.dfy` | the heap list of sessions and its statistics chain |
| `MultiTransfer.dfy`, `MultiTransferInvariant.dfy`, `MultiTransferResults.dfy` | clients, byte channels, accept loop, workers and counter, in every interleaving |
| `MultiTransferThreads.dfy` | the order in which each thread takes its steps, and what tells the server's status and an untroubled transfer |
| `MultiTransferProgress.dfy`, `MultiTransferOutcomes.dfy` | a schedule that finishes every transfer that can be finished, and how transfers can end, exactly |
| `StatsPipeline.dfy`, `StatsResults.dfy`, `StatsProgress.dfy` | the scan of the counters, the monitor, and the hand-off to an outside reader, in every interleaving |
| `EndToEnd.dfy` | the transfer and its statistics side by side: what the final read reports |
| `Averages.dfy` | the averages over the connected sessions |
| `UdpHandshake.dfy` | the end-of-transfer handshake over a network that loses, duplicates and reorders |
| `UdpDemux.dfy` | the UDP demultiplexer |
| `Utp.dfy` | the uTP adapter |
| `Statuses.dfy`, `StreamServer.dfy` | the single-connection stream server and the life cycle of its status and command words |
| `LifeCycles.dfy` | the status words of the other endpoints |

## Assumptions

- The sections guarded by `pthread_mutex_trylock` are atomic, as `src/tb_session.h:162-182` and `src/tb_listener.h:306-341`
  promise. The code ignores the result of the call and so does not enforce it. The workers' additions to
  `total_bytes` are not guarded and are separate steps, and so are the two reads of it in a scan.
- Calls into the kernel and into the UDT and uTP libraries are steps or scripts of replies, limited only by what
  their return values can be. A stream connection is a lossless FIFO channel (section 2.2 of RFC 9293), a datagram
  may be lost, duplicated or reordered (RFC 768). Over UDT the end of a stream and a lost connection are the same error.
- UDP: a send fails only because the peer refused an earlier datagram or because it would block.
- uTP: the library asks for bytes only inside `UTP_Write`, and there for no more than it was offered. The clock is monotone.
- A connect that failed left the server nothing to accept.
- Packet and buffer sizes are positive, and the bytes of one transfer fit a C `int`, as `file_size` does. Where an `int` can
  overflow within these bounds (the rate `byte_sec`), the model wraps it.
- The reader of the statistics is the only one, and its wait has no spurious wakeups.

## Where the code does less than it says

- The server can leave early. The counter also returns to zero when the first workers finish before the last connection
  is accepted. For every number of connections up to all of them there is a run without errors in which the server
  leaves with exactly so many slices, and the monitor reports exactly so many (`LeavesWith`, `ReportsOf`). After a decrement
  to zero every continuation is complete if and only if all connections had been counted (`CompleteIffAllCounted`,
  `FinalReportIff`).
- A worker that fails skips its decrement. In every configuration one failing recv can leave the server running for ever
  (`OneFailureHangs`). `LeavesIff` says exactly when the server can still leave.
- The statistics are printed after the average is updated but before the peak is, so a printed average can exceed the
  printed peak: it does at every first sample with bytes whose rate fits an `int` (`AverageAbovePeak`). `PrintedPeakLags` gives
  the exact condition. The rate is wrong once ten times the growth exceeds an `int` (`RateIsExactIffItFits`).
- A refused send is meant to say that the server has closed and its ack was lost (`src/tb_udp.h:15-19`). A server that was
  not bound yet causes it as well (`RefusalBeforeBind`).
- The UDP server of several connections recognises the empty end mark only as the first datagram of a drain
  (`EmptyEndsDrainOnlyIfFirst`), and never counts more than the eight header bytes of a message (`OnlyHeadersAreCounted`).
- A UDP server whose buffer is smaller than the client's datagrams drops the rest of each of them (`NothingCutIff`).
- A `recv` that would block, which DCCP tolerates, lowers the single-connection server's count by one (`CountIsRightIffNoAgain`).
- A `tb_utp_recv` that times out reports none of the bytes it has just read (`Utp.Adapter.Recv`).
- With an end-of-transfer command other than the default, the end of a connection overwrites an interrupt (`LostInterrupt`;
  `CommandStaysIff` gives the exact condition).
- The close loop of a uTP client waits for the library alone, because its timer never runs (`Utp.Close`).
- A buffer whose size is not a multiple of the number of connections is not sent completely (`WholeFileIffDivisible`).

## Model

| member | source | states |
|---|---|---|
| Slices.SliceInBounds | src/tb_stream.c:277-281 | the slices lie end to end inside the buffer and stop at the remainder of the division |
| Slices.JoinedIsPrefix | src/tb_stream.c:277-281 | the first k slices put together are a prefix of the buffer |
| Slices.SlicesDisjoint | src/tb_udt.c:372-374 | no byte position belongs to two connections |
| Slices.SlicesCover | src/tb_stream.c:277-281 | a position belongs to some connection if and only if it lies before file_size - file_size % num_conn |
| Slices.WholeFileIffDivisible | src/tb_utp.c:402-404 | the connections carry the whole file if and only if their number divides its size |
| Slices.KilobyteSizesAreCovered | src/tb_testbed.c:162-163 | sizes given in KB are carried completely by 4 and by 2 connections |
| ChunkedSend.Socket.Send | src/tb_listener.c:670-692 | send fails or takes a prefix of what it was offered |
| ChunkedSend.SendData | src/tb_listener.c:670-692 | an error aborts unless it is a tolerated EAGAIN, which sends nothing |
| ChunkedSend.SendSlice | src/tb_stream.c:362-384 | for every sequence of partial results the wire holds exactly the slice cut at the smaller of its length and the room offered; success if and only if that is the whole slice; failure if and only if the last reply is fatal; no reply used beyond the one that completes the slice |
| ChunkedSend.CapacityBounds | src/tb_stream.c:411-427 | replies that each take a byte are at most one per byte; no reply takes more than a packet |
| SessionLists.Session.constructor | src/tb_session.c:107-142 | a new session is unlinked, unconnected and has moved no bytes |
| SessionLists.SessionList.constructor | src/tb_listener.c:144-153 | a new list is empty and its next id is 0 |
| SessionLists.SessionList.AddTo | src/tb_session.c:31-51 | the session becomes the last of an acyclic list; the statistics chain gets its block in step |
| SessionLists.SessionList.Add | src/tb_session.c:24-29 | as AddTo, with the next id; ids stay 0..n-1 when only this call adds |
| SessionLists.SessionList.Increment | src/tb_session.c:53-61 | adds one to the active counter and returns it |
| SessionLists.SessionList.Decrement | src/tb_session.c:63-71 | takes one from the active counter and returns it |
| SessionLists.SessionList.Search | src/tb_session.c:73-84 | the first session with the id, or null if and only if there is none |
| SessionLists.ChainsInStep | src/tb_session.c:31-51 | k links from the start lead to the k-th session and its block, and after num_sessions of them to null, on both chains |
| SessionLists.OpenSession | src/tb_stream.c:272-307 | one session with one slice joins the list |
| SessionLists.OpenSessions | src/tb_stream.c:250-307 | one session per connection, numbered 0..num_conn-1, each with its own slice |
| MultiTransferInvariant.StepOk | src/tb_stream.c:104-240 | every step of every thread keeps the invariant of channels, sessions, counter and command |
| MultiTransferInvariant.InvariantHolds | src/tb_stream.c:104-240 | that invariant holds after every run |
| MultiTransferResults.Conservation | src/tb_stream.c:196-215 | received plus in flight is the prefix sent so far, byte for byte; the total is what was received less the reply not yet added |
| MultiTransferResults.TotalsGrow | src/tb_stream.c:213-213 | no step lowers a session total or removes a session |
| MultiTransferResults.CounterHistory | src/tb_session.c:53-71 | the counter is increments less decrements and never negative |
| MultiTransferResults.ZeroMeansAllDisconnected | src/tb_stream.c:222-233 | at a decrement that returns zero every session counted so far is disconnected |
| MultiTransferResults.FailedWorkerPinsCounter | src/tb_stream.c:200-211 | after a worker's error return the counter never reaches zero again |
| MultiTransferResults.FailureHangsServer | src/tb_udt.c:250-279 | after it, unless the exit was already due, no schedule brings the server out of its loop |
| MultiTransferProgress.RunIsSteady | src/tb_stream.c:222-233 | after every run: one session per accepted connection, and a counter back at zero has a worker who saw zero and, once finished, has sent the exit command |
| MultiTransferProgress.NobodyStuck | src/tb_stream.c:113-129 | when all clients, accepts and workers have come to rest without a failure, the exit command has been sent |
| MultiTransferProgress.FinishFirst | src/tb_stream.c:104-240 | from every state from which the server can leave, a schedule of steps without any error takes it out of its loop; over TCP, from an untroubled state before any zero, with exactly the wanted slices whole |
| MultiTransferProgress.LeaveNow | src/tb_stream.c:113-129 | once the exit is due the server can leave without counting another byte |
| MultiTransferOutcomes.LeavesIff | src/tb_stream.c:113-129 | after every run, some continuation takes the server out of its loop if and only if the exit is due, or no worker has failed and there is a session or a connection that can become one |
| MultiTransferOutcomes.CanComplete | src/tb_stream.c:244-396 | after every untroubled run in which the exit is not due, the transfer can still be completed, over TCP, with every slice delivered |
| MultiTransferOutcomes.OneFailureHangs | src/tb_stream.c:200-211 | in every configuration there is a run with one failing recv after which no continuation brings the server out |
| MultiTransferResults.LifeCycle | src/tb_stream.c:104-181 | over every run of the whole transfer the multi-connection server's status only climbs from listening to disconnected, its command word never leaves exit, and it never returns to its loop |
| MultiTransferThreads.ProgramOrder | src/tb_stream.c:104-240 | under every interleaving the client threads, the server's main thread and every worker take their steps in the order of their functions |
| MultiTransferThreads.WorkersWhere | src/tb_stream.c:196-233 | where a worker is, is told by its latest step |
| MultiTransferThreads.StatusMeans | src/tb_stream.c:108-125 | the server is disconnected if it has left its loop, otherwise connected if a session has been announced, and otherwise listening |
| MultiTransferThreads.UntroubledIff | src/tb_stream.c:343-396 | a transfer is untroubled exactly as long as no connect, no send and no recv has failed |
| MultiTransferResults.DrainedWorker | src/tb_stream.c:196-220 | over TCP, a worker that saw the end of an untroubled stream holds its whole slice |
| MultiTransferResults.IncrementsAreCounted | src/tb_stream.c:160-171 | every accepted session is counted, at most the newest not yet |
| MultiTransferResults.TotalAtZero | src/tb_stream.c:222-233 | when the counter is zero the totals are one slice per increment, so the transfer is complete if and only if every connection had been counted |
| MultiTransferResults.SessionsBounded | src/tb_stream.c:131-190 | there are never more sessions than connections |
| MultiTransferResults.DeliveredAtZero | src/tb_stream.c:222-233 | with every connection counted, zero means that every slice has been received in full |
| MultiTransferResults.DeliveryComplete | src/tb_stream.c:104-240 | and so it stays in every continuation |
| MultiTransferResults.ZeroHappened | src/tb_stream.c:230-233 | a worker that found zero made the decrement that brought the counter there |
| MultiTransferResults.LeavingServer | src/tb_stream.c:113-129 | a server that left its loop had a decrement to zero, and if all connections were counted by then it holds every slice |
| MultiTransferResults.FileDelivered | src/tb_stream.c:244-396 | end to end: the totals sum to file_size - file_size % num_conn and every session holds its slice of the file |
| MultiTransferOutcomes.LeavesWith | src/tb_stream.c:222-233 | over TCP, in every configuration and for every number of connections up to all, there is a run without errors after which the server has left with exactly so many whole slices |
| MultiTransferOutcomes.TotalsBounded | src/tb_stream.c:196-215 | the server never counts more than the clients were given to send |
| MultiTransferOutcomes.CompleteIffAllCounted | src/tb_stream.c:222-233 | after an untroubled decrement to zero over TCP, every later departure of the server is complete if and only if all connections had been counted by then (or slices are empty) |
| StatsPipeline.AccountExact | src/tb_testbed.c:354-375 | within the int range an iteration is exact, and the peak bounds every rate that fits |
| StatsPipeline.ScanStepOk | src/tb_listener.c:441-493 | what the scan has summed lies between the totals at its start and those now, at every access |
| StatsPipeline.InvariantHolds | src/tb_listener.c:441-516 | scan, publication, monitor and reader keep their invariants in every run |
| StatsResults.ScanStart | src/tb_listener.c:441-447 | the values a scan started from are those of an earlier moment of the same run, with no other scan between |
| StatsResults.ScanBound | src/tb_listener.c:441-493 | both sums of a finished scan lie between the sum of totals at its start and at its end, and current_read is the smaller |
| StatsResults.PublicationBound | src/tb_listener.c:463-515 | what is published is the scan's current_read, between the sum of totals at its start and at the publication |
| StatsResults.SamplesAreConnected | src/tb_testbed.c:342-360 | the samples accounted are exactly the finished iterations that found the endpoint connected, each once |
| StatsResults.SampleBegan | src/tb_testbed.c:342-375 | what is about to be accounted goes back to the moment when the endpoint was found connected, with no other look between |
| StatsResults.NeverConnected | src/tb_testbed.c:378-399 | an endpoint that is never connected leaves the monitor as it started |
| StatsResults.SamplesTelescope | src/tb_testbed.c:354-357 | the accounted samples, which SamplesAreConnected says are those of connected iterations, never decrease, no raw byte_sec is negative, total_bytes is the latest sample |
| StatsResults.AverageBelowPeak | src/tb_testbed.c:359-375 | the average left by an iteration never exceeds the peak, as long as no rate overflowed |
| StatsResults.RateIsExactIffItFits | src/tb_testbed.c:354-362 | the rate is ten times the growth if and only if that fits an int |
| StatsResults.PrintedPeakLags | src/tb_testbed.c:366-375 | when the printed average is within the printed peak: if and only if the new total is within old peak times samples; always without a new peak, never at a first sample with bytes |
| StatsProgress.AverageAbovePeak | src/tb_testbed.c:366-375 | for every first sample of n > 0 bytes whose rate fits an int there is a run that prints an average above the peak |
| StatsProgress.FinishReport | src/tb_testbed.c:338-341 | whatever it is doing when the status turns terminal, the monitor reaches its end by its own steps, and a final read not yet begun reports the sum of the totals |
| StatsResults.ReaderSeesProgress | src/tb_listener.c:376-405 | the reader gets each publication at most once and in order until the end, sees counts that never decrease, and is not left waiting after the final publication |
| StatsResults.MonitorBlock.Iterate | src/tb_testbed.c:342-376 | one iteration on the monitor's fields, and what it prints before it updates the peak |
| EndToEnd.TransferIsRun | src/tb_testbed.c:299-441 | the monitor does not influence the transfer |
| EndToEnd.LeftMeansDelivered | src/tb_stream.c:104-129 | a server that left with every connection counted at zero holds num_conn * (file_size / num_conn) bytes |
| EndToEnd.FinalReport | src/tb_testbed.c:428-436 | in every run in which each decrement to zero was untroubled with all connections counted, the monitor's final read reports exactly num_conn * (file_size / num_conn) in both sums |
| EndToEnd.FinalReportIff | src/tb_testbed.c:428-436 | after an untroubled decrement to zero with the server still in its loop, every continuation reports exactly that number if and only if all connections had been counted by then (or slices are empty) |
| EndToEnd.ReportOfCounted | src/tb_testbed.c:428-436 | after such a decrement some continuation reports exactly the slices counted by then |
| EndToEnd.ReportsOf | src/tb_testbed.c:428-436 | over TCP, for every number of connections up to all, there is a run without errors whose final read reports exactly so many slices |
| Averages.IntAverageBetween | src/tb_listener.c:495-506 | every bound on the connected sessions' losses bounds the published average; zero when none is connected |
| Averages.RealAverageBetween | src/tb_listener.c:495-506 | the same for an average of doubles, without rounding |
| Averages.TruncDivBetween | src/tb_listener.c:504-505 | C's division toward zero keeps an average within its bounds, also for negative sums |
| Averages.TruncDivMeans | src/tb_listener.c:504-505 | C's quotient is the exact one with its fraction cut off toward zero |
| Averages.LossesBetween | src/tb_listener.c:504-505 | each published loss lies between every pair of bounds on its own field of the connected sessions |
| Averages.RatesBetween | src/tb_listener.c:498-503 | so does each of the six doubles |
| Averages.RateSumsOver | src/tb_listener.c:495-506 | each of the six averaged doubles is the average of its own field |
| Averages.AddUp | src/tb_listener.c:463-493 | the pointer loop sums every session's total and the connected sessions' eight values |
| Averages.ListenerStats.SetFrom | src/tb_listener.c:441-516 | the new statistics are the sums and averages of the list and depend on nothing else, so a second call changes nothing |
| UdpHandshake.StepOk | src/tb_udp.c:71-176 | every step of both ends and the network keeps the handshake's invariant |
| UdpHandshake.InvariantHolds | src/tb_udp.c:411-457 | that invariant holds after every run |
| UdpHandshake.HandshakeSafety | src/tb_udp.c:104-153 | an empty datagram, a closed server or a client out of its loop mean that all file_size bytes were handed to the network; an acked client means a closed server; the bytes balance, cut-off ones included |
| UdpHandshake.ServerMeans | src/tb_udp.c:411-445 | the server, told by the datagrams that reached it while open: the first is data whatever its length, the first empty one after it closes it, and then exactly one acknowledgement has been sent, before that none |
| UdpHandshake.ClientMeans | src/tb_udp.c:104-176 | the client leaves its loop acknowledged exactly if a poll saw an ack and refused exactly if a send was refused; data datagrams have the full buffer size while the file lasts; datagrams balance |
| UdpHandshake.RefusalMeans | src/tb_udp.c:139-151 | the next send is refused exactly if a datagram has found the port closed since the latest refusal |
| UdpHandshake.AckEndsWait | src/tb_udp.c:167-176 | an acknowledgement that arrives gets a waiting client out within three steps |
| UdpHandshake.RefusalMeansServerDone | src/tb_udp.h:15-19 | if the server was bound first, a client that left its loop means a server that closed or aborted |
| UdpHandshake.RefusalBeforeBind | src/tb_udp.c:139-153 | for every configuration in which it was not, there is a run with a refused client and a server not yet started |
| UdpHandshake.StepNeverBacktracks | src/tb_udp.c:139-153 | no step increases the distance to the end, and every effective event shortens it |
| UdpHandshake.EffectsAreBounded | src/tb_udp.c:420-445 | a continuation holds no more effective events than the distance |
| UdpHandshake.EffectsEndIt | src/tb_udp.c:420-442 | in every continuation of every run, as many effective events as the distance end both endpoints: at most four while the server has received nothing (ServerMeans says why one more), three in its loop, two once it has closed |
| UdpHandshake.NothingCutIff | src/tb_udp.c:416-420 | no byte is ever cut off if and only if the client's largest datagram fits the server's buffer |
| UdpHandshake.ProgressIsNear | src/tb_udp.c:139-153 | from every waiting state three steps bring both ends closer to the end |
| UdpHandshake.CanAlwaysFinish | src/tb_udp.h:15-19 | from every waiting state at most twelve steps end both endpoints |
| UdpDemux.EmptyEndsDrainOnlyIfFirst | src/tb_udp.c:538-597 | an empty datagram ends the drain if and only if it is its first, and otherwise goes to the previous datagram's session |
| UdpDemux.OnlyHeadersAreCounted | src/tb_udp.c:517-543 | a drain counts at most 8 bytes a message, exactly 8 for full headers |
| UdpDemux.HeaderRoundTrip | src/tb_udp.c:517-524 | for every 32-bit id and size, whatever was in the buffer, a whole message leaves its own id and size there and returns eight bytes |
| UdpDemux.BufferMeans | src/tb_udp.c:514-540 | a new drain starts with id -1 and size 0, and a datagram replaces as many leading bytes of the buffer as it has |
| UdpDemux.WholeMessage | src/tb_udp.c:554-579 | a whole message is credited if and only if its size is positive, and then to the session it names |
| UdpDemux.MessagesOf | src/tb_udp.c:538-597 | a queue of whole messages of positive sizes is used up, eight bytes of each going to the session its client named |
| UdpDemux.KnownOwner | src/tb_udp.c:556-579 | crediting a known session keeps the demultiplexed state |
| UdpDemux.NewOwner | src/tb_udp.c:561-568 | so does creating one |
| UdpDemux.DeliverAllDemultiplexes | src/tb_udp.c:538-597 | over every message sequence: ids distinct and in order of first appearance, every total its own bytes, the sum conserved |
| UdpDemux.NewSession | src/tb_udp.c:561-568 | a session with that id is appended and counted |
| UdpDemux.CreditKnown | src/tb_udp.c:579-579 | one total grows by the bytes received, nothing else changes |
| UdpDemux.Handle | src/tb_udp.c:554-580 | search, create if missing, credit: the map update on the heap list |
| UdpDemux.Drain | src/tb_udp.c:499-598 | a drain on the heap list demultiplexes exactly its leading credited datagrams, whose ids MessagesOf gives, with the header buffer kept between them; new sessions are counted; exit is called if and only if a datagram is not credited |
| Utp.Adapter.ExpiredByTimer | src/tb_utp.c:70-73 | the one running timer decides whether everything ever heard is more than two seconds old |
| Utp.Adapter.Dispatch | src/tb_utp.c:80-118 | the callbacks' effect on read_bytes and state |
| Utp.Adapter.Take | src/tb_utp.c:139-151 | an accepted datagram or incoming connection restarts the timer |
| Utp.HearAllMeans | src/tb_utp.c:222-268 | state, byte counts, timer and reading times after the first k datagrams of a poll |
| Utp.HearMeans | src/tb_utp.c:139-151 | one accepted datagram: heard when read, its read counts added, connected and measuring if incoming |
| Utp.LastCallbackWins | src/tb_utp.c:104-118 | the latest callback that is not a read decides the state |
| Utp.HeardMeans | src/tb_utp.c:270-275 | a poll: datagrams in order, then timer callbacks |
| Utp.Adapter.Event | src/tb_utp.c:222-268 | the leading accepted datagrams of a poll, in order |
| Utp.Adapter.Recv | src/tb_utp.c:270-289 | the endpoint afterwards is that of HeardMeans; the timeout error is raised if and only if a connection came in and nothing was heard for over two seconds, and then no bytes are reported |
| Utp.Adapter.Write | src/tb_utp.c:89-96 | the write callbacks add up to the smaller of what was offered and asked |
| Utp.Adapter.Send | src/tb_utp.c:189-220 | never negative, never more than offered, exactly what the write callbacks took; when writable it hears nothing and stays writable unless UTP_Write returned 0, otherwise it does what tb_utp_recv does |
| Utp.Client | src/tb_utp.c:576-611 | the loop takes exactly the course of its calls; the total is the sum of the write callbacks and never exceeds the file; it completes if and only if the whole file was taken |
| Utp.ClientMeans | src/tb_utp.c:576-611 | what every course keeps and how it can end |
| Utp.ClientCompletes | src/tb_utp.c:577-591 | a client whose polls connect it without an error and whose later writes cover the file completes |
| Utp.Server | src/tb_utp.c:736-772 | the loop takes exactly the course of its polls: it completes if and only if it ends at the end of the stream and aborts if and only if it ends in an error; unless it aborts, the total is the sum of the read callbacks |
| Utp.ServerMeans | src/tb_utp.c:736-772 | the server stops with the first poll that leaves either state, or has used all polls |
| Utp.CloseTurn | src/tb_utp.c:315-317 | a silent turn after two seconds ends in an error, and a quiet one before that changes no state |
| Utp.Close | src/tb_utp.c:303-319 | once nothing is heard any more the close loop ends at the latest with the first late turn whose timer call is quiet; with a quiet library it ends with the first late turn and no other, so never if the timer does not run |
| StreamServer.CountIsRightIffNoAgain | src/tb_protocol.c:193-202 | the count is the bytes received less the tolerated EAGAINs, so right if and only if there were none |
| StreamServer.ReceptionMeans | src/tb_stream.c:67-74 | the receive loop, reply by reply: it goes on over bytes and tolerated EAGAINs without interrupt, ends in order with the end of the stream or an interrupt, aborts before an error or an untolerated EAGAIN, and otherwise waits |
| StreamServer.StopAtMeans | src/tb_stream.c:42-96 | which accept the server stops at: the first that fails, brings a connection that does not end in order, or ends the server |
| StreamServer.CourseMeans | src/tb_stream.c:35-102 | all status words, the ending and the total of a server: a round of connected and disconnected per connection ended in order, then what stops it; bytes received less one per tolerated EAGAIN |
| StreamServer.Listener.constructor | src/tb_listener.c:112-117 | the initial status, command and counters |
| StreamServer.Listener.Abort | src/tb_testbed.c:487-506 | an abort ends in aborting, through disconnected if and only if the socket is open |
| StreamServer.Listener.Receive | src/tb_stream.c:67-74 | the loop ends as ReceptionMeans says and adds what the replies used credit |
| StreamServer.ServeOne | src/tb_stream.c:44-96 | one turn of the loop: what it writes to status and command and adds to the total |
| StreamServer.Serve | src/tb_stream.c:35-102 | ending, status words, command words and total are those of the course that CourseMeans describes |
| StreamServer.StatusClimbsIff | src/tb_stream.c:42-96 | the status never falls if and only if no second connection is served: the first is absent or does not end in order, or the end-of-transfer command is the default, or no second is accepted |
| StreamServer.CommandStaysIff | src/tb_stream.c:95-95 | the command word never goes back from exit to continue if and only if the end-of-transfer command is the default or no interrupt arrives while a connection is served |
| StreamServer.LostInterrupt | src/tb_stream.c:95-95 | one interrupted connection under the other command loses the interrupt |
| StreamServer.OrderlyExit | src/tb_stream.c:35-102 | the server exits if and only if its first connection ends in order (ReceptionMeans) under the default command, through created, listening, connected, disconnected and exiting |
| LifeCycles.StatusClimbs | src/tb_testbed.c:476-506 | in every run of every client and of the UDP, uTP and multi-connection servers the status only climbs from created, and the thread ends with exactly one of exiting and aborting as its last word |
| LifeCycles.WordsAreSteps | src/tb_testbed.c:476-506 | exiting has been written exactly if tb_exit was called, aborting exactly if tb_abort was, listening and connected exactly if the endpoint got there |
| LifeCycles.StepOk | src/tb_utp.c:569-619 | every write and every abort of these endpoints keeps that order |

## Left out

- Socket creation, address resolution, listening, epoll and socket options.
- The internals of UDT and uTP.
- Logging, printing, command-line parsing, CPU affinity and file handling.
- The function-pointer table of tb_create_protocol and the getters of protocol statistics.
- tb_udp_m_client, its connection threads and the tail of tb_udp_m_server, which mix header bytes into payload counts and lock a mutex twice.
- tb_queue_add and tb_udp_session_t, which are unused.
- tb_utp_m_client and the other multi-connection uTP functions, apart from their slicing.
- Freeing memory and the order of destruction.
- The single-connection UDT server and client, except that the client's loop is the one of SendSlice and its status that of LifeCycles.
- The client's send and its addition to `total_bytes` are one step in MultiTransfer, because nobody else acts on that counter there.
- A SIGINT during a multi-connection transfer, or outside recv in the single-connection server.
- tb_set_l_stats: it copies one counter, so its scan has nothing to interleave with.
- The write of `l_session->n_session` in tb_udp_event, which only the left-out tail of the server uses.
- Byte order: UdpDemux reads the header as a little-endian machine does.
- UdpHandshake.EffectsEndIt: supposes that the server was bound before the client started, because RefusalBeforeBind shows it false otherwise.
- EndToEnd.FinalReport: is about TCP, because over UDT a lost connection looks like the end of the stream and the bytes on their way are then missing.
- Utp.Client: counts bytes and says nothing of their contents, because every write callback copies from the start of the buffer.
- Averages.ListenerStats.SetFrom: does not model the rounding of doubles.
- MultiTransferResults.LifeCycle: leaves created, exiting and aborting to LifeCycles.StatusClimbs, where the statuses before and after the transfer are.
- LifeCycles.StatusClimbs: takes what happens between two status writes for chance, and leaves out the UDP and uTP functions for several connections.
- StatsResults.AverageBelowPeak: uses exact rationals for the averages.
