# FreeFlow: verified models of its data paths

This project models the parts of FreeFlow whose correctness is hardest to see from the code, and proves what they
promise. Everything is written in Dafny 4.11; `dafny verify dfyconfig.toml` checks it.

**Stream sockets over RDMA** (`rsocket.c`). Two sockets exchange bytes by writing into each other's memory. Each side
owns a receive ring that it grants to the peer half by half; grants are written by RDMA into a two-entry list in the
peer's memory. A 16-bit counter bounds the unread messages, a send ring holds bytes until their completion, and four
work requests are reserved for control messages. The model has four layers:

- `RsWire`, `RsSocket`: one socket as a value, and what each step of the data path does to it.
- `RsProtocol`: two sockets and their adapters as a transition system. A write lands in the peer's memory first; the
  peer's software learns of it later, and the sender of its completion later still. `RsInvariant` states what every
  reachable state satisfies, the modules `RsProof*` prove it step by step with the help of `RsFrame`, `RsChunk` and
  `RsArith`, `RsClosure` extends it to all runs, and `RsDelivery`, `RsGrants`, `RsQueues`, `RsTests`, `RsLife`,
  `RsProgress`, `RsLiveness`, `RsEof` and `StreamOrder` draw the conclusions. `RsRing` and `RsQueueLimit` are about ring and queue sizes outside the
  standing assumptions, `RsShutdown` about bytes sent after a shutdown; `RsRuns` puts runs together.
- `RsCalls`: whole non-blocking calls as functions. `RsRefine` proves that every call is a run of the protocol, so that
  the theorems hold of calls. `RsRounds` and `RsAnswers` say what a call answers from the socket and the completions
  that are waiting, `RsService` what it answers in every reachable state, and `RsConversation` that calls alone never
  deadlock.
- `RsStream`: the class with the socket's fields, arrays and loops; its methods refine the call functions.

**Datagram buffers** (`rsocket.c`): the send area, its 2048-byte buffers and the links in the first bytes of the free
ones (`SendArea`), where each send and receive buffer is (`Datagram`), which datagrams the reader is given
(`DatagramQueue`), and the class with the round-robin polling loop (`DatagramSocket`).

**Connection-manager events** (`cma.c`): which reported events are absorbed or handed out, how they are completed and
what destroying an id waits for (`CmEvents`), and what fetching and destroying answer (`CmAnswers`).

**Small structures**: the semaphore-backed lock of `cma.h` (`FastLock`), the two-level indexer and index map
(`Indexer`), the lock-free token bucket of the router (`TokenBucket`, and whole calls in `TokenCalls`) and the
incremental map synchronisation of the IP hunter (`IpHunter`). `Memory` and `Wrappers` hold what several modules share.

## Assumptions

- Each send, read, credit, completion, landing and shutdown step is atomic. In the code they run under different locks.
- Posts succeed on stream sockets; on datagram sockets the result of every send and receive post is a parameter.
- A datagram socket has from 1 to 65535 send buffers: sizes are 16-bit, and with none the code still writes a link.
  Bytes that a datagram writes behind the last send buffer are cut off; what lies there is not modelled.
- Both ends have the same byte order and no memory is exported through iomaps.
- A stream socket has an even receive ring of at least 2 bytes, a send ring of at least 2048 bytes, and queue sizes
  from 16 to 0xFFFE. In the mode without immediate data, messages fit inline.
- Adapters carry out and complete requests in order. Addresses are offsets into the buffer they belong to.
- Clock readings, memory exhaustion, kernel reports, the order in which a Go map is walked and what other threads do
  are parameters of the methods that depend on them.

## Findings

- Grants leave the receive ring for odd ring sizes from 5 on (`RsRing`), which `mem_default` can configure.
- A datagram is copied into its 2048-byte send buffer without a length test. One that is longer with its header
  overwrites the link of the buffer behind, and the free list is lost (`Datagram.LongDatagramLosesList`). The other
  buffers and the list are kept exactly when header and data fit (`Datagram.NextSendStaysIff`, `Datagram.ListKeptIff`).
- A send that finds the socket able to send does not look at the writable bit, so bytes can be accepted after the write
  side was shut down, exactly when there is room (`RsShutdown.SendAfterShutdownIff`). A reader can then report end of
  stream without them (`RsShutdown.LateByteMissed`); `RsShutdown.EofCompleteIff` says when it has everything.
- A shutdown does not always reach the peer. When two shutdowns cross and one end has no control slot left, that end
  gives up its connection before its message is posted, and the peer never sees the end of the stream
  (`RsEof.CrossingShutdownsHang`). `RsEof.ShutdownGetsThroughIff` says exactly when it can.
- A datagram socket ignores whether a receive buffer could be posted again; one that could not is never used again.
- A failed exchange in the token bucket restarts from the stored stamp without holding it to the burst again, which
  breaks the rate bound for stale buckets; a clock below the burst makes the subtraction wrap.
- A pod address listed with another host and then with its old one is left with the wrong host in the store.
- A connection-request event names the new id but is counted for the listening id, so the new id can be freed while
  the event still names it. A comment in `rdma_get_cm_event` says that connection requests may carry a zero uid; the
  code discards them like any other event with a zero uid, and the model follows the code.
- A multicast event with a zero uid is completed for its id and not for its group, so leaving the group never returns
  (`CmEvents.LostGroupEventHangs`).

## Model

| member | source | states |
|---|---|---|
| `RsWire.MsgRoundTrip` | freeflow/libraries-router/librdmacm-1.1.0mlnx/src/rsocket.c:144-146 | a message built from an operation and 29 bits of data gives both back |
| `StreamOrder.HistoriesMatch` | freeflow/libraries-router/librdmacm-1.1.0mlnx/src/rsocket.c:2395-2462 | the ghost histories of a run are exactly the bytes that its send steps accepted and its read steps returned |
| `StreamOrder.DeliveredInOrder` | freeflow/libraries-router/librdmacm-1.1.0mlnx/src/rsocket.c:1736-1762 | in every run of two connected sockets, in both transport modes and with any chunking, wrap and interleaving, the bytes returned on one side are a prefix of the bytes accepted on the other |
| `RsDelivery.NeverOutOfBounds` | freeflow/libraries-router/librdmacm-1.1.0mlnx/src/rsocket.c:1880-1966 | in every reachable state, every step the software or the adapter can take stays inside the rings, the target list and the control buffer it addresses, and leads to a reachable state |
| `RsGrants.RingConserved` | freeflow/libraries-router/librdmacm-1.1.0mlnx/src/rsocket.c:1807-1844 | granted minus read plus `rbuf_bytes_avail` equals `rbuf_size` in every reachable state, and the peer never accepts more bytes than were granted |
| `RsGrants.RingPlacement` | freeflow/libraries-router/librdmacm-1.1.0mlnx/src/rsocket.c:1749-1758 | every posted data write is addressed so that stream byte k goes to `rbuf[k mod rbuf_size]` |
| `RsGrants.UnreadNeverOverwritten` | freeflow/libraries-router/librdmacm-1.1.0mlnx/src/rsocket.c:2443-2455 | a landing data write changes no ring byte that was delivered and not yet read |
| `RsGrants.GrantsNeverLost` | freeflow/libraries-router/librdmacm-1.1.0mlnx/src/rsocket.c:1834-1844 | a landing grant always finds its entry of the target list used up, so grants are neither lost nor merged |
| `RsGrants.SequenceTestsExact` | freeflow/libraries-router/librdmacm-1.1.0mlnx/src/rsocket.c:1861-1872 | the 16-bit tests `sseq_no != sseq_comp` and `(short)(rseq_no - rseq_comp) >= 0` agree with the unbounded counters in every reachable state, and the `rq_size + 1` slot message ring never overflows |
| `RsQueueLimit.LargerQueueBreaksTest` | freeflow/libraries-router/librdmacm-1.1.0mlnx/src/rsocket.c:60-66 | with a receive queue one entry larger than `RS_QP_MAX_SIZE` some run ends, all bytes read, where the signed credit test disagrees with the unbounded counters and the sender has no credits: the bound is tight |
| `RsQueueLimit.StuckForever` | freeflow/libraries-router/librdmacm-1.1.0mlnx/src/rsocket.c:1861-1872 | from such a state no run, whatever either end does, lets the sender send another byte |
| `RsQueueLimit.AllowedNeverSticks` | freeflow/libraries-router/librdmacm-1.1.0mlnx/src/rsocket.c:639-654 | with the sizes the library allows no reachable state of a connection that nobody is closing is of that kind |
| `RsQueues.SendQueueConserved` | freeflow/libraries-router/librdmacm-1.1.0mlnx/src/rsocket.c:2290-2295 | outstanding work requests equal `sq_size - sqe_avail - (ctrl_max_seqno - ctrl_seqno)`, never exceed `sq_size`, and on a connected socket `rs_conn_all_sends_done` holds exactly when none is outstanding |
| `RsQueues.SendRingNeverOverwritten` | freeflow/libraries-router/librdmacm-1.1.0mlnx/src/rsocket.c:2716-2742 | copying a chunk into the send ring changes no byte of an uncompleted write, across the one-piece, exact-fit and two-piece cases and with inline sends mixed in |
| `RsQueues.CtrlBufferNeverOverwritten` | freeflow/libraries-router/librdmacm-1.1.0mlnx/src/rsocket.c:1623-1627 | staging a grant changes no control-buffer slot of a grant that is still in flight |
| `RsTests.CtrlTestsExact` | freeflow/libraries-router/librdmacm-1.1.0mlnx/src/rsocket.c:1850-1859 | the tests for one and for two control slots, on wrapping 32-bit counters, say exactly whether that many of the four are free |
| `RsTests.CanSendIff` | freeflow/libraries-router/librdmacm-1.1.0mlnx/src/rsocket.c:2247-2258 | a socket can send exactly when its requests fit beside those not completed, 2048 bytes of its send ring are free, it posted fewer messages than the peer allowed and sent fewer bytes than the peer granted |
| `RsTests.CreditsDueIff` | freeflow/libraries-router/librdmacm-1.1.0mlnx/src/rsocket.c:1861-1872 | credits are due exactly when the socket is connected, the control slots of an update are free, and half the ring is neither granted nor unread or half the allowed messages were read |
| `RsDelivery.EofIsSound` | freeflow/libraries-router/librdmacm-1.1.0mlnx/src/rsocket.c:1906-1918 | a reader that did not close its own read side is at end of stream only after it was given every byte the peer accepted before its shutdown |
| `RsLife.BitsExact` | freeflow/libraries-router/librdmacm-1.1.0mlnx/src/rsocket.c:1906-1918 | in every reachable state the read side is closed exactly by an own shutdown of it or a closing message of the peer that was handled, the write side exactly by an own shutdown of it or a disconnect message; a disconnect message, handled or completed, ends the connection |
| `RsLife.ConnectionEndsIff` | freeflow/libraries-router/librdmacm-1.1.0mlnx/src/rsocket.c:1906-1943 | the connected bit goes out exactly when a disconnect message is handled or completed, or when the peer shuts down and the own write side was shut down before |
| `RsLife.PeerIsTold` | freeflow/libraries-router/librdmacm-1.1.0mlnx/src/rsocket.c:3218-3241 | while connected, an end has posted or is about to post a closing message exactly when its write side is closed, and a disconnect message exactly when both sides are |
| `RsEof.FinGetsThrough` | freeflow/libraries-router/librdmacm-1.1.0mlnx/src/rsocket.c:1906-1918 | once a closing message is posted, landings, completions and reads alone lead to a state in which the peer has every byte and is at end of stream |
| `RsEof.ShutdownGetsThroughIff` | freeflow/libraries-router/librdmacm-1.1.0mlnx/src/rsocket.c:3218-3241 | for an end that shut down its write side, some run without another send brings the peer, closing nothing more itself, to end of stream with every byte exactly when that end is still connected, or its closing message is posted, or the peer had closed its read side |
| `RsEof.CrossingShutdownsHang` | freeflow/libraries-router/librdmacm-1.1.0mlnx/src/rsocket.c:3232-3241 | a run in which both ends shut down and no later run without another send brings one of them to end of stream |
| `RsShutdown.SendAfterShutdownIff` | freeflow/libraries-router/librdmacm-1.1.0mlnx/src/rsocket.c:2697-2706 | a send on a socket whose write side is closed accepts bytes exactly when the socket can send, and is refused otherwise: only the branch that waits for room looks at the state |
| `RsShutdown.ShutdownKeepsSends` | freeflow/libraries-router/librdmacm-1.1.0mlnx/src/rsocket.c:3204-3247 | shutting down, in whichever way, changes nothing about which chunks may be sent next |
| `RsShutdown.LateByteAccepted` | freeflow/libraries-router/librdmacm-1.1.0mlnx/src/rsocket.c:2697-2706 | a run in which a byte is accepted after the write side was shut down |
| `RsShutdown.LateByteMissed` | freeflow/libraries-router/librdmacm-1.1.0mlnx/src/rsocket.c:1906-1918 | the run goes on so that the reader, which closed nothing, reports end of stream without that byte |
| `RsShutdown.EofCompleteIff` | freeflow/libraries-router/librdmacm-1.1.0mlnx/src/rsocket.c:1906-1918 | a reader at end of stream that closed nothing was given all the peer accepted exactly when no data message of the peer is still to be handled; none is if the peer accepted nothing after its shutdown |
| `RsClosure.StepKeeps` | freeflow/libraries-router/librdmacm-1.1.0mlnx/src/rsocket.c:1736-1762 | the invariant over both ends is kept by every step: send, read, credit, both kinds of completion, landing, shutdown and keepalive |
| `RsClosure.RunsAreReachable` | freeflow/libraries-router/librdmacm-1.1.0mlnx/src/rsocket.c:1880-1966 | the states of every run of two sockets are reachable states, so all theorems about reachable states hold along every run |
| `RsClosure.StartReachable` | freeflow/libraries-router/librdmacm-1.1.0mlnx/src/rsocket.c:1018-1056 | the state after connection set-up is reachable for any two allowed configurations, seen from either end |
| `RsProgress.NoDeadlock` | freeflow/libraries-router/librdmacm-1.1.0mlnx/src/rsocket.c:1861-1872 | if all sent bytes are read and all completions handled, the sender can send or the receiver's `rs_give_credits` holds |
| `RsProgress.NeverStuck` | freeflow/libraries-router/librdmacm-1.1.0mlnx/src/rsocket.c:2247-2258 | in no reachable state of two connected ends is everything handled, nothing readable, no credit due and the sender blocked |
| `RsProgress.CreditFreesSender` | freeflow/libraries-router/librdmacm-1.1.0mlnx/src/rsocket.c:1799-1848 | from such a state one credit step, its landing and its handling make the blocked sender able to send |
| `RsLiveness.AllCanBeDelivered` | freeflow/libraries-router/librdmacm-1.1.0mlnx/src/rsocket.c:1880-1966 | from every reachable state, connected or not, there is a run of landings, completions and reads alone after which both readers were given every byte accepted |
| `RsLiveness.SenderCanGoOn` | freeflow/libraries-router/librdmacm-1.1.0mlnx/src/rsocket.c:1799-1878 | from every reachable state of a connection that nobody is closing there is a run without sends after which all bytes of one end are read and that end can send again |
| `RsRing.GrantsInsideRingIff` | freeflow/libraries-router/librdmacm-1.1.0mlnx/src/rsocket.c:1839-1842 | every half ring that is granted lies inside the ring exactly when the ring size is even or at most 3: the claim is false for other odd sizes, which the configuration file can set |
| `RsRing.OddRingOverruns` | freeflow/libraries-router/librdmacm-1.1.0mlnx/src/rsocket.c:1839-1842 | in every odd ring of five bytes or more the second grant reaches behind the ring |
| `RsCalls.VectoredSendsTheSame` | freeflow/libraries-router/librdmacm-1.1.0mlnx/src/rsocket.c:2823-2882 | a vectored send accepts as many bytes, posts the same messages in the same order and leaves the same counters as a plain send of the concatenation; only where the bytes wait differs |
| `RsCalls.PlacedGathers` | freeflow/libraries-router/librdmacm-1.1.0mlnx/src/rsocket.c:2716-2742 | the bytes gathered from where a chunk was placed in the send ring are the chunk |
| `RsCalls.PeekMatchesRecv` | freeflow/libraries-router/librdmacm-1.1.0mlnx/src/rsocket.c:2358-2390 | a peek returns what a read of the same length would return next |
| `RsCalls.RecvReturnsNext` | freeflow/libraries-router/librdmacm-1.1.0mlnx/src/rsocket.c:2432-2456 | a read returns the next bytes of the ring, as many as asked for and announced, and gives exactly those back to the free space |
| `RsCalls.EofIsReported` | freeflow/libraries-router/librdmacm-1.1.0mlnx/src/rsocket.c:2419-2461 | a read of at least one byte returns nothing without blocking exactly when nothing is queued and the read side is closed |
| `RsAnswers.RoundAnswers` | freeflow/libraries-router/librdmacm-1.1.0mlnx/src/rsocket.c:1880-2037 | a completion round handles every completion up to the first that ends the connection, and the state bits, the counters, the credit limit and the unread messages are what those completions say |
| `RsAnswers.CreditsGivenIff` | freeflow/libraries-router/librdmacm-1.1.0mlnx/src/rsocket.c:2005-2037 | a round posts a credit message exactly when credits are due before or after its completions |
| `RsAnswers.ReadGivesCreditsIff` | freeflow/libraries-router/librdmacm-1.1.0mlnx/src/rsocket.c:2419-2424 | a read posts one exactly when it finds nothing queued and credits are due before or after the completions it then handles |
| `RsAnswers.RefusalMeans` | freeflow/libraries-router/librdmacm-1.1.0mlnx/src/rsocket.c:2697-2706 | a send would block only with every completion handled, the write side open and something it needs missing, and is reset only with the write side closed |
| `RsAnswers.SendAcceptsIff` | freeflow/libraries-router/librdmacm-1.1.0mlnx/src/rsocket.c:2697-2706 | a send accepts bytes exactly when the socket can send, whatever its state bits, or could after the waiting completions with none of them closing the write side |
| `RsAnswers.ChunkIsLargest` | freeflow/libraries-router/librdmacm-1.1.0mlnx/src/rsocket.c:2708-2719 | each pass sends as much as the growing size, the data, the send ring and the granted space allow, and not less |
| `RsAnswers.FewPasses` | freeflow/libraries-router/librdmacm-1.1.0mlnx/src/rsocket.c:2660-2663 | the growing size doubles up to the largest transfer: at most six requests and one for each full transfer |
| `RsAnswers.QueuedIsReturned` | freeflow/libraries-router/librdmacm-1.1.0mlnx/src/rsocket.c:2419-2456 | with data queued a read does not block or handle completions and returns the next bytes of the ring, as many as asked for and announced |
| `RsAnswers.BlocksIff` | freeflow/libraries-router/librdmacm-1.1.0mlnx/src/rsocket.c:2419-2424 | a read blocks exactly when nothing is queued, the read side is open and no waiting completion brings data or closes it; it then returns nothing and has handled them all |
| `RsAnswers.ArrivedIsReturned` | freeflow/libraries-router/librdmacm-1.1.0mlnx/src/rsocket.c:2419-2456 | with nothing queued a read returns as many bytes as the handled completions announce and were asked for |
| `RsCalls.RemainingIsFlat` | freeflow/libraries-router/librdmacm-1.1.0mlnx/src/rsocket.c:2785-2803 | walking the vectors from the start yields the concatenation of all of them, empty ones included |
| `RsRefine.LegitIoOk` | freeflow/libraries-router/librdmacm-1.1.0mlnx/src/rsocket.c:1880-1966 | in every reachable state, a completion queue in adapter order satisfies what the calls rely on |
| `RsRefine.ProcessMoves` | freeflow/libraries-router/librdmacm-1.1.0mlnx/src/rsocket.c:2005-2037 | a completion round of a socket is a run of protocol steps |
| `RsRefine.SendMoves` | freeflow/libraries-router/librdmacm-1.1.0mlnx/src/rsocket.c:2665-2750 | a whole send call, plain or vectored, is a run of protocol steps that accepts exactly the bytes it reports |
| `RsRefine.RecvMoves` | freeflow/libraries-router/librdmacm-1.1.0mlnx/src/rsocket.c:2395-2462 | a whole read call is a run of protocol steps that returns exactly the bytes it reports |
| `RsRefine.SendExtendsStream` | freeflow/libraries-router/librdmacm-1.1.0mlnx/src/rsocket.c:2665-2750 | from any reachable state, a send call appends the bytes it reports to the stream and leaves the peer untouched |
| `RsRefine.ReadReturnsStream` | freeflow/libraries-router/librdmacm-1.1.0mlnx/src/rsocket.c:2395-2462 | whatever calls were made before on either end, a read returns the bytes of the peer's stream that follow those already returned |
| `RsRefine.EofCallIsSound` | freeflow/libraries-router/librdmacm-1.1.0mlnx/src/rsocket.c:2280-2288 | a read call returns no byte without blocking, on an end that did not close its read side, only after every byte the peer accepted before its shutdown was returned |
| `RsService.RoomHolds` | freeflow/libraries-router/librdmacm-1.1.0mlnx/src/rsocket.c:1928-1933 | in every reachable state the message ring and the byte ring have room for every message that is waiting |
| `RsService.AnnouncedIsReturned` | freeflow/libraries-router/librdmacm-1.1.0mlnx/src/rsocket.c:2432-2456 | in every reachable state with announced bytes not yet returned a read call returns the next of them, all or as many as were asked for |
| `RsService.ReadBlocksIff` | freeflow/libraries-router/librdmacm-1.1.0mlnx/src/rsocket.c:2280-2288 | in every reachable state a read call blocks exactly when every announced byte was returned, neither end closed the read side and no waiting completion brings data or closes it |
| `RsService.WaitingIsReturned` | freeflow/libraries-router/librdmacm-1.1.0mlnx/src/rsocket.c:2419-2456 | a data message that is waiting, with none before it that ends the connection, makes a read call return bytes |
| `RsService.SendAcceptsIff` | freeflow/libraries-router/librdmacm-1.1.0mlnx/src/rsocket.c:2697-2706 | in every reachable state a send call accepts bytes exactly when the socket can send, or could after the waiting completions with none of them closing the write side |
| `RsConversation.SomeQueueIsFull` | freeflow/libraries-router/librdmacm-1.1.0mlnx/src/rsocket.c:1886-1887 | in every reachable state there is an order of completions that reports everything carried out |
| `RsConversation.BlockedReadHasAll` | freeflow/libraries-router/librdmacm-1.1.0mlnx/src/rsocket.c:2419-2424 | a read call that blocks although everything carried out was reported has returned every byte the peer sent |
| `RsConversation.BlockedReadFreesSend` | freeflow/libraries-router/librdmacm-1.1.0mlnx/src/rsocket.c:2005-2037 | and once what it posted is carried out, the peer's next send call accepts bytes, in whatever order it is told of completions, provided its write side stays open |
| `RsStream.CopyIov` | freeflow/libraries-router/librdmacm-1.1.0mlnx/src/rsocket.c:2785-2803 | copies the next bytes of the vectors, resuming inside a vector, and leaves the cursor at what remains |
| `RsStream.RSocket.constructor` | freeflow/libraries-router/librdmacm-1.1.0mlnx/src/rsocket.c:678-733 | a new connection starts in the state that the value model starts in |
| `RsStream.RSocket.SendCreditsNow` | freeflow/libraries-router/librdmacm-1.1.0mlnx/src/rsocket.c:1799-1848 | refines the credit step, with the grant staged in the control buffer or inline |
| `RsStream.RSocket.UpdateCreditsNow` | freeflow/libraries-router/librdmacm-1.1.0mlnx/src/rsocket.c:1874-1878 | gives credits exactly when the test says so |
| `RsStream.RSocket.PollCq` | freeflow/libraries-router/librdmacm-1.1.0mlnx/src/rsocket.c:1880-1966 | the loop over the completion queue refines handling all completions until the connection ends; `RsAnswers.RoundAnswers` says what that does |
| `RsStream.RSocket.ProcessCqNow` | freeflow/libraries-router/librdmacm-1.1.0mlnx/src/rsocket.c:2005-2037 | refines one non-blocking completion round, credits before and after it included; `RsAnswers.CreditsGivenIff` says when it gives them |
| `RsStream.RSocket.WriteDataNow` | freeflow/libraries-router/librdmacm-1.1.0mlnx/src/rsocket.c:1736-1762 | takes a credit, queue entries, ring bytes and target space, and posts the write with its message |
| `RsStream.RSocket.PlaceNow` | freeflow/libraries-router/librdmacm-1.1.0mlnx/src/rsocket.c:2716-2742 | in place, a chunk goes to the send ring in one piece or split at its end |
| `RsStream.RSocket.Send` | freeflow/libraries-router/librdmacm-1.1.0mlnx/src/rsocket.c:2665-2750 | the send loop refines the call function, bytes accepted and reason to stop included; `RsAnswers.SendAcceptsIff` and `RsAnswers.RefusalMeans` say what they are |
| `RsStream.RSocket.SendV` | freeflow/libraries-router/librdmacm-1.1.0mlnx/src/rsocket.c:2805-2887 | the vectored send loop refines the call function on the concatenation, with the same answers |
| `RsStream.RSocket.RecvQueued` | freeflow/libraries-router/librdmacm-1.1.0mlnx/src/rsocket.c:2432-2456 | the read loop over the message ring and the byte ring refines the read function |
| `RsStream.RSocket.Recv` | freeflow/libraries-router/librdmacm-1.1.0mlnx/src/rsocket.c:2395-2462 | refines a non-blocking read call and leaves the socket ready for the next; `RsAnswers.BlocksIff` and `RsAnswers.QueuedIsReturned` say what it answers |
| `RsStream.RSocket.PeekNow` | freeflow/libraries-router/librdmacm-1.1.0mlnx/src/rsocket.c:2358-2390 | copies what the peek function says and changes nothing in the socket |
| `SendArea.StaysInBufferIff` | freeflow/libraries-router/librdmacm-1.1.0mlnx/src/rsocket.c:2650-2651 | datagrams of a given length, whatever they contain, are stored whole and leave every other buffer of the area alone exactly when header and data together are at most 2048 bytes |
| `SendArea.PutLink` | freeflow/libraries-router/librdmacm-1.1.0mlnx/src/rsocket.c:1093-1097 | a link written into a buffer of the area reads back |
| `Datagram.BuffersConserved` | freeflow/libraries-router/librdmacm-1.1.0mlnx/src/rsocket.c:1080-1097 | in every run whose datagrams fit, the links in the bytes of the area, followed from `smsg_free`, are a list without repetition of length `sqe_avail`, each send buffer is on it or holds its datagram unchanged in exactly one place, each receive buffer of each queue pair is in exactly one place, queued datagrams fit the ring, and a buffer is lost exactly when a post failed |
| `Datagram.NextSendStaysIff` | freeflow/libraries-router/librdmacm-1.1.0mlnx/src/rsocket.c:2646-2657 | after any run whose datagrams fit, a next one of a given length leaves all other buffers alone, whatever it contains, exactly when it fits too |
| `Datagram.ListKeptIff` | freeflow/libraries-router/librdmacm-1.1.0mlnx/src/rsocket.c:2650-2651 | with the buffer behind on the free list, that list survives every datagram of a given length exactly when it fits: false for longer ones |
| `Datagram.LongDatagramLosesList` | freeflow/libraries-router/librdmacm-1.1.0mlnx/src/rsocket.c:2650-2651 | a 3000-byte datagram on a new socket overwrites the link of the only free buffer left |
| `Datagram.OnlyLeaksAreMissing` | freeflow/libraries-router/librdmacm-1.1.0mlnx/src/rsocket.c:2646-2657 | when the adapter is done and everything was polled, the free list holds all send buffers except those whose post failed, each once |
| `DatagramQueue.QueueIsHistory` | freeflow/libraries-router/librdmacm-1.1.0mlnx/src/rsocket.c:2099-2111 | after every run the ring holds the datagrams that valid receives brought while there was room, each with the queue pair, buffer and length of its receive, in the order polled, without those already read; completion queues hold what was brought and not polled |
| `DatagramQueue.ReadReturnsOldest` | freeflow/libraries-router/librdmacm-1.1.0mlnx/src/rsocket.c:2337-2353 | the n-th read of a run returns the n-th datagram that was queued |
| `DatagramSocket.DSocket.ChainBuffers` | freeflow/libraries-router/librdmacm-1.1.0mlnx/src/rsocket.c:1090-1097 | the loop writes into the area the links that chain all send buffers |
| `DatagramSocket.DSocket.constructor` | freeflow/libraries-router/librdmacm-1.1.0mlnx/src/rsocket.c:1073-1105 | a new datagram socket starts with all send buffers free |
| `DatagramSocket.DSocket.CreateQp` | freeflow/libraries-router/librdmacm-1.1.0mlnx/src/rsocket.c:1523-1530 | a new queue pair posts each of its receive buffers once and becomes the head of the list of queue pairs, before the others in their order and the old head last; if one of the posts fails nothing changes |
| `DatagramSocket.InsertedOk` | freeflow/libraries-router/librdmacm-1.1.0mlnx/src/rsocket.c:407-414 | inserting behind the head and moving the head there keeps each queue pair on the list once |
| `DatagramSocket.InsertedIsSecond` | freeflow/libraries-router/librdmacm-1.1.0mlnx/src/rsocket.c:407-414 | a new queue pair is the next to be polled, and seen from the old head it comes second with the others in their order |
| `DatagramSocket.RotatedGoesOn` | freeflow/libraries-router/librdmacm-1.1.0mlnx/src/rsocket.c:2119-2123 | after an early stop the walk around the list goes on where it was |
| `DatagramSocket.DSocket.PostSend` | freeflow/libraries-router/librdmacm-1.1.0mlnx/src/rsocket.c:2646-2657 | for datagrams of any length: takes the first free buffer, follows its link and copies header and data from its start; a datagram that fits keeps the invariant |
| `DatagramSocket.DSocket.OnSendDone` | freeflow/libraries-router/librdmacm-1.1.0mlnx/src/rsocket.c:2112-2117 | a completed send returns its buffer to the head of the free list |
| `DatagramSocket.DSocket.OnRecvDone` | freeflow/libraries-router/librdmacm-1.1.0mlnx/src/rsocket.c:2099-2111 | a completed receive is queued with its buffer and its length without the routing header when there is room and it is valid, else its buffer is posted again, or lost if that fails |
| `DatagramSocket.DSocket.PollRound` | freeflow/libraries-router/librdmacm-1.1.0mlnx/src/rsocket.c:2090-2126 | one round handles one completion of each queue pair that has one, in the order of the list; stopped early, the next starts behind the last one polled |
| `DatagramSocket.DSocket.PollCqs` | freeflow/libraries-router/librdmacm-1.1.0mlnx/src/rsocket.c:2079-2127 | polling in rounds ends with all completion queues empty, or with no room left to queue and a send buffer free; what it did is a run of polls |
| `DatagramSocket.DSocket.TrySend` | freeflow/libraries-router/librdmacm-1.1.0mlnx/src/rsocket.c:2630-2659 | a non-blocking send fails only when every send buffer is taken and nothing is left to poll; its length is never a reason |
| `DatagramSocket.DSocket.TakeDatagram` | freeflow/libraries-router/librdmacm-1.1.0mlnx/src/rsocket.c:2337-2353 | returns the oldest datagram, and unless peeking posts its buffer again, or loses it if that fails |
| `DatagramSocket.DSocket.TryRecv` | freeflow/libraries-router/librdmacm-1.1.0mlnx/src/rsocket.c:2322-2356 | a non-blocking receive fails only when nothing is queued and nothing completed |
| `CmEvents.EveryEventCompletedOnce` | freeflow/libraries-router/librdmacm-1.1.0mlnx/src/cma.c:2279-2312 | in every run each event reported for an id, and for a multicast group, was completed once, is out with the user, or was lost; and what an event that is out counts for was not freed |
| `CmEvents.FreedOnlyWhenQuiet` | freeflow/libraries-router/librdmacm-1.1.0mlnx/src/cma.c:662-682 | destroy frees an id exactly when no event counted for it is out and none was lost; an event that still names the id is then an unacknowledged connection request that brought it. The wider claim, that no event names a freed id, is false |
| `CmEvents.RequestOutlivesItsId` | freeflow/libraries-router/librdmacm-1.1.0mlnx/src/cma.c:2365-2404 | a run in which the id of a connection request can be freed while the request still names it |
| `CmEvents.LostEventHangs` | freeflow/libraries-router/librdmacm-1.1.0mlnx/src/cma.c:2545-2549 | an id that lost an unmatched event is never freed, whatever happens later |
| `CmEvents.LostGroupEventHangs` | freeflow/libraries-router/librdmacm-1.1.0mlnx/src/cma.c:2542-2554 | a group that lost an event is never left, whatever happens later |
| `CmEvents.DroppedForGroupIff` | freeflow/libraries-router/librdmacm-1.1.0mlnx/src/cma.c:2542-2554 | a multicast report is lost for its group exactly when it carries no user id |
| `CmEvents.DestroyableIff` | freeflow/libraries-router/librdmacm-1.1.0mlnx/src/cma.c:674-678 | the wait in destroy is over exactly when nothing counted for the id is out and nothing was lost |
| `CmEvents.LeavableIff` | freeflow/libraries-router/librdmacm-1.1.0mlnx/src/cma.c:2268-2271 | the wait in leaving a group is over exactly when no event of the group is out and none was lost |
| `CmEvents.NothingOut` | freeflow/libraries-router/librdmacm-1.1.0mlnx/src/cma.c:2542-2554 | a report that hands nothing out is completed once for its id, or lost when it matches no id; a multicast report is lost for its group |
| `CmEvents.SomethingOut` | freeflow/libraries-router/librdmacm-1.1.0mlnx/src/cma.c:2556-2639 | a report that hands an event out is counted for one id, and for one group if it has one; only a connection request names another id |
| `CmAnswers.HandedOutIff` | freeflow/libraries-router/librdmacm-1.1.0mlnx/src/cma.c:2542-2613 | a report with a user id becomes an event unless it is a connection request that could not be processed or the end of a connection whose set-up failed here; one without only if it says that a connection of a known id is established |
| `CmAnswers.EventShows` | freeflow/libraries-router/librdmacm-1.1.0mlnx/src/cma.c:2533-2639 | the kind the user sees is the reported one, except that a connection response shows as established or as an error and failed address, route and join processing as the matching error; and which id and group it names |
| `CmAnswers.FetchHandsFirst` | freeflow/libraries-router/librdmacm-1.1.0mlnx/src/cma.c:2500-2643 | a fetch hands out an event exactly when some waiting report becomes one, and then that of the first such report |
| `CmAnswers.FailedIff` | freeflow/libraries-router/librdmacm-1.1.0mlnx/src/cma.c:2580-2590 | in every run an id counts as failed exactly when a connection response of it could not be processed since the id was entered |
| `CmAnswers.LookupExact` | freeflow/libraries-router/librdmacm-1.1.0mlnx/src/cma.c:2542-2549 | in every run a kernel handle finds an id exactly when the handle is small enough and that id is live and has it |
| `CmAnswers.DestroyFreesIff` | freeflow/libraries-router/librdmacm-1.1.0mlnx/src/cma.c:662-682 | destroying an id, which first acknowledges the event pending on it, frees it exactly when none of its events was lost and every other one that is out is acknowledged |
| `CmEvents.FetchUntilKeeps` | freeflow/libraries-router/librdmacm-1.1.0mlnx/src/cma.c:2500-2643 | fetching until an event is handed out keeps the balance and every event that was out before |
| `CmEvents.WaitFreesQuietIds` | freeflow/libraries-router/librdmacm-1.1.0mlnx/src/cma.c:662-682 | the wait loop frees the id only with none of its events left, and otherwise it may not be freed yet |
| `CmEvents.Manager.AckEvent` | freeflow/libraries-router/librdmacm-1.1.0mlnx/src/cma.c:2279-2312 | completes the event for its group and its id, or for its id alone |
| `CmEvents.Manager.Receive` | freeflow/libraries-router/librdmacm-1.1.0mlnx/src/cma.c:2542-2639 | refines the processing of one report, with all its branches, for every kind with and without a user id; `CmAnswers.HandedOutIff` and `CmAnswers.EventShows` say what it answers |
| `CmEvents.Manager.GetEvent` | freeflow/libraries-router/librdmacm-1.1.0mlnx/src/cma.c:2500-2643 | the retry loop refines fetching until an event is handed out; `CmAnswers.FetchHandsFirst` says which |
| `CmEvents.Manager.DestroyId` | freeflow/libraries-router/librdmacm-1.1.0mlnx/src/cma.c:662-682 | acknowledges the pending event, waits for the others and frees |
| `FastLock.OneToken` | freeflow/libraries-router/librdmacm-1.1.0mlnx/src/cma.h:128-137 | for any number of threads and any interleaving: holders plus semaphore value plus owed posts is 1 while the counter is positive and 0 otherwise, and the counter is the number of threads inside or waiting |
| `FastLock.MutualExclusion` | freeflow/libraries-router/librdmacm-1.1.0mlnx/src/cma.h:128-132 | two threads are never in the critical section together |
| `FastLock.BlocksOnlyWhenTaken` | freeflow/libraries-router/librdmacm-1.1.0mlnx/src/cma.h:128-132 | acquire enters at once exactly when no thread is inside or waiting |
| `FastLock.NoLostWakeup` | freeflow/libraries-router/librdmacm-1.1.0mlnx/src/cma.h:133-137 | in every run, any waiting thread gets in after at most three more steps, none of them an acquire |
| `Indexer.FollowVisitsChain` | freeflow/libraries-router/librdmacm-1.1.0mlnx/src/indexer.c:57-86 | following the links from the list head visits the chain in order and then stays at 0 |
| `Indexer.FreeListIsComplement` | freeflow/libraries-router/librdmacm-1.1.0mlnx/src/indexer.c:57-86 | an index has no item exactly when the links from the list head lead to it |
| `Indexer.FreeAndUsed` | freeflow/libraries-router/librdmacm-1.1.0mlnx/src/indexer.c:57-86 | items and free entries together are all indexes but the reserved 0 |
| `Indexer.Popped` | freeflow/libraries-router/librdmacm-1.1.0mlnx/src/indexer.c:88-102 | storing an item in the first free entry keeps the table standing for the map with that item added |
| `Indexer.Pushed` | freeflow/libraries-router/librdmacm-1.1.0mlnx/src/indexer.c:104-114 | a removed entry becomes the head of the chain and the table stands for the map without it |
| `Indexer.Grown` | freeflow/libraries-router/librdmacm-1.1.0mlnx/src/indexer.c:57-86 | a new block goes to the front of the chain and no item changes |
| `Indexer.Indexer.constructor` | freeflow/libraries-router/librdmacm-1.1.0mlnx/src/indexer.h:60-65 | an empty table stands for the empty map |
| `Indexer.Indexer.NewBlock` | freeflow/libraries-router/librdmacm-1.1.0mlnx/src/indexer.c:65-75 | the fill loop chains the entries of a block |
| `Indexer.Indexer.Grow` | freeflow/libraries-router/librdmacm-1.1.0mlnx/src/indexer.c:57-86 | adds a block until there are 64, with the reserved index left out, or reports failure and changes nothing |
| `Indexer.Indexer.Insert` | freeflow/libraries-router/librdmacm-1.1.0mlnx/src/indexer.c:88-102 | returns an unused index and adds the item, or fails exactly when no entry is free and none can be added; with memory available that means 65535 items |
| `Indexer.Indexer.Remove` | freeflow/libraries-router/librdmacm-1.1.0mlnx/src/indexer.c:104-114 | returns the item and frees its index, which is the next to be handed out |
| `Indexer.Indexer.Replace` | freeflow/libraries-router/librdmacm-1.1.0mlnx/src/indexer.c:116-122 | replaces the item of one index only |
| `Indexer.Indexer.At` | freeflow/libraries-router/librdmacm-1.1.0mlnx/src/indexer.h:74-77 | returns the item of the map |
| `Indexer.IndexMap.Set` | freeflow/libraries-router/librdmacm-1.1.0mlnx/src/indexer.c:125-155 | associates an item with an index in range, growing the table on demand, or fails and changes nothing |
| `Indexer.IndexMap.Clear` | freeflow/libraries-router/librdmacm-1.1.0mlnx/src/indexer.c:157-166 | removes and returns the item of one index |
| `Indexer.IndexMap.Lookup` | freeflow/libraries-router/librdmacm-1.1.0mlnx/src/indexer.h:100-104 | agrees with the plain map for every index, in range or not |
| `TokenBucket.TokenBucket.constructor` | freeflow/ffrouter/tokenbucket.h:35-40 | starts at time 0 with the time per token and per burst |
| `TokenBucket.TokenBucket.Consume` | freeflow/ffrouter/tokenbucket.h:55-84 | the compare-and-swap loop refines the attempt function, whatever other callers store and however exchanges fail; a granted call leaves a stamp no later than its clock, and an undisturbed one is granted exactly when its cost is within the burst and reaches no further than the clock |
| `TokenCalls.CallIsRun` | freeflow/ffrouter/tokenbucket.h:69-83 | whatever the other callers do between its exchanges, a call's answer, its stamp and its grant are those of its exchanges in the run of all callers, the loop being disturbed by the stamps the others leave |
| `TokenCalls.EveryCallIsLoop` | freeflow/ffrouter/tokenbucket.h:55-84 | conversely, in every run of any callers each call returns what the loop returns against the stamps the others left |
| `TokenCalls.CallsKeepRate` | freeflow/ffrouter/tokenbucket.h:55-84 | calls of one caller, clocks in order: whatever is asked for, any window of calls is granted at most a burst plus the time that passed in it |
| `TokenBucket.AloneMeans` | freeflow/ffrouter/tokenbucket.h:57-73 | an undisturbed call is granted exactly when its cost is within the burst and, added to the stamp, reaches no further than the clock; and the stamp it leaves |
| `TokenBucket.RateBound` | freeflow/ffrouter/tokenbucket.h:64-83 | in every run whose retries saw a stamp no older than a burst, and so in every run without failed exchanges, any window of grants costs at most a burst plus the time that passed in it |
| `TokenBucket.RetryKeepsRateIff` | freeflow/ffrouter/tokenbucket.h:69-83 | after a grant on a retry, one more call at the same clock reading keeps both within a burst, whatever it costs, exactly when the stamp the retry saw is not older than a burst or the retry cost nothing |
| `TokenBucket.SpuriousFailureBreaksRate` | freeflow/ffrouter/tokenbucket.h:69-83 | one spurious failure lets twice the burst through at one clock reading |
| `TokenBucket.StampNeverGoesBack` | freeflow/ffrouter/tokenbucket.h:69-83 | under arbitrary failures the time stamp never decreases and the total ever granted is at most the clock reading of the last grant |
| `TokenBucket.EarlyClockIff` | freeflow/ffrouter/tokenbucket.h:57-67 | with the clock below a burst the subtraction wraps; a first attempt never lowers the stamp exactly when the clock has reached a burst or the stamp is 0 |
| `IpHunter.Hunter.constructor` | ip_hunter/ip2etcd.go:249-265 | start-up leaves nothing under the pod and the node directory and everything else as it was |
| `IpHunter.Hunter.Scan` | ip_hunter/ip2etcd.go:154-171 | the loop over the pods computes the current map and the changed entries |
| `IpHunter.Hunter.PutAll` | ip_hunter/ip2etcd.go:173-179 | writes each changed entry once, in any order, and nothing else |
| `IpHunter.Hunter.DeleteAll` | ip_hunter/ip2etcd.go:181-191 | deletes each vanished entry once, in any order, and nothing else |
| `IpHunter.Hunter.SyncRound` | ip_hunter/ip2etcd.go:154-194 | one round: what it leaves in the store, that other keys stay, and exactly which requests it sends |
| `IpHunter.AlwaysInStepIff` | ip_hunter/ip2etcd.go:254-282 | over any sequence of rounds, the store under the directory equals the current pod map after every round exactly when every list is consistent with the round before |
| `IpHunter.RoundInStepIff` | ip_hunter/ip2etcd.go:154-194 | the same for one round |
| `IpHunter.OneHostEachIsConsistent` | ip_hunter/ip2etcd.go:160-171 | lists in which equal pod addresses carry equal hosts are consistent |
| `IpHunter.CurrentExactly` | ip_hunter/ip2etcd.go:160-167 | the current map has an address exactly when some pod has it, not empty, and a host; its value is the host of the last such pod |
| `IpHunter.WritesPlaced` | ip_hunter/ip2etcd.go:160-179 | a round writes an address exactly when some such pod has another host than the round before |
| `IpHunter.WritesOnlyChanges` | ip_hunter/ip2etcd.go:160-179 | a consistent round writes an address exactly when its host is new or different |
| `IpHunter.ListedTwiceGoesWrong` | ip_hunter/ip2etcd.go:160-171 | an address listed with another host and then with its old one is left with the wrong host |

## Left out

- Iomaps (`riomap`, `riounmap`, `riowrite`): an iomap message takes a credit that the receiver does not return.
- Peers of different byte order, and the options exchanged at connection time.
- Blocking calls, `MSG_WAITALL` and polling intervals: calls are modelled as non-blocking rounds.
- Error completions and failing posts on stream sockets, which put the socket into its error state.
- `rshutdown` and the keepalive thread as whole calls: they are the protocol steps that mark the socket, post the control message and post the keepalive.
- Contents of received datagrams, the copy to the caller and the UDP fallback path: receive buffers are tracked by number and length.
- RsStream.RSocket.Send: states the call function and not the protocol run; `RsRefine.SendMoves` connects the two.
- The service threads (`rs_svc_*`): they keep sets of datagram sockets and of sockets to keep alive, which other threads change by messages. Neither the sets nor the messages are modelled.
- Thread-level interleaving inside `rdma_get_cm_event` and `rdma_destroy_id`: fetching one report, acknowledging and freeing are steps; events of an id are reported only until it is freed.
- `ipNode2Etcd`: the same difference as for pods, with address variables carried over between nodes.
- `preload.c`, `acm.c`, `addrinfo.c`, the router's request dispatch, the memory pool and the kernel ABI.
- TokenBucket.RateBound: leaves out clock readings below the burst and costs that wrap 64 bits, because the subtraction and the sum then wrap.
- TokenCalls.CallsKeepRate: the same readings and costs, and calls that other callers disturb; `TokenBucket.RateBound` and `TokenCalls.EveryCallIsLoop` are about those.
- Datagram.BuffersConserved: promises nothing for a run with a datagram longer than its send buffer, because the copy then overwrites the next buffer and the claim is false; `Datagram.NextSendStaysIff` gives the exact condition.
- Datagram.OnlyLeaksAreMissing: likewise only for runs whose datagrams fit their send buffers.
- Negative indexes of the indexer and the index map, which the code does not check.
