# Yamux sessions, verified

A Dafny model of a small C implementation of the Yamux stream multiplexer, and proofs about
it. The implementation consists of a chunked byte queue (`bio.c`), a red-black tree that
indexes streams (`tree.h`), and the session and stream logic (`mux.c`).

The project has five parts.

* **Objects.** `Bio.dfy`, `StreamTree.dfy` (with `RedBlackTree.dfy`) and `Mux.dfy` are the
  mutable objects of the C code: fields updated in place, the same loops, the same branches.
  Every method of `Mux.Session` is proved to do exactly what a function of `Protocol.dfy`
  says it does to the abstract session, on top of the real queue and the real tree.
* **Semantics.** `Protocol.dfy` gives each public call and each internal handler as a
  function on session values, with uint32 arithmetic written out; `Wire.dfy` is the frame
  format ("Framing" in the Yamux specification); `FrameLevel.dfy` proves that the
  incremental parser computes a semantics of whole frames.
* **Theorems about runs.** `EndpointRuns.dfy` and `EndpointProgress.dfy` (resting on
  `Flight.dfy`, `Endpoints.dfy`, `EndpointSteps.dfy`, `EndpointInput.dfy`) are about every run
  of a client and a server joined by two byte channels: delivery, credit conservation,
  handshake, accept order, absence of deadlock. `GoAwayRuns.dfy` and `GoAwayProgress.dfy` (with
  `GoAwayShadow.dfy` and `GoAwayInput.dfy`) extend this to runs in which either side calls
  `session_go_away` at any time. `SessionRuns.dfy` (with `SessionEvolution.dfy`) and, on top of
  it, `Arrivals.dfy`, `RefusalRuns.dfy`, `OpenRuns.dfy` and `WindowRuns.dfy` are about every run
  of one session against any peer: what it hears and queues, what it refuses, the ids it opens,
  its receive windows. `Fragmentation.dfy` is about how input may be cut up, `Discard.dfy` about
  the one branch for which that matters. `Signals.dfy` follows single frames from the
  wire to the application, and says which headers make `session_process` fail.
* **Reference accounts.** `Octets.dfy` reads and writes headers by literal octet, without the
  constants and getters of the code, and `Literals.dfy` gives the bytes each call puts on the
  wire and the effect of each kind of frame, byte by byte. `Answers.dfy` is everything
  `session_process` queues, as a function of the headers it handles. `Ledger.dfy` keeps the
  account of one stream from the outside, from what came in and what the application's calls
  returned, and `LedgerRuns.dfy` proves over every run against any peer that states, windows,
  buffers, flags and the answers of reads and writes are what the account says. There, a DATA or
  WINDOW_UPDATE header is heeded if its stream exists or is taken in by it, and it neither asks
  for the stream twice nor finishes it twice; the others make `session_process` fail.
* **Threads.** `RecvLock.dfy` and `SendLock.dfy` interleave threads at the granularity of
  `recv_lock` and of a stream's `send_lock`, `SharedBuffer.dfy` at that of the session's
  `send_lock`, `TableLock.dfy` at that of `streams_lock`, `WakeUp.dfy` at that of the sections
  that keep the readable and writeable flags, `StreamIds.dfy` at that of single atomic
  operations on the id counter.

Where the code does less than it sets out to do, there is a concrete failure and the exact
condition under which the intended property does hold.

Assumptions: `malloc` and the notification sockets succeed; byte counts fit in `int`;
`stream_read` is called with a positive size (its assertion needs it); each public call is
one atomic step, except in the modules about threads. A stream is used only after
`session_open` or `session_accept` has returned it. In the two-endpoint runs a server that
has used up its ids opens no further stream; in `EndpointRuns.dfy` nobody calls
`session_go_away`.

Where the code and its own comments or intentions part:

* The discard loop for unknown streams subtracts what it asked for, not what it consumed
  (`Fragmentation.PayloadInSync`, `Discard.DiscardCut`). After a go-away this is enough to
  lose the framing of a whole session (`Discard.DiscardLosesSync`); between two endpoints
  running this code it is the only way to lose it (`GoAwayRuns.InStepExactly`).
* Header and payload of a DATA frame are queued under two lock acquisitions
  (`SharedBuffer.WholeExactlyWhenSerial`, `SharedBuffer.TwoWrites`), and the send window is
  read and reduced under two (`SendLock.WriteMayBegin`, `SendLock.TwoWritersOverrun`).
* `stream_read` looks for bytes and takes them in two critical sections, so the assertion that
  it got some fails with two readers of one stream (`RecvLock.ReadersExactly`,
  `RecvLock.TwoReadersAbort`).
* The readable flag is taken down in a critical section of its own, so a wake-up can be lost
  (`RecvLock.WakeUpLost`, `RecvLock.WakeUpIsLost`), and a reader that polls may never learn
  of the end of file (`Signals.EofSignalled`, `WakeUp.EndLost`).
* FIN puts the writeable flag up although it does not end writing, so a writer without window
  spins between waiting for the flag and trying again (`Signals.WriterSpins`,
  `WakeUp.LostExactly`).
* The id-exhaustion guard never stops a server, and the parity of a peer's id is not checked:
  the two ways to fail the insert assertion (`OpenRuns.OpenExactly`, `OpenRuns.ServerIdsRunOut`,
  `OpenRuns.ForeignSynAborts`). Between threads it can fail in `session_process` as well, which
  looks an id up and inserts it under two lock acquisitions (`TableLock.InsertExactly`,
  `TableLock.ProcessAborts`).
* A DATA header for an unknown stream is checked against no window, although the stream may
  be opened before its payload has arrived (`WindowRuns.MidFrameOpen`,
  `WindowRuns.UncheckedPayload`).
* `stream_close` is a stub, so the states LOCAL_CLOSE and CLOSED are never entered and no FIN
  is sent.

## Model

| member | source | states |
|---|---|---|
| `ByteQueue.Bio.Write` | bio.c:89-107 | appends exactly the given bytes, as the chunks `Pieces` cuts them into, behind the chunks that are there; cached length and head offset stay right |
| `ByteQueue.PiecesShape` | bio.c:93-105 | these chunks are the bytes in order, all but the last of exactly 4096 |
| `ByteQueue.Bio.Read` | bio.c:113-138 | removes and returns the first min(n, pending) bytes; old contents = returned bytes followed by new contents |
| `ByteQueue.Bio.Peek` | bio.c:140-160 | returns the prefix that a read would take, without changing the queue |
| `ByteQueue.Bio.Consume` | bio.c:162-164 | drops and counts the same prefix, so peek then consume is read |
| `ByteQueue.Bio.Pending` | bio.c:109-111 | the cached length is the number of queued bytes |
| `ByteQueue.Bio.Reset` | bio.c:76-87 | empties the queue |
| `RedBlackTree.RotateLeftEntries` | tree.h:340-359 | a left rotation keeps the in-order entries |
| `RedBlackTree.RotateRightEntries` | tree.h:361-380 | a right rotation keeps the in-order entries |
| `RedBlackTree.PlugEntries` | tree.h:340-359 | a subtree under its ancestors contributes its entries between what lies left and right of it, so ancestors never need to be revisited |
| `RedBlackTree.HeightBound` | tree.h:48-56 | a red-black tree of n nodes has height at most 2*log2(n+1), as 2^height <= (n+1)^2 |
| `StreamTable.InsertColor` | tree.h:409-449 | from one possible red-red violation at the focus, restores all colour rules and equal black height, keeps the entries, terminates |
| `StreamTable.InsertFixLeft` | tree.h:414-429 | one iteration under a left parent moves the only violation strictly upwards or removes it |
| `StreamTable.InsertFixRight` | tree.h:430-446 | the mirrored iteration |
| `StreamTable.InsertRecolourLeft` | tree.h:415-421 | with a red uncle, recolouring moves the only possible violation up to the grandparent, black heights and entries unchanged |
| `StreamTable.InsertRecolourRight` | tree.h:431-437 | the mirrored recolouring |
| `StreamTable.InsertRotateLeft` | tree.h:422-428 | with a black uncle the inner-to-outer rotation and the final one leave a black top over two good subtrees of the focus's black height, holding the same entries in order |
| `StreamTable.InsertRotateRight` | tree.h:438-444 | the mirrored rotations |
| `StreamTable.Descend` | tree.h:597-606 | the search ends at the key or at the one null child where it belongs: everything before is smaller, everything after larger |
| `StreamTable.RbInsert` | tree.h:592-618 | adds exactly the new key to the map and keeps order and colours; on a duplicate returns the existing value and leaves the tree unchanged |
| `StreamTable.RemoveColor` | tree.h:451-524 | from a focus one black node short, restores all colour rules and equal black height, keeps the entries, terminates |
| `StreamTable.RemoveFixLeft` | tree.h:456-487 | one iteration on the left: the sibling is never null, and the deficit is removed, moved up, or left on a red focus |
| `StreamTable.RemoveFixRight` | tree.h:488-520 | the mirrored iteration |
| `StreamTable.RecolourLeft` | tree.h:463-469 | with both nephews black, reddening the sibling balances the subtree one black short of before, entries unchanged |
| `StreamTable.RecolourRight` | tree.h:495-501 | the mirrored recolouring |
| `StreamTable.RaiseSiblingLeft` | tree.h:458-462 | a red sibling is replaced by a black one that exists, deficit and entries unchanged |
| `StreamTable.RaiseSiblingRight` | tree.h:490-494 | the mirrored step |
| `StreamTable.FinishLeft` | tree.h:470-486 | with a red nephew the final rotations supply the missing black node |
| `StreamTable.FinishRight` | tree.h:502-518 | the mirrored rotations |
| `StreamTable.Splice` | tree.h:573-588 | unlinking a node with at most one child removes just that node and leaves a red-black tree |
| `StreamTable.ReplaceBySuccessor` | tree.h:533-571 | with two children the in-order successor takes the place and colour of the removed node, and only the removed entry disappears |
| `StreamTable.RemoveNode` | tree.h:526-589 | removing the focused node drops exactly its entry and leaves a red-black tree |
| `StreamTable.RbRemove` | tree.h:526-589 | removes exactly the given key from the map, keeping order and colours |
| `StreamTable.Table.Find` | tree.h:620-634 | returns the stream the map holds for the key, or none |
| `StreamTable.Table.Insert` | mux.c:83-90 | the table is the map with the new stream added; an existing key changes nothing |
| `StreamTable.Table.Remove` | mux.c:92-101 | the table is the map without that key |
| `StreamTable.Table.DepthBound` | tree.h:55-56 | every table reachable by inserts and removes obeys the height bound |
| `Wire.HeaderRoundTrip` | mux.c:48-61 | the getters read back what the encoder stored, big-endian |
| `Wire.HeaderIsItsEncoding` | mux.c:48-61 | every version-0 header is the encoding of its own fields |
| `Wire.ParseEncodeAll` | mux.c:620-634 | the frame format is unambiguous: a concatenation of whole frames is split into exactly those frames (`FrameLevel.ParsedIsHandled` ties this to session_process) |
| `Wire.ParseIsPrefix` | mux.c:48-61 | splitting invents nothing: the frames found re-encode to a prefix of the bytes |
| `Octets.SameReading` | mux.c:29-38 | the getters, type numbers and flag tests of the code read the octets the specification names: version and type in octets 0 and 1, SYN, ACK, FIN, RST in the low bits of octet 3, id and length in octets 4-7 and 8-11 |
| `Octets.WritesOctets` | mux.c:48-55 | the encoder writes 0, the type, 0, the flags, and four octets each of id and length |
| `Protocol.IterateProgress` | mux.c:964-995 | each iteration of session_process keeps the parser invariant and strictly shrinks the receive buffer, so it terminates and the handlers' assertions hold |
| `Protocol.ProcessParser` | mux.c:964-995 | a whole call keeps the parser invariant and, unless it fails, leaves nothing it could still do |
| `Protocol.OpenEffect` | mux.c:1045-1076 | opening announces the stream at once, by a WINDOW_UPDATE with SYN and no credit |
| `Protocol.ChunkKnown` | mux.c:801-842 | delivering one chunk does not change what the payload loop finally does |
| `Protocol.ChunkUnknown` | mux.c:833-841 | one request of the discard branch does not change what the payload loop finally does |
| `FrameLevel.WholeFrames` | mux.c:964-995 | session_process fed whole frames and then any bytes does what the frames say, one by one, and then deals with the rest; it fails exactly when a frame does, in the same state |
| `FrameLevel.FramesHandled` | mux.c:968-992 | fed exactly whole frames it ends at a frame boundary with nothing left over |
| `FrameLevel.ParsedIsHandled` | mux.c:968-992 | on any bytes, the frames that parsing finds are those session_process handles first |
| `FrameLevel.WholeIsExact` | mux.c:833-841 | input that ends with a whole frame never makes the discard branch miscount |
| `Mux.Stream.ProcessFlags` | mux.c:322-354 | ACK, FIN and RST transitions, the wake-ups and the protocol error, as in the semantics |
| `Mux.Stream.SendFlags` | mux.c:400-418 | SYN is owed in INIT, ACK in SYN_RECEIVED, nothing otherwise; sending moves the state |
| `Mux.Stream.Deliver` | mux.c:810-832 | bytes are appended, the window falls by their number, the stream becomes readable |
| `Mux.Stream.Take` | mux.c:556-566 | the oldest bytes are returned and the readable flag falls exactly when none are left |
| `Mux.Stream.Spend` | mux.c:636-646 | the send window falls by the amount sent and the writeable flag falls exactly when it reaches 0 |
| `Mux.Stream.AddCredit` | mux.c:883-892 | credit is added in uint32 and the stream becomes writeable |
| `Mux.Stream.Offer` | mux.c:425-439 | flag, credit and the decision whether a frame is due |
| `Mux.Session.constructor` | mux.c:655-698 | the initial session |
| `Mux.Session.GoAwayForReason` | mux.c:370-380 | go-away is recorded and announced by one frame |
| `Mux.Session.NewStream` | mux.c:240-291 | a fresh stream with full windows enters the table; all other streams are untouched |
| `Mux.Session.Adopt` | mux.c:83-90 | inserting a stream under an unused id changes the table at that id only |
| `Mux.Session.FindStream` | mux.c:103-111 | the stream with that id, or none |
| `Mux.Session.IncomingStream` | mux.c:706-749 | RST under go-away, error on a duplicate, otherwise a new stream queued for accept |
| `Mux.Session.NotifyAccept` | mux.c:382-398 | the id joins the end of the accept queue |
| `Mux.Session.CheckFlags` | mux.c:768-776 | flags are applied to the header's stream; a bad transition sends a go-away |
| `Mux.Session.DataHeader` | mux.c:757-799 | everything session_handle_data does before its payload loop |
| `Mux.Session.Admit` | mux.c:781-799 | a payload beyond the receive window sends a go-away and fails, any other starts |
| `Mux.Session.PayloadLoop` | mux.c:801-848 | the chunk loop delivers, or discards, exactly as the closed form says |
| `Mux.Session.DeliverChunk` | mux.c:806-841 | one iteration for a known stream: peek, hand over, consume |
| `Mux.Session.DiscardChunk` | mux.c:833-841 | one iteration of the discard branch |
| `Mux.Session.HandleData` | mux.c:751-850 | implements the DATA handler |
| `Mux.Session.HandleWindowUpdate` | mux.c:852-894 | implements the WINDOW_UPDATE handler |
| `Mux.Session.HandlePing` | mux.c:896-917 | implements the PING handler |
| `Mux.Session.HandleGoAway` | mux.c:919-941 | implements the GO_AWAY handler |
| `Mux.Session.Handle` | mux.c:943-962 | dispatch on the header type |
| `Mux.Session.Process` | mux.c:964-995 | the parsing loop over the real buffers computes the recursive frame-level semantics and keeps the parser invariant |
| `Mux.Session.SendWindowUpdate` | mux.c:420-447 | implements send_window_update |
| `Mux.Session.StreamRead` | mux.c:508-577 | implements stream_read, with its end-of-file, reset and would-block results |
| `Mux.Session.SendData` | mux.c:621-634 | two appends make one whole DATA frame |
| `Mux.Session.StreamWrite` | mux.c:579-648 | implements stream_write, with its closed and would-block results |
| `Mux.Session.Open` | mux.c:1045-1076 | implements session_open, with refusal and the failing insert assertion |
| `Mux.Session.Accept` | mux.c:1078-1101 | implements session_accept; with nothing queued, where the source waits, it changes nothing |
| `Mux.Session.GoAway` | mux.c:1002-1004 | implements session_go_away |
| `Mux.Session.RecvBufWrite` | mux.c:1006-1015 | received bytes are appended to the receive buffer |
| `Mux.Session.SendBufPeek` | mux.c:1026-1033 | returns a prefix of the send buffer |
| `Mux.Session.SendBufConsume` | mux.c:1035-1043 | drops that prefix |
| `Fragmentation.PayloadInSync` | mux.c:833-841 | frame_remain falls by the bytes consumed if and only if the stream is known, the payload is fully buffered, or the buffered bytes are a multiple of 4096 |
| `Fragmentation.ProcessReceive` | mux.c:964-995 | processing what is there and then the rest equals processing everything at once |
| `Fragmentation.ProcessFails` | mux.c:964-995 | a call that fails also fails with more input already buffered |
| `Fragmentation.PiecemealIsAtOnce` | mux.c:1006-1015 | feeding chunks one by one equals feeding their concatenation, on the whole session state, and both fail or neither does |
| `Fragmentation.FragmentationIndependence` | mux.c:964-995 | any two ways of cutting up the same input agree on failure and, without one, on streams, windows, buffers, emitted frames and parser state |
| `Fragmentation.NeverDiscardsIsExact` | mux.c:801-842 | input for known streams only always satisfies the side condition of fragmentation independence |
| `Discard.DiscardCut` | mux.c:833-841 | a frame for an unknown stream, a refused SYN included, cut in two leaves the parser in step if and only if the cut is at a multiple of 4096 payload bytes or at the end, and then both pieces do what the whole does |
| `Discard.DiscardLosesSync` | mux.c:833-841 | a server that has gone away drops a client's open and write in one piece, but fails if they are cut after the first payload byte, both sessions running this code from their initial states |
| `EndpointSteps.OpenInv` | mux.c:1045-1076 | session_open keeps the two-endpoint invariant |
| `EndpointSteps.AcceptInv` | mux.c:1078-1101 | session_accept keeps it |
| `EndpointSteps.WriteInv` | mux.c:579-648 | stream_write keeps it |
| `EndpointSteps.ReadInv` | mux.c:508-577 | stream_read keeps it |
| `EndpointInput.HeaderInv` | mux.c:751-799 | handling a header moves its credit, acknowledgement or announced payload out of flight without loss |
| `EndpointInput.PayloadInv` | mux.c:801-848 | the payload loop moves bytes from flight to the stream without loss |
| `EndpointInput.ProcessInv` | mux.c:964-995 | session_process keeps the two-endpoint invariant, succeeds, and discards nothing |
| `EndpointRuns.Reachable` | mux.c:1006-1043 | the invariant holds in every state of every run, with the frames in flight parsed from the bytes |
| `EndpointRuns.Delivery` | mux.c:556-577 | bytes written = bytes read, then bytes waiting, then payload in flight, in order, for every stream and direction |
| `EndpointRuns.CreditConservation` | mux.c:619-640 | send window + data in flight + credit in flight = receive window |
| `EndpointRuns.WindowsBounded` | mux.c:878-885 | no window exceeds 262144 on either side, even after all credit in flight arrives, so no uint32 update wraps |
| `EndpointRuns.NeverFails` | mux.c:781-792 | session_process never fails: no window exceeded, no duplicate SYN; and the discard branch is never taken |
| `EndpointRuns.OpenNeverAborts` | mux.c:83-90 | between two endpoints running this code the insert assertion holds on every open until the id counter wraps to 0 (`OpenRuns.OpenExactly` is the statement for any peer) |
| `EndpointRuns.AcceptOrder` | mux.c:382-398 | accepted ids, queued ids and SYNs in flight together are the peer's opens, in order; every queued id names a stream |
| `EndpointRuns.Handshake` | mux.c:400-418 | one ACK per accepted stream, in flight or received; the opener is established only if the peer accepted |
| `EndpointRuns.NoDeadlock` | mux.c:427-441 | a sender with window 0 and nothing in flight faces a receiver with more than 131072 unread bytes and its readable flag set |
| `EndpointProgress.CanCatchUp` | mux.c:556-576 | from every state of the invariant there is a continuation that delivers everything and reopens the window |
| `EndpointProgress.NeverStuck` | mux.c:603-617 | every run has a continuation in which nobody writes, after which all bytes written on the stream are delivered and its sender may send more than half a window |
| `EndpointRuns.HeldIsOpen` | mux.c:113-209 | a stream the application holds is SYN_SENT or ESTABLISHED; readable is up exactly if bytes are unread, writeable exactly if the send window is not 0 |
| `EndpointRuns.ReadAnswers` | mux.c:508-577 | in every state of every run a read of a held stream returns the first min(size, unread) bytes if any are unread, and otherwise would block and changes nothing; never end of file, never reset |
| `EndpointRuns.WriteAnswers` | mux.c:579-648 | a write to a held stream accepts min(send window, length) bytes if the window is not 0, and otherwise would block and changes nothing; it is never told that the stream is closed |
| `GoAwayShadow.LeaveShadow` | mux.c:1002-1004 | going away leaves unchanged everything the invariant says about streams that are not refused |
| `GoAwayInput.HeaderShadow` | mux.c:706-749 | every header, from a peer that may have gone away to a session that may have, is handled without failure and keeps the books of all streams that are not refused |
| `GoAwayInput.PayloadShadow` | mux.c:801-848 | so does every payload, delivered or discarded, whose bytes are counted right |
| `GoAwayInput.ProcessShadow` | mux.c:964-995 | a session_process call that miscounts no discarded payload succeeds and keeps those books |
| `GoAwayRuns.Delivery` | mux.c:714-722 | with go-aways on either side at any time: on every stream the receiver has taken in, bytes written = bytes read, then waiting, then in flight, in order |
| `GoAwayRuns.CreditConservation` | mux.c:619-640 | and credit is conserved, within 262144, on every stream neither side has refused |
| `GoAwayRuns.NeverFails` | mux.c:964-995 | and session_process does not fail while no discarded payload is miscounted |
| `GoAwayRuns.InStepExactly` | mux.c:837-841 | an iteration keeps the parser in step with the frames in flight if and only if it does not miscount a discarded payload |
| `GoAwayRuns.RefusedAreReset` | mux.c:714-722 | an opened stream is reset, or its RST is on the way, exactly once, if and only if the peer received its SYN and does not have it; and only because the peer went away |
| `GoAwayRuns.NoDeadlock` | mux.c:427-441 | with go-aways: a sender with window 0 and nothing in flight, on a stream neither side has refused, faces a receiver with more than 131072 unread bytes and its readable flag set |
| `GoAwayRuns.OpenNeverAborts` | mux.c:83-90 | with go-aways: between two endpoints running this code the insert assertion holds on every open until the id counter wraps to 0 |
| `GoAwayProgress.BufferedExact` | mux.c:833-841 | with the rest of the payload and whole frames buffered, session_process miscounts nothing |
| `GoAwayProgress.NeverStuck` | mux.c:603-617 | with go-aways: every run has a continuation, in step and without writes or further go-aways, after which all bytes written on a stream the receiver has not refused are delivered and its sender may send more than half a window |
| `SessionEvolution.ProcessEvolves` | mux.c:964-995 | on any input, session_process emits only whole pings, go-aways and resets, moves streams only forward, and only appends to the accept queue |
| `SessionRuns.WireRoundTrip` | mux.c:356-368 | what was sent and what is pending together are the whole frames ever queued, in order, and split into exactly these |
| `SessionRuns.ParserInvariant` | mux.c:797-848 | at every call boundary new_frame holds iff frame_remain is 0, and outstanding payload belongs to a DATA header |
| `SessionRuns.AcceptQueue` | mux.c:1078-1100 | queued and accepted ids are distinct, name streams in the table, and none was opened here, so the assertion after the lookup holds |
| `SessionRuns.HandshakeFrames` | mux.c:400-418 | exactly one SYN per opened stream, before anything else said for it; exactly one ACK per accepted stream unless FIN or RST came first |
| `SessionRuns.NothingUndone` | mux.c:714-722 | states never fall, streams stay, go-aways stick; after a local go-away no stream is taken in, after a remote one none is opened |
| `SessionRuns.RunsOnlyMoveForward` | mux.c:1049-1052 | the same for every run from the initial session and every continuation: in particular no stream is opened after a remote go-away |
| `SessionRuns.EveryRequestRefused` | mux.c:714-722 | within one session_process call after a local go-away, one RST per SYN-bearing DATA or WINDOW_UPDATE header, naming its stream, in order |
| `RefusalRuns.RefusalsExactly` | mux.c:714-722 | over any run against any peer, the RST frames queued name exactly the streams asked for since the local go-away, one per request and in order; no other call queues RST |
| `Ledger.ProcessBooked` | mux.c:751-894 | on any input, session_process leaves every stream as the account says that is kept only from the headers and payload octets taken off: state, both windows, buffer, both flags, and whether it exists |
| `Ledger.ItemsAreInput` | mux.c:964-995 | these headers and payload octets, put together, are exactly the input a successful call took off, in order |
| `LedgerRuns.AllHeadersCount` | mux.c:972-991 | and the headers among them are all those the call handled, in order |
| `LedgerRuns.TableExactly` | mux.c:706-749 | over any run against any peer, a stream exists if and only if it was opened here or a SYN for it was heeded |
| `LedgerRuns.StateExactly` | mux.c:322-354 | a stream is RESET if and only if an RST for it was heeded, REMOTE_CLOSE if and only if a FIN and no RST was, on DATA and WINDOW_UPDATE headers alike; without either, ESTABLISHED if and only if an ACK came (opened here) or it was accepted (opened by the peer) |
| `LedgerRuns.WindowsExactly` | mux.c:878-885 | modulo 2^32, send window = 262144 + the lengths of all WINDOW_UPDATE headers heeded for the stream, the one that took it in included - bytes written; receive window = 262144 + credit granted - payload received |
| `LedgerRuns.BufferExactly` | mux.c:801-832 | payload received = bytes read, then bytes waiting, in order; readable is up exactly if bytes wait or FIN or RST came and no read has emptied the buffer since; writeable exactly if no write used up the window since credit, FIN or RST last came |
| `LedgerRuns.ReadExactly` | mux.c:508-560 | against any peer: a read fails as reset if and only if RST came; returns end of file if and only if FIN and no RST came and nothing is unread; would block if and only if neither came and nothing is unread; otherwise returns the oldest min(size, unread) bytes; without bytes nothing changes |
| `LedgerRuns.GrantExactly` | mux.c:420-447 | a read queues a WINDOW_UPDATE if and only if it leaves at least 131072 bytes read and not granted again, modulo 2^32: these twelve bytes, granting them all |
| `LedgerRuns.WriteExactly` | mux.c:579-634 | against any peer: a write is told the stream is closed if and only if RST came; would block if and only if no RST came and the window of the account is 0; otherwise accepts min(window, length) bytes and queues them as one DATA frame, byte by byte; otherwise nothing changes |
| `LedgerRuns.AcceptExactly` | mux.c:1078-1101 | against any peer: session_accept returns the oldest waiting stream and queues exactly one ACK without credit for it, by bytes, unless FIN or RST came first, and then nothing |
| `Answers.ProcessSays` | mux.c:706-941 | for any session and input: session_process queues a pong with its value per SYN ping and, if it has gone away, an RST per SYN for a stream, in the order of the headers, and a go-away with code 1 last of all if and only if it fails on a header for a stream; nothing else; all by bytes. It goes away by itself only so, and takes the peer to have gone away exactly after a go-away with code 0 |
| `Arrivals.HeadersAreSent` | mux.c:976-991 | of whole frames that all succeed, session_process handles exactly their headers, in order |
| `Arrivals.SentIsHandled` | mux.c:356-368 | everything a session has ever queued, handed to any peer at a frame boundary, is handled by session_process frame by frame as it was queued |
| `Arrivals.RequestsQueued` | mux.c:724-748 | against any peer, session_process queues exactly the streams asked for by the SYN-bearing headers it handles, in order; an initial part of them if it gives up with a go-away |
| `Arrivals.ArrivalOrder` | mux.c:382-398 | over any run against any peer, accepted and queued streams are the streams asked for, in order of arrival, unless session_process failed, and then an initial part |
| `RecvLock.NextSafe` | mux.c:810-824 | each critical section keeps window + unread + unreported = 262144 and the window above the undelivered rest |
| `RecvLock.LockGranularity` | mux.c:781-792 | for any interleaving of parser and readers: window + unread <= 262144, the credit computation is exact, `recv_window -= r` cannot underflow |
| `RecvLock.CreditExact` | mux.c:427-439 | for any interleaving, credit granted = bytes taken less what is still unreported |
| `RecvLock.ReadersExactly` | mux.c:535-558 | in any state of any interleaving, no way of finishing the reads under way fails the assertion in stream_read if and only if at most one reader of the stream has seen bytes, and they are still there |
| `RecvLock.OneReaderPerStream` | mux.c:535-558 | with one reader at a time on each stream the assertion holds in every interleaving |
| `RecvLock.TwoReadersAbort` | mux.c:556-558 | two readers that both look before either takes fail it, wherever there is something to read |
| `RecvLock.WakeUpLost` | mux.c:556-566 | for any interleaving, something comes to wait with readable down, and nobody about to put it up, exactly when a reader takes the flag down for a buffer refilled and announced since, or with the end of the stream still to be reported |
| `RecvLock.WakeUpIsLost` | mux.c:806-832 | a schedule of one frame in two chunks and one read that does it |
| `WakeUp.OneStep` | mux.c:113-209 | for readable and writeable alike, racing writers and the notifications of FIN and RST included, the steps that lose a wake-up and those that fake one; a FIN, which does not end writing, fakes one for a writer without window |
| `WakeUp.LostExactly` | mux.c:113-209 | over any run of any number of threads, no wake-up is ever lost if and only if no flag is taken down late and no racing writer overdraws an empty window, and none faked if and only if no flag is put up late, no credit overflows and no FIN comes to a writer without window |
| `WakeUp.TurnsSuffice` | mux.c:642-646 | if callers take turns, then at rest the flag is up if and only if there are bytes or window, or FIN or RST has come and the flag has not been taken down since; it is up for nothing if and only if that was a FIN to a writer without window |
| `WakeUp.EndLost` | mux.c:336-351 | the end of a stream falls silent whenever FIN or RST comes while something is unread and all of it is then read |
| `WakeUp.NextPutRepairs` | mux.c:887-892 | the next notification repairs a lost wake-up |
| `SendLock.CounterRight` | mux.c:636-640 | for any interleaving of any number of writers and any credit, send_window is what it ought to be if and only if what was taken off never exceeds 262144 plus all credit, and the difference fits |
| `SendLock.CoveredExactly` | mux.c:619-640 | no way of finishing the writes under way, with whatever credit arrives, makes send_window wrap if and only if it covers what they accepted |
| `SendLock.WriteMayBegin` | mux.c:600-603 | a further write may begin without that risk if and only if what it accepts fits beside what other threads have accepted |
| `SendLock.OneWriterPerStream` | mux.c:579-648 | with one writer at a time per stream and an honest peer: no update wraps, send_window is exact, within 262144 between writes and 524288 during one, and the peer's window is never overrun |
| `SendLock.TwoWritersOverrun` | mux.c:600-602 | two racing writers that overrun the peer's window and wrap the counter |
| `SendLock.CreditRescues` | mux.c:883-885 | the same two with credit arriving in between, which ends right |
| `SharedBuffer.WholeExactlyWhenSerial` | mux.c:625-630 | whatever any number of threads write, the send buffer parses back into the frames written if and only if no append comes between a header and its payload |
| `SharedBuffer.TwoWrites` | mux.c:625-630 | two given writes survive any of their interleavings if and only if the first one's payload commutes, as bytes, with what slipped in before it |
| `SharedBuffer.TwoWritesFail` | mux.c:625-630 | a concrete pair of one-byte writes that survives neither broken order |
| `StreamIds.ClientIds` | mux.c:1053-1064 | for any interleaving of openers a client hands out 1, 3, 5, ... without repetition, below next_id |
| `StreamIds.ServerIds` | mux.c:1053-1064 | a server's ids are even, and distinct if and only if at most 2^31 were handed out |
| `StreamIds.ServerCounterWraps` | mux.c:1055-1062 | a server's ids stay below next_id until 4294967294 is handed out, which makes it 0 |
| `OpenRuns.OpenExactly` | mux.c:1049-1064 | over any run against any peer: session_open hands out this side's ids in order; it refuses if and only if the peer went away or a client is at its last id; the insert assertion fails if and only if, short of that, the peer asked for the next id or a server has been through all its 2^31 ids |
| `OpenRuns.OtherParityPeer` | mux.c:83-90 | with a peer that only asks for ids of the other parity it fails if and only if a server has been through all its ids, and never for a client |
| `OpenRuns.ServerIdsRunOut` | mux.c:1055-1062 | a server that only opens streams hands out 2^31 ids, the last being 0, and then aborts |
| `OpenRuns.ForeignSynAborts` | mux.c:724-734 | a peer's SYN for the id this side will open after k more makes exactly that open abort, from the initial session |
| `TableLock.ClearExactly` | mux.c:83-90 | in any state of any interleaving, no order of the inserts under way fails the insert assertion, in session_open or in session_process, if and only if their ids are new to the table and different from each other |
| `TableLock.InsertExactly` | mux.c:724-734 | over any run of any number of opening threads and any peer, every order of the inserts under way passes the assertion, as did every insert so far, if and only if no step claimed an id that was in the table or about to be and no SYN asked for an id claimed here but not yet inserted |
| `TableLock.OtherParityPeer` | mux.c:1055-1064 | with a peer that only asks for ids of the other parity, the assertion holds in every insert so far and in every order of those under way if and only if at most 2^31 ids were claimed; for a client always |
| `TableLock.ProcessAborts` | mux.c:724-734 | a SYN for an id claimed but not yet inserted: the look-up finds nothing, the opening thread inserts, and the assertion fails in session_process |
| `WindowRuns.WindowsHold` | mux.c:781-824 | over any run against any peer that opens no stream in the middle of a payload larger than its window: no receive window wraps, window and unread bytes stay within 262144, and the window covers the outstanding payload |
| `WindowRuns.MidFrameOpen` | mux.c:764-799 | for a stream just opened, no schedule of arrivals, session_process calls, reads and other calls wraps its window if and only if it was not opened in the middle of a payload for its id larger than its window |
| `WindowRuns.UncheckedPayload` | mux.c:764-799 | header, open and payload that wrap the window, from the initial session and by bytes |
| `Signals.HearControl` | mux.c:964-995 | the bytes of a control frame are handled as one frame and fully consumed |
| `Signals.PingAnswered` | mux.c:896-917 | a ping is answered once, with its own value, on stream 0; an answer is not answered |
| `Signals.PingPongEnds` | mux.c:896-917 | between two sessions a ping costs exactly one answer |
| `Signals.GoAwayHeard` | mux.c:919-941 | whatever its flags and stream id: code 0 forbids opening, any other code is an error that changes nothing |
| `Signals.FinHeard` | mux.c:330-347 | FIN is accepted if and only if the stream is not yet remotely closed or reset; it half-closes and loses nothing; in LOCAL_CLOSE it closes |
| `Signals.WriterSpins` | mux.c:587-617 | after FIN writeable is up, and a write would wait again and changes nothing if and only if the window was 0 when FIN came |
| `Signals.HalfCloseDrains` | mux.c:515-527 | after a half-close reads return everything that arrived, in order, then end of file, and never block |
| `Signals.EofSignalled` | mux.c:562-566 | after FIN and the reads that drain the stream, readable is up, so that the end of file is seen by polling, if and only if nothing was unread when FIN arrived |
| `Signals.RstHeard` | mux.c:348-351 | RST always resets: reads fail, writes take nothing, no flag revives the stream |
| `Signals.FinWithData` | mux.c:768-799 | FIN on a DATA frame, with or without payload, is accepted in the same states; it half-closes, and the payload still counts |
| `Signals.RstWithData` | mux.c:348-351 | RST on a DATA frame, with or without payload, resets the stream: reads fail, writes take nothing |
| `Signals.FailsExactly` | mux.c:964-985 | session_process fails if and only if a header has another version than 0, a type above 3, is a go-away with a code other than 0, asks twice for a stream, finishes a stream that is remotely closed, reset, closed or not announced, or announces more data than the receive window; never within a payload |
| `Signals.FailureAnnounced` | mux.c:768-790 | and then the last twelve bytes it queues are the go-away with code 1, except for a foreign version, an unknown type or the peer's own go-away, which change nothing |
| `Literals.PingBytes` | mux.c:896-917 | 00 02 and any flags, id and value: with SYN, 00 02 00 02 00 00 00 00 and the value is queued, without it nothing; nothing else changes |
| `Literals.GoAwayBytes` | mux.c:919-941 | 00 03 and any flags, id and code: succeeds if and only if the code is 0, and then no stream can be opened; nothing else changes |
| `Literals.SynBytes` | mux.c:706-749 | 00 01 00 01, id, credit: the stream is taken in with 262144 + credit and queued for accept; refused by 00 01 00 08, id, 0 after a go-away; asked for twice, answered by the go-away with code 1 |
| `Literals.AckBytes` | mux.c:322-330 | 00 01 00 02, id, credit: SYN_SENT becomes ESTABLISHED, the credit counts |
| `Literals.CreditBytes` | mux.c:878-892 | 00 01 00 00, id, credit: the send window grows modulo 2^32, writeable goes up if it grows |
| `Literals.DataBytes` | mux.c:801-832 | 00 00 00 00, id, length, payload within the window: appended, window lowered, readable up |
| `Literals.FinBytes` | mux.c:331-347 | FIN on either type, by bytes: REMOTE_CLOSE and both flags up; a second one is answered by the go-away with code 1 |
| `Literals.RstBytes` | mux.c:348-351 | RST on either type, by bytes: RESET and both flags up |
| `Literals.ForeignBytes` | mux.c:977-984 | a header of another version or an unknown type, whatever follows, makes session_process fail without a word |
| `Literals.DiscardCounts` | mux.c:833-841 | payload of an unknown stream is dropped as far as it is there, and frame_remain falls by 4096 per request, to 0 at most |
| `Literals.OpenBytes` | mux.c:1045-1076 | session_open queues 00 01 00 01, id, 0, or changes nothing |
| `Literals.UpdateBytes` | mux.c:420-447 | send_window_update queues a frame if and only if a flag is owed or the credit is at least 131072: 00 01 00, the flag (1 in INIT, 2 in SYN_RECEIVED), id, all the credit |
| `Literals.AcceptBytes` | mux.c:1078-1101 | session_accept queues 00 01 00 02, id, credit for a stream that waits for it |
| `Literals.WriteBytes` | mux.c:619-634 | stream_write queues 00 00 00, the flag owed, id, length, data for the min(window, length) bytes it accepts, or changes nothing |
| `Literals.LeaveBytes` | mux.c:1002-1004 | session_go_away queues 00 03 and ten zero octets |
| `Literals.FirstOpenBytes` | mux.c:670-680 | the first stream of a client has id 1, of a server id 2 |

## Left out

- Parent pointers of the tree: a node's ancestors are a path value beside the focused subtree; aliasing of node objects and the in-place rewriting of their fields are not captured.
- `RB_NEXT`, `RB_PREV`, `RB_NFIND`, `RB_MINMAX`, splay trees and the `RBT_*` interface: not used by the protocol.
- `queue.h`: the chunk list is a sequence of chunks.
- Output buffers passed to `bio_read`, `bio_peek` and `stream_read`: returned as sequences.
- Sockets, `select`, `would_block` and padding sizes: replaced by the `readable` and `writeable` flags and a FIFO of ids to accept; a call that would block returns a would-block result.
- `malloc` and socket failure paths, including the internal-error go-away, mutex initialisation and freeing of sessions and streams.
- Locks, outside the modules about threads: every public call is one atomic step. `state_lock` is not modelled: each section under it is a single step anyway.
- Mux.Session.Open: the compare-and-exchange loop is one step here; `StreamIds.dfy` models it for concurrent callers.
- Mux.Session.Accept: demands that a queued id names a stream, as the source's assertion does; `SessionRuns.AcceptQueue` proves it for every run. A non-blocking session socket, on which an empty queue is an error, is not modelled.
- GoAwayRuns.Delivery: says nothing of streams the receiver refused, whose bytes are discarded by design, nor of runs that continue after a discarded payload was miscounted, when the parser reads payload as headers.
- `stream_close`, `session_close`, `session_ping`, `session_exit` and disabled code: stubs in the source.
- `event-epoll.c`, `debug.c`, `misc.c`: event loop and logging around the library, with no part in the protocol.
