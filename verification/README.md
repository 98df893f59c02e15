# Proofs about the NPS multiplexer and the tunnel control plane

This directory is a Dafny 4.11 model of parts of the repository, with proofs that
`dafny verify dfyconfig.toml` checks. Three parts are covered.

**The NPS stream multiplexer** (`upstream/NPS/lib/nps_mux`). `FlowControl` is the credit-based
flow control of one direction of one connection as a state machine: one step is one load, one
compare-and-swap, one channel operation or one frame delivery, and the steps of the writer, of
the two frame readers and of the reading application interleave in every possible way.
`FlowInvariant` and `FlowSafety` prove what all runs keep, `FlowMessages` what one Read returns,
`FlowWindow` how the window is used, and `FlowLiveness` that every call ends unless it waits for
the other application. `Ring` and `Dequeue` treat the lock-free ring with its wrapping 32-bit
indices, for many producers and one consumer; `RingChain` the growing chain of rings, for one
producer and one consumer; `DequeueProgress` and `ChainProgress` prove that their calls return and
that their verdicts are true. `PriorityQueue`, `FrameCodec` and `Window` are the write queue, the
frame format and the packed words.

**The control plane** (`internal/core`, `internal/integrated`). `Registry` states each operation
of `Store` as a function of the database, `Store` performs it on maps with the code's loops and
is proved equal to it. `RegistryExact` says when each operation succeeds and what it then stores,
`RegistrySafety` and `RegistryExpiry` prove what every run of operations keeps. `Reconcile` states `SyncNPSState` as a function of the node's tables, `NodeDb` performs it
on an object with those tables. `ReconcileSafety`, `ReconcileStability` and `ReconcileExact` prove
that it converges, that doing it again changes nothing, and exactly when it fails; `ReconcileRecords`
what the tables then hold, field by field; `ReconcileForever`
that repeating it never changes its outcome, and `ReconcileMove` is a run after which it fails for
good. `PortRanges`, `PortTexts` and `Domains` are the texts in which pools and domains travel; `Text` holds the
string functions of Go that they use.

**Self-contained pieces.** `UdpSession`, `UdpSafety`, `UdpPackets`, `UdpStreams` and `UdpLimit` are the
UDP forwarding server, again step by step; `ClientHello`, `ClientHelloParser`, `ClientHelloLaws` and
`Sni` the TLS ClientHello and the peek at it; `Lru` and `LruCache` the cache; `LogBuffer` and
`LogWindow` the launcher's log; `Socks5Udp` and `Socks5UdpBuffers` the SOCKS5 UDP datagrams.

Concurrent code is modelled as a state machine over values, because its point is the interleaving
of atomic steps on shared words. Sequential code that changes an object is a class, or a method
over an array, proved against a function of its arguments and its old state; a loop over a Go map
takes the keys in an arbitrary order.

## Where the steps come from

The functions of the state machines carry no contract of their own. Their sources, under
`upstream/NPS/`:

- `FlowControl.DoWriter`, `CutSize`: `lib/nps_mux/conn.go:445-451`, `508-578`, `580-635`
- `FlowControl.DoAck`: `lib/nps_mux/conn.go:453-506`
- `FlowControl.DoFrame`, `DoCalc`: `lib/nps_mux/conn.go:181-298`, `lib/nps_mux/queue.go:238-254`, `292-299`
- `FlowControl.DoReader`, `DoStatus`: `lib/nps_mux/conn.go:310-385`, `lib/nps_mux/queue.go:256-290`
- `FlowControl.Do`, the frames that arrive: `lib/nps_mux/mux.go:123-138`, `275-322`; the close: `lib/nps_mux/conn.go:67-83`
- `Ring.Claim`, `Store`, `Take`, `Advance`, `Dequeue.DoPush`, `DoPop`: `lib/nps_mux/queue.go:382-463`
- `RingChain.DoProducer`, `DoConsumer`: `lib/nps_mux/queue.go:507-590`
- `UdpSession.Effect`, `Next`, `Do`: `server/proxy/udp.go:99-266`, `server/proxy/base.go:78-86`, `lib/file/obj.go:82-96`

## Model

| member | source | states |
|---|---|---|
| FlowSafety.CreditConserved | upstream/NPS/lib/nps_mux/conn.go:453-524 | In every reachable state the send counter equals the bytes counted but not yet queued, plus those in data frames, plus everything side B still owes (thread, chain, popped or unfinished element, read counter, pending acknowledgements), plus acknowledgements in flight; it never exceeds the largest window ever adopted. |
| FlowSafety.DefensiveBranchesDead | upstream/NPS/lib/nps_mux/conn.go:348-385 | The branches for values that must not occur are unreachable for all interleavings: an acknowledgement above the send counter, the overflow in sent, the overflow in sendStatus, a compare-and-swap in SetSize that loses while the writer waits, an allow stopped by a close. |
| FlowSafety.DeliveredIsPrefix | upstream/NPS/lib/nps_mux/conn.go:310-346 | For any Write buffers and any Read buffer sizes the bytes read are a prefix of the bytes written. |
| FlowMessages.ReadIsExact | upstream/NPS/lib/nps_mux/conn.go:310-346 | A Read that has returned has the next bytes written: all up to the end of the Write that the first of them is from, or as many as its buffer holds, whichever is less; at least one, and none beyond that end. |
| FlowMessages.ReadGoesOn | upstream/NPS/lib/nps_mux/conn.go:339-345 | A Read that has copied something takes another element from the queue only if the one it has used up is marked as a part, and then it has not met the end of a Write. |
| FlowMessages.EofReadsNothing | upstream/NPS/lib/nps_mux/conn.go:323-333 | A Read that reports the end of the stream has copied nothing, so no bytes go with the error. |
| FlowMessages.StepKeepsMessages | upstream/NPS/lib/nps_mux/conn.go:310-346 | Every step keeps the ends of the Writes where they are in the stream: those not read yet are those of the segments on the way. |
| FlowSafety.DrainedMeansDelivered | upstream/NPS/lib/nps_mux/conn.go:609-635 | Once nothing is on the way the bytes read are exactly the bytes written. |
| FlowSafety.EofAfterEveryByte | upstream/NPS/lib/nps_mux/mux.go:296-299 | The reader sees the end of the stream only after every byte written before the peer's close, and then nothing more is written. |
| FlowSafety.SegmentsWellFormed | upstream/NPS/lib/nps_mux/conn.go:526-578 | Every data frame holds between 1 and 4085 bytes, and the part mark is set on all but the last segment of a Write. |
| FlowSafety.HandOffExact | upstream/NPS/lib/nps_mux/queue.go:238-299 | The queue's length is exactly what is in the chain, entering it or just taken from it; the wait mark implies length 0; a waiting reader is either marked or being woken, never both; a reader that saw data finds the chain empty only while a push is in progress. |
| FlowWindow.CutIsLargest | upstream/NPS/lib/nps_mux/conn.go:526-578 | WriteTo stops exactly at a full window; otherwise the segment is the front of the buffer, and is all of it, or 4085 bytes, or reaches the end of the window. |
| FlowWindow.StatusHoldsLittleBack | upstream/NPS/lib/nps_mux/conn.go:348-385 | After an element is read, all that was read is acknowledged, or it is kept as a count: exactly if it is less than half the window, more waits in the queue, and the window, if announced full, still is. |
| FlowWindow.DecideExact | upstream/NPS/lib/nps_mux/conn.go:260-298 | A segment that fills the window marks it and is not acknowledged, nor is one that meets the mark; any other acknowledges all that was read before it. |
| FlowWindow.CalcExact | upstream/NPS/lib/nps_mux/conn.go:212-252 | calcSize puts in the new size by a compare-and-swap that leaves read count and wait mark as they are, and starts again if the word has changed. |
| FlowWindow.LastSizeIsAdopted | upstream/NPS/lib/nps_mux/conn.go:453-506 | In every reachable state of an open sender with no acknowledgement under way, its window size is the one in the latest SendOk frame. |
| FlowSafety.StepKeeps | upstream/NPS/lib/nps_mux/conn.go:260-578 | Every step of every thread keeps the invariant of both sides, the account of credit and the byte stream. |
| FlowInvariant.AckKeepsSideA | upstream/NPS/lib/nps_mux/conn.go:453-506 | SetSize, step by step, keeps the send word within 31 bits and the wait bit true to a window without room. |
| FlowInvariant.FrameCredit | upstream/NPS/lib/nps_mux/conn.go:260-298 | No step of receiveWindow.Write creates or loses credit: what side B owes shrinks by exactly what it acknowledges. |
| FlowInvariant.ReaderCredit | upstream/NPS/lib/nps_mux/conn.go:310-385 | No step of Read or sendStatus creates or loses credit. |
| FlowInvariant.ReaderStream | upstream/NPS/lib/nps_mux/conn.go:310-346 | What a step of the reader copies out is exactly what disappears from behind it, in order. |
| FlowLiveness.BlockedWriterHasHelp | upstream/NPS/lib/nps_mux/conn.go:580-607 | Whenever the writer is blocked, some other thread can take a real step, or the application at the other side has unread data. |
| FlowLiveness.QuietPeerOwesNothing | upstream/NPS/lib/nps_mux/conn.go:348-385 | An idle receiver with nothing unread has acknowledged every byte it read. |
| FlowLiveness.StepUsesMeasure | upstream/NPS/lib/nps_mux/conn.go:260-635 | Every step of every thread but the busy loop, a lost compare-and-swap included, lowers one measure; only a Write adds to it, in proportion to its bytes. |
| FlowLiveness.RunIsBounded | upstream/NPS/lib/nps_mux/conn.go:260-635 | No lost wake-up and no endless exchange: in every run from the start all threads together take no more steps than 45, and 5 and 72 a byte for every Write. |
| FlowLiveness.QuietMeansWaiting | upstream/NPS/lib/nps_mux/conn.go:67-83 | Where no thread can take a step, a Write has returned or meets unread data that its peer is not reading; and a Read has returned, or all that was written has been read and the connection is open: a close always reaches a Read that waits. |
| FlowLiveness.EverythingGetsThrough | upstream/NPS/lib/nps_mux/conn.go:260-635 | No state is a dead end: from every reachable state a continuation lets every Write return and every byte be read. |
| FlowLiveness.BlockedWriterIsReleased | upstream/NPS/lib/nps_mux/conn.go:526-552 | In particular, under every schedule and every choice of window sizes, a run in which the writer stays blocked is no longer than the measure of the state it starts in. |
| Window.UnpackPack | upstream/NPS/lib/nps_mux/conn.go:127-146 | unpack inverts pack on every 31-bit size, 31-bit count and wait bit. |
| Window.PackInjective | upstream/NPS/lib/nps_mux/conn.go:137-146 | Words that pack to the same 64 bits are the same, so comparing packed words compares their fields. |
| Window.UnpackPair2 | upstream/NPS/lib/nps_mux/queue.go:382-395 | The same for the two 32-bit halves of the ring's index word. |
| Window.TryPopSubtracts | upstream/NPS/lib/nps_mux/queue.go:282-290 | The packed subtraction in TryPop lowers the length by exactly L and leaves the wait half alone. |
| Ring.FullIsExact | upstream/NPS/lib/nps_mux/queue.go:397-429 | The full test on wrapped 32-bit indices holds exactly when the ring is full. |
| Ring.EmptyIsExact | upstream/NPS/lib/nps_mux/queue.go:431-463 | The empty test on wrapped indices holds exactly when nothing is in the ring. |
| Ring.SlotsAreIndices | upstream/NPS/lib/nps_mux/queue.go:397-463 | The slot computed from a wrapped index is the slot of the unwrapped one, across every wrap-around. |
| Ring.AdvanceWord | upstream/NPS/lib/nps_mux/queue.go:447-463 | The tail is advanced by one in the packed word, also by the special addition at the wrap-around, and the head is left alone. |
| Ring.OwedSlotIsFree | upstream/NPS/lib/nps_mux/queue.go:397-429 | The slot a producer has claimed is empty until that producer fills it. |
| Dequeue.FirstInFirstOut | upstream/NPS/lib/nps_mux/queue.go:397-463 | For any number of producers and one consumer, values leave in the order in which the head's compare-and-swap admitted them, none twice. |
| Dequeue.NothingLost | upstream/NPS/lib/nps_mux/queue.go:397-463 | Every admitted value that has not been returned is in its slot or about to be stored there by its producer. |
| Dequeue.NothingOverwritten | upstream/NPS/lib/nps_mux/queue.go:421-428 | A producer's store never lands on a value. |
| Dequeue.TakeSucceeds | upstream/NPS/lib/nps_mux/queue.go:431-463 | The consumer takes exactly the oldest value. |
| Dequeue.VerdictsExact | upstream/NPS/lib/nps_mux/queue.go:397-463 | Full and empty are reported exactly when they are true. |
| DequeueProgress.RunIsBounded | upstream/NPS/lib/nps_mux/queue.go:397-463 | Lock freedom: in every run of k producers and one consumer all threads together take at most 4 + 2 k steps for each pushHead, 5 + 2 k for each popTail and 2 for each turn of popTail's busy loop, failed compare-and-swaps included. |
| DequeueProgress.NeverStuck | upstream/NPS/lib/nps_mux/queue.go:397-463 | A call that has not returned can always take a step. |
| DequeueProgress.SpinHasOwner | upstream/NPS/lib/nps_mux/queue.go:431-463 | The busy loop waits for one step of one producer, its store, and is over after it. |
| DequeueProgress.PopVerdict | upstream/NPS/lib/nps_mux/queue.go:431-441 | popTail returns nothing exactly if every admitted value had been returned when it loaded the word, and goes for the oldest otherwise. |
| DequeueProgress.PopTakes | upstream/NPS/lib/nps_mux/queue.go:441-463 | With the slot filled popTail takes the oldest value and returns exactly that, in three steps of its own. |
| DequeueProgress.PushVerdict | upstream/NPS/lib/nps_mux/queue.go:397-425 | pushHead reports a full ring exactly if no slot was free when it loaded the word, whatever happens before it looks; else it admits its value if the word is still the same and loads again if not. |
| DequeueProgress.PushAlone | upstream/NPS/lib/nps_mux/queue.go:397-429 | A pushHead that is left alone admits and stores its value in three steps, or finds the ring full and leaves it as it is. |
| DequeueProgress.PopAlone | upstream/NPS/lib/nps_mux/queue.go:431-463 | A popTail that is left alone returns the oldest value in four steps, if no producer still owes it. |
| RingChain.ChainIsFifo | upstream/NPS/lib/nps_mux/queue.go:507-590 | With one producer and one consumer, in every run and across every doubling, the values returned are the first of those given to pushHead, in the order of the calls; every value given is in a ring, except that of a push in progress. |
| RingChain.NothingLostInChain | upstream/NPS/lib/nps_mux/queue.go:516-550 | In every reachable state, also while a larger ring is built and linked, each value admitted and not returned is in its slot, held by the producer that is about to store it, or just taken by the consumer. |
| RingChain.DroppedRingsAreSpent | upstream/NPS/lib/nps_mux/queue.go:552-590 | A ring that the consumer drops has returned every value it ever held, and the producer never uses it again. |
| RingChain.RingsInOrder | upstream/NPS/lib/nps_mux/queue.go:516-590 | Rings are linked and left in order; no ring is skipped. |
| ChainProgress.EmptyIsTrue | upstream/NPS/lib/nps_mux/queue.go:552-590 | A popTail that returns nothing has nothing to return: in every run the value of every pushHead that had returned when it began has been returned already, however the chain grows meanwhile. |
| ChainProgress.RunIsBounded | upstream/NPS/lib/nps_mux/queue.go:507-590 | In every run producer and consumer together take at most 15 steps for each pushHead, 9 for each popTail and 2 for each turn of the busy loop, growing and moving on included. |
| ChainProgress.NeverStuck | upstream/NPS/lib/nps_mux/queue.go:507-590 | A call that has not returned can always take a step; the busy loop is over after the producer's next one. |
| ChainProgress.PushAlone | upstream/NPS/lib/nps_mux/queue.go:507-550 | From every reachable state a pushHead that is left alone returns, with its value behind all the others. |
| ChainProgress.PopAlone | upstream/NPS/lib/nps_mux/queue.go:552-590 | From every reachable state without a push in progress a popTail that is left alone returns the oldest value not returned yet. |
| ChainProgress.RingsDouble | upstream/NPS/lib/nps_mux/queue.go:526-536 | Each ring has twice the slots of the one before it, up to 2^30. |
| PriorityQueue.WriteQueue.Push | upstream/NPS/lib/nps_mux/queue.go:40-54 | The packet goes to the end of the class of its flag; the other classes and the counter stay. |
| PriorityQueue.WriteQueue.TryPop | upstream/NPS/lib/nps_mux/queue.go:86-118 | Serves the front of the class that the counter selects and leaves the rest in order. |
| PriorityQueue.NoneMeansEmpty | upstream/NPS/lib/nps_mux/queue.go:86-118 | TryPop returns nothing exactly when all three classes are empty, for every value of the counter. |
| PriorityQueue.ClassExact | upstream/NPS/lib/nps_mux/queue.go:40-54 | Pings are in the highest class, frames that open a connection in the middle one, all others in the lowest, by their numbers. |
| PriorityQueue.PingsGoFirst | upstream/NPS/lib/nps_mux/queue.go:86-118 | Over any events during which a ping waits, no packet of another class leaves. |
| PriorityQueue.LowestIsNotStarved | upstream/NPS/lib/nps_mux/queue.go:86-118 | A lowest packet with k before it sees at most 8 (k + 1) middle pops, from any counter value including after its wrap-around. |
| PriorityQueue.MiddleIsNotStarved | upstream/NPS/lib/nps_mux/queue.go:86-118 | A middle packet with k before it sees at most k + 5 lowest pops, from any counter value. |
| PriorityQueue.ClassIsFifo | upstream/NPS/lib/nps_mux/queue.go:34-118 | Over any events from any state, what waited in a class followed by what was pushed into it is what was popped from it followed by what waits now. |
| PriorityQueue.PopsIsLength | upstream/NPS/lib/nps_mux/queue.go:86-118 | The pops that the two bounds on waiting count are exactly the packets of that class in the order above. |
| FrameCodec.RoundTrip | upstream/NPS/lib/nps_mux/netpackager.go:115-156 | UnPack of Pack followed by any bytes gives the frame back and leaves those bytes, for every flag, signed 32-bit id, content up to 4085 bytes and 64-bit window. |
| FrameCodec.Canonical | upstream/NPS/lib/nps_mux/netpackager.go:133-156 | What UnPack accepts is exactly the encoding of what it returns. |
| FrameCodec.Layout | upstream/NPS/lib/nps_mux/netpackager.go:115-131 | Byte by byte: the flag, the id as a 32-bit two's complement number with the lowest byte first, then length and content, the 64-bit window, or nothing, by the number of the flag. |
| FrameCodec.FailsExactly | upstream/NPS/lib/nps_mux/netpackager.go:59-79 | Reading fails exactly if bytes are missing or the declared length exceeds 4085, and with the error of that case. |
| FrameCodec.SequenceRoundTrip | upstream/NPS/lib/nps_mux/netpackager.go:115-156 | Any sequence of frames decodes to itself. |
| FrameCodec.ContentSurvives | upstream/NPS/lib/nps_mux/netpackager.go:22-47 | Content set into a frame is what the other end gets exactly if it is no longer than 4085 bytes; longer content is not an error but an empty frame. |
| FrameCodec.MuxPackager.Set | upstream/NPS/lib/nps_mux/netpackager.go:98-113 | Prepares the frame for a flag, an id and a content or window. |
| FrameCodec.MuxPackager.Pack | upstream/NPS/lib/nps_mux/netpackager.go:115-131 | Writes exactly the encoding of the frame. |
| FrameCodec.MuxPackager.UnPack | upstream/NPS/lib/nps_mux/netpackager.go:133-156 | Reads what the decoding function reads from the stream, errors included. |
| FrameCodec.MuxPackager.UnPackContent | upstream/NPS/lib/nps_mux/netpackager.go:59-79 | Reads a length and as much content, refusing lengths over 4085. |
| UdpSafety.ReadyClosedOnce | upstream/NPS/server/proxy/udp.go:151-188 | Each session's ready channel is closed at most once, and once its builder is past that point exactly once, on every path. |
| UdpSafety.NoWriteToUnsetTarget | upstream/NPS/server/proxy/udp.go:125-149 | No packet is written to a target that is not set, over all interleavings. |
| UdpPackets.PacketsBalance | upstream/NPS/server/proxy/udp.go:99-188 | In every reachable state the packets received are those written, those refused by an error of the write, those dropped for a failed build, for the timeout and for Close, and those whose goroutine is still before that decision. |
| UdpPackets.EveryRunIsRecorded | upstream/NPS/server/proxy/udp.go:99-266 | The counts are taken without restricting anything: every run of the server is one of those counted. |
| UdpPackets.FateIsTrue | upstream/NPS/server/proxy/udp.go:125-188 | A packet is written only to a session of its own address that was built, dropped for a failed build only if the build of its session failed, and for Close only after Close began. |
| UdpPackets.WrittenOnce | upstream/NPS/server/proxy/udp.go:125-188 | Each packet is passed to target.Write at most once, on the session that its fate names, and exactly if it is counted as written or refused. |
| UdpPackets.ReleasedDropsExactly | upstream/NPS/server/proxy/udp.go:126-139 | A waiting goroutine that ready releases drops its packet if and only if the build of its session failed, and else is about to write it. |
| UdpPackets.ReleasedWrites | upstream/NPS/server/proxy/udp.go:125-149 | Over every run from there, its next step calls target.Write with its packet on that session, and no other call does. |
| UdpPackets.RefusedIsClosed | upstream/NPS/server/proxy/udp.go:140-144 | A goroutine whose write met an error does not end before the target of the session is closed. |
| UdpPackets.SessionsBalance | upstream/NPS/server/proxy/udp.go:151-216 | Every session stored has been announced, has met an error of its build or is being built; every one announced is served until an error of its builder's first write, of a read or of a reply; every reply read has been sent back, has met an error or is in its builder's hands. |
| UdpSafety.RankZeroExact | upstream/NPS/server/proxy/udp.go:151-188 | The number of steps a builder is from closing ready is 0 exactly when ready is closed. |
| UdpSafety.BuilderStepLowers | upstream/NPS/server/proxy/udp.go:151-188 | Every step of the builder before that, on the good path and on each failing one, lowers the number. |
| UdpSafety.EventKeepsBuilder | upstream/NPS/server/proxy/udp.go:125-188 | No other goroutine's step changes it. |
| UdpSafety.WaitersAreReleased | upstream/NPS/server/proxy/udp.go:125-188 | From any reachable state with a waiting packet, every run in which the builder takes that many steps, at most five, closes ready, and the packet's goroutine, if it still waits, can then go on; until then the builder is able to step. |
| UdpPackets.NeverStuck | upstream/NPS/server/proxy/udp.go:99-266 | No goroutine is ever stuck: each that is not done can take a step; the select can be left by ready exactly once it is closed, by closeCh exactly once Close began, and always by the timeout. |
| UdpPackets.ClosedForGood | upstream/NPS/server/proxy/udp.go:256-266 | Once Close has closed the listener no packet is received in any run. |
| UdpPackets.CloseReleasesWaiters | upstream/NPS/server/proxy/udp.go:136-137 | In every run from the beginning of Close on, each goroutine that waits for a session can give up at once, and then only returns its buffer. |
| UdpSafety.BuffersBalance | upstream/NPS/server/proxy/udp.go:99-216 | Buffers taken minus buffers returned is what the goroutines hold; when all are done every buffer was returned exactly once and no slot is held. |
| UdpSafety.SlotsBalance | upstream/NPS/lib/file/obj.go:82-96 | NowConn equals the number of builders that hold a slot. |
| UdpLimit.LimitExact | upstream/NPS/lib/file/obj.go:90-96 | With a limit set, NowConn stays within it, however those who have passed the test are counted, if and only if NowConn plus their number is within it: the limit is safe exactly while that sum stays within it. |
| UdpLimit.OverbookingExact | upstream/NPS/lib/file/obj.go:90-96 | Under a limit, a step takes that sum beyond it if and only if it is a test that passes while the sum has reached the limit already. |
| UdpLimit.FitsExactly | upstream/NPS/lib/file/obj.go:90-96 | So over a whole run the sum stays within the limit if and only if no test passes so. |
| UdpLimit.LimitByCrowd | upstream/NPS/lib/file/obj.go:90-96 | And if at most p builders are ever between the test and the increment at once, NowConn exceeds the limit by less than p. |
| UdpLimit.LimitExceeded | upstream/NPS/lib/file/obj.go:90-96 | It can be exceeded: a run with two connections under a limit of one. |
| UdpSafety.NothingStale | upstream/NPS/server/proxy/udp.go:219-229 | The map never names a session whose builder is done, and such a session has no open target. |
| UdpStreams.StepKeepsExactly | upstream/NPS/server/proxy/udp.go:219-266 | In every reachable state, also while Close is at work, a step keeps every live session in the map or about to be closed if and only if it deletes neither the map entry of another session nor, in removeSession, that of a session still being built. |
| UdpStreams.CalmExactly | upstream/NPS/server/proxy/udp.go:99-266 | So every session is accounted for all along a run if and only if no step of the run does either; such runs are called calm below. |
| UdpStreams.OrderlyIsCalm | upstream/NPS/server/proxy/udp.go:219-266 | A run is calm if no session ever has two goroutines at once between removeSession's Load and its Delete, nor one there while it has no target. |
| UdpStreams.SparedBeforeClose | upstream/NPS/server/proxy/udp.go:241-266 | The second cannot happen until Close begins. |
| UdpStreams.CurrentIsAlive | upstream/NPS/server/proxy/udp.go:99-229 | In every run the session that an address maps to is being built or has an open target. |
| UdpStreams.OneSessionPerAddress | upstream/NPS/server/proxy/udp.go:99-123 | In a calm run at most one session of an address is in the map or being built. |
| UdpStreams.AliveExact | upstream/NPS/server/proxy/udp.go:99-229 | In a calm run a session is being built or has an open target exactly if its address maps to it or a goroutine in removeSession is about to close it. |
| UdpStreams.TwoAliveExact | upstream/NPS/server/proxy/udp.go:219-229 | So two sessions of one address are alive together exactly if one of them is about to be closed so, and the other too or is in the map. |
| UdpStreams.TwoStreamsDuringRemoval | upstream/NPS/server/proxy/udp.go:219-229 | A calm run in which that happens: between the Delete and the Close of removeSession the next packet opens a second stream. |
| UdpStreams.TwoBuildersWithoutClose | upstream/NPS/server/proxy/udp.go:216-226 | Contrary to the comment, the comparison does not protect a session that replaced the removed one: a run in which sweeper and builder both remove, the newcomer's entry is deleted, and two sessions of one address are built at once. |
| UdpStreams.FailureDeletesOtherWithoutClose | upstream/NPS/server/proxy/udp.go:154-160 | In that run a failing builder is about to delete the other's placeholder. |
| UdpStreams.FailureDeletesOwnPlaceholder | upstream/NPS/server/proxy/udp.go:154-160 | In a calm run a failing builder deletes its own placeholder. |
| UdpStreams.TwoStreamsDuringClose | upstream/NPS/server/proxy/udp.go:256-266 | After Close has begun: a run that ends with two open streams of one address, neither of them about to be closed. |
| UdpStreams.FailureDeletesOther | upstream/NPS/server/proxy/udp.go:154-160 | And a run after Close has begun in which a failing builder is about to delete another session's placeholder. |
| RegistrySafety.RegistryInvariant | internal/core/store.go:432-611 | After every run of Store operations at any times: keys are identifiers, every tunnel's user and node exist, modes, ports and domains have their shape, no two port tunnels share node, transport and port, no two domain tunnels share mode and domain, and every stored domain list is normalized. |
| RegistrySafety.OneOwner | internal/core/store.go:535-611 | In such a registry tunnels that claim one port of a node, or one domain in a mode, are the same tunnel. |
| RegistrySafety.OpKeeps | internal/core/store.go:178-621 | Each single operation keeps that invariant, cascading removal, node deletion and expiry included. |
| RegistryExact.ValidateExact | internal/core/store.go:535-611 | The validator objects to nothing exactly if user and node are enabled, mode and local port are valid, the port or every domain lies in the pools and is free, and the quota has room; what lies in a pool, which modes there are and what is free is said without the model's functions. |
| RegistryExact.PrepareExact | internal/core/store.go:432-473 | What is validated and stored is the tunnel as asked for, with the engine, node, name and address it is given where it names none, and its domains normalized. |
| RegistryExact.CreateExact | internal/core/store.go:432-473 | A tunnel is created exactly if it is admissible and its identifier is new; it is stored with the current time under that identifier, which is the one given or made of user, node, engine, mode and port, and nothing else changes. |
| RegistryExact.UpdateExact | internal/core/store.go:475-523 | A tunnel is updated exactly if it is there, keeps its identifier and is admissible beside the others; its creation date and everything else stay. |
| RegistryExact.DeleteUserExact | internal/core/store.go:371-399 | A user goes with exactly its own tunnels, and only the guard on the last enabled admin can prevent it. |
| RegistryExact.DeleteNodeExact | internal/core/store.go:219-239 | For any input, a node is deleted exactly if the normalized identifier is not empty and not that of the default node and no tunnel is on it; nothing else changes. |
| RegistrySafety.QuotaHolds | internal/core/store.go:607-621 | No run of tunnel operations takes a limited user above max(limit, what the user had). |
| RegistryExpiry.StampsInvariant | internal/core/store.go:309-322 | After every run with a clock that does not go back, a stamp implies a past expiry date, a past stamp, and a disabled user unless an admin. |
| RegistryExpiry.SweepExact | internal/core/store.go:332-369 | For positive retention a sweep removes a user exactly if the user is no admin and carries a stamp at least that old. |
| RegistryExpiry.SweepWrites | internal/core/store.go:332-369 | A user who stays is written exactly if it is no admin, past its expiry date, and still enabled or undated; then it is disabled and dated with the time of the sweep, and nothing else of it changes. |
| RegistryExpiry.RemovedIsOverdue | internal/core/store.go:332-369 | Whoever is removed was disabled and past the expiry date. |
| RegistryExpiry.SweepTunnels | internal/core/store.go:355-363 | A tunnel goes exactly with its user. |
| RegistryExpiry.SweepDisables | internal/core/store.go:338-353 | After a sweep no user but an admin is expired and enabled. |
| RegistryExpiry.SweepIdempotent | internal/core/store.go:332-369 | Sweeping twice at one instant is sweeping once. |
| RegistryExpiry.NoticeBeforeRemoval | internal/core/store.go:332-369 | Over every timely run, a user without a stamp at some time is not swept away before a whole retention later. |
| RegistryExpiry.SweepSparesAdmins | internal/core/store.go:338-341 | A sweep leaves every admin exactly as it was. |
| RegistryExpiry.AdminRemains | internal/core/store.go:371-399 | No operation but an upsert of a user can take away the last enabled admin. |
| RegistryExpiry.AdminAfterUpsert | internal/core/store.go:267-330 | After an upsert there is an enabled admin exactly if it wrote one or another exists. |
| RegistryExpiry.LastAdminCanBeDisabled | internal/core/store.go:267-330 | A registry whose only admin an upsert disables. |
| Store.Store.ValidateTunnel | internal/core/store.go:535-611 | The nested loops over maps and lists report what the validation function reports, in whatever order the maps are walked. |
| Store.Store.CreateTunnel | internal/core/store.go:432-473 | New state and result are those of the function, the change stays if saving fails, and the invariant is kept. |
| Store.Store.UpdateTunnel | internal/core/store.go:475-523 | The same for an update. |
| Store.Store.DeleteTunnel | internal/core/store.go:525-533 | Removes exactly that tunnel. |
| RegistryExact.UpsertNodeExact | internal/core/store.go:178-217 | A node is stored exactly if it has an identifier and each of its domains is accepted; then its record is under the normalized identifier with sound pools holding exactly the domains given, every other node, user and tunnel is as before, the registry stays sound, and storing the stored record again changes nothing. |
| RegistryExact.UpsertUserExact | internal/core/store.go:267-330 | A user is accepted exactly under those conditions. The record has the role, port pools, limits and expiry date given and sound pools of exactly the domains given; the key is the one given, else the stored one, else a new one; enabling and stamp follow from dates and role; nothing else changes, the registry stays sound, and storing the stored record again changes nothing. |
| Store.Store.UpsertNode | internal/core/store.go:178-217 | Succeeds exactly if the node is accepted and saved, and returns the record as stored; an accepted node is stored so even if saving fails, a refused one changes nothing and says why, users and tunnels are untouched, and a sound registry stays sound. |
| Store.Store.DeleteNode | internal/core/store.go:219-239 | Refused exactly while a tunnel uses the node or it is the default one. |
| Store.Store.UpsertUser | internal/core/store.go:267-330 | Accepted exactly if the name is not empty, the role is empty, user or admin, and each domain is accepted. Then the record is written field by field and returned, also if saving fails; all other users, the nodes and the tunnels stay. A refusal changes nothing and says why. |
| Store.Store.DeleteUser | internal/core/store.go:371-399 | Removes the user with exactly its tunnels unless the guard on the last enabled admin refuses. |
| RegistryExact.EnsureAdminExact | internal/core/store.go:46-73 | Refused exactly without a name or a password; otherwise an enabled admin exists afterwards, one that existed leaves the users as they are, and only the record of that name can change, to the one that is stated. |
| Store.Store.EnsureAdmin | internal/core/store.go:46-73 | The loop over the users finds an enabled admin exactly if there is one; with a name and a password an enabled admin exists afterwards, and the call tells whether it wrote one. |
| Store.Store.CountUserTunnels | internal/core/store.go:613-621 | Counts exactly the user's tunnels but the excepted one. |
| Store.Store.EnforceUserExpiry | internal/core/store.go:332-369 | In every order of visiting the users the result is the same function of the database, and it reports a change exactly if there is one. |
| PortRanges.ParseFormat | internal/core/types.go:37-80 | Parsing the printed form of valid ranges gives the ranges back. |
| PortRanges.NodeAgrees | upstream/NPS/lib/common/util.go:223-256 | The node reads a port out of the printed pool exactly if the control plane finds it in the ranges. |
| PortRanges.AcceptedTextAgrees | internal/core/types.go:37-80 | For every text the control plane accepts, what it then prints is read by the node as the same set of ports. |
| PortRanges.ParsedIsValid | internal/core/types.go:155-164 | Every accepted range lies within 1 to 65535 and is not reversed. |
| PortTexts.PartExact | internal/core/types.go:44-70 | A part between commas is skipped exactly if it is blank, and read as a range exactly if it is one port, or two in order with a hyphen between, each decimal, perhaps with a plus sign, within 1 to 65535 and among spaces. |
| PortTexts.PoolTextExact | internal/core/types.go:37-80 | A pool is accepted exactly if each of its parts is, and grants exactly the ports of the ranges that they are. |
| PortTexts.NodeTakesOneMore | upstream/NPS/lib/common/util.go:223-256 | As a part of its own the node takes the decimal of 1 to 65536, the control plane that of 1 to 65535. |
| PortRanges.ParsePortRanges | internal/core/types.go:37-72 | The loop returns what the parsing function says, errors included. |
| PortRanges.GetPorts | upstream/NPS/lib/common/util.go:223-245 | The nested loops return the ports of the function, in order. |
| Domains.NormalizeIdempotent | internal/core/types.go:125-153 | A normalized domain normalizes to itself. |
| Domains.NormalizedIsClean | internal/core/types.go:125-153 | It holds only lower-case letters, digits, hyphens, dots and stars, so no colon, and does not end in a dot. |
| Domains.NormalizedList | internal/core/types.go:108-123 | A normalized list holds distinct, non-empty, normalized domains. |
| Domains.NormalizedListExact | internal/core/types.go:108-123 | A list is accepted exactly if each of its domains is, and then it holds exactly the non-empty domains that they normalize to. |
| Domains.NormalizedAgain | internal/core/types.go:108-123 | A list that was normalized is left alone, order included. |
| Domains.PoolMatchesExact | internal/core/store.go:746-759 | A pool covers a domain exactly if it is a star, or a star and a dot before a name of which the domain is a proper subdomain, or the domain itself. |
| Domains.WildcardExact | internal/core/store.go:746-759 | A domain matches a star, a dot and a name exactly if it is some text, a dot and that name. |
| Domains.DomainInPoolsExact | internal/core/store.go:746-759 | A domain is granted exactly if one of the pools covers it so. |
| Domains.NormalFormExact | internal/core/types.go:125-153 | A text normalizes to itself exactly if it is empty, a star, or a host name with or without a star and a dot before it; what a host name is, is said by its labels. |
| Domains.AddressNormalizes | internal/core/types.go:125-153 | The host name in lower case comes out of any address that holds it, in any case, with or without a scheme before it and a path, a port or a dot behind it. |
| Domains.NormalizeDomains | internal/core/types.go:108-123 | The loop returns what the function says, errors included. |
| ReconcileWants.HostRemarkInjective | internal/integrated/engines.go:471-477 | Host remarks are injective although tunnel identifiers may hold colons, because domains hold none. |
| ReconcileWants.ColonsWouldCollide | internal/integrated/engines.go:475-477 | Without that, two different hosts could share a remark. |
| ReconcileWants.WantsDistinct | internal/integrated/engines.go:279-348 | No record is asked for twice by the tunnels of a registry. |
| ReconcileTables.SyncUserOk | upstream/NPS/lib/file/db.go:214-245 | Storing a client keeps names unique whatever the outcome, and with unique names only a duplicate key makes it fail. |
| ReconcileSafety.SyncUsersDone | internal/integrated/engines.go:252-277 | After the user loop every enabled user with a key has its client, with its settings and a key of its own. |
| ReconcileSafety.SyncWantsDone | internal/integrated/engines.go:281-348 | After the tunnel loop every record asked for is there with its settings, and no other row serves its domain. |
| ReconcileSafety.SyncConverges | internal/integrated/engines.go:245-393 | When no error is returned the tables hold exactly what the enabled tunnels of the enabled users ask for. |
| ReconcileRecords.SyncRecords | internal/integrated/engines.go:245-393 | After a success each enabled nps tunnel of an enabled user with a key has its row, alone with its remark: a task with its remote port, mode and target, or for each domain a host with scheme, location and target, of the client with the user's name, key, limits and ports; passwords and identifiers of earlier rows are kept as the code keeps them; and there is no other managed row and no other named client. |
| ReconcileRecords.OthersHaveNone | internal/integrated/engines.go:281-371 | A tunnel that is disabled, of another engine or of a user not served has no managed row. |
| ReconcileStability.ManagedTasksExact | internal/integrated/engines.go:350-362 | In converged tables a managed remark has a row exactly if a tunnel asks for it, and one row only. |
| ReconcileStability.ManagedHostsExact | internal/integrated/engines.go:364-371 | The same for hosts. |
| ReconcileStability.NamedClientsExact | internal/integrated/engines.go:373-391 | A client has a name exactly if it is the client of a user asked for. |
| ReconcileStability.SyncOk | internal/integrated/engines.go:245-393 | Unique identifiers, client names and managed remarks are kept whether or not there is an error. |
| ReconcileStability.SyncIsStable | internal/integrated/engines.go:245-393 | On converged tables the same input succeeds and changes no identifier and no setting, only traffic counters. |
| ReconcileStability.ForeignUntouched | internal/integrated/engines.go:350-391 | Tasks and hosts made by hand stay as they are and go only with a client that is removed. |
| ReconcileExact.UserPhaseExact | internal/integrated/engines.go:252-277 | The user loop succeeds exactly if no two users share a key and no client still someone else's has one of the keys. |
| ReconcileExact.TunnelPhaseExact | internal/integrated/engines.go:281-348 | The tunnel loop succeeds exactly if every row in the way of a host is itself written earlier in the loop. |
| ReconcileExact.SyncExact | internal/integrated/engines.go:245-393 | For the tunnels of a sound registry, the synchronization succeeds exactly if keys and hosts are free in that sense, which users, tunnels and the tables it finds decide. |
| ReconcileExact.OneChangeNeverBlocks | internal/integrated/engines.go:308-310 | No host left by the last synchronization is in the way of the next, if one registry operation lies between. |
| ReconcileExact.SyncAfterOneChange | internal/integrated/engines.go:245-393 | So synchronizing after every registry operation keeps working: only a duplicate key or a host made by hand can make it fail. |
| ReconcileForever.OutcomeIsFinal | internal/integrated/engines.go:245-393 | However often it is repeated with the same input, it succeeds if and only if keys and hosts were free in the tables that the first one found: a failure never heals and a success never breaks. |
| ReconcileExact.StaleHostBlocksForever | internal/integrated/engines.go:308-371 | When the row in the way belongs to no tunnel any more, that row itself stays through every repetition, because stale hosts are deleted only after the check. |
| ReconcileExact.MovedDomainBlocksForever | internal/integrated/engines.go:308-371 | In particular after a tunnel is synchronized, deleted, and replaced by another one for the same domain before the next synchronization. |
| ReconcileMove.MovedDomainRun | internal/integrated/engines.go:245-393 | That happens from an empty registry and empty tables, for every domain the registry accepts: a user and a tunnel are created, the synchronization succeeds, the tunnel is deleted and another created, and then no number of repetitions makes the next synchronization succeed. |
| ReconcileMove.MovedDomainExample | internal/integrated/engines.go:245-393 | The same with every value written out, for the domain "a.b". |
| ReconcileForever.KeysStayDistinct | internal/integrated/engines.go:252-277 | If no two clients share a key before, none do afterwards, unless the synchronization fails at a user who has a client already, whose key is changed before it is checked; then two do. |
| ReconcileForever.KeysCanCollide | internal/integrated/engines.go:252-277 | Such tables and such a user. |
| NodeDb.NodeDb.SyncNPSState | internal/integrated/engines.go:245-393 | On the tables of the object, in every order of walking them, the result is that of the function; so after a success the records are there field by field, as in ReconcileRecords.SyncRecords. |
| NodeDb.NodeDb.NewClient | upstream/NPS/lib/file/db.go:214-245 | Checks name and key against the other rows, then stores under the client's own or a new identifier. |
| NodeDb.NodeDb.FindClient | internal/integrated/engines.go:395-409 | With unique names the walk finds the client of that name, or there is none. |
| NodeDb.NodeDb.FindHostByDomain | internal/integrated/engines.go:443-457 | Finds a row exactly if another remark serves the domain at the root. |
| NodeDb.NodeDb.SyncHost | internal/integrated/engines.go:290-314 | A row that is found is changed before the check, a new one is stored after it. |
| NodeDb.NodeDb.PruneClients | internal/integrated/engines.go:373-391 | Removes exactly the clients with an unwanted name, with their tasks and hosts. |
| NodeDb.NodeDb.DelTasksOf | upstream/NPS/server/server.go:353-367 | Removes exactly the tasks of the client. |
| ClientHelloParser.ClientHelloMsg.Unmarshal | upstream/NPS/lib/crypt/clientHello.go:50-253 | Total on all byte strings; accepts exactly what the grammar and the rules for extensions accept and ends with exactly the fields they determine. |
| ClientHelloParser.ClientHelloMsg.ReadExtension | upstream/NPS/lib/crypt/clientHello.go:115-250 | Each kind of extension is accepted exactly if its body has the form the kind needs, and changes only its own fields. |
| ClientHelloParser.ClientHelloMsg.ReadServerName | upstream/NPS/lib/crypt/clientHello.go:130-163 | Takes the first host name of the list and looks at nothing behind it; a trailing dot is refused. |
| ClientHelloParser.ShortIsRefused | upstream/NPS/lib/crypt/clientHello.go:51-53 | The test for 42 bytes refuses nothing that the grammar accepts. |
| ClientHelloLaws.ServerNameIs | upstream/NPS/lib/crypt/clientHello.go:91-163 | The server name is the first host name of the last server_name extension that carries one, and empty if none does. |
| ClientHelloLaws.FirstHostName | upstream/NPS/lib/crypt/clientHello.go:139-162 | Names of other kinds are passed over, the first host name is taken, any bytes may follow it. |
| ClientHelloLaws.HostNameIsThere | upstream/NPS/lib/crypt/clientHello.go:139-162 | Conversely a name that is reported stands behind well-formed names of other kinds and does not end in a dot. |
| ClientHelloLaws.HelloRoundTrip | upstream/NPS/lib/crypt/clientHello.go:50-120 | Reading the encoding of a message gives the message. |
| ClientHelloLaws.HelloCanonical | upstream/NPS/lib/crypt/clientHello.go:50-120 | The bytes of an accepted message are its only encoding. |
| Sni.Conn.PeekServerName | upstream/NPS/server/proxy/https.go:338-364 | On every path the bytes returned are exactly those taken from the stream, and the name is the one the stream announces. |
| Sni.Conn.Accept | upstream/NPS/server/proxy/https.go:338-364 | Putting them into the replay buffer leaves what can be read equal to the original stream. |
| Sni.Conn.Read | upstream/NPS/lib/conn/conn.go:284-295 | A read takes its bytes off the front of what can be read and loses none. |
| Sni.ReplayIsLossless | upstream/NPS/lib/conn/conn.go:284-295 | After the peek any sequence of reads yields a prefix of the original stream, and all of it once nothing remains. |
| Sni.ReadProgress | upstream/NPS/lib/conn/conn.go:284-295 | While something remains, a read into a buffer that is not empty delivers something once the network does. |
| Lru.ApplyOk | upstream/NPS/lib/cache/lru.go:41-85 | Every operation keeps the keys distinct and the length within the limit. |
| Lru.Inclusion | upstream/NPS/lib/cache/lru.go:41-85 | After the same additions, lookups, removals and calls of RemoveOldest a larger cache holds all that a smaller one holds, in the same order with the same values. |
| Lru.HoldsMostRecent | upstream/NPS/lib/cache/lru.go:41-52 | After additions the list is exactly the most recently added distinct keys, latest first, with their last values. |
| LruCache.Agreement | upstream/NPS/lib/cache/lru.go:41-85 | List and map hold the same keys, each once, with the same values. |
| LruCache.Cache.Add | upstream/NPS/lib/cache/lru.go:41-52 | Moves or pushes to the front, replaces the value, and evicts the last entry if the limit is exceeded; list and map stay in agreement. |
| LruCache.Cache.Get | upstream/NPS/lib/cache/lru.go:55-61 | Returns the value and moves the entry to the front; a miss changes nothing. |
| LruCache.Cache.Remove | upstream/NPS/lib/cache/lru.go:64-68 | Removes exactly that key. |
| LruCache.Cache.RemoveOldest | upstream/NPS/lib/cache/lru.go:71-85 | Removes exactly the last entry. |
| LogBuffer.ChunkingMakesNoDifference | cmd/tunnel-control/log_buffer.go:43-53 | However a text is cut into chunks, even inside a carriage return and line feed, the same messages get the same numbers and the same rest is kept. |
| LogBuffer.CleanIgnoresCr | cmd/tunnel-control/log_buffer.go:55-59 | A trailing carriage return never shows in a message, escape sequences or not. |
| LogBuffer.EscapeIsRemoved | cmd/tunnel-control/log_buffer.go:11 | Each sequence of escape, bracket, parameters, intermediates and a final character is removed, and the text before it stays. |
| LogBuffer.EscapeHasForm | cmd/tunnel-control/log_buffer.go:11 | Whatever is removed has that form. |
| LogBuffer.PlainStays | cmd/tunnel-control/log_buffer.go:55-59 | A text in which no such sequence begins stays as it is. |
| LogWindow.NumbersNeverReused | cmd/tunnel-control/log_buffer.go:60-72 | Over every run entries carry consecutive numbers, and no number is given out twice, not even after a clear. |
| LogWindow.HoldsTheLast | cmd/tunnel-control/log_buffer.go:60-72 | A buffer holds the last max entries of any larger buffer with the same input. |
| LogWindow.Buffer.AddChunk | cmd/tunnel-control/log_buffer.go:43-53 | The loop stores what the function stores. |
| LogWindow.Buffer.AddLine | cmd/tunnel-control/log_buffer.go:55-73 | An empty line is skipped, any other appended with the next number, and what is too many is forgotten. |
| LogWindow.Buffer.List | cmd/tunnel-control/log_buffer.go:75-92 | Returns the last matching entries up to the limit, in order. |
| LogWindow.ListingExact | cmd/tunnel-control/log_buffer.go:75-92 | The entries listed are those of ascending places in which the text occurs, in message or stream, capitals aside; one left out comes before all of them, and only if the limit is reached. |
| LogWindow.Buffer.Clear | cmd/tunnel-control/log_buffer.go:94-99 | Forgets entries and rests, not the numbers. |
| Socks5Udp.RoundTripWhole | upstream/NPS/lib/common/netpackager.go:125-201 | A proper datagram with a zero reserved field that fits the buffer comes back. |
| Socks5Udp.RoundTripStream | upstream/NPS/lib/common/netpackager.go:125-201 | One that states its length in the reserved field comes back in front of any suffix, which is left. |
| Socks5Udp.StreamRoundTrip | upstream/NPS/lib/common/netpackager.go:125-201 | Any sequence of such datagrams decodes to itself. |
| Socks5Udp.RoundTripExact | upstream/NPS/lib/common/netpackager.go:47-201 | With a zero reserved field a datagram comes back exactly if its host is an address of its kind in the form in which it is printed, or a name of at most 255 bytes, and the whole fits 1672 bytes. |
| Socks5Udp.ReadIsProper | upstream/NPS/lib/common/netpackager.go:125-180 | Whatever is read is proper, fits the buffer, and accounts for every byte of the stream. |
| Socks5UdpBuffers.Encode | upstream/NPS/lib/common/netpackager.go:73-101 | Writes the bytes of the address into the buffer, and runs out of the buffer exactly where the function says. |
| Socks5UdpBuffers.WriteDatagram | upstream/NPS/lib/common/netpackager.go:189-203 | Produces exactly the bytes of the datagram, whatever the buffer held before. |
| Socks5UdpBuffers.ReadUDPDatagram | upstream/NPS/lib/common/netpackager.go:125-180 | Reads what the reading function reads, errors included, whatever the buffer held before. |

## Left out

- `calcSize` is taken as replacing the window size by any value from 1 to 2^31 - 1 while it keeps the read count and the wait bit; bandwidth and latency estimates are not modelled.
- One connection with one writer and one reader per direction; deadlines, a `Close` while a Write is under way or by the side that reads, `Mux.Close`, object pools and several concurrent writers or readers are not modelled. The transport between the two peers is taken as delivering frames in order.
- That calls end is stated as a bound on the steps of every run, which leaves out the reader's busy loop while a push is in progress: the scheduler is assumed not to spend its steps on that loop alone.
- Growing a chain with several producers and several consumers on one ring are not claimed; the code does not promise them. The pauses by which a ring lets a starving producer go first (`starving`) are not modelled.
- The state machines are values, not classes: what they leave out is the object identity of windows, queues and sessions.
- In the UDP server `removeSession`'s test of the target and the closing are one step, which loses no interleaving, because a target that is set stays set; black lists, traffic counters and idle times are not modelled. The promise of one session per address is false of the code: `UdpStreams.StepKeepsExactly` and `CalmExactly` give the condition, before and during Close; `TwoBuildersWithoutClose`, `TwoStreamsDuringRemoval` and `TwoStreamsDuringClose` are the runs. That NowConn keeps to its limit is false too; `UdpLimit.LimitExact` gives the condition and `LimitExceeded` the run.
- Passwords, tokens, JSON and files: saving is a verdict that comes after the change in memory. Loading an existing file and status fields of nodes are not modelled. Records are values, so a copy taken by a caller is not distinguished from the stored record.
- `strings.ToLower` is modelled on ASCII; what `net.ParseIP` accepts without a colon is accepted by the label rules too.
- `SyncNPSState` is modelled without a running bridge, with 32-bit identifiers taken as unbounded; the drawing of new keys in `DbUtils.NewClient` cannot be reached from it.
- NodeDb.NodeDb.SyncNPSState: requires that no two clients share a name, which the code keeps; for tables edited by hand so that two do (`internal/integrated/engines.go:395-409`), where the code takes an arbitrary one, nothing is stated.
- `ClientHelloMsg` keeps its fields in one record, and slices of the input are values.
- In the LRU cache `Clear`, the eviction callback and negative limits are not modelled.
- Log entries of concurrent writers: `partial` is not guarded by the lock in the code, so one writer at a time is assumed.
- For `net.ParseIP` and `IP.String` a host of four bytes stands for an address in dotted form, one of sixteen for one in colon form; other spellings of the same address are not distinguished from it. A host that does not parse is written as zeros, as in the code. Where the code would index past its buffer of 1672 bytes the model says `OutOfRange`.
- All of `upstream/frp`, HTTP handlers, web and desktop user interfaces, services and scripts.
