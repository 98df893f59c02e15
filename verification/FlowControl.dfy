/**
The flow-control protocol of one direction of one multiplexed connection, as a
machine whose steps are the atomic operations of the Go code: one load, one
compare-and-swap, one channel operation or one frame delivery at a time.

Four threads take part.
 - The writer (side A) runs WriteFull / WriteTo / sent.
 - The ack thread (side A) is A's frame reader; it runs sendWindow.SetSize.
 - The frame thread (side B) is B's frame reader; it runs receiveWindow.Write,
   calcSize and receiveWindowQueue.Push.
 - The reader (side B) runs receiveWindow.readFromQueue, receiveWindowQueue.Pop
   and sendStatus.

The words that the code changes by compare-and-swap are kept here as the triple
their bits encode; module Window proves that the packing loses nothing.
*/
module FlowControl {
  import opened Basics
  import opened Window

  /** A segment cut from one Write call; `part` is false on the last one. */
  datatype Seg = Seg(data: seq<byte>, part: bool)

  /** The frames that reach the receive window. */
  datatype Frame = Data(seg: Seg) | Close

  /** The payload of a SendOk frame: a window size and a count of bytes read. */
  datatype Ack = Ack(size: nat, read: nat)

  /** receiveWindowQueue.lengthWait: a 32-bit length and the wait mark. */
  datatype LenWait = LenWait(len: nat, wait: bool)

  // Program counters. Each constructor carries the locals that are live there.

  datatype WriterPc =
    | WOut                                            // not inside Write
    | WTop(left: seq<byte>)                           // WriteTo, up to and including the load
    | WLoaded(left: seq<byte>, ptrs: Word)            // word loaded, before the decision
    | WBlocked(left: seq<byte>)                       // inside waitReceiveWindow
    | WCut(left: seq<byte>, seg: Seg)                 // segment cut, top of the loop in sent
    | WSent(left: seq<byte>, seg: Seg, ptrs: Word)    // sent has loaded the word
    | WQueue(left: seq<byte>, seg: Seg)               // sent is done, before sendInfo
    | WClosed                                         // after conn.Close on side A

  datatype AckPc =
    | SIdle
    | SLoop(ack: Ack, newWait: bool)                  // top of the loop in SetSize
    | SLoaded(ack: Ack, newWait: bool, ptrs: Word)
    | SAllow                                          // sending on setSizeCh

  datatype FramePc =
    | FIdle
    | FCalc(seg: Seg, retry: bool)                    // top of the loop in calcSize
    | FCalcCas(seg: Seg, ptrs: Word)
    | FTop(seg: Seg)                                  // label start in receiveWindow.Write
    | FLen(seg: Seg, ptrs: Word)                      // word loaded, before Len
    | FDecide(seg: Seg, ptrs: Word, len: nat)
    | FPush(seg: Seg, ack: Option<Ack>)               // bufQueue.Push, before its load
    | FPushCas(seg: Seg, ack: Option<Ack>, lw: LenWait)
    | FChain(seg: Seg, ack: Option<Ack>, wait: bool)  // length counted, element not in the chain
    | FAllow(ack: Option<Ack>)                        // sending on readOp
    | FAck(ack: Option<Ack>)                          // before sendInfo

  datatype ReaderPc =
    | DOut                                            // not inside Read
    | DTop(room: nat)                                 // label copyData
    | DPop(room: nat)                                 // label startPop
    | DPopCas(room: nat, lw: LenWait)
    | DWaiting(room: nat)                             // inside waitPush
    | DTry(room: nat)                                 // the TryPop loop
    | DSub(room: nat, seg: Seg)                       // popped, length not yet reduced
    | DCopy(room: nat)
    | DStat(room: nat)                                // top of the loop in sendStatus
    | DStatLen(room: nat, ptrs: Word)
    | DStatCas(room: nat, ptrs: Word, len: nat)
    | DStatAck(room: nat, ack: Ack)                   // before sendInfo
    | DEnd(room: nat)
    | DEof                                            // Read returned io.EOF

  /** Side A: the send window's word, its two threads, and the largest size it ever adopted. */
  datatype SideA = SideA(word: Word, writer: WriterPc, acker: AckPc, maxAdopted: nat)

  /** Side B: the receive window's word, its queue, its two threads, the element being read. */
  datatype SideB = SideB(
    word: Word, lw: LenWait, chain: seq<Seg>, framer: FramePc, reader: ReaderPc,
    cur: Seg, off: nat, stops: nat)

  /** The latest Read: how much had been delivered before it, and the size of its buffer. */
  datatype Call = Call(from: nat, asked: nat)

  /**
  Both sides, the two directions of the transport, and history: what was written, for
  each of these bytes whether it is the last of its Write, what was delivered, the
  latest Read, and the credit that arrived after side A had closed.
  */
  datatype State = State(
    a: SideA, data: seq<Frame>, acks: seq<Ack>, b: SideB,
    written: seq<byte>, ends: seq<bool>, delivered: seq<byte>, call: Call, announced: nat, dropped: nat)

  function Init(): State {
    State(SideA(Word(INITIAL_WINDOW, 0, false), WOut, SIdle, INITIAL_WINDOW), [], [],
          SideB(Word(INITIAL_WINDOW, 0, false), LenWait(0, false), [], FIdle, DOut, Seg([], false), 0, 0),
          [], [], [], Call(0, 0), INITIAL_WINDOW, 0)
  }

  /** Which of `n` bytes is the last of a Write: the last one, if the Write ends with them. */
  function EndMarks(n: nat, ending: bool): (marks: seq<bool>)
    ensures |marks| == n && forall i :: 0 <= i < n ==> (marks[i] <==> ending && i == n - 1)
  {
    seq(n, i => ending && i == n - 1)
  }

  /** sendWindow.remainingSize and receiveWindow.remainingSize: clipped at zero. */
  function Remaining(size: nat, used: int): (r: nat) {
    if size - used > 0 then size - used else 0
  }

  function Max(a: nat, b: nat): nat { if a < b then b else a }

  // ---------------------------------------------------------------- writer

  predicate CanWriter(a: SideA) {
    !a.writer.WOut? && !a.writer.WClosed? && !a.writer.WBlocked?
  }

  /** How much WriteTo cuts from the buffer for a window with `rem` bytes left. */
  function CutSize(left: nat, rem: nat): nat {
    Min(rem, if left > SEGMENT then SEGMENT else left)
  }

  function DoWriter(a: SideA): SideA
    requires CanWriter(a)
  {
    match a.writer
    case WTop(left) =>
      a.(writer := if left == [] then WOut else WLoaded(left, a.word))
    case WLoaded(left, ptrs) =>
      var rem := Remaining(ptrs.size, ptrs.done);
      if rem == 0 then
        if a.word == ptrs
        then a.(word := PackWord(ptrs.size, ptrs.done, true), writer := WBlocked(left))
        else a.(writer := WTop(left))
      else
        var n := CutSize(|left|, rem);
        a.(writer := WCut(left[n..], Seg(left[..n], n < |left|)))
    case WCut(left, seg) =>
      a.(writer := WSent(left, seg, a.word))
    case WSent(left, seg, ptrs) =>
      if (ptrs.done + |seg.data|) % TWO31 < ptrs.done then
        a.(writer := WCut(left, seg))                       // "overflow": spin
      else if a.word == ptrs then
        a.(word := PackWord(ptrs.size, ptrs.done + |seg.data|, ptrs.wait), writer := WQueue(left, seg))
      else
        a.(writer := WCut(left, seg))
    case WQueue(left, seg) =>                               // sendInfo, see WriterSends
      a.(writer := WTop(left))
  }

  /** The frames that the writer's next step puts on the wire. */
  function WriterSends(w: WriterPc): seq<Frame> {
    if w.WQueue? then [Data(w.seg)] else []
  }

  // ------------------------------------------------- side A's frame reader

  predicate CanAck(a: SideA) {
    match a.acker
    case SIdle => false                                     // see AckArrives
    case SAllow => a.writer.WBlocked?                       // rendezvous on setSizeCh
    case _ => true
  }

  function DoAck(a: SideA): SideA
    requires CanAck(a)
  {
    match a.acker
    case SLoop(k, nw) =>
      a.(acker := SLoaded(k, nw, a.word))
    case SLoaded(k, nw, ptrs) =>
      if k.read > ptrs.done then
        a.(acker := SIdle)                                  // "window read > send": give up
      else if k.read == 0 && k.size == ptrs.size then
        a.(acker := SIdle)
      else
        var send := ptrs.done - k.read;
        var newWait := nw || (Remaining(k.size, send) == 0 && ptrs.wait);
        if a.word == ptrs then
          a.(word := PackWord(k.size, send, newWait),
             maxAdopted := Max(a.maxAdopted, k.size),
             acker := if ptrs.wait && !newWait then SAllow else SIdle)
        else
          a.(acker := SLoop(k, newWait))
    case SAllow =>
      a.(acker := SIdle, writer := WTop(a.writer.left))
  }

  // ------------------------------------------------- side B's frame reader

  predicate CanFrame(b: SideB) {
    match b.framer
    case FIdle => false                                     // see FrameArrives
    case FCalc(_, retry) => !retry                          // see CalcSize
    case FCalcCas(_, _) => false
    case FAllow(_) => b.reader.DWaiting?                    // rendezvous on readOp
    case _ => true
  }

  function DoFrame(b: SideB): SideB
    requires CanFrame(b)
  {
    match b.framer
    case FCalc(seg, _) => b.(framer := FTop(seg))           // calcSize skipped: count is not 0
    case FTop(seg) => b.(framer := FLen(seg, b.word))
    case FLen(seg, ptrs) => b.(framer := FDecide(seg, ptrs, b.lw.len))
    case FDecide(seg, ptrs, len) =>
      var rem := Remaining(ptrs.size, len + |seg.data|);
      if rem == 0 && !ptrs.wait then
        if b.word == ptrs
        then b.(word := PackWord(ptrs.size, ptrs.done, true), framer := FPush(seg, None))
        else b.(framer := FTop(seg))
      else if !ptrs.wait then
        if b.word == ptrs
        then b.(word := PackWord(ptrs.size, 0, false), framer := FPush(seg, Some(PackAck(ptrs.size, ptrs.done))))
        else b.(framer := FTop(seg))
      else
        b.(framer := FPush(seg, None))
    case FPush(seg, ack) => b.(framer := FPushCas(seg, ack, b.lw))
    case FPushCas(seg, ack, lw) =>
      if b.lw == lw
      then b.(lw := LenWait((lw.len + |seg.data|) % TWO32, false), framer := FChain(seg, ack, lw.wait))
      else b.(framer := FPush(seg, ack))
    case FChain(seg, ack, wait) =>
      b.(chain := b.chain + [seg], framer := if wait then FAllow(ack) else FAck(ack))
    case FAllow(ack) =>
      b.(framer := FAck(ack), reader := DPop(b.reader.room))
    case FAck(ack) =>                                       // sendInfo, see FramerSends
      b.(framer := FIdle)
  }

  /** The SendOk frames that the frame reader's next step puts on the wire. */
  function FramerSends(f: FramePc): seq<Ack> {
    if f.FAck? && f.ack.Some? then [f.ack.value] else []
  }

  /** The payload of SendOk is a packed word whose wait bit is clear. */
  function PackAck(size: nat, read: nat): Ack {
    var w := PackWord(size, read, false);
    Ack(w.size, w.done)
  }

  /** calcSize: load the word, then swap in a new size, whatever the estimate says. */
  predicate CanCalc(b: SideB, newSize: nat) {
    1 <= newSize < TWO31 && (b.framer.FCalc? || b.framer.FCalcCas?)
  }

  function DoCalc(b: SideB, newSize: nat): SideB
    requires CanCalc(b, newSize)
  {
    match b.framer
    case FCalc(seg, _) => b.(framer := FCalcCas(seg, b.word))
    case FCalcCas(seg, ptrs) =>
      if b.word == ptrs
      then b.(word := PackWord(newSize, ptrs.done, ptrs.wait), framer := FTop(seg))
      else b.(framer := FCalc(seg, true))
  }

  // ---------------------------------------------------------------- reader

  predicate CanReader(b: SideB) {
    !b.reader.DOut? && !b.reader.DWaiting? && !b.reader.DEof? && b.off <= |b.cur.data|
  }

  function DoReader(b: SideB): SideB
    requires CanReader(b)
  {
    match b.reader
    case DTop(room) => b.(reader := if b.off == |b.cur.data| then DPop(room) else DCopy(room))
    case DPop(room) => b.(reader := DPopCas(room, b.lw))
    case DPopCas(room, lw) =>
      if lw.len == 0 then
        if b.lw == lw then b.(lw := LenWait(0, true), reader := DWaiting(room)) else b.(reader := DPop(room))
      else
        b.(reader := DTry(room))
    case DTry(room) =>
      if b.chain == [] then b else b.(chain := b.chain[1..], reader := DSub(room, b.chain[0]))
    case DSub(room, seg) =>
      b.(lw := LenWait((b.lw.len - |seg.data|) % TWO32, b.lw.wait), cur := seg, off := 0, reader := DCopy(room))
    case DCopy(room) =>
      var l := |ReaderCopies(b)|;
      b.(off := b.off + l, reader := if b.off + l == |b.cur.data| then DStat(room - l) else DEnd(room - l))
    case DStat(room) => b.(reader := DStatLen(room, b.word))
    case DStatLen(room, ptrs) => b.(reader := DStatCas(room, ptrs, b.lw.len))
    case DStatCas(room, ptrs, len) =>
      DoStatus(b)
    case DStatAck(room, ack) =>                             // sendInfo, see ReaderSends
      b.(reader := DEnd(room))
    case DEnd(room) => b.(reader := if room > 0 && b.cur.part then DTop(room) else DOut)
  }

  /** The compare-and-swap of sendStatus, after it has loaded the word and the length. */
  function DoStatus(b: SideB): SideB
    requires b.reader.DStatCas?
  {
    var DStatCas(room, ptrs, len) := b.reader;
    var l := |b.cur.data|;
    if b.word != ptrs then
      b.(reader := DStat(room))
    else if ptrs.done <= (ptrs.done + l) % TWO31 then
      var read := ptrs.done + l;
      var rem := Remaining(ptrs.size, len);
      if (ptrs.wait && rem > 0) || read >= ptrs.size / 2 || rem == ptrs.size
      then b.(word := PackWord(ptrs.size, 0, false), reader := DStatAck(room, PackAck(ptrs.size, read)))
      else b.(word := PackWord(ptrs.size, read, ptrs.wait), reader := DEnd(room))
    else                                                    // "overflow": restart the count
      b.(word := PackWord(ptrs.size, l, ptrs.wait), reader := DStatAck(room, PackAck(ptrs.size, ptrs.done)))
  }

  /** The bytes that the reader's next step copies into the caller's buffer. */
  function ReaderCopies(b: SideB): seq<byte>
    requires b.off <= |b.cur.data|
  {
    if b.reader.DCopy? then b.cur.data[b.off..b.off + Min(b.reader.room, |b.cur.data| - b.off)] else []
  }

  /** The SendOk frames that the reader's next step puts on the wire. */
  function ReaderSends(d: ReaderPc): seq<Ack> {
    if d.DStatAck? then [d.ack] else []
  }

  // ---------------------------------------------------------------- events

  datatype Event =
    | WriteCall(buf: seq<byte>)
    | WriterClose                     // conn.Close on side A, between two Write calls
    | WriterStep
    | AckArrives
    | AckStep
    | FrameArrives
    | FrameStep
    | FrameStop                       // allowPop takes a token from stopOp
    | CalcSize(newSize: nat)
    | ReadCall(room: nat)
    | ReaderStep
    | ReaderStop                      // waitPush takes a token from stopOp

  predicate Can(s: State, e: Event) {
    match e
    case WriteCall(buf) => s.a.writer.WOut? && buf != []
    case WriterClose => s.a.writer.WOut?
    case WriterStep => CanWriter(s.a)
    case AckArrives => s.a.acker.SIdle? && s.acks != []
    case AckStep => CanAck(s.a)
    case FrameArrives => s.b.framer.FIdle? && s.data != []
    case FrameStep => CanFrame(s.b)
    case FrameStop => s.b.framer.FAllow? && s.b.stops > 0
    case CalcSize(n) => CanCalc(s.b, n)
    case ReadCall(room) => s.b.reader.DOut? && room > 0
    case ReaderStep => CanReader(s.b)
    case ReaderStop => s.b.reader.DWaiting? && s.b.stops > 0
  }

  /** SendOk frames go on the wire. */
  function Announce(s: State, sends: seq<Ack>): State {
    s.(acks := s.acks + sends, announced := if sends == [] then s.announced else sends[|sends| - 1].size)
  }

  function Do(s: State, e: Event): State
    requires Can(s, e)
  {
    match e
    case WriteCall(buf) =>
      s.(a := s.a.(writer := WTop(buf)), written := s.written + buf, ends := s.ends + EndMarks(|buf|, true))
    case WriterClose =>
      s.(a := s.a.(writer := WClosed), data := s.data + [Close])
    case WriterStep =>
      s.(a := DoWriter(s.a), data := s.data + WriterSends(s.a.writer))
    case AckArrives =>
      if s.a.writer.WClosed?                                // the connection is gone from connMap
      then s.(acks := s.acks[1..], dropped := s.dropped + s.acks[0].read)
      else s.(acks := s.acks[1..], a := s.a.(acker := SLoop(s.acks[0], false)))
    case AckStep =>
      s.(a := DoAck(s.a))
    case FrameArrives =>
      (match s.data[0]
       case Data(seg) => s.(data := s.data[1..], b := s.b.(framer := FCalc(seg, false)))
       case Close => s.(data := s.data[1..], b := s.b.(stops := s.b.stops + 2)))
    case FrameStep =>
      Announce(s.(b := DoFrame(s.b)), FramerSends(s.b.framer))
    case FrameStop =>
      s.(b := s.b.(stops := s.b.stops - 1, framer := FAck(s.b.framer.ack)))
    case CalcSize(n) =>
      s.(b := DoCalc(s.b, n))
    case ReadCall(room) =>
      s.(b := s.b.(reader := DTop(room)), call := Call(|s.delivered|, room))
    case ReaderStep =>
      Announce(s.(b := DoReader(s.b), delivered := s.delivered + ReaderCopies(s.b)), ReaderSends(s.b.reader))
    case ReaderStop =>
      s.(b := s.b.(stops := s.b.stops - 1, reader := DEof))
  }

  /** A run is a sequence of events, each possible in the state it meets. */
  ghost predicate IsRun(s: State, events: seq<Event>, t: State)
    decreases |events|
  {
    if events == [] then s == t
    else Can(s, events[0]) && IsRun(Do(s, events[0]), events[1..], t)
  }

  ghost predicate Reachable(t: State) {
    exists events :: IsRun(Init(), events, t)
  }
}
