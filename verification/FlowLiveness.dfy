/**
Every call comes to an end, unless it waits for the other application. The steps of a
run, however it is scheduled, are bounded by what has been written, and where no step
is left a Write has returned or meets unread data, and a Read has returned or has
nothing to return. So no wake-up is lost.
*/
module FlowLiveness {
  import opened Basics
  import opened Window
  import opened FlowControl
  import opened FlowInvariant
  import opened FlowSafety

  /** The reader's busy loop: TryPop finds nothing because a push is in progress. */
  predicate Spins(s: State, e: Event) {
    e.ReaderStep? && s.b.reader.DTry? && s.b.chain == []
  }

  /** Data that side B holds and its application has not read. */
  predicate Unread(b: SideB) {
    b.lw.len > 0 || b.off < |b.cur.data|
  }

  /** The events of the threads other than the writer and the two applications. */
  predicate Internal(e: Event) {
    e.AckArrives? || e.AckStep? || e.FrameArrives? || e.FrameStep? || e.CalcSize? || e.ReaderStep?
  }

  /** A step that some thread other than the writer can take now. */
  function Candidate(s: State): Event {
    if s.a.acker.SIdle? && s.acks != [] then AckArrives
    else if !s.a.acker.SIdle? then AckStep
    else if s.b.framer.FIdle? && s.data != [] then FrameArrives
    else if s.b.framer.FCalc? || s.b.framer.FCalcCas? then CalcSize(1)
    else if !s.b.framer.FIdle? then FrameStep
    else ReaderStep
  }

  /** An idle side B with nothing unread has acknowledged every byte it read. */
  lemma QuietPeerOwesNothing(b: SideB)
    requires SideBOk(b) && b.framer.FIdle? && (b.reader.DOut? || b.reader.DWaiting?) && !Unread(b)
    ensures b.word.done == 0 && Owed(b) == 0
  {
  }

  /**
  A blocked writer is never stranded: either a thread of the protocol can take
  a step, or the peer holds unread data and its application is not inside Read.
  */
  lemma BlockedWriterHasHelp(s: State)
    requires Reachable(s) && s.a.writer.WBlocked?
    ensures || (Internal(Candidate(s)) && Can(s, Candidate(s)) && !Spins(s, Candidate(s)))
            || (s.b.reader.DOut? && Unread(s.b))
  {
    ReachableInv(s);
    if s.b.framer.FIdle? && (s.b.reader.DOut? || s.b.reader.DWaiting?) && !Unread(s.b) {
      QuietPeerOwesNothing(s.b);
    }
  }

  /** No thread can take a step; only the applications can begin something. */
  ghost predicate Quiet(s: State) {
    forall e :: Can(s, e) && !Spins(s, e) ==> e.WriteCall? || e.WriterClose? || e.ReadCall?
  }

  lemma QuietThreads(s: State)
    requires Inv(s) && Quiet(s)
    ensures s.a.acker.SIdle? && s.acks == [] && s.b.framer.FIdle? && s.data == []
    ensures s.a.writer.WOut? || s.a.writer.WClosed? || s.a.writer.WBlocked?
    ensures s.b.reader.DOut? || s.b.reader.DEof? || (s.b.reader.DWaiting? && s.b.stops == 0)
  {
    assert !Can(s, WriterStep) && !Can(s, AckArrives) && !Can(s, AckStep);
    assert !Can(s, FrameArrives) && !Can(s, FrameStep) && !Can(s, CalcSize(1));
    assert !Can(s, ReaderStop);
    assert Can(s, ReaderStep) ==> Spins(s, ReaderStep);
  }

  /**
  Where no step is left, a Write has returned, or the other application is not reading what
  it has; and a Read has returned, or all that was written has been read already.
  */
  lemma QuietMeansWaiting(s: State)
    requires Reachable(s) && Quiet(s)
    ensures s.a.writer.WOut? || s.a.writer.WClosed? || (s.a.writer.WBlocked? && s.b.reader.DOut? && Unread(s.b))
    ensures s.b.reader.DOut? || s.b.reader.DEof? || (s.b.reader.DWaiting? && s.a.writer.WOut? && s.delivered == s.written)
  {
    ReachableInv(s);
    QuietThreads(s);
    if s.a.writer.WBlocked? && !Unread(s.b) {
      QuietPeerOwesNothing(s.b);
    }
    if s.b.reader.DWaiting? {
      assert s.b.lw.wait && s.b.lw.len == 0;
    }
  }

  // ----------------------------------------------------------- the measure

  const ACK_WEIGHT := 8
  const FRAME_WEIGHT := 35
  const BYTE_WEIGHT := 30
  const LEFT_WEIGHT := 72

  function AckRank(a: SideA): nat {
    match a.acker
    case SIdle => 0
    case SAllow => 5
    case SLoaded(_, _, ptrs) => if a.word == ptrs then 6 else 8
    case SLoop(_, _) => 7
  }

  function WriterRank(a: SideA): nat {
    match a.writer
    case WClosed => 0
    case WOut => 36
    case WBlocked(_) => 36
    case WLoaded(_, ptrs) => if a.word == ptrs then 39 else 41
    case WTop(_) => 40
    case WQueue(_, _) => 76
    case WSent(_, _, ptrs) => if a.word == ptrs then 79 else 81
    case WCut(_, _) => 80
  }

  /** What side A still has to do: bytes that no frame carries weigh more than those in its hands. */
  function SideAWork(a: SideA): nat {
    AckRank(a) + WriterRank(a)
    + (if a.writer.WCut? || a.writer.WSent? || a.writer.WQueue? then BYTE_WEIGHT * |a.writer.seg.data| else 0)
    + (if a.writer.WOut? || a.writer.WClosed? then 0 else LEFT_WEIGHT * |a.writer.left|)
  }

  function FrameRank(b: SideB): nat {
    match b.framer
    case FIdle => 0
    case FAck(_) => 9
    case FAllow(_) => 17
    case FChain(_, _, _) => 18
    case FPushCas(_, _, lw) => if b.lw == lw then 21 else 23
    case FPush(_, _) => 22
    case FDecide(_, ptrs, _) => if b.word == ptrs then 26 else 29
    case FLen(_, ptrs) => if b.word == ptrs then 27 else 30
    case FTop(_) => 28
    case FCalcCas(_, ptrs) => if b.word == ptrs then 32 else 34
    case FCalc(_, _) => 33
  }

  function ReadRank(b: SideB): nat {
    match b.reader
    case DWaiting(_) => 0
    case DEof => 0
    case DCopy(_) => 1
    case DSub(_, _) => 4
    case DTry(_) => 5
    case DPopCas(_, lw) => if b.lw == lw then 6 else 8
    case DPop(_) => 7
    case DTop(_) => 8
    case DOut => 9
    case DEnd(_) => 10
    case DStatAck(_, _) => 19
    case DStatCas(_, ptrs, _) => if b.word == ptrs then 23 else 26
    case DStatLen(_, ptrs) => if b.word == ptrs then 24 else 27
    case DStat(_) => 25
  }

  /** A bound on the steps that all threads can take before the next Write. */
  function Measure(s: State): nat
    requires s.b.off <= |s.b.cur.data|
  {
    SideAWork(s.a) + FrameRank(s.b) + ReadRank(s.b)
    + BYTE_WEIGHT * (|Payload(s.data)| + |Behind(s.b)|)
    + FRAME_WEIGHT * |s.data| + ACK_WEIGHT * |s.acks| + s.b.stops
  }

  /** What a Write brings with it; the last 5 are its own step and the start of the writer. */
  function Brings(e: Event): nat {
    match e case WriteCall(buf) => LEFT_WEIGHT * |buf| + 5 case _ => 0
  }

  lemma AckStepWork(a: SideA)
    requires SideAOk(a) && CanAck(a) && Applying(a.acker) <= a.word.done
    ensures SideAWork(DoAck(a)) < SideAWork(a)
  {
  }

  lemma CutWork(a: SideA)
    requires SideAOk(a) && a.writer.WLoaded? && Remaining(a.writer.ptrs.size, a.writer.ptrs.done) > 0
    ensures SideAWork(DoWriter(a)) < SideAWork(a)
  {
    var n := CutSize(|a.writer.left|, Remaining(a.writer.ptrs.size, a.writer.ptrs.done));
    assert |a.writer.left[n..]| == |a.writer.left| - n;
  }

  lemma WriterStepWork(a: SideA)
    requires SideAOk(a) && CanWriter(a)
    ensures SideAWork(DoWriter(a)) + BYTE_WEIGHT * |Payload(WriterSends(a.writer))| + FRAME_WEIGHT * |WriterSends(a.writer)|
            < SideAWork(a)
  {
    if a.writer.WLoaded? && Remaining(a.writer.ptrs.size, a.writer.ptrs.done) > 0 {
      CutWork(a);
    } else if a.writer.WQueue? {
      assert Payload([Data(a.writer.seg)]) == a.writer.seg.data + Payload([]);
    }
  }

  lemma FrameStepRank(b: SideB)
    requires SideBOk(b) && CanFrame(b)
    ensures FrameRank(DoFrame(b)) + ReadRank(DoFrame(b)) + ACK_WEIGHT * |FramerSends(b.framer)|
            < FrameRank(b) + ReadRank(b)
  {
  }

  lemma CalcRank(b: SideB, n: nat)
    requires SideBOk(b) && CanCalc(b, n)
    ensures FrameRank(DoCalc(b, n)) + ReadRank(DoCalc(b, n)) < FrameRank(b) + ReadRank(b)
  {
  }

  lemma ReaderStepRank(b: SideB)
    requires SideBOk(b) && CanReader(b) && !(b.reader.DTry? && b.chain == [])
    ensures FrameRank(DoReader(b)) + ReadRank(DoReader(b)) + ACK_WEIGHT * |ReaderSends(b.reader)|
            < FrameRank(b) + ReadRank(b) + BYTE_WEIGHT * |ReaderCopies(b)|
  {
  }

  /** A segment that arrives is behind the reader instead of on the wire; a close frame is just gone. */
  lemma ArrivalMovesBytes(s: State)
    requires s.data != [] && s.b.framer.FIdle? && s.b.off <= |s.b.cur.data|
    ensures Do(s, FrameArrives).b.off <= |Do(s, FrameArrives).b.cur.data|
    ensures |Payload(s.data)| + |Behind(s.b)|
            == |Payload(Do(s, FrameArrives).data)| + |Behind(Do(s, FrameArrives).b)|
  {
    assert Payload(s.data) == FrameBytes(s.data[0]) + Payload(s.data[1..]);
  }

  /** A frame that arrives costs the framer less than it weighed on the wire. */
  lemma ArrivalRanks(s: State)
    requires s.data != [] && s.b.framer.FIdle?
    ensures var t := Do(s, FrameArrives);
      && FrameRank(t.b) + ReadRank(t.b) + t.b.stops < FrameRank(s.b) + ReadRank(s.b) + s.b.stops + FRAME_WEIGHT
      && t.a == s.a && t.acks == s.acks && t.data == s.data[1..]
  {
  }

  lemma FrameArrivesMeasure(s: State)
    requires s.data != [] && s.b.framer.FIdle? && s.b.off <= |s.b.cur.data|
    ensures Do(s, FrameArrives).b.off <= |Do(s, FrameArrives).b.cur.data|
    ensures Measure(Do(s, FrameArrives)) < Measure(s)
  {
    ArrivalRanks(s);
    ArrivalMovesBytes(s);
  }

  lemma WriterStepMeasure(s: State)
    requires Inv(s) && Can(s, WriterStep)
    ensures Measure(Do(s, WriterStep)) < Measure(s)
  {
    WriterStepWork(s.a);
    PayloadAppend(s.data, WriterSends(s.a.writer));
  }

  lemma FrameStepMeasure(s: State)
    requires Inv(s) && Can(s, FrameStep) && Inv(Do(s, FrameStep))
    ensures Measure(Do(s, FrameStep)) < Measure(s)
  {
    FrameStepRank(s.b);
    FrameStream(s.b);
  }

  lemma ReaderStepMeasure(s: State)
    requires Inv(s) && Can(s, ReaderStep) && !Spins(s, ReaderStep) && Inv(Do(s, ReaderStep))
    ensures Measure(Do(s, ReaderStep)) < Measure(s)
  {
    ReaderStepRank(s.b);
    ReaderStream(s.b);
  }

  /** The application on side A begins something. */
  lemma CallMeasure(s: State, e: Event)
    requires Inv(s) && Can(s, e) && (e.WriteCall? || e.WriterClose?)
    ensures Measure(Do(s, e)) < Measure(s) + Brings(e)
  {
    if e.WriterClose? {
      PayloadAppend(s.data, [Close]);
      assert Payload([Close]) == [];
    }
  }

  lemma AckMeasure(s: State, e: Event)
    requires Inv(s) && Can(s, e) && (e.AckStep? || e.AckArrives?)
    ensures Measure(Do(s, e)) < Measure(s)
  {
    if e.AckStep? {
      AckStepWork(s.a);
    }
  }

  lemma CalcMeasure(s: State, n: nat)
    requires Inv(s) && Can(s, CalcSize(n))
    ensures Do(s, CalcSize(n)).b.off == s.b.off && Do(s, CalcSize(n)).b.cur == s.b.cur
    ensures Measure(Do(s, CalcSize(n))) < Measure(s)
  {
    CalcRank(s.b, n);
    CalcKeepsSideB(s.b, n);
  }

  /** A Read that begins, and a Read that the close of the connection ends. */
  lemma ReadMeasure(s: State, e: Event)
    requires Inv(s) && Can(s, e) && (e.ReadCall? || e.ReaderStop?)
    ensures Do(s, e).b.off == s.b.off && Do(s, e).b.cur == s.b.cur
    ensures Measure(Do(s, e)) < Measure(s)
  {
    if e.ReadCall? {
      ReadCallSideB(s.b, e.room);
    } else {
      ReaderStopSideB(s.b);
    }
  }

  /** Every step but a spin uses up some of the measure, a lost compare-and-swap included; only a Write adds to it. */
  lemma StepUsesMeasure(s: State, e: Event)
    requires Inv(s) && Can(s, e) && !Spins(s, e)
    ensures Inv(Do(s, e)) && Measure(Do(s, e)) < Measure(s) + Brings(e)
  {
    StepKeeps(s, e);
    match e
    case WriteCall(_) => CallMeasure(s, e);
    case WriterClose => CallMeasure(s, e);
    case WriterStep => WriterStepMeasure(s);
    case AckStep => AckMeasure(s, e);
    case AckArrives => AckMeasure(s, e);
    case FrameArrives => FrameArrivesMeasure(s);
    case FrameStep => FrameStepMeasure(s);
    case CalcSize(n) => CalcMeasure(s, n);
    case ReaderStep => ReaderStepMeasure(s);
    case ReadCall(_) => ReadMeasure(s, e);
    case FrameStop => assert false;
    case ReaderStop => ReadMeasure(s, e);
  }

  // ------------------------------------------------------------- the bounds

  /** A run without spins. */
  ghost predicate IsBusyRun(s: State, events: seq<Event>, t: State)
    decreases |events|
  {
    if events == [] then s == t
    else Can(s, events[0]) && !Spins(s, events[0]) && IsBusyRun(Do(s, events[0]), events[1..], t)
  }

  /** What the Writes of a run bring with them. */
  function AllBrings(events: seq<Event>): nat {
    if events == [] then 0 else Brings(events[0]) + AllBrings(events[1..])
  }

  lemma {:induction false} RunUsesMeasure(s: State, events: seq<Event>, t: State)
    requires Inv(s) && IsBusyRun(s, events, t)
    ensures Inv(t) && |events| + Measure(t) <= Measure(s) + AllBrings(events)
    decreases |events|
  {
    if events != [] {
      StepUsesMeasure(s, events[0]);
      RunUsesMeasure(Do(s, events[0]), events[1..], t);
    }
  }

  /**
  Under every schedule and whatever sizes calcSize chooses, all threads together take no
  more steps than 45, and 5 and 72 a byte for every Write: nothing goes on for ever.
  */
  lemma RunIsBounded(events: seq<Event>, t: State)
    requires IsBusyRun(Init(), events, t)
    ensures |events| <= 45 + AllBrings(events)
  {
    InitInv();
    RunUsesMeasure(Init(), events, t);
  }

  /** The writer is blocked in every state that the run passes through. */
  ghost predicate StaysBlocked(s: State, events: seq<Event>)
    decreases |events|
  {
    && s.a.writer.WBlocked?
    && (events == [] || (Can(s, events[0]) && !Spins(s, events[0]) && StaysBlocked(Do(s, events[0]), events[1..])))
  }

  lemma {:induction false} BlockedRunIsBounded(s: State, events: seq<Event>)
    requires Inv(s) && StaysBlocked(s, events)
    ensures |events| <= Measure(s)
    decreases |events|
  {
    if events == [] {
    } else {
      StepUsesMeasure(s, events[0]);
      BlockedRunIsBounded(Do(s, events[0]), events[1..]);
    }
  }

  /** In particular a run that never releases a blocked writer is no longer than the measure. */
  lemma BlockedWriterIsReleased(s: State, events: seq<Event>)
    requires Reachable(s) && StaysBlocked(s, events)
    ensures s.b.off <= |s.b.cur.data| && |events| <= Measure(s)
  {
    ReachableInv(s);
    BlockedRunIsBounded(s, events);
  }

  // --------------------------------------------------------- what can be done

  /** A step that leads on, if there is one: the writer's, another thread's, or the end of a Read by the close. */
  function Onward(s: State): Event {
    if CanWriter(s.a) then WriterStep
    else if s.b.reader.DWaiting? && s.b.stops > 0 then ReaderStop
    else Candidate(s)
  }

  /** Without such a step all has been read, or a Read is due. */
  lemma OnwardOrRead(s: State)
    requires Inv(s)
    ensures || (Can(s, Onward(s)) && !Spins(s, Onward(s)))
            || (s.delivered == s.written && (s.a.writer.WOut? || s.a.writer.WClosed?))
            || Can(s, ReadCall(1))
  {
    if s.b.framer.FIdle? && (s.b.reader.DOut? || s.b.reader.DWaiting?) && !Unread(s.b) {
      QuietPeerOwesNothing(s.b);
    }
  }

  /** The step to take, as long as something is left to do. */
  lemma Choose(s: State) returns (e: Event)
    requires Inv(s) && !(s.delivered == s.written && (s.a.writer.WOut? || s.a.writer.WClosed?))
    ensures Can(s, e) && !Spins(s, e) && Brings(e) == 0 && Do(s, e).written == s.written
  {
    OnwardOrRead(s);
    e := if Can(s, Onward(s)) && !Spins(s, Onward(s)) then Onward(s) else ReadCall(1);
  }

  /** From wherever a run has got to, the two sides can go on so that all that has been written is read. */
  lemma {:induction false} Delivers(s: State) returns (events: seq<Event>, t: State)
    requires Inv(s)
    ensures IsRun(s, events, t) && Inv(t) && t.delivered == t.written == s.written
    ensures t.a.writer.WOut? || t.a.writer.WClosed?
    decreases Measure(s)
  {
    if s.delivered == s.written && (s.a.writer.WOut? || s.a.writer.WClosed?) {
      events, t := [], s;
    } else {
      var e := Choose(s);
      StepUsesMeasure(s, e);
      events, t := Delivers(Do(s, e));
      events := [e] + events;
    }
  }

  /** No state is a dead end: from every reachable state every Write can return and every byte be read. */
  lemma EverythingGetsThrough(s: State) returns (events: seq<Event>, t: State)
    requires Reachable(s)
    ensures IsRun(s, events, t) && t.delivered == t.written == s.written && (t.a.writer.WOut? || t.a.writer.WClosed?)
  {
    ReachableInv(s);
    events, t := Delivers(s);
  }
}
