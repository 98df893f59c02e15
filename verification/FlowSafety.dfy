/**
The two sides together: the invariant of every reachable state of the
flow-control protocol, and the safety theorems read off it.
*/
module FlowSafety {
  import opened Basics
  import opened Window
  import opened FlowControl
  import opened FlowInvariant

  /** Frames are well formed, and the close frame is the last thing that crosses. */
  ghost predicate Wire(s: State) {
    && (forall i :: 0 <= i < |s.data| ==> s.data[i].Data? ==> SegOk(s.data[i].seg))
    && (forall i :: 0 <= i < |s.data| ==> s.data[i].Close? ==>
          s.a.writer.WClosed? && i == |s.data| - 1 && s.b.stops == 0 && !s.b.reader.DEof?)
    && (s.b.stops > 0 || s.b.reader.DEof? ==> s.a.writer.WClosed? && s.data == [] && s.b.framer.FIdle?)
    && (s.a.writer.WClosed? ==>
          (s.data != [] && s.data[|s.data| - 1].Close?) || s.b.stops == if s.b.reader.DEof? then 1 else 2)
    && (forall i :: 0 <= i < |s.acks| ==> WindowOk(s.acks[i].size))
  }

  /** Every byte the sender counts as sent is in exactly one place. */
  predicate CreditOk(s: State) {
    && s.a.word.done ==
      Queued(s.a.writer) + |Payload(s.data)| + Owed(s.b) + Reads(s.acks) + Applying(s.a.acker) + s.dropped
    && (s.a.writer.WClosed? || s.dropped == 0)
  }

  /** What was written is what was delivered, then what is on the way, in order. */
  predicate StreamOk(s: State)
    requires s.b.off <= |s.b.cur.data|
  {
    s.written == s.delivered + (Behind(s.b) + (Payload(s.data) + Ahead(s.a.writer)))
  }

  ghost predicate Inv(s: State) {
    SideAOk(s.a) && SideBOk(s.b) && Wire(s) && CreditOk(s) && StreamOk(s)
  }

  // ------------------------------------------------------------ every step

  lemma WriterStepWire(s: State)
    requires WriterOk(s.a.writer) && Wire(s) && CanWriter(s.a)
    ensures Wire(Do(s, WriterStep))
  {
  }

  lemma WriterStepStream(s: State)
    requires SideAOk(s.a) && s.b.off <= |s.b.cur.data| && StreamOk(s) && CanWriter(s.a)
    ensures StreamOk(Do(s, WriterStep))
  {
    WriterStream(s.a);
    var more, rest := WriterSends(s.a.writer), Ahead(DoWriter(s.a).writer);
    PayloadAppend(s.data, more);
    Assoc(Payload(s.data), Payload(more), rest);
  }

  lemma WriterStepKeeps(s: State)
    requires Inv(s) && Can(s, WriterStep)
    ensures Inv(Do(s, WriterStep))
  {
    WriterKeepsSideA(s.a);
    WriterStepWire(s);
    WriterStepStream(s);
    WriterCredit(s.a);
    PayloadAppend(s.data, WriterSends(s.a.writer));
  }

  lemma AckStepKeeps(s: State)
    requires Inv(s) && Can(s, AckStep)
    ensures Inv(Do(s, AckStep))
  {
    AckKeepsSideA(s.a);
    AckCredit(s.a);
    assert Ahead(DoAck(s.a).writer) == Ahead(s.a.writer);
  }

  lemma AckArrivesWire(s: State)
    requires Wire(s) && Can(s, AckArrives)
    ensures Wire(Do(s, AckArrives))
  {
  }

  lemma AckArrivesKeeps(s: State)
    requires Inv(s) && Can(s, AckArrives)
    ensures Inv(Do(s, AckArrives))
  {
    AckArrivesWire(s);
  }

  lemma FrameStepWire(s: State)
    requires SideBOk(s.b) && Wire(s) && CanFrame(s.b)
    ensures Wire(Do(s, FrameStep))
  {
  }

  lemma FrameStepKeeps(s: State)
    requires Inv(s) && Can(s, FrameStep)
    ensures Inv(Do(s, FrameStep))
  {
    FrameStepWire(s);
    FrameKeepsSideB(s.b);
    FrameCredit(s.b);
    FrameStream(s.b);
    ReadsAppend(s.acks, FramerSends(s.b.framer));
  }

  lemma FrameArrivesStream(s: State)
    requires s.b.off <= |s.b.cur.data| && StreamOk(s) && Can(s, FrameArrives)
    ensures StreamOk(Do(s, FrameArrives))
  {
    var b, p, rest := FrameBytes(s.data[0]), Payload(s.data[1..]), Ahead(s.a.writer);
    MovesOver(s.b.cur.data[s.b.off..], Popped(s.b.reader), Bytes(s.b.chain), b, p, rest);
  }

  /** The bytes `b` move from the front of what is on the wire to the end of what is behind the reader. */
  lemma MovesOver<T>(x: seq<T>, y: seq<T>, z: seq<T>, b: seq<T>, p: seq<T>, r: seq<T>)
    ensures (x + (y + (z + []))) + ((b + p) + r) == (x + (y + (z + b))) + (p + r)
  {
    assert (x + (y + (z + []))) + b == x + (y + (z + b));
    Shift(x + (y + (z + [])), b, p, r);
  }

  lemma FrameArrivesWire(s: State)
    requires Wire(s) && Can(s, FrameArrives)
    ensures Wire(Do(s, FrameArrives))
  {
  }

  lemma FrameArrivesSideB(b: SideB, f: Frame)
    requires SideBOk(b) && b.framer.FIdle? && (f.Data? ==> SegOk(f.seg))
    ensures f.Data? ==> SideBOk(b.(framer := FCalc(f.seg, false)))
                        && Owed(b.(framer := FCalc(f.seg, false))) == Owed(b) + |f.seg.data|
    ensures SideBOk(b.(stops := b.stops + 2)) && Owed(b.(stops := b.stops + 2)) == Owed(b)
  {
  }

  lemma FrameArrivesKeeps(s: State)
    requires Inv(s) && Can(s, FrameArrives)
    ensures Inv(Do(s, FrameArrives))
  {
    FrameArrivesWire(s);
    FrameArrivesSideB(s.b, s.data[0]);
    FrameArrivesStream(s);
  }

  lemma CalcWire(s: State, n: nat)
    requires Wire(s) && Can(s, CalcSize(n))
    ensures Wire(Do(s, CalcSize(n)))
  {
  }

  lemma CalcKeeps(s: State, n: nat)
    requires Inv(s) && Can(s, CalcSize(n))
    ensures Inv(Do(s, CalcSize(n)))
  {
    CalcWire(s, n);
    CalcKeepsSideB(s.b, n);
  }

  lemma Shift<T>(d: seq<T>, c: seq<T>, q: seq<T>, r: seq<T>)
    ensures d + ((c + q) + r) == (d + c) + (q + r)
  {
    Assoc(c, q, r);
    Assoc(d, c, q + r);
  }

  lemma ReaderStepStream(s: State)
    requires SideBOk(s.b) && StreamOk(s) && CanReader(s.b)
    ensures DoReader(s.b).off <= |DoReader(s.b).cur.data| && StreamOk(Do(s, ReaderStep))
  {
    ReaderStream(s.b);
    Shift(s.delivered, ReaderCopies(s.b), Behind(DoReader(s.b)), Payload(s.data) + Ahead(s.a.writer));
  }

  lemma ReaderStepWire(s: State)
    requires SideBOk(s.b) && Wire(s) && CanReader(s.b)
    ensures Wire(Do(s, ReaderStep))
  {
  }

  lemma ReaderStepKeeps(s: State)
    requires Inv(s) && Can(s, ReaderStep)
    ensures Inv(Do(s, ReaderStep))
  {
    ReaderKeepsSideB(s.b);
    ReaderStepWire(s);
    ReaderStepStream(s);
    ReaderCredit(s.b);
    ReadsAppend(s.acks, ReaderSends(s.b.reader));
  }

  lemma WriteCallStream(s: State, buf: seq<byte>)
    requires s.b.off <= |s.b.cur.data| && StreamOk(s) && Can(s, WriteCall(buf))
    ensures StreamOk(Do(s, WriteCall(buf)))
  {
    var q, p := Behind(s.b), Payload(s.data);
    assert Ahead(WOut) == [] && Ahead(WTop(buf)) == buf && p + [] == p;
    Assoc(s.delivered, q + p, buf);
    Assoc(q, p, buf);
  }

  lemma WriteCallWire(s: State, buf: seq<byte>)
    requires Wire(s) && Can(s, WriteCall(buf))
    ensures Wire(Do(s, WriteCall(buf)))
  {
  }

  lemma WriteCallKeeps(s: State, buf: seq<byte>)
    requires Inv(s) && Can(s, WriteCall(buf))
    ensures Inv(Do(s, WriteCall(buf)))
  {
    WriteCallStream(s, buf);
    WriteCallWire(s, buf);
  }

  lemma CloseWire(s: State)
    requires SideBOk(s.b) && Wire(s) && Can(s, WriterClose)
    ensures Wire(Do(s, WriterClose))
  {
  }

  lemma CloseKeeps(s: State)
    requires Inv(s) && Can(s, WriterClose)
    ensures Inv(Do(s, WriterClose))
  {
    CloseWire(s);
    PayloadAppend(s.data, [Close]);
    assert Payload([Close]) == [];
  }

  lemma ReadCallSideB(b: SideB, room: nat)
    requires SideBOk(b) && b.reader.DOut? && room > 0
    ensures var b' := b.(reader := DTop(room)); SideBOk(b') && Owed(b') == Owed(b) && Behind(b') == Behind(b)
  {
  }

  lemma ReadCallKeeps(s: State, room: nat)
    requires Inv(s) && Can(s, ReadCall(room))
    ensures Inv(Do(s, ReadCall(room)))
  {
    ReadCallSideB(s.b, room);
  }

  lemma ReaderStopSideB(b: SideB)
    requires SideBOk(b) && b.reader.DWaiting? && b.stops > 0
    ensures var b' := b.(stops := b.stops - 1, reader := DEof); SideBOk(b') && Owed(b') == Owed(b) && Behind(b') == Behind(b)
  {
  }

  lemma ReaderStopWire(s: State)
    requires Wire(s) && Can(s, ReaderStop)
    ensures Wire(Do(s, ReaderStop))
  {
    assert s.data == [];
  }

  lemma ReaderStopKeeps(s: State)
    requires Inv(s) && Can(s, ReaderStop)
    ensures Inv(Do(s, ReaderStop))
  {
    ReaderStopWire(s);
    ReaderStopSideB(s.b);
  }

  lemma StepKeeps(s: State, e: Event)
    requires Inv(s) && Can(s, e)
    ensures Inv(Do(s, e))
  {
    match e
    case WriterStep => WriterStepKeeps(s);
    case AckArrives => AckArrivesKeeps(s);
    case AckStep => AckStepKeeps(s);
    case FrameArrives => FrameArrivesKeeps(s);
    case FrameStep => FrameStepKeeps(s);
    case CalcSize(n) => CalcKeeps(s, n);
    case ReaderStep => ReaderStepKeeps(s);
    case WriteCall(buf) => WriteCallKeeps(s, buf);
    case WriterClose => CloseKeeps(s);
    case FrameStop => assert false;
    case ReadCall(room) => ReadCallKeeps(s, room);
    case ReaderStop => ReaderStopKeeps(s);
  }

  lemma {:induction false} RunKeeps(s: State, events: seq<Event>, t: State)
    requires Inv(s) && IsRun(s, events, t)
    ensures Inv(t)
    decreases |events|
  {
    if events == [] {
    } else {
      StepKeeps(s, events[0]);
      RunKeeps(Do(s, events[0]), events[1..], t);
    }
  }

  lemma InitInv()
    ensures Inv(Init())
  {
  }

  lemma ReachableInv(t: State)
    requires Reachable(t)
    ensures Inv(t)
  {
    var events :| IsRun(Init(), events, t);
    InitInv();
    RunKeeps(Init(), events, t);
  }

  // -------------------------------------------------------------- theorems

  /**
  Credit conservation. The sender's count is what was cut but not queued, the
  data in flight, what side B still owes, and the acknowledgements in flight; so
  it never passes the largest window the sender ever adopted, nor 31 bits.
  */
  lemma CreditConserved(s: State)
    requires Reachable(s)
    ensures s.a.word.done == Queued(s.a.writer) + |Payload(s.data)|
            + (|Held(s.b.framer)| + |Bytes(s.b.chain)| + |Popped(s.b.reader)| + Unfinished(s.b) + s.b.word.done)
            + Pending(s.b) + Reads(s.acks) + Applying(s.a.acker) + s.dropped
    ensures !s.a.writer.WClosed? ==> s.dropped == 0
    ensures s.a.word.done <= s.a.maxAdopted < TWO31
  {
    ReachableInv(s);
  }

  lemma SideADefenses(a: SideA)
    requires SideAOk(a)
    ensures a.acker.SLoaded? ==> a.acker.ack.read <= a.acker.ptrs.done
    ensures a.writer.WSent? ==> (a.writer.ptrs.done + |a.writer.seg.data|) % TWO31 >= a.writer.ptrs.done
    ensures a.acker.SLoaded? && a.acker.ptrs.wait ==> a.word == a.acker.ptrs
    ensures a.acker.SLoop? || a.acker.SLoaded? ==> !a.acker.newWait
  {
  }

  lemma SideBDefenses(b: SideB)
    requires SizesOk(b)
    ensures b.reader.DStatCas? ==> b.reader.ptrs.done <= (b.reader.ptrs.done + |b.cur.data|) % TWO31
  {
  }

  /** The branches that the code takes for impossible values are never taken. */
  lemma DefensiveBranchesDead(s: State)
    requires Reachable(s)
    ensures s.a.acker.SLoaded? ==> s.a.acker.ack.read <= s.a.acker.ptrs.done
    ensures s.a.writer.WSent? ==>
              (s.a.writer.ptrs.done + |s.a.writer.seg.data|) % TWO31 >= s.a.writer.ptrs.done
    ensures s.b.reader.DStatCas? ==>
              s.b.reader.ptrs.done <= (s.b.reader.ptrs.done + |s.b.cur.data|) % TWO31
    ensures s.a.acker.SLoaded? && s.a.acker.ptrs.wait ==> s.a.word == s.a.acker.ptrs
    ensures s.a.acker.SLoop? || s.a.acker.SLoaded? ==> !s.a.acker.newWait
    ensures !Can(s, FrameStop)
  {
    ReachableInv(s);
    SideADefenses(s.a);
    SideBDefenses(s.b);
  }

  /** Nothing is lost, duplicated or reordered on the way. */
  lemma DeliveredIsPrefix(s: State)
    requires Reachable(s)
    ensures s.delivered <= s.written
  {
    ReachableInv(s);
  }

  /** Nothing written is still on the way. */
  predicate Drained(s: State) {
    && (s.a.writer.WOut? || s.a.writer.WClosed?)
    && s.data == []
    && (s.b.framer.FIdle? || s.b.framer.FAllow? || s.b.framer.FAck?)
    && s.b.chain == []
    && !s.b.reader.DSub?
    && s.b.off == |s.b.cur.data|
  }

  lemma DrainedMeansDelivered(s: State)
    requires Reachable(s) && Drained(s)
    ensures s.delivered == s.written
  {
    ReachableInv(s);
  }

  /** The reader sees the end of the stream only after every byte, and then nothing more is written. */
  lemma EofAfterEveryByte(s: State)
    requires Reachable(s) && s.b.reader.DEof?
    ensures s.delivered == s.written && s.a.writer.WClosed?
  {
    ReachableInv(s);
    assert |Bytes(s.b.chain)| == 0;
  }

  /** Segments on the wire are never empty or too long, and `part` marks all but the last of a Write. */
  lemma SegmentsWellFormed(s: State)
    requires Reachable(s)
    ensures forall i :: 0 <= i < |s.data| && s.data[i].Data? ==> 1 <= |s.data[i].seg.data| <= SEGMENT
    ensures s.a.writer.WQueue? ==> (s.a.writer.seg.part <==> s.a.writer.left != [])
  {
    ReachableInv(s);
  }

  /**
  The hand-off. The queue's length counts the elements pushed or being pushed
  and not yet taken; a marked wait means an empty queue; a waiting reader has
  exactly one wake-up coming or its mark in the word; a reader that saw a
  non-zero length finds an element now or as soon as the push in progress ends.
  */
  lemma HandOffExact(s: State)
    requires Reachable(s)
    ensures s.b.lw.len == |Bytes(s.b.chain)| + (if s.b.framer.FChain? then |s.b.framer.seg.data| else 0)
                          + |Popped(s.b.reader)|
    ensures s.b.lw.len < TWO31
    ensures s.b.lw.wait ==> s.b.lw.len == 0
    ensures s.b.reader.DWaiting? ==> (s.b.lw.wait <==> !Waking(s.b.framer))
    ensures Waking(s.b.framer) ==> s.b.reader.DWaiting?
    ensures s.b.reader.DTry? && s.b.chain == [] ==> s.b.framer.FChain?
  {
    ReachableInv(s);
  }
}
