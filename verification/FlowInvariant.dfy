/**
What every step of the flow-control protocol keeps. Each side has an invariant
of its own; the two are tied together by the account of credit and by the byte
stream. Every thread has one lemma for its side and one for each of the two.
*/
module FlowInvariant {
  import opened Basics
  import opened Window
  import opened FlowControl

  // ------------------------------------------------------------ accounting

  /** The bytes carried by a sequence of segments. */
  function Bytes(segs: seq<Seg>): seq<byte> {
    if segs == [] then [] else segs[0].data + Bytes(segs[1..])
  }

  function FrameBytes(f: Frame): seq<byte> {
    match f case Data(seg) => seg.data case Close => []
  }

  /** The bytes carried by a sequence of frames. */
  function Payload(frames: seq<Frame>): seq<byte> {
    if frames == [] then [] else FrameBytes(frames[0]) + Payload(frames[1..])
  }

  /** The bytes acknowledged by a sequence of SendOk frames. */
  function Reads(acks: seq<Ack>): nat {
    if acks == [] then 0 else acks[0].read + Reads(acks[1..])
  }

  lemma {:induction false} BytesAppend(segs: seq<Seg>, seg: Seg)
    ensures Bytes(segs + [seg]) == Bytes(segs) + seg.data
  {
    if segs == [] {
      assert Bytes([seg]) == seg.data + Bytes([]);
    } else {
      BytesAppend(segs[1..], seg);
      assert (segs + [seg])[1..] == segs[1..] + [seg];
      assert segs[0].data + (Bytes(segs[1..]) + seg.data) == (segs[0].data + Bytes(segs[1..])) + seg.data;
    }
  }

  lemma {:induction false} PayloadAppend(frames: seq<Frame>, more: seq<Frame>)
    ensures Payload(frames + more) == Payload(frames) + Payload(more)
  {
    if frames == [] {
      assert frames + more == more;
    } else {
      PayloadAppend(frames[1..], more);
      assert (frames + more)[1..] == frames[1..] + more;
      Assoc(FrameBytes(frames[0]), Payload(frames[1..]), Payload(more));
    }
  }

  lemma {:induction false} ReadsAppend(acks: seq<Ack>, more: seq<Ack>)
    ensures Reads(acks + more) == Reads(acks) + Reads(more)
  {
    if acks == [] {
      assert acks + more == more;
    } else {
      ReadsAppend(acks[1..], more);
      assert (acks + more)[1..] == acks[1..] + more;
    }
  }

  // ---------------------------------------------------------------- side A

  predicate SegOk(seg: Seg) { 1 <= |seg.data| <= SEGMENT }

  predicate WindowOk(size: nat) { 1 <= size < TWO31 }

  /** The bytes of the current Write call that no frame carries yet. */
  function Ahead(w: WriterPc): seq<byte> {
    (if w.WCut? || w.WSent? || w.WQueue? then w.seg.data else [])
    + (if w.WOut? || w.WClosed? then [] else w.left)
  }

  /** Bytes counted by `sent` whose frame is not queued yet. */
  function Queued(w: WriterPc): nat {
    if w.WQueue? then |w.seg.data| else 0
  }

  /** Credit that SetSize has taken from the wire and not yet applied. */
  function Applying(k: AckPc): nat {
    if k.SLoop? || k.SLoaded? then k.ack.read else 0
  }

  predicate WriterOk(w: WriterPc) {
    && (w.WCut? || w.WSent? || w.WQueue? ==> SegOk(w.seg) && (w.seg.part <==> w.left != []))
    && (w.WLoaded? || w.WBlocked? ==> w.left != [])
  }

  /** The count of sent bytes, and each snapshot of it, stays below the largest adopted size. */
  predicate Bounded(a: SideA) {
    && WindowOk(a.word.size)
    && a.word.size <= a.maxAdopted < TWO31
    && a.word.done <= a.maxAdopted
    && (a.writer.WLoaded? ==> a.word.done <= a.writer.ptrs.done && a.writer.ptrs.size <= a.maxAdopted)
    && (a.writer.WCut? || a.writer.WSent? ==> a.word.done + |a.writer.seg.data| <= a.maxAdopted)
    && (a.writer.WSent? ==> a.word.done <= a.writer.ptrs.done && a.writer.ptrs.size <= a.maxAdopted
                            && a.writer.ptrs.done + |a.writer.seg.data| <= a.maxAdopted)
  }

  /** The wait bit is set exactly while the writer is blocked and nobody is waking it, and only for want of window. */
  predicate WaitBit(a: SideA) {
    && (a.word.wait <==> a.writer.WBlocked? && !a.acker.SAllow?)
    && (a.acker.SAllow? ==> a.writer.WBlocked?)
    && (a.word.wait ==> a.word.size <= a.word.done)
    && (a.writer.WLoaded? || a.writer.WSent? ==> !a.writer.ptrs.wait)
  }

  /** A snapshot taken by SetSize is stale only if the writer has sent more since. */
  predicate Acking(a: SideA) {
    && (a.acker.SLoop? || a.acker.SLoaded? ==> WindowOk(a.acker.ack.size) && !a.acker.newWait)
    && (a.acker.SLoaded? ==>
          && WindowOk(a.acker.ptrs.size)
          && a.acker.ack.read <= a.acker.ptrs.done <= a.word.done
          && a.acker.ptrs.size == a.word.size
          && (a.acker.ptrs.wait ==> a.word == a.acker.ptrs))
  }

  predicate SideAOk(a: SideA) {
    WriterOk(a.writer) && Bounded(a) && WaitBit(a) && Acking(a)
  }

  lemma WriterKeepsSideA(a: SideA)
    requires SideAOk(a) && CanWriter(a)
    ensures SideAOk(DoWriter(a))
  {
  }

  lemma AckKeepsSideA(a: SideA)
    requires SideAOk(a) && CanAck(a) && Applying(a.acker) <= a.word.done
    ensures SideAOk(DoAck(a))
  {
  }

  lemma WriterCredit(a: SideA)
    requires SideAOk(a) && CanWriter(a)
    ensures DoWriter(a).word.done - Queued(DoWriter(a).writer) - |Payload(WriterSends(a.writer))|
            == a.word.done - Queued(a.writer)
  {
  }

  lemma AckCredit(a: SideA)
    requires SideAOk(a) && CanAck(a) && Applying(a.acker) <= a.word.done
    ensures DoAck(a).word.done - Applying(DoAck(a).acker) == a.word.done - Applying(a.acker)
  {
  }

  lemma WriterStream(a: SideA)
    requires SideAOk(a) && CanWriter(a)
    ensures Ahead(a.writer) == Payload(WriterSends(a.writer)) + Ahead(DoWriter(a).writer)
  {
    match a.writer
    case WLoaded(left, ptrs) =>
      var n := CutSize(|left|, Remaining(ptrs.size, ptrs.done));
      assert left == left[..n] + left[n..];
    case WQueue(left, seg) =>
      assert Payload([Data(seg)]) == seg.data + Payload([]);
    case _ =>
  }

  // ---------------------------------------------------------------- side B

  /** The segment the frame reader holds, not yet in the chain. */
  function Held(f: FramePc): seq<byte> {
    if f.FIdle? || f.FAllow? || f.FAck? then [] else f.seg.data
  }

  /** The segment taken from the chain and not yet made current. */
  function Popped(d: ReaderPc): seq<byte> {
    if d.DSub? then d.seg.data else []
  }

  /** Everything side B has received and not yet delivered, in stream order. */
  function Behind(b: SideB): seq<byte>
    requires b.off <= |b.cur.data|
  {
    b.cur.data[b.off..] + (Popped(b.reader) + (Bytes(b.chain) + Held(b.framer)))
  }

  predicate InStatus(d: ReaderPc) { d.DStat? || d.DStatLen? || d.DStatCas? }

  /** The length of the current element while its credit has not been returned. */
  function Unfinished(b: SideB): nat {
    if b.off < |b.cur.data| || InStatus(b.reader) then |b.cur.data| else 0
  }

  function AckOf(f: FramePc): Option<Ack> {
    if f.FPush? || f.FPushCas? || f.FChain? || f.FAllow? || f.FAck? then f.ack else None
  }

  /** Credit in SendOk frames that side B has decided to send and not yet sent. */
  function Pending(b: SideB): nat {
    (match AckOf(b.framer) case Some(k) => k.read case None => 0)
    + (if b.reader.DStatAck? then b.reader.ack.read else 0)
  }

  /** Everything side B still owes to side A. */
  function Owed(b: SideB): nat {
    |Held(b.framer)| + |Bytes(b.chain)| + |Popped(b.reader)| + Unfinished(b) + b.word.done + Pending(b)
  }

  predicate SegsOk(b: SideB) {
    && (forall i :: 0 <= i < |b.chain| ==> SegOk(b.chain[i]))
    && (!b.framer.FIdle? && !b.framer.FAllow? && !b.framer.FAck? ==> SegOk(b.framer.seg))
    && (b.reader.DSub? ==> SegOk(b.reader.seg))
    && b.off <= |b.cur.data| <= SEGMENT
  }

  predicate SizesOk(b: SideB) {
    && WindowOk(b.word.size)
    && (AckOf(b.framer).Some? ==> WindowOk(AckOf(b.framer).value.size))
    && (b.reader.DStatAck? ==> WindowOk(b.reader.ack.size))
    && (b.framer.FCalcCas? || b.framer.FLen? || b.framer.FDecide? ==> WindowOk(b.framer.ptrs.size) && b.framer.ptrs.done < TWO31)
    && (b.reader.DStatLen? || b.reader.DStatCas? ==> WindowOk(b.reader.ptrs.size) && b.reader.ptrs.done + |b.cur.data| < TWO31)
  }

  /** The queue's length counts what is in the chain, about to enter it, or just taken from it. */
  predicate LengthOk(b: SideB) {
    && b.lw.len == |Bytes(b.chain)| + (if b.framer.FChain? then |b.framer.seg.data| else 0) + |Popped(b.reader)|
    && (b.reader.DStatCas? ==> b.reader.len <= b.lw.len)
    && (b.reader.DPopCas? ==> b.reader.lw.len <= b.lw.len)
    && (b.reader.DTry? ==> b.lw.len > 0)
    && (b.framer.FPushCas? && b.framer.lw.wait ==> b.framer.lw.len == 0)
  }

  predicate Waking(f: FramePc) { f.FAllow? || (f.FChain? && f.wait) }

  /** A waiting reader is either marked in the word or being woken, never both, and never over a full queue. */
  predicate HandOff(b: SideB) {
    && (b.reader.DWaiting? || b.reader.DEof? <==> b.lw.wait || Waking(b.framer))
    && !(b.lw.wait && Waking(b.framer))
    && (b.lw.wait ==> b.lw.len == 0)
    && (b.reader.DPopCas? ==> !b.reader.lw.wait)
  }

  predicate AtBoundary(d: ReaderPc) {
    d.DPop? || d.DPopCas? || d.DWaiting? || d.DTry? || d.DSub? || d.DEof? || d.DStatAck? || InStatus(d)
  }

  predicate ReaderOk(b: SideB) {
    && (AtBoundary(b.reader) ==> b.off == |b.cur.data|)
    && (InStatus(b.reader) ==> b.cur.data != [])
    && (b.reader.DCopy? ==> b.off < |b.cur.data| && b.reader.room > 0)
    && (b.reader.DTop? || b.reader.DPop? || b.reader.DPopCas? || b.reader.DWaiting? || b.reader.DTry? || b.reader.DSub?
        ==> b.reader.room > 0)
  }

  /** Read bytes never stay unacknowledged behind an empty queue. */
  predicate NothingStranded(b: SideB) {
    b.word.done > 0 ==> b.lw.len > 0 || b.off < |b.cur.data| || InStatus(b.reader)
  }

  predicate SideBOk(b: SideB) {
    SegsOk(b) && SizesOk(b) && LengthOk(b) && HandOff(b) && ReaderOk(b) && NothingStranded(b)
  }

  lemma FrameKeepsSegs(b: SideB)
    requires SideBOk(b) && CanFrame(b) && Owed(b) < TWO31
    ensures SegsOk(DoFrame(b)) && SizesOk(DoFrame(b))
  {
  }

  lemma ChainKeepsLength(b: SideB)
    requires LengthOk(b) && b.framer.FChain?
    ensures LengthOk(DoFrame(b))
  {
    BytesAppend(b.chain, b.framer.seg);
  }

  lemma PushKeepsLength(b: SideB)
    requires LengthOk(b) && HandOff(b) && b.framer.FPushCas? && CanFrame(b)
    requires SegOk(b.framer.seg) && |Bytes(b.chain)| + |Popped(b.reader)| + |b.framer.seg.data| < TWO32
    ensures LengthOk(DoFrame(b))
  {
    assert DoFrame(b).chain == b.chain;
  }

  lemma FrameKeepsLength(b: SideB)
    requires SideBOk(b) && CanFrame(b) && Owed(b) < TWO31
    ensures LengthOk(DoFrame(b))
  {
    if b.framer.FChain? {
      ChainKeepsLength(b);
    } else if b.framer.FPushCas? {
      PushKeepsLength(b);
    } else {
      assert DoFrame(b).chain == b.chain;
    }
  }

  lemma FrameKeepsHandOff(b: SideB)
    requires LengthOk(b) && HandOff(b) && CanFrame(b)
    requires b.framer.FPushCas? ==> SegOk(b.framer.seg) && |b.framer.seg.data| + b.lw.len < TWO32
    ensures HandOff(DoFrame(b))
  {
  }

  lemma FrameKeepsRest(b: SideB)
    requires SideBOk(b) && CanFrame(b) && Owed(b) < TWO31
    ensures ReaderOk(DoFrame(b)) && NothingStranded(DoFrame(b))
  {
  }

  lemma FrameKeepsSideB(b: SideB)
    requires SideBOk(b) && CanFrame(b) && Owed(b) < TWO31
    ensures SideBOk(DoFrame(b))
  {
    FrameKeepsSegs(b);
    FrameKeepsLength(b);
    FrameKeepsHandOff(b);
    FrameKeepsRest(b);
  }

  /** The element enters the chain: its bytes move from the thread to the queue. */
  lemma ChainKeeps(b: SideB)
    requires SideBOk(b) && b.framer.FChain?
    ensures Owed(DoFrame(b)) + Reads(FramerSends(b.framer)) == Owed(b)
    ensures Behind(DoFrame(b)) == Behind(b)
  {
    BytesAppend(b.chain, b.framer.seg);
  }

  lemma FrameCredit(b: SideB)
    requires SideBOk(b) && CanFrame(b) && Owed(b) < TWO31
    ensures Owed(DoFrame(b)) + Reads(FramerSends(b.framer)) == Owed(b)
  {
    if b.framer.FChain? {
      ChainKeeps(b);
    } else if b.framer.FDecide? {
      DecideCredit(b);
    } else {
      assert DoFrame(b).chain == b.chain;
    }
  }

  /** The window is announced, or the read count kept: nothing is owed more or less. */
  lemma DecideCredit(b: SideB)
    requires SideBOk(b) && b.framer.FDecide? && CanFrame(b)
    ensures Owed(DoFrame(b)) + Reads(FramerSends(b.framer)) == Owed(b)
  {
    assert DoFrame(b).chain == b.chain;
  }

  lemma FrameStream(b: SideB)
    requires SideBOk(b) && CanFrame(b)
    ensures Behind(DoFrame(b)) == Behind(b)
  {
    if b.framer.FChain? {
      ChainKeeps(b);
    } else {
      assert DoFrame(b).chain == b.chain;
    }
  }

  lemma CalcKeepsSideB(b: SideB, n: nat)
    requires SideBOk(b) && CanCalc(b, n) && Owed(b) < TWO31
    ensures SideBOk(DoCalc(b, n)) && Owed(DoCalc(b, n)) == Owed(b) && Behind(DoCalc(b, n)) == Behind(b)
  {
  }

  lemma ReaderKeepsSegs(b: SideB)
    requires SideBOk(b) && CanReader(b) && Owed(b) < TWO31
    ensures SegsOk(DoReader(b)) && SizesOk(DoReader(b))
  {
  }

  lemma TakeKeepsLength(b: SideB)
    requires LengthOk(b) && (b.reader.DTry? || b.reader.DSub?) && CanReader(b) && b.lw.len < TWO32
    ensures LengthOk(DoReader(b))
  {
    if b.reader.DTry? && b.chain != [] {
      assert Bytes(b.chain) == b.chain[0].data + Bytes(b.chain[1..]);
    }
  }

  lemma ReaderKeepsLength(b: SideB)
    requires SideBOk(b) && CanReader(b) && Owed(b) < TWO31
    ensures LengthOk(DoReader(b))
  {
    if b.reader.DTry? || b.reader.DSub? {
      TakeKeepsLength(b);
    } else {
      assert DoReader(b).chain == b.chain;
    }
  }

  lemma ReaderKeepsHandOff(b: SideB)
    requires SideBOk(b) && CanReader(b)
    ensures HandOff(DoReader(b)) && ReaderOk(DoReader(b))
  {
  }

  lemma ReaderKeepsSideB(b: SideB)
    requires SideBOk(b) && CanReader(b) && Owed(b) < TWO31
    ensures SideBOk(DoReader(b))
  {
    ReaderKeepsSegs(b);
    ReaderKeepsLength(b);
    ReaderKeepsHandOff(b);
  }

  lemma StatusCredit(b: SideB)
    requires SideBOk(b) && InStatus(b.reader) && CanReader(b) && Owed(b) < TWO31
    ensures Owed(DoReader(b)) + Reads(ReaderSends(b.reader)) == Owed(b)
  {
    assert DoReader(b).chain == b.chain;
  }

  lemma TakeCredit(b: SideB)
    requires SideBOk(b) && (b.reader.DTry? || b.reader.DSub?) && CanReader(b)
    ensures Owed(DoReader(b)) + Reads(ReaderSends(b.reader)) == Owed(b)
  {
  }

  lemma ReaderCredit(b: SideB)
    requires SideBOk(b) && CanReader(b) && Owed(b) < TWO31
    ensures Owed(DoReader(b)) + Reads(ReaderSends(b.reader)) == Owed(b)
  {
    if InStatus(b.reader) {
      StatusCredit(b);
    } else if b.reader.DTry? || b.reader.DSub? {
      TakeCredit(b);
    } else {
      assert DoReader(b).chain == b.chain;
    }
  }

  /** Taking an element from the chain moves its bytes, and no others. */
  lemma TakeStream(b: SideB)
    requires SideBOk(b) && b.reader.DTry? && CanReader(b)
    ensures Behind(DoReader(b)) == Behind(b)
  {
    if b.chain != [] {
      assert Bytes(b.chain) == b.chain[0].data + Bytes(b.chain[1..]);
    }
  }

  lemma CopyStream(b: SideB)
    requires SideBOk(b) && (b.reader.DCopy? || b.reader.DSub?) && CanReader(b)
    ensures DoReader(b).off <= |DoReader(b).cur.data|
    ensures Behind(b) == ReaderCopies(b) + Behind(DoReader(b))
  {
  }

  lemma ReaderStream(b: SideB)
    requires SideBOk(b) && CanReader(b)
    ensures DoReader(b).off <= |DoReader(b).cur.data|
    ensures Behind(b) == ReaderCopies(b) + Behind(DoReader(b))
  {
    match b.reader
    case DTry(_) => TakeStream(b);
    case DSub(_, _) => CopyStream(b);
    case DCopy(_) => CopyStream(b);
    case _ =>
  }
}
