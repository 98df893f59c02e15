/**
How the window is used: a segment is as large as the window and a frame allow, the
writer stops only at a full window, the receiver announces what it has read before
much of it piles up, and the sender's window is the one announced last.
*/
module FlowWindow {
  import opened Basics
  import opened Window
  import opened FlowControl
  import opened FlowInvariant
  import opened FlowSafety

  /**
  With the window loaded, WriteTo stops exactly if it is full. Otherwise it cuts the front
  of the buffer: all of it, or a full frame, or up to the end of the window.
  */
  lemma CutIsLargest(a: SideA)
    requires WriterOk(a.writer) && a.writer.WLoaded?
    ensures var WLoaded(left, ptrs) := a.writer; var w := DoWriter(a).writer;
      if ptrs.size <= ptrs.done then
        w == WBlocked(left) || (w == WTop(left) && a.word != ptrs)
      else
        && w.WCut? && w.seg.data + w.left == left
        && 1 <= |w.seg.data| <= 4085 && ptrs.done + |w.seg.data| <= ptrs.size
        && (w.left == [] || |w.seg.data| == 4085 || ptrs.done + |w.seg.data| == ptrs.size)
        && (w.seg.part <==> w.left != [])
  {
  }

  /**
  sendStatus, with nothing changed since its loads: it acknowledges all that has been read,
  or keeps count of it. It keeps only what is less than half the window, while more waits
  in the queue, and while a window that was announced as full still is.
  */
  lemma StatusHoldsLittleBack(b: SideB)
    requires SizesOk(b) && CanReader(b) && b.reader.DStatCas? && b.word == b.reader.ptrs
    ensures var read := b.word.done + |b.cur.data|; var b' := DoReader(b);
      && b'.word.size == b.word.size
      && (if b'.reader.DStatAck?
          then b'.reader.ack == Ack(b.word.size, read) && b'.word.done == 0 && !b'.word.wait
          else b'.reader.DEnd? && b'.word.done == read && b'.word.wait == b.word.wait)
      && (b'.reader.DStatAck? <==>
            || read >= b.word.size / 2
            || b.reader.len == 0
            || (b.word.wait && b.reader.len < b.word.size))
  {
  }

  /**
  receiveWindow.Write, with nothing changed since its loads: the segment that fills the window
  marks it and is not acknowledged, nor is one that comes when it is marked; every other
  acknowledges what had been read before.
  */
  lemma DecideExact(b: SideB)
    requires SizesOk(b) && b.framer.FDecide? && b.word == b.framer.ptrs
    ensures var FDecide(seg, _, len) := b.framer; var full := b.word.size <= len + |seg.data|; var b' := DoFrame(b);
      && b'.framer == FPush(seg, if full || b.word.wait then None else Some(Ack(b.word.size, b.word.done)))
      && b'.word == (if b.word.wait then b.word
                     else if full then b.word.(wait := true)
                     else b.word.(done := 0))
  {
  }

  /** calcSize: it loads the word, and a swap that wins puts in the new size and touches neither count nor mark. */
  lemma CalcExact(b: SideB, size: nat)
    requires SizesOk(b) && CanCalc(b, size)
    ensures var seg := b.framer.seg; var b' := DoCalc(b, size);
      if b.framer.FCalc? then b' == b.(framer := FCalcCas(seg, b.word))
      else if b.framer.ptrs == b.word then b' == b.(word := b.word.(size := size), framer := FTop(seg))
      else b' == b.(framer := FCalc(seg, true))
  {
  }

  // ------------------------------------------------------- the adopted size

  /** The size that the sender's window has when it has taken in all that was sent to it. */
  function Latest(s: State): nat {
    if s.acks != [] then s.acks[|s.acks| - 1].size
    else if s.a.acker.SLoop? || s.a.acker.SLoaded? then s.a.acker.ack.size
    else s.a.word.size
  }

  predicate SizeOk(s: State) { s.a.writer.WClosed? || Latest(s) == s.announced }

  lemma AckKeepsSize(s: State)
    requires SideAOk(s.a) && SizeOk(s) && Can(s, AckStep) && Applying(s.a.acker) <= s.a.word.done
    ensures SizeOk(Do(s, AckStep))
  {
  }

  lemma WriterKeepsSize(a: SideA)
    requires SideAOk(a) && CanWriter(a)
    ensures DoWriter(a).word.size == a.word.size && DoWriter(a).acker == a.acker
    ensures !DoWriter(a).writer.WClosed?
  {
  }

  lemma StepKeepsSize(s: State, e: Event)
    requires SideAOk(s.a) && SizeOk(s) && Can(s, e) && Applying(s.a.acker) <= s.a.word.done
    ensures SizeOk(Do(s, e))
  {
    match e
    case AckStep => AckKeepsSize(s);
    case WriterStep => WriterKeepsSize(s.a);
    case _ =>
  }

  lemma {:induction false} RunKeepsSize(s: State, events: seq<Event>, t: State)
    requires Inv(s) && SizeOk(s) && IsRun(s, events, t)
    ensures SizeOk(t)
    decreases |events|
  {
    if events != [] {
      StepKeeps(s, events[0]);
      StepKeepsSize(s, events[0]);
      RunKeepsSize(Do(s, events[0]), events[1..], t);
    }
  }

  /** An open sender with no acknowledgement under way has the window size that was announced last. */
  lemma LastSizeIsAdopted(s: State)
    requires Reachable(s) && !s.a.writer.WClosed? && s.acks == [] && (s.a.acker.SIdle? || s.a.acker.SAllow?)
    ensures s.a.word.size == s.announced
  {
    var events :| IsRun(Init(), events, s);
    InitInv();
    RunKeepsSize(Init(), events, s);
  }
}
