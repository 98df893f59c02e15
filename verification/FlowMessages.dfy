/**
What one Read returns. A Write is cut into segments and a Read may span several of
them, but it neither stops inside a Write while its buffer has room nor goes on past
the end of one: it returns the rest of the Write or fills its buffer, whichever is less.
*/
module FlowMessages {
  import opened Basics
  import opened Window
  import opened FlowControl
  import opened FlowInvariant
  import opened FlowSafety

  // ------------------------------------------------ the ends on the way

  /** For each byte that the segments carry, whether a Write ends with it. */
  function Marks(segs: seq<Seg>): (marks: seq<bool>) {
    if segs == [] then [] else EndMarks(|segs[0].data|, !segs[0].part) + Marks(segs[1..])
  }

  lemma {:induction false} MarksAppend(segs: seq<Seg>, more: seq<Seg>)
    ensures Marks(segs + more) == Marks(segs) + Marks(more)
  {
    if segs == [] {
      assert segs + more == more;
    } else {
      MarksAppend(segs[1..], more);
      assert (segs + more)[1..] == segs[1..] + more;
      Assoc(EndMarks(|segs[0].data|, !segs[0].part), Marks(segs[1..]), Marks(more));
    }
  }

  lemma MarksOne(seg: Seg)
    ensures Marks([seg]) == EndMarks(|seg.data|, !seg.part)
  {
    assert Marks([seg]) == EndMarks(|seg.data|, !seg.part) + Marks([]);
  }

  /** Cutting a segment in two leaves its end where it is. */
  lemma MarksCut(data: seq<byte>, part: bool, n: nat)
    requires n <= |data|
    ensures EndMarks(|data|, !part) == EndMarks(n, !part && n == |data|) + EndMarks(|data| - n, !part)
  {
  }

  function Segs(frames: seq<Frame>): seq<Seg> {
    if frames == [] then [] else (match frames[0] case Data(seg) => [seg] case Close => []) + Segs(frames[1..])
  }

  lemma {:induction false} SegsAppend(frames: seq<Frame>, more: seq<Frame>)
    ensures Segs(frames + more) == Segs(frames) + Segs(more)
  {
    if frames == [] {
      assert frames + more == more;
    } else {
      SegsAppend(frames[1..], more);
      assert (frames + more)[1..] == frames[1..] + more;
    }
  }

  /** What the writer has still to send: the segment in its hands, and the rest as one that ends the Write. */
  function ToSend(w: WriterPc): seq<Seg> {
    (if w.WCut? || w.WSent? || w.WQueue? then [w.seg] else [])
    + (if w.WOut? || w.WClosed? then [] else [Seg(w.left, false)])
  }

  /** What side B holds: the rest of the current element, and the segments behind it. */
  function Received(b: SideB): seq<Seg>
    requires b.off <= |b.cur.data|
  {
    [Seg(b.cur.data[b.off..], b.cur.part)]
    + ((if b.reader.DSub? then [b.reader.seg] else [])
       + (b.chain + (if b.framer.FIdle? || b.framer.FAllow? || b.framer.FAck? then [] else [b.framer.seg])))
  }

  function OnTheWay(s: State): seq<bool>
    requires s.b.off <= |s.b.cur.data|
  {
    Marks(Received(s.b)) + (Marks(Segs(s.data)) + Marks(ToSend(s.a.writer)))
  }

  // ------------------------------------------------------------ the invariant

  /** No Write ends with one of these bytes. */
  predicate NoEnd(ends: seq<bool>, from: nat, to: nat)
    requires to <= |ends|
  {
    forall i :: from <= i < to ==> !ends[i]
  }

  predicate HasHistory(s: State) {
    && s.b.off <= |s.b.cur.data|
    && |s.ends| == |s.written|
    && s.call.from <= |s.delivered| <= |s.ends|
  }

  /** The marks not read yet are those of the segments on the way; and what has been written ends with a Write. */
  predicate EndsOk(s: State)
    requires HasHistory(s)
  {
    && s.ends[|s.delivered|..] == OnTheWay(s)
    && (s.ends != [] ==> s.ends[|s.ends| - 1])
  }

  /** Between the elements of one Read. */
  predicate Fetching(d: ReaderPc) {
    d.DTop? || d.DPop? || d.DPopCas? || d.DWaiting? || d.DTry? || d.DSub?
  }

  /** Behind the copying of an element. */
  predicate Copied(d: ReaderPc) {
    InStatus(d) || d.DStatAck? || d.DEnd?
  }

  /** The last byte copied is the last of its element, and no other element of that Write follows. */
  predicate Finished(b: SideB) { b.off == |b.cur.data| && !b.cur.part }

  /** The latest Read, `to` bytes having been read in all. */
  predicate CallOk(b: SideB, call: Call, ends: seq<bool>, to: nat)
    requires call.from <= to <= |ends|
  {
    var d := b.reader;
    && (!d.DOut? && !d.DEof? ==> d.room + (to - call.from) == call.asked && call.asked > 0)
    && (Fetching(d) || d.DCopy? || d.DEof? ==> NoEnd(ends, call.from, to))
    && (Fetching(d) && call.from < to ==> b.cur.part && b.off == |b.cur.data|)
    && (Copied(d) || (d.DOut? && call.asked > 0) ==>
          call.from < to && NoEnd(ends, call.from, to - 1) && (ends[to - 1] <==> Finished(b)))
    && (Copied(d) ==> d.room == 0 || b.off == |b.cur.data|)
    && (d.DOut? && call.asked > 0 ==> to <= call.from + call.asked && (to < call.from + call.asked ==> ends[to - 1]))
  }

  predicate MessagesOk(s: State) {
    HasHistory(s) && EndsOk(s) && CallOk(s.b, s.call, s.ends, |s.delivered|)
  }

  // ------------------------------------------------------------- every step

  /** Segments in hand and on the wire carry the marks of what is left of the Write. */
  lemma WriterMarks(a: SideA)
    requires SideAOk(a) && CanWriter(a)
    ensures Marks(ToSend(a.writer)) == Marks(Segs(WriterSends(a.writer))) + Marks(ToSend(DoWriter(a).writer))
  {
    if a.writer.WQueue? {
      QueueMarks(a.writer.left, a.writer.seg);
    } else if a.writer.WTop? && a.writer.left == [] {
      MarksOne(Seg(a.writer.left, false));
    } else if a.writer.WLoaded? && Remaining(a.writer.ptrs.size, a.writer.ptrs.done) > 0 {
      CutMarks(a.writer.left, CutSize(|a.writer.left|, Remaining(a.writer.ptrs.size, a.writer.ptrs.done)));
    } else {
      assert ToSend(DoWriter(a).writer) == ToSend(a.writer);
    }
  }

  lemma QueueMarks(left: seq<byte>, seg: Seg)
    ensures Marks(ToSend(WQueue(left, seg))) == Marks(Segs([Data(seg)])) + Marks(ToSend(WTop(left)))
  {
    assert Segs([Data(seg)]) == [seg] + Segs([]);
    MarksAppend([seg], [Seg(left, false)]);
  }

  lemma CutMarks(left: seq<byte>, n: nat)
    requires n <= |left|
    ensures Marks([Seg(left, false)]) == Marks([Seg(left[..n], n < |left|)] + [Seg(left[n..], false)])
  {
    MarksAppend([Seg(left[..n], n < |left|)], [Seg(left[n..], false)]);
    MarksOne(Seg(left, false));
    MarksOne(Seg(left[..n], n < |left|));
    MarksOne(Seg(left[n..], false));
    MarksCut(left, false, n);
  }

  lemma WriterStepMessages(s: State)
    requires SideAOk(s.a) && CanWriter(s.a) && MessagesOk(s)
    ensures MessagesOk(Do(s, WriterStep))
  {
    var sends, rest := WriterSends(s.a.writer), ToSend(DoWriter(s.a).writer);
    WriterMarks(s.a);
    SegsAppend(s.data, sends);
    MarksAppend(Segs(s.data), Segs(sends));
    Assoc(Marks(Segs(s.data)), Marks(Segs(sends)), Marks(rest));
  }

  lemma FrameStepReceives(b: SideB)
    requires b.off <= |b.cur.data| && CanFrame(b)
    ensures DoFrame(b).cur == b.cur && DoFrame(b).off == b.off
    ensures Received(DoFrame(b)) == Received(b)
  {
  }

  lemma ArrivalReceives(b: SideB, seg: Seg)
    requires b.off <= |b.cur.data| && b.framer.FIdle?
    ensures Marks(Received(b.(framer := FCalc(seg, false)))) == Marks(Received(b)) + Marks([seg])
  {
    assert Received(b.(framer := FCalc(seg, false))) == Received(b) + [seg];
    MarksAppend(Received(b), [seg]);
  }

  lemma FrameArrivesMarks(s: State)
    requires Can(s, FrameArrives) && s.b.off <= |s.b.cur.data|
    ensures var b' := Do(s, FrameArrives).b; b'.cur == s.b.cur && b'.off == s.b.off && b'.reader == s.b.reader
    ensures OnTheWay(Do(s, FrameArrives)) == OnTheWay(s)
  {
    var rest, writer := s.data[1..], Marks(ToSend(s.a.writer));
    match s.data[0]
    case Close => assert Segs(s.data) == Segs(rest);
    case Data(seg) =>
      ArrivalReceives(s.b, seg);
      MarksAppend([seg], Segs(rest));
      Shift(Marks(Received(s.b)), Marks([seg]), Marks(Segs(rest)), writer);
  }

  /** A step of the frame thread, which at most wakes the reader, does not touch the call. */
  lemma CallStands(b: SideB, b': SideB, call: Call, ends: seq<bool>, to: nat)
    requires call.from <= to <= |ends| && CallOk(b, call, ends, to)
    requires b'.cur == b.cur && b'.off == b.off
    requires b'.reader == b.reader || (b.reader.DWaiting? && b'.reader == DPop(b.reader.room))
    ensures CallOk(b', call, ends, to)
  {
  }

  lemma FrameArrivesMessages(s: State)
    requires Can(s, FrameArrives) && MessagesOk(s)
    ensures MessagesOk(Do(s, FrameArrives))
  {
    var t := Do(s, FrameArrives);
    FrameArrivesMarks(s);
    assert t.ends == s.ends && t.delivered == s.delivered && t.written == s.written && t.call == s.call;
    CallStands(s.b, t.b, s.call, s.ends, |s.delivered|);
  }

  /** A finished element carries no marks, so another can take its place. */
  lemma SubMarks(b: SideB)
    requires b.reader.DSub? && CanReader(b) && b.off == |b.cur.data|
    ensures DoReader(b).off <= |DoReader(b).cur.data|
    ensures Marks(Received(DoReader(b))) == Marks(Received(b))
  {
    var spent := Seg([], b.cur.part);
    assert b.cur.data[b.off..] == [] && b.reader.seg.data[0..] == b.reader.seg.data;
    assert Received(b) == [spent] + Received(DoReader(b));
    MarksAppend([spent], Received(DoReader(b)));
    MarksOne(spent);
  }

  /** The reader takes the next element, or none. */
  lemma TakeMarks(b: SideB)
    requires SideBOk(b) && CanReader(b) && !b.reader.DCopy?
    ensures DoReader(b).off <= |DoReader(b).cur.data|
    ensures Marks(Received(DoReader(b))) == Marks(Received(b))
  {
    if b.reader.DSub? {
      SubMarks(b);
    } else {
      assert Received(DoReader(b)) == Received(b);
    }
  }

  /** Copying takes marks from the front; the last of them is an end exactly when the element is finished and is the last. */
  lemma CopyMarks(b: SideB)
    requires SideBOk(b) && CanReader(b) && b.reader.DCopy?
    ensures DoReader(b).off <= |DoReader(b).cur.data|
    ensures var l := |ReaderCopies(b)|; var b' := DoReader(b);
      && l > 0
      && Marks(Received(b)) == EndMarks(l, Finished(b')) + Marks(Received(b'))
  {
    var l, b' := |ReaderCopies(b)|, DoReader(b);
    var head, head' := Seg(b.cur.data[b.off..], b.cur.part), Seg(b.cur.data[b'.off..], b.cur.part);
    var rest := Received(b)[1..];
    assert Received(b) == [head] + rest && Received(b') == [head'] + rest;
    MarksAppend([head], rest);
    MarksAppend([head'], rest);
    MarksOne(head);
    MarksOne(head');
    MarksCut(head.data, b.cur.part, l);
    Assoc(EndMarks(l, Finished(b')), EndMarks(|head'.data|, !b.cur.part), Marks(rest));
  }

  lemma TakeStepEnds(s: State)
    requires SideBOk(s.b) && Can(s, ReaderStep) && !s.b.reader.DCopy? && HasHistory(s) && EndsOk(s)
    ensures HasHistory(Do(s, ReaderStep)) && EndsOk(Do(s, ReaderStep))
  {
    TakeMarks(s.b);
    assert Do(s, ReaderStep).delivered == s.delivered;
  }

  lemma FrontOfRest<T>(all: seq<T>, n: nat, front: seq<T>, rest: seq<T>)
    requires n <= |all| && all[n..] == front + rest
    ensures n + |front| <= |all| && all[n..n + |front|] == front && all[n + |front|..] == rest
  {
    assert all[n..][|front|..] == rest;
    assert all[n..][..|front|] == front;
  }

  lemma CopyStepEnds(s: State)
    requires SideBOk(s.b) && Can(s, ReaderStep) && s.b.reader.DCopy? && HasHistory(s) && EndsOk(s)
    ensures HasHistory(Do(s, ReaderStep)) && EndsOk(Do(s, ReaderStep))
    ensures var to := |s.delivered|; var l := |ReaderCopies(s.b)|;
      && l > 0 && to + l <= |s.ends|
      && s.ends[to..to + l] == EndMarks(l, Finished(DoReader(s.b)))
  {
    CopyMarks(s.b);
    var b' := DoReader(s.b);
    var marks := EndMarks(|ReaderCopies(s.b)|, Finished(b'));
    var wire, writer := Marks(Segs(s.data)), Marks(ToSend(s.a.writer));
    Assoc(marks, Marks(Received(b')), wire + writer);
    FrontOfRest(s.ends, |s.delivered|, marks, Marks(Received(b')) + (wire + writer));
  }

  lemma CopyStepCall(b: SideB, call: Call, ends: seq<bool>, to: nat)
    requires ReaderOk(b) && CanReader(b) && b.reader.DCopy? && call.from <= to <= |ends| && CallOk(b, call, ends, to)
    requires var l := |ReaderCopies(b)|; l > 0 && to + l <= |ends| && ends[to..to + l] == EndMarks(l, Finished(DoReader(b)))
    ensures CallOk(DoReader(b), call, ends, to + |ReaderCopies(b)|)
  {
    var l := |ReaderCopies(b)|;
    forall i | to <= i < to + l
      ensures ends[i] <==> i == to + l - 1 && Finished(DoReader(b))
    {
      assert ends[i] == ends[to..to + l][i - to];
    }
  }

  lemma TakeStepCall(b: SideB, call: Call, ends: seq<bool>, to: nat)
    requires ReaderOk(b) && CanReader(b) && !b.reader.DCopy? && call.from <= to <= |ends| && CallOk(b, call, ends, to)
    ensures CallOk(DoReader(b), call, ends, to)
  {
  }

  lemma ReaderStepMessages(s: State)
    requires SideBOk(s.b) && MessagesOk(s) && Can(s, ReaderStep)
    ensures MessagesOk(Do(s, ReaderStep))
  {
    if s.b.reader.DCopy? {
      CopyStepEnds(s);
      CopyStepCall(s.b, s.call, s.ends, |s.delivered|);
    } else {
      TakeStepEnds(s);
      TakeStepCall(s.b, s.call, s.ends, |s.delivered|);
    }
  }

  lemma FrameStepMessages(s: State)
    requires MessagesOk(s) && Can(s, FrameStep)
    ensures MessagesOk(Do(s, FrameStep))
  {
    FrameStepReceives(s.b);
    CallStands(s.b, DoFrame(s.b), s.call, s.ends, |s.delivered|);
  }

  lemma WriteCallMessages(s: State, buf: seq<byte>)
    requires Can(s, WriteCall(buf)) && MessagesOk(s)
    ensures MessagesOk(Do(s, WriteCall(buf)))
  {
    var t, marks := Do(s, WriteCall(buf)), EndMarks(|buf|, true);
    MarksOne(Seg(buf, false));
    assert ToSend(t.a.writer) == [Seg(buf, false)];
    assert t.ends[|t.delivered|..] == s.ends[|s.delivered|..] + marks;
    Assoc(Marks(Received(s.b)), Marks(Segs(s.data)), marks);
  }

  lemma CloseMessages(s: State)
    requires MessagesOk(s) && Can(s, WriterClose)
    ensures MessagesOk(Do(s, WriterClose))
  {
    SegsAppend(s.data, [Close]);
    assert Segs([Close]) == [] + Segs([]);
    assert Segs(Do(s, WriterClose).data) == Segs(s.data) && ToSend(WClosed) == ToSend(s.a.writer);
  }

  lemma AckMessages(s: State, e: Event)
    requires MessagesOk(s) && Can(s, e) && (e.AckArrives? || e.AckStep?)
    ensures MessagesOk(Do(s, e))
  {
    assert ToSend(Do(s, e).a.writer) == ToSend(s.a.writer);
  }

  lemma CalcMessages(s: State, n: nat)
    requires MessagesOk(s) && Can(s, CalcSize(n))
    ensures MessagesOk(Do(s, CalcSize(n)))
  {
    assert Received(DoCalc(s.b, n)) == Received(s.b);
    CallStands(s.b, DoCalc(s.b, n), s.call, s.ends, |s.delivered|);
  }

  lemma ReadCallMessages(s: State, room: nat)
    requires MessagesOk(s) && Can(s, ReadCall(room))
    ensures MessagesOk(Do(s, ReadCall(room)))
  {
    assert Received(Do(s, ReadCall(room)).b) == Received(s.b);
  }

  lemma ReaderStopMessages(s: State)
    requires MessagesOk(s) && Can(s, ReaderStop)
    ensures MessagesOk(Do(s, ReaderStop))
  {
    assert Received(Do(s, ReaderStop).b) == Received(s.b);
  }

  lemma StepKeepsMessages(s: State, e: Event)
    requires Inv(s) && MessagesOk(s) && Can(s, e)
    ensures MessagesOk(Do(s, e))
  {
    match e
    case WriterStep => WriterStepMessages(s);
    case WriteCall(buf) => WriteCallMessages(s, buf);
    case WriterClose => CloseMessages(s);
    case AckArrives => AckMessages(s, e);
    case AckStep => AckMessages(s, e);
    case FrameArrives => FrameArrivesMessages(s);
    case FrameStep => FrameStepMessages(s);
    case ReaderStep => ReaderStepMessages(s);
    case FrameStop => assert false;
    case CalcSize(n) => CalcMessages(s, n);
    case ReadCall(room) => ReadCallMessages(s, room);
    case ReaderStop => ReaderStopMessages(s);
  }

  lemma {:induction false} RunKeepsMessages(s: State, events: seq<Event>, t: State)
    requires Inv(s) && MessagesOk(s) && IsRun(s, events, t)
    ensures MessagesOk(t)
    decreases |events|
  {
    if events != [] {
      StepKeeps(s, events[0]);
      StepKeepsMessages(s, events[0]);
      RunKeepsMessages(Do(s, events[0]), events[1..], t);
    }
  }

  lemma InitMessages()
    ensures MessagesOk(Init())
  {
    MarksOne(Seg([], false));
    assert Received(Init().b) == [Seg([], false)];
  }

  lemma ReachableMessages(t: State)
    requires Reachable(t)
    ensures MessagesOk(t)
  {
    var events :| IsRun(Init(), events, t);
    InitInv();
    InitMessages();
    RunKeepsMessages(Init(), events, t);
  }

  // -------------------------------------------------------------- theorems

  /** A Read that has copied something asks the queue for more only inside a Write. */
  lemma ReadGoesOn(s: State)
    requires Reachable(s) && Fetching(s.b.reader) && s.call.from < |s.delivered|
    ensures s.b.cur.part && s.b.off == |s.b.cur.data|
    ensures |s.delivered| <= |s.ends| && NoEnd(s.ends, s.call.from, |s.delivered|)
  {
    ReachableMessages(s);
  }

  /**
  A Read that has returned has the bytes that follow what was read before: all up to the
  end of the Write that the first of them is from, or as many as its buffer holds.
  */
  lemma ReadIsExact(s: State)
    requires Reachable(s) && s.b.reader.DOut? && s.call.asked > 0
    ensures var Call(from, asked) := s.call; var to := |s.delivered|;
      && from < to <= from + asked && to <= |s.written| == |s.ends|
      && s.delivered[from..] == s.written[from..to]
      && NoEnd(s.ends, from, to - 1)
      && (to < from + asked ==> s.ends[to - 1])
      && (s.ends[to - 1] <==> Finished(s.b))
  {
    ReachableMessages(s);
    DeliveredIsPrefix(s);
  }

  /** A Read that reports the end of the stream has copied nothing, so no byte is lost with it. */
  lemma EofReadsNothing(s: State)
    requires Reachable(s) && s.b.reader.DEof?
    ensures s.call.from == |s.delivered| == |s.written|
  {
    ReachableMessages(s);
    EofAfterEveryByte(s);
  }
}
