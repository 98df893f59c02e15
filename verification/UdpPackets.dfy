/**
What becomes of the packets. History is kept beside the machine: for each goroutine the
packet it was started for and what was decided about it, every call of target.Write, and
counts of what was received from the socket and from the targets. Each packet meets one
fate; the one reason not to write it, once its session is announced, is that its build failed.
*/
module UdpPackets {
  import opened Basics
  import opened UdpSession
  import opened UdpSafety

  /** Written; refused by an error of target.Write; dropped for a failed build, after the timeout, or because of Close. */
  datatype Verdict = Written | Refused | Unbuilt | Late | Cancelled

  datatype Fate = Pending | Decided(verdict: Verdict, sid: nat)

  datatype Datagram = Datagram(key: Key, fate: Fate)

  /** A call of target.Write: the session, the goroutine with the packet, and whether it succeeded. */
  datatype Attempt = Attempt(sid: nat, packet: nat, ok: bool)

  /**
  `packets` goes with the threads; the threads of the sweeper and of Close have none. Counted are
  the packets received, the builds that went wrong, the sessions announced, those whose builder
  met an error of the first write, of a read or of a reply, the replies read and those sent back.
  */
  datatype History = History(
    s: State, packets: seq<Option<Datagram>>, attempts: seq<Attempt>, received: nat,
    unbuilt: nat, announced: nat, stopped: nat, replies: nat, returned: nat, unreturned: nat)

  function Begin(maxConn: nat): History {
    History(Init(maxConn), [], [], 0, 0, 0, 0, 0, 0, 0)
  }

  predicate Sized(h: History) { |h.packets| == |h.s.threads| }

  // ------------------------------------------------------------- recording

  function Decide(p: Option<Datagram>, verdict: Verdict, sid: nat): Option<Datagram> {
    match p case None => None case Some(x) => Some(x.(fate := Decided(verdict, sid)))
  }

  /** A select that is left for anything but the write drops the packet, for the reason it was left. */
  function Reason(pick: Pick): Verdict {
    match pick case Good => Unbuilt case Bad => Late case Cancel => Cancelled
  }

  /** What a step decides about its goroutine's packet. */
  function Observe(s: State, pc: Pc, pick: Pick, p: Option<Datagram>): Option<Datagram>
    requires CanStep(s, pc, pick)
  {
    if pc.Wait? && !Next(s, pc, pick).Write? then Decide(p, Reason(pick), pc.sid)
    else if Calls(pc) then Decide(p, if pick.Good? then Written else Refused, pc.sid)
    else if pc.FailErr? then Decide(p, Unbuilt, pc.sid)
    else p
  }

  /** The steps that are a call of target.Write. */
  predicate Calls(pc: Pc) { pc.Write? || pc.First? }

  function One(b: bool): nat { if b then 1 else 0 }

  function Record(h: History, e: Event): History
    requires Sized(h) && Can(h.s, e)
  {
    var t := h.(s := Do(h.s, e));
    match e
    case Packet(key) => t.(packets := h.packets + [Some(Datagram(key, Pending))], received := h.received + 1)
    case Step(i, pick) =>
      var pc := h.s.threads[i];
      t.(packets := h.packets[i := Observe(h.s, pc, pick, h.packets[i])],
         attempts := if Calls(pc) then h.attempts + [Attempt(pc.sid, i, pick.Good?)] else h.attempts,
         unbuilt := h.unbuilt + One((pc.Check? || pc.Connect?) && pick.Bad?),
         announced := h.announced + One(pc.Announce?),
         stopped := h.stopped + One(Serves(pc) && pick.Bad?),
         replies := h.replies + One(pc.Read? && pick.Good?),
         returned := h.returned + One(pc.Forward? && pick.Good?),
         unreturned := h.unreturned + One(pc.Forward? && !pick.Good?))
    case SweepVisit(_) => t.(packets := h.packets + [None])
    case CloseVisit(_) => t.(packets := h.packets + [None])
    case CloseBegin => t
    case CloseListener => t
  }

  ghost predicate IsRecorded(h: History, events: seq<Event>, g: History)
    decreases |events|
  {
    if events == [] then h == g
    else Sized(h) && Can(h.s, events[0]) && IsRecorded(Record(h, events[0]), events[1..], g)
  }

  ghost predicate Recorded(g: History) {
    exists maxConn, events :: IsRecorded(Begin(maxConn), events, g)
  }

  // ------------------------------------------------------------- invariant

  /** The goroutine has a packet about which nothing has been decided. */
  predicate Undecided(pc: Pc) {
    || pc.Start? || pc.Slow? || pc.Wait? || pc.Write?
    || pc.Check? || pc.Take? || pc.Connect? || pc.FailErr? || pc.SetTarget? || pc.Announce? || pc.First?
  }

  predicate Cleans(pc: Pc) { pc.Sweeping? || (pc.Removal? && pc.caller.ByCleaner?) }

  /** The goroutine's packet is of its session's address, and pending as long as the goroutine may write it. */
  predicate PacketOk(s: State, pc: Pc, p: Option<Datagram>) {
    && (Undecided(pc) <==> p.Some? && p.value.fate.Pending?)
    && (Cleans(pc) ==> p.None?)
    && (pc.Start? || pc.Slow? ==> p.Some? && p.value.key == pc.key)
    && (HasSid(pc) && !Cleans(pc) ==> p.Some? && pc.sid < |s.sessions| && p.value.key == s.sessions[pc.sid].key)
    && (pc.Write? ==> s.sessions[pc.sid].closes > 0 && !s.sessions[pc.sid].failed)
    && (Is(p, Refused) ==> Leaving(s, pc, p.value.fate.sid))
  }

  /** A goroutine whose write was refused is about to remove the session, or has closed it. */
  predicate Leaving(s: State, pc: Pc, sid: nat) {
    || (pc.Removal? && pc.sid == sid && !pc.caller.ByCleaner?)
    || (pc.FirstPut? && pc.sid == sid && !pc.sent)
    || ((pc.Put? || pc.Release? || pc.Done?) && sid < |s.sessions| && s.sessions[sid].target.Closed?)
  }

  /** What a decided packet says about its session. */
  predicate FateOk(s: State, p: Option<Datagram>) {
    p.Some? && p.value.fate.Decided? ==>
      var Decided(verdict, sid) := p.value.fate;
      && sid < |s.sessions| && s.sessions[sid].key == p.value.key
      && (verdict.Written? || verdict.Refused? ==> s.sessions[sid].closes > 0 && !s.sessions[sid].failed)
      && (verdict.Unbuilt? ==> s.sessions[sid].failed)
      && (verdict.Cancelled? ==> s.closing)
  }

  ghost predicate PacketsOk(h: History) {
    && Sized(h)
    && forall i :: 0 <= i < |h.packets| ==> PacketOk(h.s, h.s.threads[i], h.packets[i]) && FateOk(h.s, h.packets[i])
  }

  predicate Has(packets: seq<Option<Datagram>>, i: nat, fate: Fate) {
    i < |packets| && packets[i].Some? && packets[i].value.fate == fate
  }

  function Outcome(ok: bool): Verdict { if ok then Written else Refused }

  /** The calls of target.Write are those that the fates tell of, one for each. */
  ghost predicate AttemptsOk(h: History) {
    && (forall sid, i, ok :: Attempt(sid, i, ok) in h.attempts <==> Has(h.packets, i, Decided(Outcome(ok), sid)))
    && (forall k, l :: 0 <= k < l < |h.attempts| ==> h.attempts[k].packet != h.attempts[l].packet)
  }

  // -------------------------------------------------------------- counting

  predicate Is(p: Option<Datagram>, verdict: Verdict) {
    p.Some? && p.value.fate.Decided? && p.value.fate.verdict == verdict
  }

  function Tally(packets: seq<Option<Datagram>>, verdict: Verdict): nat {
    if packets == [] then 0 else One(Is(packets[0], verdict)) + Tally(packets[1..], verdict)
  }

  function AllDecided(packets: seq<Option<Datagram>>): nat {
    Tally(packets, Written) + Tally(packets, Refused) + Tally(packets, Unbuilt) + Tally(packets, Late)
    + Tally(packets, Cancelled)
  }

  /** The builder is before the end of building, whether or not that will go well. */
  predicate Building(pc: Pc) { pc.Check? || pc.Take? || pc.Connect? || pc.SetTarget? || pc.Announce? }

  /** The builder forwards: its first packet, then the replies. */
  predicate Serves(pc: Pc) {
    pc.First? || (pc.FirstPut? && pc.sent) || pc.GetRead? || pc.Read? || pc.Forward?
  }

  /** The builder holds a reply that it has not sent back yet. */
  predicate Returns(pc: Pc) { pc.Forward? }

  function Count(threads: seq<Pc>, p: Pc -> bool): nat {
    if threads == [] then 0 else One(p(threads[0])) + Count(threads[1..], p)
  }

  predicate CountsOk(h: History) {
    && h.received == AllDecided(h.packets) + Count(h.s.threads, Undecided)
    && |h.s.sessions| == h.announced + h.unbuilt + Count(h.s.threads, Building)
    && h.announced == h.stopped + Count(h.s.threads, Serves)
    && h.replies == h.returned + h.unreturned + Count(h.s.threads, Returns)
  }

  ghost predicate Told(h: History) {
    Inv(h.s) && PacketsOk(h) && AttemptsOk(h) && CountsOk(h)
  }

  lemma {:induction false} TallyUpdate(packets: seq<Option<Datagram>>, i: nat, p: Option<Datagram>, v: Verdict)
    requires i < |packets|
    ensures Tally(packets[i := p], v) + One(Is(packets[i], v)) == Tally(packets, v) + One(Is(p, v))
  {
    if i > 0 {
      TallyUpdate(packets[1..], i - 1, p, v);
      assert packets[i := p][1..] == packets[1..][i - 1 := p];
    }
  }

  lemma {:induction false} TallyAppend(packets: seq<Option<Datagram>>, p: Option<Datagram>, v: Verdict)
    ensures Tally(packets + [p], v) == Tally(packets, v) + One(Is(p, v))
  {
    if packets != [] {
      TallyAppend(packets[1..], p, v);
      assert (packets + [p])[1..] == packets[1..] + [p];
    }
  }

  predicate IsDecided(p: Option<Datagram>) { p.Some? && p.value.fate.Decided? }

  lemma DecidedUpdate(packets: seq<Option<Datagram>>, i: nat, p: Option<Datagram>)
    requires i < |packets|
    ensures AllDecided(packets[i := p]) + One(IsDecided(packets[i])) == AllDecided(packets) + One(IsDecided(p))
  {
    TallyUpdate(packets, i, p, Written);
    TallyUpdate(packets, i, p, Refused);
    TallyUpdate(packets, i, p, Unbuilt);
    TallyUpdate(packets, i, p, Late);
    TallyUpdate(packets, i, p, Cancelled);
  }

  lemma DecidedAppend(packets: seq<Option<Datagram>>, p: Option<Datagram>)
    requires !IsDecided(p)
    ensures AllDecided(packets + [p]) == AllDecided(packets)
  {
    TallyAppend(packets, p, Written);
    TallyAppend(packets, p, Refused);
    TallyAppend(packets, p, Unbuilt);
    TallyAppend(packets, p, Late);
    TallyAppend(packets, p, Cancelled);
  }

  lemma {:induction false} CountUpdate(threads: seq<Pc>, i: nat, pc: Pc, p: Pc -> bool)
    requires i < |threads|
    ensures Count(threads[i := pc], p) + One(p(threads[i])) == Count(threads, p) + One(p(pc))
  {
    if i > 0 {
      CountUpdate(threads[1..], i - 1, pc, p);
      assert threads[i := pc][1..] == threads[1..][i - 1 := pc];
    }
  }

  lemma {:induction false} CountAppend(threads: seq<Pc>, pc: Pc, p: Pc -> bool)
    ensures Count(threads + [pc], p) == Count(threads, p) + One(p(pc))
  {
    if threads != [] {
      CountAppend(threads[1..], pc, p);
      assert (threads + [pc])[1..] == threads[1..] + [pc];
    }
  }

  // ------------------------------------------------------------ every step

  /** No step takes back that a build failed. */
  lemma FailedStays(s: State, i: nat, pick: Pick, sid: nat)
    requires Can(s, Step(i, pick)) && sid < |s.sessions| && s.sessions[sid].failed
    ensures var t := Effect(s, i, s.threads[i], pick); sid < |t.sessions| && t.sessions[sid].failed
  {
  }

  /** A goroutine that finds a session finds one of its packet's address. */
  lemma OwnEntersPacket(s: State, i: nat, pick: Pick, p: Option<Datagram>)
    requires Inv(s) && Can(s, Step(i, pick)) && PacketOk(s, s.threads[i], p)
    requires s.threads[i].Start? || s.threads[i].Slow?
    ensures var pc := s.threads[i]; var t := Effect(s, i, pc, pick);
      PacketOk(t, Next(s, pc, pick), Observe(s, pc, pick, p))
  {
    assert EntryOk(s, s.threads[i].key);
  }

  lemma OwnRemovesPacket(s: State, i: nat, pick: Pick, p: Option<Datagram>)
    requires Inv(s) && Can(s, Step(i, pick)) && PacketOk(s, s.threads[i], p) && s.threads[i].Removal?
    ensures var pc := s.threads[i]; var t := Effect(s, i, pc, pick);
      PacketOk(t, Next(s, pc, pick), Observe(s, pc, pick, p))
  {
  }

  lemma OwnServesPacket(s: State, i: nat, pick: Pick, p: Option<Datagram>)
    requires Inv(s) && Can(s, Step(i, pick)) && PacketOk(s, s.threads[i], p)
    requires HasSid(s.threads[i]) && !s.threads[i].Removal?
    ensures var pc := s.threads[i]; var t := Effect(s, i, pc, pick);
      PacketOk(t, Next(s, pc, pick), Observe(s, pc, pick, p))
  {
    StepSession(s, i, pick, s.threads[i].sid);
  }

  /** A closed target stays closed. */
  lemma ClosedStays(s: State, i: nat, pick: Pick, sid: nat)
    requires Inv(s) && Can(s, Step(i, pick)) && sid < |s.sessions| && s.sessions[sid].target.Closed?
    ensures var t := Effect(s, i, s.threads[i], pick); sid < |t.sessions| && t.sessions[sid].target.Closed?
  {
    StepSession(s, i, pick, sid);
    assert ThreadOk(s, i, s.threads[i]);
    assert SessionOk(s.sessions[sid], sid, s.threads[s.sessions[sid].builder]);
  }

  lemma OwnPacket(s: State, i: nat, pick: Pick, p: Option<Datagram>)
    requires Inv(s) && Can(s, Step(i, pick)) && PacketOk(s, s.threads[i], p)
    ensures var pc := s.threads[i]; var t := Effect(s, i, pc, pick);
      PacketOk(t, Next(s, pc, pick), Observe(s, pc, pick, p))
  {
    var pc := s.threads[i];
    if pc.Start? || pc.Slow? {
      OwnEntersPacket(s, i, pick, p);
    } else if pc.Removal? {
      OwnRemovesPacket(s, i, pick, p);
    } else if HasSid(pc) {
      OwnServesPacket(s, i, pick, p);
    } else if Is(p, Refused) {
      ClosedStays(s, i, pick, p.value.fate.sid);
    }
  }

  lemma OwnFate(s: State, i: nat, pick: Pick, p: Option<Datagram>)
    requires Inv(s) && Can(s, Step(i, pick)) && PacketOk(s, s.threads[i], p) && FateOk(s, p)
    ensures var pc := s.threads[i]; FateOk(Effect(s, i, pc, pick), Observe(s, pc, pick, p))
  {
    var pc := s.threads[i];
    OtherFate(s, i, pick, p);
    if HasSid(pc) {
      StepSession(s, i, pick, pc.sid);
      if pc.First? {
        assert ThreadOk(s, i, pc);
        assert SessionOk(s.sessions[pc.sid], pc.sid, pc);
      }
    }
  }

  lemma OtherPacket(s: State, i: nat, pick: Pick, pc: Pc, p: Option<Datagram>)
    requires Inv(s) && Can(s, Step(i, pick)) && PacketOk(s, pc, p)
    ensures PacketOk(Effect(s, i, s.threads[i], pick), pc, p)
  {
    if HasSid(pc) && !Cleans(pc) {
      StepSession(s, i, pick, pc.sid);
    }
    if Is(p, Refused) && (pc.Put? || pc.Release? || pc.Done?) {
      ClosedStays(s, i, pick, p.value.fate.sid);
    }
  }

  lemma OtherFate(s: State, i: nat, pick: Pick, p: Option<Datagram>)
    requires Inv(s) && Can(s, Step(i, pick)) && FateOk(s, p)
    ensures FateOk(Effect(s, i, s.threads[i], pick), p)
  {
    if IsDecided(p) {
      StepSession(s, i, pick, p.value.fate.sid);
      ClosingKept(s, i, pick);
      if p.value.fate.verdict.Unbuilt? {
        FailedStays(s, i, pick, p.value.fate.sid);
      }
    }
  }

  lemma StepPackets(h: History, i: nat, pick: Pick)
    requires Inv(h.s) && PacketsOk(h) && Can(h.s, Step(i, pick))
    ensures PacketsOk(Record(h, Step(i, pick)))
  {
    var g := Record(h, Step(i, pick));
    var pc, t := h.s.threads[i], Effect(h.s, i, h.s.threads[i], pick);
    forall j | 0 <= j < |g.packets|
      ensures PacketOk(g.s, g.s.threads[j], g.packets[j]) && FateOk(g.s, g.packets[j])
    {
      if j == i {
        OwnPacket(h.s, i, pick, h.packets[i]);
        OwnFate(h.s, i, pick, h.packets[i]);
        SameSessions(t, g.s, g.s.threads[i], g.packets[i]);
      } else {
        OtherPacket(h.s, i, pick, h.s.threads[j], h.packets[j]);
        OtherFate(h.s, i, pick, h.packets[j]);
        SameSessions(t, g.s, g.s.threads[j], g.packets[j]);
      }
    }
  }

  /** Only sessions and the closing flag matter to a packet. */
  lemma SameSessions(s: State, t: State, pc: Pc, p: Option<Datagram>)
    requires t.sessions == s.sessions && (s.closing ==> t.closing) && PacketOk(s, pc, p) && FateOk(s, p)
    ensures PacketOk(t, pc, p) && FateOk(t, p)
  {
  }

  lemma SpawnPackets(h: History, e: Event)
    requires Inv(h.s) && PacketsOk(h) && Can(h.s, e) && !e.Step?
    ensures PacketsOk(Record(h, e))
  {
    var g := Record(h, e);
    forall j | 0 <= j < |g.packets|
      ensures PacketOk(g.s, g.s.threads[j], g.packets[j]) && FateOk(g.s, g.packets[j])
    {
      if j < |h.packets| {
        SameSessions(h.s, g.s, g.s.threads[j], g.packets[j]);
      }
    }
  }

  lemma StepAttempts(h: History, i: nat, pick: Pick)
    requires PacketsOk(h) && AttemptsOk(h) && Can(h.s, Step(i, pick))
    ensures AttemptsOk(Record(h, Step(i, pick)))
  {
    var g, pc := Record(h, Step(i, pick)), h.s.threads[i];
    assert PacketOk(h.s, pc, h.packets[i]);
    forall sid, j, ok
      ensures Attempt(sid, j, ok) in g.attempts <==> Has(g.packets, j, Decided(Outcome(ok), sid))
    {
      assert Attempt(sid, j, ok) in h.attempts <==> Has(h.packets, j, Decided(Outcome(ok), sid));
    }
    if Calls(pc) {
      forall k | 0 <= k < |h.attempts|
        ensures h.attempts[k].packet != i
      {
        var a := h.attempts[k];
        assert Attempt(a.sid, a.packet, a.ok) in h.attempts;
        assert Has(h.packets, a.packet, Decided(Outcome(a.ok), a.sid));
      }
    }
  }

  lemma SpawnAttempts(h: History, e: Event)
    requires Sized(h) && AttemptsOk(h) && Can(h.s, e) && !e.Step?
    ensures AttemptsOk(Record(h, e))
  {
    var g := Record(h, e);
    forall sid, j, ok
      ensures Attempt(sid, j, ok) in g.attempts <==> Has(g.packets, j, Decided(Outcome(ok), sid))
    {
      assert Attempt(sid, j, ok) in h.attempts <==> Has(h.packets, j, Decided(Outcome(ok), sid));
    }
  }

  /** A step moves its own thread out of what is counted exactly when it counts something. */
  lemma StepBuilds(s: State, i: nat, pick: Pick)
    requires Can(s, Step(i, pick))
    ensures var pc := s.threads[i]; var pc' := Next(s, pc, pick);
      |Effect(s, i, pc, pick).sessions| + One(Building(pc))
      == |s.sessions| + One((pc.Check? || pc.Connect?) && pick.Bad?) + One(pc.Announce?) + One(Building(pc'))
  {
  }

  lemma StepServes(s: State, i: nat, pick: Pick)
    requires Can(s, Step(i, pick))
    ensures var pc := s.threads[i]; var pc' := Next(s, pc, pick);
      && One(Serves(pc)) + One(pc.Announce?) == One(Serves(pc) && pick.Bad?) + One(Serves(pc'))
      && One(Returns(pc)) + One(pc.Read? && pick.Good?)
         == One(pc.Forward? && pick.Good?) + One(pc.Forward? && !pick.Good?) + One(Returns(pc'))
  {
  }

  lemma StepCounts(h: History, i: nat, pick: Pick)
    requires PacketsOk(h) && CountsOk(h) && Can(h.s, Step(i, pick)) && PacketsOk(Record(h, Step(i, pick)))
    ensures CountsOk(Record(h, Step(i, pick)))
  {
    var g, pc := Record(h, Step(i, pick)), h.s.threads[i];
    assert PacketOk(h.s, pc, h.packets[i]) && PacketOk(g.s, g.s.threads[i], g.packets[i]);
    StepBuilds(h.s, i, pick);
    StepServes(h.s, i, pick);
    DecidedUpdate(h.packets, i, g.packets[i]);
    CountUpdate(h.s.threads, i, g.s.threads[i], Undecided);
    CountUpdate(h.s.threads, i, g.s.threads[i], Building);
    CountUpdate(h.s.threads, i, g.s.threads[i], Serves);
    CountUpdate(h.s.threads, i, g.s.threads[i], Returns);
  }

  lemma SpawnCounts(h: History, e: Event)
    requires Sized(h) && CountsOk(h) && Can(h.s, e) && !e.Step?
    ensures CountsOk(Record(h, e))
  {
    var g := Record(h, e);
    if |g.packets| > |h.packets| {
      var pc := g.s.threads[|h.packets|];
      DecidedAppend(h.packets, g.packets[|h.packets|]);
      CountAppend(h.s.threads, pc, Undecided);
      CountAppend(h.s.threads, pc, Building);
      CountAppend(h.s.threads, pc, Serves);
      CountAppend(h.s.threads, pc, Returns);
    }
  }

  lemma EventKeepsTold(h: History, e: Event)
    requires Told(h) && Can(h.s, e)
    ensures Told(Record(h, e))
  {
    StepKeeps(h.s, e);
    if e.Step? {
      StepPackets(h, e.i, e.pick);
      StepAttempts(h, e.i, e.pick);
      StepCounts(h, e.i, e.pick);
    } else {
      SpawnPackets(h, e);
      SpawnAttempts(h, e);
      SpawnCounts(h, e);
    }
  }

  lemma {:induction false} RunKeepsTold(h: History, events: seq<Event>, g: History)
    requires Told(h) && IsRecorded(h, events, g)
    ensures Told(g)
    decreases |events|
  {
    if events != [] {
      EventKeepsTold(h, events[0]);
      RunKeepsTold(Record(h, events[0]), events[1..], g);
    }
  }

  lemma RecordedIsTold(h: History)
    requires Recorded(h)
    ensures Told(h)
  {
    var maxConn, events :| IsRecorded(Begin(maxConn), events, h);
    RunKeepsTold(Begin(maxConn), events, h);
  }

  /** Keeping history forbids nothing: every run of the server can be recorded. */
  lemma {:induction false} EveryRunIsRecorded(h: History, events: seq<Event>, t: State) returns (g: History)
    requires Sized(h) && IsRun(h.s, events, t)
    ensures IsRecorded(h, events, g) && g.s == t
    decreases |events|
  {
    if events == [] {
      g := h;
    } else {
      g := EveryRunIsRecorded(Record(h, events[0]), events[1..], t);
    }
  }

  // -------------------------------------------------------------- theorems

  /**
  Every packet received has been written, refused by an error of the write, or dropped for
  one of the three reasons, or its goroutine is still before the decision.
  */
  lemma PacketsBalance(h: History)
    requires Recorded(h)
    ensures h.received == Tally(h.packets, Written) + Tally(h.packets, Refused)
              + Tally(h.packets, Unbuilt) + Tally(h.packets, Late) + Tally(h.packets, Cancelled)
              + Count(h.s.threads, Undecided)
  {
    RecordedIsTold(h);
  }

  /**
  Every session stored has been announced, has met an error of its build, or is being built;
  every one announced is being served, or was until an error of its builder's first write, of a
  read or of a reply; every reply read has been sent back, has met an error, or is in its builder's hands.
  */
  lemma SessionsBalance(h: History)
    requires Recorded(h)
    ensures |h.s.sessions| == h.announced + h.unbuilt + Count(h.s.threads, Building)
    ensures h.announced == h.stopped + Count(h.s.threads, Serves)
    ensures h.replies == h.returned + h.unreturned + Count(h.s.threads, Returns)
  {
    RecordedIsTold(h);
  }

  /**
  What a fate says: a packet goes only to a session of its own address, and only if that was
  built; it is dropped for a failed build only if the build failed, and for Close only after Close began.
  */
  lemma FateIsTrue(h: History, i: nat)
    requires Recorded(h) && i < |h.packets| && IsDecided(h.packets[i])
    ensures var Datagram(key, Decided(verdict, sid)) := h.packets[i].value;
      && sid < |h.s.sessions| && h.s.sessions[sid].key == key
      && (verdict.Written? || verdict.Refused? ==> h.s.sessions[sid].closes == 1 && !h.s.sessions[sid].failed)
      && (verdict.Unbuilt? ==> h.s.sessions[sid].failed)
      && (verdict.Cancelled? ==> h.s.closing)
  {
    RecordedIsTold(h);
    var sid := h.packets[i].value.fate.sid;
    assert SessionOk(h.s.sessions[sid], sid, h.s.threads[h.s.sessions[sid].builder]);
  }

  /** target.Write is called once for each packet that was written or refused, on the session its fate names, and never else. */
  lemma WrittenOnce(h: History)
    requires Recorded(h)
    ensures forall sid, i, ok :: Attempt(sid, i, ok) in h.attempts <==> Has(h.packets, i, Decided(Outcome(ok), sid))
    ensures forall k, l :: 0 <= k < l < |h.attempts| ==> h.attempts[k].packet != h.attempts[l].packet
  {
    RecordedIsTold(h);
  }

  /** A goroutine whose write was refused does not end before the session's target is closed. */
  lemma RefusedIsClosed(h: History, i: nat)
    requires Recorded(h) && i < |h.packets| && Is(h.packets[i], Refused)
    ensures i < |h.s.threads| && h.packets[i].value.fate.sid < |h.s.sessions|
    ensures h.s.threads[i].Put? || h.s.threads[i].Release? || h.s.threads[i].Done?
            ==> h.s.sessions[h.packets[i].value.fate.sid].target.Closed?
  {
    RecordedIsTold(h);
    assert PacketOk(h.s, h.s.threads[i], h.packets[i]) && FateOk(h.s, h.packets[i]);
  }

  /** A goroutine that waits and is released by ready drops its packet exactly if the build failed. */
  lemma ReleasedDropsExactly(h: History, i: nat)
    requires Recorded(h) && i < |h.s.threads| && h.s.threads[i].Wait? && Can(h.s, Step(i, Good))
    ensures Sized(h)
    ensures var sid := h.s.threads[i].sid; var g := Record(h, Step(i, Good));
      && sid < |h.s.sessions| && i < |g.s.threads| && i < |g.packets| && g.packets[i].Some?
      && (h.s.sessions[sid].failed <==> g.packets[i].value.fate == Decided(Unbuilt, sid))
      && (h.s.sessions[sid].failed <==> g.s.threads[i] == Put)
      && (!h.s.sessions[sid].failed <==> g.s.threads[i] == Write(sid))
      && (!h.s.sessions[sid].failed <==> Owes(g, i, sid))
  {
    RecordedIsTold(h);
    assert PacketOk(h.s, h.s.threads[i], h.packets[i]);
  }

  /** The goroutine is about to call target.Write of the session, and has not called any. */
  predicate Owes(h: History, i: nat, sid: nat) {
    i < |h.s.threads| && h.s.threads[i] == Write(sid) && Has(h.packets, i, Pending)
  }

  /** Or it has called that one, with either outcome. */
  predicate HasCalled(h: History, i: nat, sid: nat) {
    Has(h.packets, i, Decided(Written, sid)) || Has(h.packets, i, Decided(Refused, sid))
  }

  lemma EventPays(h: History, e: Event, i: nat, sid: nat)
    requires Sized(h) && Can(h.s, e) && Owes(h, i, sid)
    ensures if e.Step? && e.i == i then HasCalled(Record(h, e), i, sid) && !Owes(Record(h, e), i, sid)
            else Owes(Record(h, e), i, sid)
  {
  }

  /** What was decided about a packet stays. */
  lemma FateStays(h: History, e: Event, i: nat)
    requires PacketsOk(h) && Can(h.s, e) && i < |h.packets| && IsDecided(h.packets[i])
    ensures i < |Record(h, e).packets| && Record(h, e).packets[i] == h.packets[i]
  {
    assert PacketOk(h.s, h.s.threads[i], h.packets[i]);
  }

  lemma {:induction false} DebtRun(h: History, events: seq<Event>, g: History, i: nat, sid: nat)
    requires Told(h) && IsRecorded(h, events, g) && (Owes(h, i, sid) || HasCalled(h, i, sid))
    ensures if Owes(h, i, sid) && StepsOf(events, i) == 0 then Owes(g, i, sid) else HasCalled(g, i, sid)
    decreases |events|
  {
    if events != [] {
      var e := events[0];
      if Owes(h, i, sid) {
        EventPays(h, e, i, sid);
      } else {
        FateStays(h, e, i);
      }
      EventKeepsTold(h, e);
      DebtRun(Record(h, e), events[1..], g, i, sid);
    }
  }

  /**
  A goroutine that ready releases on a session that did not fail calls target.Write with its
  packet in its next step, whatever happens before it, and on that session; and it is the only call.
  */
  lemma ReleasedWrites(h: History, i: nat, events: seq<Event>, g: History)
    requires Recorded(h) && i < |h.s.threads| && h.s.threads[i].Wait? && Can(h.s, Step(i, Good))
    requires !h.s.sessions[h.s.threads[i].sid].failed
    requires Sized(h) && IsRecorded(Record(h, Step(i, Good)), events, g)
    ensures var sid := h.s.threads[i].sid;
      if StepsOf(events, i) == 0 then i < |g.s.threads| && g.s.threads[i] == Write(sid) && Has(g.packets, i, Pending)
      else Attempt(sid, i, true) in g.attempts || Attempt(sid, i, false) in g.attempts
    ensures forall k, l :: 0 <= k < l < |g.attempts| ==> g.attempts[k].packet != g.attempts[l].packet
  {
    RecordedIsTold(h);
    ReleasedDropsExactly(h, i);
    EventKeepsTold(h, Step(i, Good));
    DebtRun(Record(h, Step(i, Good)), events, g, i, h.s.threads[i].sid);
    RunKeepsTold(Record(h, Step(i, Good)), events, g);
    assert Outcome(true) == Written && Outcome(false) == Refused;
  }

  // -------------------------------------------------------------- progress

  /**
  No goroutine is ever stuck: the select is left at the latest by the timeout, a call on the
  network ends at the latest with an error, and every other step can be taken.
  */
  lemma NeverStuck(s: State, i: nat)
    requires Reachable(s) && i < |s.threads| && !s.threads[i].Done?
    ensures Can(s, Step(i, Good)) || Can(s, Step(i, Bad))
    ensures var pc := s.threads[i];
      pc.Wait? || pc.Write? || pc.Check? || pc.Connect? || pc.First? || pc.Read? || pc.Forward? ==> Can(s, Step(i, Bad))
    ensures s.threads[i].Wait? ==>
              s.threads[i].sid < |s.sessions|
              && (Can(s, Step(i, Good)) <==> s.sessions[s.threads[i].sid].closes == 1)
              && (Can(s, Step(i, Cancel)) <==> s.closing)
  {
    ReachableInv(s);
    assert ThreadOk(s, i, s.threads[i]);
    if s.threads[i].Wait? {
      var sid := s.threads[i].sid;
      assert SessionOk(s.sessions[sid], sid, s.threads[s.sessions[sid].builder]);
    }
  }

  /** Once Close has closed the listener no packet is received any more. */
  lemma {:induction false} ClosedForGood(h: History, events: seq<Event>, g: History)
    requires IsRecorded(h, events, g) && Sized(h)
    requires !h.s.listening || (events != [] && events[0].CloseListener?)
    ensures g.received == h.received
    decreases |events|
  {
    if events != [] {
      ClosedForGood(Record(h, events[0]), events[1..], g);
    }
  }

  lemma {:induction false} ClosingStays(s: State, events: seq<Event>, t: State)
    requires IsRun(s, events, t) && s.closing
    ensures t.closing
    decreases |events|
  {
    if events != [] {
      if events[0].Step? {
        ClosingKept(s, events[0].i, events[0].pick);
      }
      ClosingStays(Do(s, events[0]), events[1..], t);
    }
  }

  /** Once Close has begun, every goroutine that waits for a session can give up at once. */
  lemma CloseReleasesWaiters(s: State, events: seq<Event>, t: State, i: nat)
    requires Reachable(s) && IsRun(s, events, t) && events != [] && events[0].CloseBegin?
    requires i < |t.threads| && t.threads[i].Wait? && Reachable(t)
    ensures Can(t, Step(i, Cancel)) && Do(t, Step(i, Cancel)).threads[i] == Put
  {
    ClosingStays(Do(s, CloseBegin), events[1..], t);
    NeverStuck(t, i);
  }
}
