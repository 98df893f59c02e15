/** What every interleaving of the UDP session protocol keeps. */
module UdpSafety {
  import opened UdpSession

  // -------------------------------------------------------------- invariant

  /** How far building has got, read off the builder's position, and what that says about the session. */
  predicate SessionOk(x: Session, sid: nat, pc: Pc) {
    match pc
    case Check(n) => n == sid && x.target.Unset? && x.closes == 0 && !x.failed
    case Take(n) => n == sid && x.target.Unset? && x.closes == 0 && !x.failed
    case Connect(n) => n == sid && x.target.Unset? && x.closes == 0 && !x.failed
    case SetTarget(n) => n == sid && x.target.Unset? && x.closes == 0 && !x.failed
    case FailErr(n, _) => n == sid && x.target.Unset? && x.closes == 0 && !x.failed
    case FailReady(n, _) => n == sid && x.target.Unset? && x.closes == 0 && x.failed
    case FailDelete(n, _) => n == sid && x.target.Unset? && x.closes == 1 && x.failed
    case FailPut(n, _) => n == sid && x.target.Unset? && x.closes == 1 && x.failed
    case Announce(n) => n == sid && !x.target.Unset? && x.closes == 0 && !x.failed
    case Release => x.closes == 1 && (if x.failed then x.target.Unset? else x.target.Closed?)
    case Done => x.closes == 1 && (if x.failed then x.target.Unset? else x.target.Closed?)
    case First(n) => n == sid && !x.target.Unset? && x.closes == 1 && !x.failed
    case FirstPut(n, _) => n == sid && !x.target.Unset? && x.closes == 1 && !x.failed
    case GetRead(n) => n == sid && !x.target.Unset? && x.closes == 1 && !x.failed
    case Read(n) => n == sid && !x.target.Unset? && x.closes == 1 && !x.failed
    case Forward(n) => n == sid && !x.target.Unset? && x.closes == 1 && !x.failed
    case PutRead(n) => n == sid && !x.target.Unset? && x.closes == 1 && !x.failed
    case Removal(n, _, caller) => caller.ByBuilder? && n == sid && !x.target.Unset? && x.closes == 1 && !x.failed
    case _ => false
  }

  /** A thread that names a session is entitled to do what it is about to do with it. */
  predicate ThreadOk(s: State, i: nat, pc: Pc) {
    HasSid(pc) ==>
      && pc.sid < |s.sessions|
      && (Builds(pc) ==> s.sessions[pc.sid].builder == i)
      && (pc.Write? || (pc.Removal? && pc.caller.BySender?) ==> !s.sessions[pc.sid].target.Unset?)
      && (pc.Removal? && pc.caller.ByCleaner? ==> s.closing || !s.sessions[pc.sid].target.Unset?)
      && (Closes(pc) ==> !Current(s, pc.sid))
  }

  /** A thread in removeSession before its Close. */
  predicate Closes(pc: Pc) { pc.Removal? && pc.stage.Shut? }

  ghost predicate Sessions(s: State) {
    && (forall sid :: 0 <= sid < |s.sessions| ==> s.sessions[sid].builder < |s.threads|)
    && (forall sid :: 0 <= sid < |s.sessions| ==> SessionOk(s.sessions[sid], sid, s.threads[s.sessions[sid].builder]))
    && (forall i :: 0 <= i < |s.threads| ==> ThreadOk(s, i, s.threads[i]))
  }

  /** The builder has not yet reached the point where it takes its entry out of the map. */
  predicate MayBeMapped(pc: Pc) {
    Builds(pc) && !pc.FailPut? && !Closes(pc)
  }

  /** Buffers a thread holds. */
  function Held(pc: Pc): nat {
    match pc
    case GetRead(_) => 0
    case Release => 0
    case Sweeping(_) => 0
    case Removal(_, _, caller) => if caller.BySender? then 1 else 0
    case Done => 0
    case _ => 1
  }

  /** Connection slots a thread holds. */
  function Slots(pc: Pc): nat {
    match pc
    case FailErr(_, slot) => if slot then 1 else 0
    case FailReady(_, slot) => if slot then 1 else 0
    case FailDelete(_, slot) => if slot then 1 else 0
    case FailPut(_, slot) => if slot then 1 else 0
    case Check(_) => 0
    case Take(_) => 0
    case Release => 1
    case _ => if Builds(pc) then 1 else 0
  }

  function HeldBy(threads: seq<Pc>): nat {
    if threads == [] then 0 else Held(threads[0]) + HeldBy(threads[1..])
  }

  function SlotsOf(threads: seq<Pc>): nat {
    if threads == [] then 0 else Slots(threads[0]) + SlotsOf(threads[1..])
  }

  predicate Accounts(s: State) {
    && s.gets == s.puts + HeldBy(s.threads)
    && s.nowConn == SlotsOf(s.threads)
  }

  ghost predicate Inv(s: State) {
    Sessions(s) && Mapped(s) && Accounts(s)
  }

  // ------------------------------------------------------------ accounting

  lemma {:induction false} SumUpdate(threads: seq<Pc>, i: nat, pc: Pc)
    requires i < |threads|
    ensures HeldBy(threads[i := pc]) + Held(threads[i]) == HeldBy(threads) + Held(pc)
    ensures SlotsOf(threads[i := pc]) + Slots(threads[i]) == SlotsOf(threads) + Slots(pc)
  {
    if i > 0 {
      SumUpdate(threads[1..], i - 1, pc);
      assert threads[i := pc][1..] == threads[1..][i - 1 := pc];
    }
  }

  lemma {:induction false} SumAppend(threads: seq<Pc>, pc: Pc)
    ensures HeldBy(threads + [pc]) == HeldBy(threads) + Held(pc)
    ensures SlotsOf(threads + [pc]) == SlotsOf(threads) + Slots(pc)
  {
    if threads != [] {
      SumAppend(threads[1..], pc);
      assert (threads + [pc])[1..] == threads[1..] + [pc];
    }
  }

  /** Each step changes the buffer counters by exactly what it changes in its own thread's holdings. */
  lemma StepBuffers(s: State, i: nat, pc: Pc, pick: Pick)
    requires CanStep(s, pc, pick)
    ensures var t := Effect(s, i, pc, pick);
            t.gets + s.puts + Held(pc) == s.gets + t.puts + Held(Next(s, pc, pick))
  {
  }

  /** And NowConn by what it changes in its thread's slots. */
  lemma StepSlots(s: State, i: nat, pc: Pc, pick: Pick)
    requires CanStep(s, pc, pick)
    ensures Effect(s, i, pc, pick).nowConn - Slots(Next(s, pc, pick)) == s.nowConn - Slots(pc)
  {
  }

  lemma StepAccounts(s: State, i: nat, pick: Pick)
    requires Accounts(s) && Can(s, Step(i, pick))
    ensures Accounts(Do(s, Step(i, pick)))
  {
    StepBuffers(s, i, s.threads[i], pick);
    StepSlots(s, i, s.threads[i], pick);
    SumUpdate(s.threads, i, Next(s, s.threads[i], pick));
  }

  // -------------------------------------------------------------- sessions

  /** What one step may do to a session: its builder and key stay, a set target stays set, a verdict stays. */
  predicate Onward(x: Session, y: Session) {
    && y.key == x.key && y.builder == x.builder
    && (!x.target.Unset? ==> !y.target.Unset?)
    && (x.closes > 0 ==> y.closes > 0 && y.failed == x.failed)
  }

  lemma OthersClosed(s: State, i: nat, pick: Pick, sid: nat)
    requires Sessions(s) && Can(s, Step(i, pick)) && sid < |s.sessions| && s.sessions[sid].builder != i
    requires Closes(s.threads[i])
    ensures var t := Effect(s, i, s.threads[i], pick);
            sid < |t.sessions| && Onward(s.sessions[sid], t.sessions[sid])
            && SessionOk(t.sessions[sid], sid, s.threads[s.sessions[sid].builder])
  {
    assert SessionOk(s.sessions[sid], sid, s.threads[s.sessions[sid].builder]);
  }

  lemma OthersUntouched(s: State, i: nat, pick: Pick, sid: nat)
    requires Sessions(s) && Can(s, Step(i, pick)) && sid < |s.sessions| && s.sessions[sid].builder != i
    requires !Closes(s.threads[i])
    ensures var t := Effect(s, i, s.threads[i], pick); sid < |t.sessions| && t.sessions[sid] == s.sessions[sid]
  {
    assert ThreadOk(s, i, s.threads[i]);
  }

  lemma OthersKept(s: State, i: nat, pick: Pick, sid: nat)
    requires Sessions(s) && Can(s, Step(i, pick)) && sid < |s.sessions| && s.sessions[sid].builder != i
    ensures var t := Effect(s, i, s.threads[i], pick);
            sid < |t.sessions| && Onward(s.sessions[sid], t.sessions[sid])
            && SessionOk(t.sessions[sid], sid, s.threads[s.sessions[sid].builder])
  {
    if Closes(s.threads[i]) {
      OthersClosed(s, i, pick, sid);
    } else {
      OthersUntouched(s, i, pick, sid);
      assert SessionOk(s.sessions[sid], sid, s.threads[s.sessions[sid].builder]);
    }
  }

  lemma OwnKept(s: State, i: nat, pick: Pick, sid: nat)
    requires Sessions(s) && Can(s, Step(i, pick)) && sid < |s.sessions| && s.sessions[sid].builder == i
    ensures var t := Effect(s, i, s.threads[i], pick);
            sid < |t.sessions| && Onward(s.sessions[sid], t.sessions[sid])
            && SessionOk(t.sessions[sid], sid, Next(s, s.threads[i], pick))
  {
    assert SessionOk(s.sessions[sid], sid, s.threads[i]);
  }

  lemma NewSessionOk(s: State, i: nat, pick: Pick)
    requires Sessions(s) && Can(s, Step(i, pick))
    ensures var t := Effect(s, i, s.threads[i], pick);
            && |s.sessions| <= |t.sessions| <= |s.sessions| + 1
            && (|t.sessions| > |s.sessions| ==>
                  t.sessions[|s.sessions|].builder == i
                  && SessionOk(t.sessions[|s.sessions|], |s.sessions|, Next(s, s.threads[i], pick)))
  {
  }

  /** After its look or its delete the thread may close: the session is out of the map. */
  lemma OwnRemoves(s: State, i: nat, pick: Pick)
    requires Can(s, Step(i, pick)) && ThreadOk(s, i, s.threads[i])
    requires s.threads[i].Removal?
    ensures ThreadOk(Effect(s, i, s.threads[i], pick), i, Next(s, s.threads[i], pick))
  {
  }

  lemma OwnEnters(s: State, i: nat, pick: Pick)
    requires Sessions(s) && Mapped(s) && Can(s, Step(i, pick)) && (s.threads[i].Start? || s.threads[i].Slow? || s.threads[i].Wait?)
    ensures ThreadOk(Effect(s, i, s.threads[i], pick), i, Next(s, s.threads[i], pick))
  {
    var pc := s.threads[i];
    assert ThreadOk(s, i, pc);
    if pc.Wait? {
      var b := s.sessions[pc.sid].builder;
      assert SessionOk(s.sessions[pc.sid], pc.sid, s.threads[b]);
    }
  }

  lemma OwnGoesOn(s: State, i: nat, pick: Pick)
    requires Can(s, Step(i, pick)) && ThreadOk(s, i, s.threads[i])
    requires !s.threads[i].Start? && !s.threads[i].Slow? && !s.threads[i].Wait?
    requires !s.threads[i].Removal?
    ensures ThreadOk(Effect(s, i, s.threads[i], pick), i, Next(s, s.threads[i], pick))
  {
  }

  /** The step's own thread stays entitled to its next step. */
  lemma OwnThreadOk(s: State, i: nat, pick: Pick)
    requires Sessions(s) && Mapped(s) && Can(s, Step(i, pick))
    ensures ThreadOk(Effect(s, i, s.threads[i], pick), i, Next(s, s.threads[i], pick))
  {
    var pc := s.threads[i];
    assert ThreadOk(s, i, pc);
    if pc.Start? || pc.Slow? || pc.Wait? {
      OwnEnters(s, i, pick);
    } else if pc.Removal? {
      OwnRemoves(s, i, pick);
    } else {
      OwnGoesOn(s, i, pick);
    }
  }

  /** Every step but the storing of a placeholder leaves the map as it is or removes an entry. */
  lemma OnlyRemoves(s: State, i: nat, pick: Pick)
    requires Can(s, Step(i, pick)) && !s.threads[i].Slow?
    ensures var t := Effect(s, i, s.threads[i], pick);
            t.addrMap.Keys <= s.addrMap.Keys && forall key :: key in t.addrMap ==> t.addrMap[key] == s.addrMap[key]
  {
  }

  /** A session that is not in the map is never put there again: only a new session is stored. */
  lemma NeverRemapped(s: State, i: nat, pick: Pick, sid: nat)
    requires Can(s, Step(i, pick)) && sid < |s.sessions| && !Current(s, sid)
    requires var t := Effect(s, i, s.threads[i], pick); sid < |t.sessions| && t.sessions[sid].key == s.sessions[sid].key
    ensures !Current(Effect(s, i, s.threads[i], pick), sid)
  {
    if !s.threads[i].Slow? {
      OnlyRemoves(s, i, pick);
    }
  }

  /** Another thread stays entitled to its next step, because its session only moves onward. */
  lemma OtherThreadOk(s: State, i: nat, pick: Pick, j: nat)
    requires Sessions(s) && Can(s, Step(i, pick)) && j < |s.threads|
    requires HasSid(s.threads[j]) && s.threads[j].sid < |s.sessions|
    requires var t := Effect(s, i, s.threads[i], pick); var sid := s.threads[j].sid;
             sid < |t.sessions| && Onward(s.sessions[sid], t.sessions[sid]) && t.closing == s.closing
             && (!Current(s, sid) ==> !Current(t, sid))
    ensures ThreadOk(Effect(s, i, s.threads[i], pick), j, s.threads[j])
  {
    assert ThreadOk(s, j, s.threads[j]);
  }

  lemma ClosingKept(s: State, i: nat, pick: Pick)
    requires Can(s, Step(i, pick))
    ensures Effect(s, i, s.threads[i], pick).closing == s.closing
  {
  }

  lemma StepSession(s: State, i: nat, pick: Pick, sid: nat)
    requires Sessions(s) && Can(s, Step(i, pick)) && sid < |s.sessions|
    ensures var t := Effect(s, i, s.threads[i], pick); var threads := s.threads[i := Next(s, s.threads[i], pick)];
            && sid < |t.sessions| && Onward(s.sessions[sid], t.sessions[sid])
            && t.sessions[sid].builder < |threads|
            && SessionOk(t.sessions[sid], sid, threads[t.sessions[sid].builder])
  {
    if s.sessions[sid].builder == i {
      OwnKept(s, i, pick, sid);
    } else {
      OthersKept(s, i, pick, sid);
    }
  }

  lemma StepSessions(s: State, i: nat, pick: Pick)
    requires Sessions(s) && Mapped(s) && Can(s, Step(i, pick))
    ensures Sessions(Do(s, Step(i, pick)))
  {
    var t := Do(s, Step(i, pick));
    NewSessionOk(s, i, pick);
    OwnThreadOk(s, i, pick);
    ClosingKept(s, i, pick);
    forall sid | 0 <= sid < |s.sessions|
      ensures Onward(s.sessions[sid], t.sessions[sid]) && t.sessions[sid].builder < |t.threads|
      ensures SessionOk(t.sessions[sid], sid, t.threads[t.sessions[sid].builder])
    {
      StepSession(s, i, pick, sid);
    }
    forall j | 0 <= j < |t.threads|
      ensures ThreadOk(t, j, t.threads[j])
    {
      if j != i && HasSid(s.threads[j]) {
        assert ThreadOk(s, j, s.threads[j]);
        if !Current(s, s.threads[j].sid) {
          NeverRemapped(s, i, pick, s.threads[j].sid);
        }
        OtherThreadOk(s, i, pick, j);
      }
    }
  }

  /** An entry of the map names a session of that key whose builder is still at work. */
  predicate EntryOk(s: State, key: Key) {
    key in s.addrMap ==>
      var sid := s.addrMap[key];
      && sid < |s.sessions|
      && s.sessions[sid].key == key
      && s.sessions[sid].builder < |s.threads|
      && MayBeMapped(s.threads[s.sessions[sid].builder])
  }

  /** A session whose target has been closed is not in the map. */
  predicate ClosedIsOut(s: State, sid: nat)
    requires sid < |s.sessions|
  {
    s.sessions[sid].target.Closed? ==> !Current(s, sid)
  }

  ghost predicate Mapped(s: State) {
    && (forall key :: key in s.addrMap ==> EntryOk(s, key))
    && (forall sid :: 0 <= sid < |s.sessions| ==> ClosedIsOut(s, sid))
  }

  /** The steps that can end the time in which their session may be in the map. */
  predicate Leaves(pc: Pc) { pc.FailDelete? || (pc.Removal? && !pc.stage.Shut?) }

  /** The step neither adds to the map nor removes from it. */
  lemma EntryPlain(s: State, i: nat, pick: Pick, key: Key)
    requires Can(s, Step(i, pick)) && EntryOk(s, key)
    requires !s.threads[i].Slow? && !Leaves(s.threads[i])
    ensures EntryOk(Do(s, Step(i, pick)), key)
  {
    PlainMapSame(s, i, pick);
    if key in s.addrMap && s.sessions[s.addrMap[key]].builder == i {
      PlainStaysMappable(s, i, pick);
    }
  }

  /** Such a step leaves the map, and the key and builder of each session. */
  lemma PlainMapSame(s: State, i: nat, pick: Pick)
    requires Can(s, Step(i, pick)) && !s.threads[i].Slow? && !Leaves(s.threads[i])
    ensures var t := Do(s, Step(i, pick));
            && t.addrMap == s.addrMap && |t.sessions| == |s.sessions|
            && forall sid :: 0 <= sid < |s.sessions| ==>
                 t.sessions[sid].key == s.sessions[sid].key && t.sessions[sid].builder == s.sessions[sid].builder
  {
  }

  lemma PlainStaysMappable(s: State, i: nat, pick: Pick)
    requires Can(s, Step(i, pick)) && !s.threads[i].Slow? && !Leaves(s.threads[i]) && MayBeMapped(s.threads[i])
    ensures MayBeMapped(Next(s, s.threads[i], pick))
  {
  }

  lemma EntryNew(s: State, i: nat, pick: Pick, key: Key)
    requires Can(s, Step(i, pick)) && EntryOk(s, key) && s.threads[i].Slow?
    ensures EntryOk(Do(s, Step(i, pick)), key)
  {
  }

  lemma EntryLeft(s: State, i: nat, pick: Pick, key: Key)
    requires Can(s, Step(i, pick)) && EntryOk(s, key) && Leaves(s.threads[i])
    requires forall sid :: 0 <= sid < |s.sessions| && s.sessions[sid].builder == i ==> SessionOk(s.sessions[sid], sid, s.threads[i])
    ensures EntryOk(Do(s, Step(i, pick)), key)
  {
    if key in s.addrMap {
      var sid := s.addrMap[key];
      assert s.sessions[sid].builder == i ==> SessionOk(s.sessions[sid], sid, s.threads[i]);
    }
  }

  lemma StepEntry(s: State, i: nat, pick: Pick, key: Key)
    requires Sessions(s) && Can(s, Step(i, pick)) && EntryOk(s, key)
    ensures EntryOk(Do(s, Step(i, pick)), key)
  {
    if s.threads[i].Slow? {
      EntryNew(s, i, pick, key);
    } else if Leaves(s.threads[i]) {
      EntryLeft(s, i, pick, key);
    } else {
      EntryPlain(s, i, pick, key);
    }
  }

  /** Only a thread at the end of removeSession closes a target. */
  lemma WhoCloses(s: State, i: nat, pick: Pick, sid: nat)
    requires Can(s, Step(i, pick)) && sid < |s.sessions| && !s.sessions[sid].target.Closed?
    requires sid < |Do(s, Step(i, pick)).sessions| && Do(s, Step(i, pick)).sessions[sid].target.Closed?
    ensures Closes(s.threads[i]) && s.threads[i].sid == sid
  {
  }

  lemma StepClosed(s: State, i: nat, pick: Pick, sid: nat)
    requires Sessions(s) && Can(s, Step(i, pick)) && sid < |s.sessions| && ClosedIsOut(s, sid)
    ensures sid < |Do(s, Step(i, pick)).sessions| && ClosedIsOut(Do(s, Step(i, pick)), sid)
  {
    StepSession(s, i, pick, sid);
    var t := Do(s, Step(i, pick));
    if t.sessions[sid].target.Closed? {
      if !s.sessions[sid].target.Closed? {
        WhoCloses(s, i, pick, sid);
        assert ThreadOk(s, i, s.threads[i]);
      }
      NeverRemapped(s, i, pick, sid);
    }
  }

  /** Only the goroutine that stores a placeholder adds a session, and the map entry for it. */
  lemma NothingNew(s: State, i: nat, pick: Pick)
    requires Can(s, Step(i, pick)) && !s.threads[i].Slow?
    ensures |Do(s, Step(i, pick)).sessions| == |s.sessions|
    ensures forall key :: key in Do(s, Step(i, pick)).addrMap ==> key in s.addrMap
  {
  }

  lemma NewIsMapped(s: State, i: nat, pick: Pick)
    requires Can(s, Step(i, pick)) && s.threads[i].Slow?
    ensures |Do(s, Step(i, pick)).sessions| > |s.sessions| ==>
              |Do(s, Step(i, pick)).sessions| == |s.sessions| + 1 && ClosedIsOut(Do(s, Step(i, pick)), |s.sessions|)
    ensures forall key :: key in Do(s, Step(i, pick)).addrMap ==>
              key in s.addrMap || EntryOk(Do(s, Step(i, pick)), key)
  {
  }

  lemma StepMapped(s: State, i: nat, pick: Pick)
    requires Sessions(s) && Mapped(s) && Can(s, Step(i, pick))
    ensures Mapped(Do(s, Step(i, pick)))
  {
    var t := Do(s, Step(i, pick));
    if s.threads[i].Slow? {
      NewIsMapped(s, i, pick);
    } else {
      NothingNew(s, i, pick);
    }
    forall key | key in t.addrMap
      ensures EntryOk(t, key)
    {
      StepEntry(s, i, pick, key);
    }
    forall sid | 0 <= sid < |t.sessions|
      ensures ClosedIsOut(t, sid)
    {
      if sid < |s.sessions| {
        StepClosed(s, i, pick, sid);
      }
    }
  }

  // ------------------------------------------------------------------ runs

  /** A new thread, or a change of flags, leaves sessions and map alone. */
  lemma SpawnKeepsSessions(s: State, e: Event)
    requires Sessions(s) && Can(s, e) && !e.Step?
    requires e.SweepVisit? || e.CloseVisit? ==> EntryOk(s, e.key)
    ensures Sessions(Do(s, e))
  {
    var t := Do(s, e);
    forall sid | 0 <= sid < |t.sessions|
      ensures t.sessions[sid].builder < |t.threads|
      ensures SessionOk(t.sessions[sid], sid, t.threads[t.sessions[sid].builder])
    {
      assert SessionOk(s.sessions[sid], sid, s.threads[s.sessions[sid].builder]);
    }
    forall j | 0 <= j < |t.threads|
      ensures ThreadOk(t, j, t.threads[j])
    {
      if j < |s.threads| {
        assert ThreadOk(s, j, s.threads[j]);
      }
    }
  }

  lemma SpawnKeepsMapped(s: State, e: Event)
    requires Mapped(s) && Can(s, e) && !e.Step?
    ensures Mapped(Do(s, e))
  {
    var t := Do(s, e);
    forall sid | 0 <= sid < |t.sessions|
      ensures ClosedIsOut(t, sid)
    {
      assert ClosedIsOut(s, sid);
    }
    forall key | key in t.addrMap
      ensures EntryOk(t, key)
    {
      assert EntryOk(s, key);
    }
  }

  lemma SpawnKeeps(s: State, e: Event)
    requires Inv(s) && Can(s, e) && !e.Step?
    ensures Inv(Do(s, e))
  {
    SpawnKeepsSessions(s, e);
    SpawnKeepsMapped(s, e);
    if e.Packet? || e.SweepVisit? || e.CloseVisit? {
      SumAppend(s.threads, Do(s, e).threads[|s.threads|]);
    }
  }

  lemma StepKeeps(s: State, e: Event)
    requires Inv(s) && Can(s, e)
    ensures Inv(Do(s, e))
  {
    if e.Step? {
      StepSessions(s, e.i, e.pick);
      StepMapped(s, e.i, e.pick);
      StepAccounts(s, e.i, e.pick);
    } else {
      SpawnKeeps(s, e);
    }
  }

  lemma {:induction false} RunKeeps(s: State, events: seq<Event>, t: State)
    requires Inv(s) && IsRun(s, events, t)
    ensures Inv(t)
    decreases |events|
  {
    if events == [] {
    } else {
      StepKeeps(s, events[0]);
      RunKeeps(Do(s, events[0]), events[1..], t);
    }
  }

  lemma ReachableInv(t: State)
    requires Reachable(t)
    ensures Inv(t)
  {
    var maxConn, events :| IsRun(Init(maxConn), events, t);
    RunKeeps(Init(maxConn), events, t);
  }

  lemma {:induction false} RunAppend(s: State, events: seq<Event>, t: State, e: Event)
    requires IsRun(s, events, t) && Can(t, e)
    ensures IsRun(s, events + [e], Do(t, e))
    decreases |events|
  {
    if events == [] {
      assert IsRun(Do(t, e), [], Do(t, e));
    } else {
      RunAppend(Do(s, events[0]), events[1..], t, e);
      assert (events + [e])[1..] == events[1..] + [e];
    }
  }

  lemma Reach(t: State, e: Event) returns (u: State)
    requires Reachable(t) && Can(t, e)
    ensures u == Do(t, e) && Reachable(u)
  {
    var maxConn, events :| IsRun(Init(maxConn), events, t);
    RunAppend(Init(maxConn), events, t, e);
    u := Do(t, e);
  }

  // -------------------------------------------------------------- theorems

  /** A session's ready channel is never closed twice, and is closed by the time its builder is done with it. */
  lemma ReadyClosedOnce(s: State, sid: nat)
    requires Reachable(s) && sid < |s.sessions|
    ensures s.sessions[sid].closes <= 1
    ensures s.sessions[sid].builder < |s.threads|
    ensures var pc := s.threads[s.sessions[sid].builder];
            s.sessions[sid].closes == 0 <==>
              pc.Check? || pc.Take? || pc.Connect? || pc.FailErr? || pc.FailReady? || pc.SetTarget? || pc.Announce?
  {
    ReachableInv(s);
    assert SessionOk(s.sessions[sid], sid, s.threads[s.sessions[sid].builder]);
  }

  /** No packet is ever written to a target that is not set. */
  lemma NoWriteToUnsetTarget(s: State, i: nat)
    requires Reachable(s) && i < |s.threads|
    requires s.threads[i].Write? || s.threads[i].First? || s.threads[i].Read?
    ensures s.threads[i].sid < |s.sessions| && !s.sessions[s.threads[i].sid].target.Unset?
  {
    ReachableInv(s);
    assert ThreadOk(s, i, s.threads[i]);
    var sid := s.threads[i].sid;
    assert SessionOk(s.sessions[sid], sid, s.threads[s.sessions[sid].builder]);
  }

  /** Every buffer taken from the pool is held by exactly one thread or has been put back. */
  lemma BuffersBalance(s: State)
    requires Reachable(s)
    ensures s.gets - s.puts == HeldBy(s.threads)
    ensures (forall i :: 0 <= i < |s.threads| ==> s.threads[i].Done?) ==> s.gets == s.puts && s.nowConn == 0
  {
    ReachableInv(s);
    if forall i :: 0 <= i < |s.threads| ==> s.threads[i].Done? {
      AllDone(s.threads);
    }
  }

  lemma {:induction false} AllDone(threads: seq<Pc>)
    requires forall i :: 0 <= i < |threads| ==> threads[i].Done?
    ensures HeldBy(threads) == 0 && SlotsOf(threads) == 0
  {
    if threads != [] {
      AllDone(threads[1..]);
    }
  }

  /** NowConn counts the builders that hold a slot. */
  lemma SlotsBalance(s: State)
    requires Reachable(s)
    ensures s.nowConn == SlotsOf(s.threads)
  {
    ReachableInv(s);
  }

  /** The map never names a session that is over, and a session that is over has no open target. */
  lemma NothingStale(s: State)
    requires Reachable(s)
    ensures forall key :: key in s.addrMap ==>
              s.addrMap[key] < |s.sessions| && s.sessions[s.addrMap[key]].builder < |s.threads|
              && MayBeMapped(s.threads[s.sessions[s.addrMap[key]].builder])
    ensures forall sid :: 0 <= sid < |s.sessions| ==>
              s.sessions[sid].builder < |s.threads|
              && (s.threads[s.sessions[sid].builder].Release? || s.threads[s.sessions[sid].builder].Done? ==>
                    !s.sessions[sid].target.Open?)
  {
    ReachableInv(s);
    forall sid | 0 <= sid < |s.sessions|
      ensures s.threads[s.sessions[sid].builder].Release? || s.threads[s.sessions[sid].builder].Done? ==>
                !s.sessions[sid].target.Open?
    {
      assert SessionOk(s.sessions[sid], sid, s.threads[s.sessions[sid].builder]);
    }
    forall key | key in s.addrMap
      ensures EntryOk(s, key)
    {
    }
  }

  // ------------------------------------------------- waiters and builders

  /** How many more steps the builder can take before it closes the ready channel. */
  function Rank(pc: Pc): nat {
    match pc
    case Check(_) => 5
    case Take(_) => 4
    case Connect(_) => 3
    case FailErr(_, _) => 2
    case SetTarget(_) => 2
    case FailReady(_, _) => 1
    case Announce(_) => 1
    case _ => 0
  }

  function RankOf(s: State, sid: nat): nat
    requires sid < |s.sessions| && s.sessions[sid].builder < |s.threads|
  {
    Rank(s.threads[s.sessions[sid].builder])
  }

  /** The rank is 0 exactly when ready has been closed. */
  lemma RankZeroExact(s: State, sid: nat)
    requires Inv(s) && sid < |s.sessions|
    ensures s.sessions[sid].builder < |s.threads|
    ensures RankOf(s, sid) == 0 <==> s.sessions[sid].closes == 1
    ensures s.sessions[sid].closes <= 1
  {
    assert SessionOk(s.sessions[sid], sid, s.threads[s.sessions[sid].builder]);
  }

  /** While ready is open its builder can always step. */
  lemma BuilderCanStep(s: State, sid: nat)
    requires Inv(s) && sid < |s.sessions| && s.sessions[sid].closes == 0
    ensures Can(s, Step(s.sessions[sid].builder, Good)) || Can(s, Step(s.sessions[sid].builder, Bad))
  {
    assert SessionOk(s.sessions[sid], sid, s.threads[s.sessions[sid].builder]);
  }

  /** Every step of the builder while ready is open lowers the rank. */
  lemma BuilderStepLowers(s: State, sid: nat, pick: Pick)
    requires Inv(s) && sid < |s.sessions| && s.sessions[sid].closes == 0
    requires Can(s, Step(s.sessions[sid].builder, pick))
    ensures var i := s.sessions[sid].builder; Rank(Next(s, s.threads[i], pick)) < Rank(s.threads[i])
  {
    assert SessionOk(s.sessions[sid], sid, s.threads[s.sessions[sid].builder]);
  }

  /** Each session keeps its builder, and a builder that does not step stays where it is. */
  lemma EventKeepsBuilder(s: State, e: Event, sid: nat)
    requires Inv(s) && Can(s, e) && sid < |s.sessions|
    ensures var t := Do(s, e);
            && sid < |t.sessions| && t.sessions[sid].builder == s.sessions[sid].builder < |s.threads| <= |t.threads|
            && (!(e.Step? && e.i == s.sessions[sid].builder) ==>
                  t.threads[s.sessions[sid].builder] == s.threads[s.sessions[sid].builder])
  {
    assert SessionOk(s.sessions[sid], sid, s.threads[s.sessions[sid].builder]);
    if e.Step? {
      StepSession(s, e.i, e.pick, sid);
    }
  }

  /** The steps that the goroutine `i` takes in a run. */
  function StepsOf(events: seq<Event>, i: nat): nat {
    if events == [] then 0 else (if events[0].Step? && events[0].i == i then 1 else 0) + StepsOf(events[1..], i)
  }

  lemma RankFalls(s: State, e: Event, sid: nat)
    requires Inv(s) && Can(s, e) && sid < |s.sessions|
    ensures s.sessions[sid].builder < |s.threads| && sid < |Do(s, e).sessions| && Inv(Do(s, e))
    ensures Do(s, e).sessions[sid].builder == s.sessions[sid].builder < |Do(s, e).threads|
    ensures RankOf(Do(s, e), sid) + StepsOf([e], s.sessions[sid].builder) <= RankOf(s, sid) || RankOf(Do(s, e), sid) == 0
  {
    StepKeeps(s, e);
    EventKeepsBuilder(s, e, sid);
    RankZeroExact(s, sid);
    RankZeroExact(Do(s, e), sid);
    if e.Step? && e.i == s.sessions[sid].builder {
      if s.sessions[sid].closes == 0 {
        BuilderStepLowers(s, sid, e.pick);
      } else {
        StepSession(s, e.i, e.pick, sid);
      }
    }
  }

  lemma {:induction false} RankRun(s: State, events: seq<Event>, t: State, sid: nat)
    requires Inv(s) && IsRun(s, events, t) && sid < |s.sessions|
    ensures Inv(t) && sid < |t.sessions|
    ensures s.sessions[sid].builder == t.sessions[sid].builder < |s.threads| && s.sessions[sid].builder < |t.threads|
    ensures RankOf(t, sid) + StepsOf(events, s.sessions[sid].builder) <= RankOf(s, sid) || RankOf(t, sid) == 0
    decreases |events|
  {
    if events == [] {
      assert SessionOk(s.sessions[sid], sid, s.threads[s.sessions[sid].builder]);
    } else {
      RankFalls(s, events[0], sid);
      RankRun(Do(s, events[0]), events[1..], t, sid);
    }
  }

  /**
  No builder path forgets its waiters: from any reachable state, in every run in which the
  builder takes as many steps as its rank, at most five, ready is closed by the end, and a
  goroutine that still waits can go on. Until then the builder always has a step to take.
  */
  lemma WaitersAreReleased(s: State, events: seq<Event>, t: State, i: nat)
    requires Reachable(s) && IsRun(s, events, t) && i < |s.threads| && s.threads[i].Wait?
    ensures var sid := s.threads[i].sid;
            && sid < |s.sessions| && s.sessions[sid].builder < |s.threads| && RankOf(s, sid) <= 5
            && (RankOf(s, sid) > 0 ==>
                  Can(s, Step(s.sessions[sid].builder, Good)) || Can(s, Step(s.sessions[sid].builder, Bad)))
            && (StepsOf(events, s.sessions[sid].builder) >= RankOf(s, sid) ==>
                  && sid < |t.sessions| && t.sessions[sid].closes == 1
                  && (i < |t.threads| && t.threads[i] == Wait(sid) ==> Can(t, Step(i, Good))))
  {
    ReachableInv(s);
    assert ThreadOk(s, i, s.threads[i]);
    var sid := s.threads[i].sid;
    RankRun(s, events, t, sid);
    RankZeroExact(s, sid);
    RankZeroExact(t, sid);
    if RankOf(s, sid) > 0 {
      BuilderCanStep(s, sid);
    }
  }
}
