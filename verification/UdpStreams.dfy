/**
How many sessions and streams of one address can live at once: what holds,
exactly when, and runs in which it does not.
*/
module UdpStreams {
  import opened UdpSession
  import opened UdpSafety

  // --------------------------------------------- the promise and what breaks it

  /** Some thread in removeSession is about to close the session's target. */
  predicate Pending(threads: seq<Pc>, sid: nat) {
    exists j :: 0 <= j < |threads| && Closes(threads[j]) && threads[j].sid == sid
  }

  /** A session being built is in the map, and an open one is in the map or about to be closed. */
  predicate Accounted(s: State, sid: nat)
    requires sid < |s.sessions|
  {
    var x := s.sessions[sid];
    && x.builder < |s.threads|
    && (x.target.Unset? && MayBeMapped(s.threads[x.builder]) ==> Current(s, sid))
    && (x.target.Open? ==> Current(s, sid) || Pending(s.threads, sid))
  }

  ghost predicate AllAccounted(s: State) {
    forall sid :: 0 <= sid < |s.sessions| ==> Accounted(s, sid)
  }

  /** The thread's next step is an addrMap.Delete. */
  predicate Deletes(pc: Pc) { pc.FailDelete? || (pc.Removal? && pc.stage.Unmap?) }

  /** The thread is about to delete the entry of a session other than its own. */
  predicate Evicts(s: State, i: nat)
    requires i < |s.threads|
  {
    var pc := s.threads[i];
    && Deletes(pc) && pc.sid < |s.sessions|
    && s.sessions[pc.sid].key in s.addrMap && s.addrMap[s.sessions[pc.sid].key] != pc.sid
  }

  /** The thread is about to delete the entry of a session that is still being built: only Close does that. */
  predicate Orphans(s: State, i: nat)
    requires i < |s.threads|
  {
    var pc := s.threads[i];
    pc.Removal? && pc.stage.Unmap? && pc.sid < |s.sessions| && Current(s, pc.sid) && s.sessions[pc.sid].target.Unset?
  }

  predicate Upsets(s: State, i: nat)
    requires i < |s.threads|
  {
    Evicts(s, i) || Orphans(s, i)
  }

  // ------------------------------------------------------------- single steps

  /** A pending close stays pending until its own thread takes the step. */
  lemma PendingKept(threads: seq<Pc>, i: nat, pc: Pc, sid: nat)
    requires i < |threads| && Pending(threads, sid) && !(Closes(threads[i]) && threads[i].sid == sid)
    ensures Pending(threads[i := pc], sid)
  {
    var j :| 0 <= j < |threads| && Closes(threads[j]) && threads[j].sid == sid;
    assert threads[i := pc][j] == threads[j];
  }

  lemma NowPending(threads: seq<Pc>, i: nat, pc: Pc)
    requires i < |threads| && Closes(pc)
    ensures Pending(threads[i := pc], pc.sid)
  {
    assert threads[i := pc][i] == pc;
  }

  lemma StepKeepsPending(s: State, i: nat, pick: Pick, sid: nat)
    requires Can(s, Step(i, pick)) && Pending(s.threads, sid)
    requires Closes(s.threads[i]) ==> s.threads[i].sid != sid
    ensures Pending(Do(s, Step(i, pick)).threads, sid)
  {
    PendingKept(s.threads, i, Next(s, s.threads[i], pick), sid);
  }

  predicate Plain(pc: Pc) { !pc.Slow? && !Deletes(pc) && !Closes(pc) }

  lemma PlainMap(s: State, i: nat, pick: Pick)
    requires Can(s, Step(i, pick)) && Plain(s.threads[i])
    ensures Do(s, Step(i, pick)).addrMap == s.addrMap
  {
  }

  lemma PlainOther(s: State, i: nat, pick: Pick, sid: nat)
    requires Can(s, Step(i, pick)) && sid < |s.sessions| && Accounted(s, sid)
    requires s.sessions[sid].builder != i && Plain(s.threads[i])
    requires sid < |Do(s, Step(i, pick)).sessions| && Do(s, Step(i, pick)).sessions[sid] == s.sessions[sid]
    ensures Accounted(Do(s, Step(i, pick)), sid)
  {
    PlainMap(s, i, pick);
    if Pending(s.threads, sid) {
      StepKeepsPending(s, i, pick, sid);
    }
  }

  lemma OwnTarget(s: State, i: nat, pick: Pick, sid: nat)
    requires Can(s, Step(i, pick)) && sid < |s.sessions| && s.sessions[sid].builder == i
    requires SessionOk(s.sessions[sid], sid, s.threads[i]) && Plain(s.threads[i])
    ensures var t := Do(s, Step(i, pick));
            && sid < |t.sessions| && t.sessions[sid].key == s.sessions[sid].key && t.sessions[sid].builder == i
            && (t.sessions[sid].target.Unset? ==> s.sessions[sid].target.Unset?)
            && (MayBeMapped(Next(s, s.threads[i], pick)) ==> MayBeMapped(s.threads[i]))
            && (t.sessions[sid].target.Open? && s.sessions[sid].target.Unset? ==> MayBeMapped(s.threads[i]))
            && (t.sessions[sid].target.Open? ==> !s.sessions[sid].target.Closed?)
  {
  }

  lemma PlainOwn(s: State, i: nat, pick: Pick, sid: nat)
    requires Can(s, Step(i, pick)) && sid < |s.sessions| && Accounted(s, sid) && s.sessions[sid].builder == i
    requires SessionOk(s.sessions[sid], sid, s.threads[i]) && Plain(s.threads[i])
    ensures sid < |Do(s, Step(i, pick)).sessions| && Accounted(Do(s, Step(i, pick)), sid)
  {
    PlainMap(s, i, pick);
    OwnTarget(s, i, pick, sid);
    if Pending(s.threads, sid) {
      StepKeepsPending(s, i, pick, sid);
    }
  }

  lemma PlaceholderStored(s: State, i: nat, pick: Pick, sid: nat)
    requires Can(s, Step(i, pick)) && sid < |s.sessions| && Accounted(s, sid) && s.threads[i].Slow?
    requires SessionOk(s.sessions[sid], sid, s.threads[s.sessions[sid].builder])
    ensures sid < |Do(s, Step(i, pick)).sessions| && Accounted(Do(s, Step(i, pick)), sid)
  {
    if Pending(s.threads, sid) {
      StepKeepsPending(s, i, pick, sid);
    }
  }

  lemma TargetClosed(s: State, i: nat, pick: Pick, sid: nat)
    requires Can(s, Step(i, pick)) && sid < |s.sessions| && Accounted(s, sid) && ThreadOk(s, i, s.threads[i])
    requires SessionOk(s.sessions[sid], sid, s.threads[s.sessions[sid].builder])
    requires Closes(s.threads[i])
    ensures sid < |Do(s, Step(i, pick)).sessions| && Accounted(Do(s, Step(i, pick)), sid)
  {
    if Pending(s.threads, sid) && s.threads[i].sid != sid {
      StepKeepsPending(s, i, pick, sid);
    }
  }

  /** A failing builder deletes the entry of a session without a target, a builder that is done that of one with a target. */
  lemma DeletesWhat(s: State, i: nat)
    requires Sessions(s) && i < |s.threads| && Deletes(s.threads[i])
    ensures s.threads[i].sid < |s.sessions| && s.sessions[s.threads[i].sid].builder < |s.threads|
    ensures s.threads[i].FailDelete? ==> s.sessions[s.threads[i].sid].target.Unset?
    ensures s.sessions[s.threads[i].sid].target.Unset? && s.threads[i].Removal? ==> s.sessions[s.threads[i].sid].builder != i
    ensures s.threads[i].FailDelete? ==> s.sessions[s.threads[i].sid].builder == i
  {
    var pc := s.threads[i];
    assert ThreadOk(s, i, pc);
    assert SessionOk(s.sessions[pc.sid], pc.sid, s.threads[s.sessions[pc.sid].builder]);
  }

  /** The delete of a thread's own entry: what was open is now about to be closed. */
  lemma OwnDeleted(s: State, i: nat, pick: Pick)
    requires Can(s, Step(i, pick)) && Deletes(s.threads[i]) && Sessions(s) && !Orphans(s, i)
    requires s.threads[i].sid < |s.sessions| && Accounted(s, s.threads[i].sid)
    ensures s.threads[i].sid < |Do(s, Step(i, pick)).sessions| && Accounted(Do(s, Step(i, pick)), s.threads[i].sid)
  {
    DeletesWhat(s, i);
    if s.threads[i].Removal? {
      NowPending(s.threads, i, Next(s, s.threads[i], pick));
    }
  }

  lemma OtherDeleted(s: State, i: nat, pick: Pick, sid: nat)
    requires Can(s, Step(i, pick)) && Deletes(s.threads[i]) && s.threads[i].sid != sid
    requires sid < |s.sessions| && Accounted(s, sid) && !Evicts(s, i)
    requires SessionOk(s.sessions[sid], sid, s.threads[s.sessions[sid].builder])
    ensures sid < |Do(s, Step(i, pick)).sessions| && Accounted(Do(s, Step(i, pick)), sid)
  {
    if Pending(s.threads, sid) {
      StepKeepsPending(s, i, pick, sid);
    }
  }

  lemma StepAccounted(s: State, i: nat, pick: Pick, sid: nat)
    requires Sessions(s) && Can(s, Step(i, pick)) && !Upsets(s, i)
    requires sid < |s.sessions| && Accounted(s, sid)
    ensures sid < |Do(s, Step(i, pick)).sessions| && Accounted(Do(s, Step(i, pick)), sid)
  {
    assert ThreadOk(s, i, s.threads[i]);
    if s.threads[i].Slow? {
      PlaceholderStored(s, i, pick, sid);
    } else if Deletes(s.threads[i]) {
      if s.threads[i].sid == sid {
        OwnDeleted(s, i, pick);
      } else {
        OtherDeleted(s, i, pick, sid);
      }
    } else if Closes(s.threads[i]) {
      TargetClosed(s, i, pick, sid);
    } else if s.sessions[sid].builder == i {
      PlainOwn(s, i, pick, sid);
    } else {
      OthersUntouched(s, i, pick, sid);
      PlainOther(s, i, pick, sid);
    }
  }

  lemma NewAccounted(s: State, i: nat, pick: Pick)
    requires Can(s, Step(i, pick))
    ensures |s.sessions| <= |Do(s, Step(i, pick)).sessions| <= |s.sessions| + 1
    ensures |Do(s, Step(i, pick)).sessions| > |s.sessions| ==> Accounted(Do(s, Step(i, pick)), |s.sessions|)
  {
  }

  lemma CalmStep(s: State, i: nat, pick: Pick)
    requires Sessions(s) && Can(s, Step(i, pick)) && !Upsets(s, i) && AllAccounted(s)
    ensures AllAccounted(Do(s, Step(i, pick)))
  {
    NewAccounted(s, i, pick);
    forall sid | 0 <= sid < |Do(s, Step(i, pick)).sessions|
      ensures Accounted(Do(s, Step(i, pick)), sid)
    {
      if sid < |s.sessions| {
        StepAccounted(s, i, pick, sid);
      }
    }
  }

  lemma CalmSpawn(s: State, e: Event)
    requires Can(s, e) && !e.Step? && AllAccounted(s)
    ensures AllAccounted(Do(s, e))
  {
    var t := Do(s, e);
    forall sid | 0 <= sid < |t.sessions|
      ensures Accounted(t, sid)
    {
      assert Accounted(s, sid);
      if Pending(s.threads, sid) {
        var j :| 0 <= j < |s.threads| && Closes(s.threads[j]) && s.threads[j].sid == sid;
        assert t.threads[j] == s.threads[j];
      }
    }
  }

  lemma CurrentIsNotPending(s: State, sid: nat)
    requires Sessions(s) && sid < |s.sessions| && Current(s, sid)
    ensures !Pending(s.threads, sid)
  {
    forall j | 0 <= j < |s.threads| && Closes(s.threads[j])
      ensures s.threads[j].sid != sid
    {
      assert ThreadOk(s, j, s.threads[j]);
    }
  }

  /** After a delete of a foreign entry that entry's session is alive and in nobody's book. */
  lemma EvictedIsLost(s: State, i: nat, pick: Pick)
    requires Inv(s) && Can(s, Step(i, pick)) && Evicts(s, i)
    ensures var y := s.addrMap[s.sessions[s.threads[i].sid].key];
            y < |Do(s, Step(i, pick)).sessions| && !Accounted(Do(s, Step(i, pick)), y)
  {
    var pc := s.threads[i];
    var y := s.addrMap[s.sessions[pc.sid].key];
    assert EntryOk(s, s.sessions[pc.sid].key) && ClosedIsOut(s, y);
    assert SessionOk(s.sessions[y], y, s.threads[s.sessions[y].builder]);
    var t := Do(s, Step(i, pick));
    CurrentIsNotPending(s, y);
    forall j | 0 <= j < |t.threads| && Closes(t.threads[j])
      ensures t.threads[j].sid != y
    {
      if j != i {
        assert t.threads[j] == s.threads[j];
      }
    }
  }

  /** A session whose placeholder is taken away goes on being built. */
  lemma OrphanIsLost(s: State, i: nat, pick: Pick)
    requires Inv(s) && Can(s, Step(i, pick)) && Orphans(s, i)
    ensures s.threads[i].sid < |Do(s, Step(i, pick)).sessions| && !Accounted(Do(s, Step(i, pick)), s.threads[i].sid)
  {
    var sid := s.threads[i].sid;
    assert EntryOk(s, s.sessions[sid].key);
    DeletesWhat(s, i);
  }

  /**
  The exact step at which the promise is lost, also while Close is at work: a step keeps every
  session accounted for if and only if it deletes neither the entry of another session nor
  that of a session still being built.
  */
  lemma StepKeepsExactly(s: State, i: nat, pick: Pick)
    requires Reachable(s) && AllAccounted(s) && Can(s, Step(i, pick))
    ensures AllAccounted(Do(s, Step(i, pick))) <==> !Evicts(s, i) && !Orphans(s, i)
  {
    ReachableInv(s);
    StepKeepsIff(s, i, pick);
  }

  lemma StepKeepsIff(s: State, i: nat, pick: Pick)
    requires Inv(s) && AllAccounted(s) && Can(s, Step(i, pick))
    ensures AllAccounted(Do(s, Step(i, pick))) <==> !Upsets(s, i)
  {
    if Evicts(s, i) {
      EvictedIsLost(s, i, pick);
    } else if Orphans(s, i) {
      OrphanIsLost(s, i, pick);
    } else {
      CalmStep(s, i, pick);
    }
  }

  // ---------------------------------------------------------------- calm runs

  /** No step of the run deletes another session's entry or that of a session still being built. */
  ghost predicate IsCalmRun(s: State, events: seq<Event>, t: State)
    decreases |events|
  {
    if events == [] then s == t
    else
      && Can(s, events[0]) && (events[0].Step? ==> !Upsets(s, events[0].i))
      && IsCalmRun(Do(s, events[0]), events[1..], t)
  }

  ghost predicate Calm(t: State) {
    exists maxConn, events :: IsCalmRun(Init(maxConn), events, t)
  }

  /** In every state of the run every session is accounted for. */
  ghost predicate AlwaysAccounted(s: State, events: seq<Event>)
    decreases |events|
  {
    && AllAccounted(s)
    && (events != [] ==> Can(s, events[0]) && AlwaysAccounted(Do(s, events[0]), events[1..]))
  }

  lemma {:induction false} CalmFromHere(s: State, events: seq<Event>, t: State)
    requires Inv(s) && IsRun(s, events, t) && AllAccounted(s)
    ensures IsCalmRun(s, events, t) <==> AlwaysAccounted(s, events)
    decreases |events|
  {
    if events != [] {
      var e := events[0];
      StepKeeps(s, e);
      if e.Step? {
        StepKeepsIff(s, e.i, e.pick);
      } else {
        CalmSpawn(s, e);
      }
      if AllAccounted(Do(s, e)) {
        CalmFromHere(Do(s, e), events[1..], t);
      }
    }
  }

  /** A run is calm exactly if every session is accounted for all along. */
  lemma CalmExactly(maxConn: nat, events: seq<Event>, t: State)
    requires IsRun(Init(maxConn), events, t)
    ensures IsCalmRun(Init(maxConn), events, t) <==> AlwaysAccounted(Init(maxConn), events)
  {
    CalmFromHere(Init(maxConn), events, t);
  }

  lemma CalmKeeps(s: State, e: Event)
    requires Inv(s) && Can(s, e) && (e.Step? ==> !Upsets(s, e.i)) && AllAccounted(s)
    ensures AllAccounted(Do(s, e))
  {
    if e.Step? {
      CalmStep(s, e.i, e.pick);
    } else {
      CalmSpawn(s, e);
    }
  }

  lemma {:induction false} CalmRunKeeps(s: State, events: seq<Event>, t: State)
    requires Inv(s) && IsCalmRun(s, events, t) && AllAccounted(s)
    ensures Inv(t) && AllAccounted(t)
    decreases |events|
  {
    if events != [] {
      StepKeeps(s, events[0]);
      CalmKeeps(s, events[0]);
      CalmRunKeeps(Do(s, events[0]), events[1..], t);
    }
  }

  lemma CalmInv(t: State)
    requires Calm(t)
    ensures Inv(t) && AllAccounted(t)
  {
    var maxConn, events :| IsCalmRun(Init(maxConn), events, t);
    CalmRunKeeps(Init(maxConn), events, t);
  }

  // ----------------------------------------------------- when runs are calm

  /** No session has two goroutines between removeSession's Load and its Delete. */
  predicate Alone(s: State) {
    forall i, j :: 0 <= i < j < |s.threads| && Unmapping(s.threads[i]) && Unmapping(s.threads[j]) ==>
      s.threads[i].sid != s.threads[j].sid
  }

  predicate Unmapping(pc: Pc) { pc.Removal? && pc.stage.Unmap? }

  /** No goroutine is about to delete the entry of a session without a target in removeSession. */
  predicate SparesBuilding(s: State) {
    forall i :: 0 <= i < |s.threads| && Unmapping(s.threads[i]) && s.threads[i].sid < |s.sessions| ==>
      !s.sessions[s.threads[i].sid].target.Unset?
  }

  /** Until Close begins that is always so. */
  lemma SparedBeforeClose(s: State)
    requires Reachable(s) && !s.closing
    ensures SparesBuilding(s)
  {
    ReachableInv(s);
    forall i | 0 <= i < |s.threads| && Unmapping(s.threads[i]) && s.threads[i].sid < |s.sessions|
      ensures !s.sessions[s.threads[i].sid].target.Unset?
    {
      assert ThreadOk(s, i, s.threads[i]);
      DeletesWhat(s, i);
    }
  }

  predicate Orderly(s: State) { Alone(s) && SparesBuilding(s) }

  /** What a goroutine found at its Load is still there at its Delete. */
  predicate StillThere(s: State, i: nat)
    requires i < |s.threads|
  {
    Unmapping(s.threads[i]) ==> s.threads[i].sid < |s.sessions| && Current(s, s.threads[i].sid)
  }

  ghost predicate AllStillThere(s: State) {
    forall i :: 0 <= i < |s.threads| ==> StillThere(s, i)
  }

  /** Then every delete takes the thread's own entry. */
  lemma DeletesOwn(s: State, i: nat)
    requires Sessions(s) && AllAccounted(s) && AllStillThere(s) && SparesBuilding(s) && i < |s.threads|
    ensures !Upsets(s, i)
    ensures Deletes(s.threads[i]) ==> s.threads[i].sid < |s.sessions| && Current(s, s.threads[i].sid)
  {
    if Deletes(s.threads[i]) {
      DeletesWhat(s, i);
      assert StillThere(s, i);
      assert Accounted(s, s.threads[i].sid);
    }
  }

  lemma OwnStillThere(s: State, i: nat, pick: Pick)
    requires Can(s, Step(i, pick))
    ensures StillThere(Do(s, Step(i, pick)), i)
  {
  }

  lemma OtherStillThere(s: State, i: nat, pick: Pick, j: nat)
    requires Sessions(s) && AllAccounted(s) && AllStillThere(s) && Orderly(s)
    requires Can(s, Step(i, pick)) && j < |s.threads| && j != i
    ensures StillThere(Do(s, Step(i, pick)), j)
  {
    if Unmapping(s.threads[j]) {
      var sid := s.threads[j].sid;
      assert StillThere(s, j);
      DeletesWhat(s, j);
      StepSession(s, i, pick, sid);
      DeletesOwn(s, i);
      if Deletes(s.threads[i]) {
        DeletesWhat(s, i);
        assert s.threads[i].sid != sid;
      }
      MapEntryKept(s, i, pick, sid);
    }
  }

  /** An entry stays unless its own session's is deleted. */
  lemma MapEntryKept(s: State, i: nat, pick: Pick, sid: nat)
    requires Can(s, Step(i, pick)) && sid < |s.sessions| && Current(s, sid)
    requires Deletes(s.threads[i]) ==> Current(s, s.threads[i].sid) && s.threads[i].sid != sid
    requires sid < |Do(s, Step(i, pick)).sessions| && Do(s, Step(i, pick)).sessions[sid].key == s.sessions[sid].key
    ensures Current(Do(s, Step(i, pick)), sid)
  {
  }

  lemma OrderlyStep(s: State, e: Event)
    requires Sessions(s) && AllAccounted(s) && AllStillThere(s) && Orderly(s) && Can(s, e)
    ensures e.Step? ==> !Upsets(s, e.i)
    ensures AllStillThere(Do(s, e))
  {
    var t := Do(s, e);
    if e.Step? {
      DeletesOwn(s, e.i);
    }
    forall j | 0 <= j < |t.threads|
      ensures StillThere(t, j)
    {
      if e.Step? {
        if j == e.i {
          OwnStillThere(s, e.i, e.pick);
        } else {
          OtherStillThere(s, e.i, e.pick, j);
        }
      } else if j < |s.threads| {
        assert StillThere(s, j);
      }
    }
  }

  /**
  A run in which, before each step, no session has two goroutines between removeSession's Load
  and its Delete, and none has one there without a target.
  */
  ghost predicate IsOrderlyRun(s: State, events: seq<Event>, t: State)
    decreases |events|
  {
    if events == [] then s == t
    else Orderly(s) && Can(s, events[0]) && IsOrderlyRun(Do(s, events[0]), events[1..], t)
  }

  lemma {:induction false} OrderlyFromHere(s: State, events: seq<Event>, t: State)
    requires Inv(s) && IsOrderlyRun(s, events, t) && AllAccounted(s) && AllStillThere(s)
    ensures IsCalmRun(s, events, t)
    decreases |events|
  {
    if events != [] {
      var e := events[0];
      StepKeeps(s, e);
      OrderlyStep(s, e);
      CalmKeeps(s, e);
      OrderlyFromHere(Do(s, e), events[1..], t);
    }
  }

  /** Such a run is calm. */
  lemma OrderlyIsCalm(maxConn: nat, events: seq<Event>, t: State)
    requires IsOrderlyRun(Init(maxConn), events, t)
    ensures IsCalmRun(Init(maxConn), events, t)
  {
    OrderlyFromHere(Init(maxConn), events, t);
  }

  // -------------------------------------------------------------- theorems

  /** The session's placeholder is stored and its target not set, or its target is open. */
  predicate Alive(s: State, sid: nat)
    requires sid < |s.sessions| && s.sessions[sid].builder < |s.threads|
  {
    Building(s, sid) || s.sessions[sid].target.Open?
  }

  predicate Building(s: State, sid: nat)
    requires sid < |s.sessions| && s.sessions[sid].builder < |s.threads|
  {
    MayBeMapped(s.threads[s.sessions[sid].builder]) && s.sessions[sid].target.Unset?
  }

  /** The target is open, the map has forgotten the session, and a thread is about to close the target. */
  predicate Lingers(s: State, sid: nat)
    requires sid < |s.sessions|
  {
    s.sessions[sid].target.Open? && !Current(s, sid) && Pending(s.threads, sid)
  }

  /** What the map names is alive, in every run. */
  lemma CurrentIsAlive(s: State, sid: nat)
    requires Reachable(s) && sid < |s.sessions| && Current(s, sid)
    ensures s.sessions[sid].builder < |s.threads| && Alive(s, sid)
  {
    ReachableInv(s);
    assert EntryOk(s, s.sessions[sid].key) && ClosedIsOut(s, sid);
  }

  /** In a calm run a session is alive exactly if its address maps to it, or it lingers. */
  lemma AliveExact(s: State, sid: nat)
    requires Calm(s) && sid < |s.sessions|
    ensures s.sessions[sid].builder < |s.threads|
    ensures Alive(s, sid) <==> Current(s, sid) || Lingers(s, sid)
  {
    CalmInv(s);
    assert Accounted(s, sid);
    if Current(s, sid) {
      assert EntryOk(s, s.sessions[sid].key) && ClosedIsOut(s, sid);
    }
  }

  /** In a calm run at most one session of an address is in the map or being built. */
  lemma OneSessionPerAddress(s: State, x: nat, y: nat)
    requires Calm(s)
    requires x < y < |s.sessions| && s.sessions[x].key == s.sessions[y].key
    ensures s.sessions[x].builder < |s.threads| && s.sessions[y].builder < |s.threads|
    ensures !((Current(s, x) || Building(s, x)) && (Current(s, y) || Building(s, y)))
  {
    CalmInv(s);
    assert Accounted(s, x) && Accounted(s, y);
  }

  /**
  Two sessions of one address are then alive together exactly when one of them lingers and
  the other lingers too or is the one in the map.
  */
  lemma TwoAliveExact(s: State, x: nat, y: nat)
    requires Calm(s)
    requires x < y < |s.sessions| && s.sessions[x].key == s.sessions[y].key
    ensures s.sessions[x].builder < |s.threads| && s.sessions[y].builder < |s.threads|
    ensures Alive(s, x) && Alive(s, y) <==>
              || (Lingers(s, x) && (Current(s, y) || Lingers(s, y)))
              || (Current(s, x) && Lingers(s, y))
  {
    AliveExact(s, x);
    AliveExact(s, y);
  }

  /** In a calm run a failing builder deletes its own placeholder and nothing else. */
  lemma FailureDeletesOwnPlaceholder(s: State, i: nat)
    requires Calm(s) && i < |s.threads| && s.threads[i].FailDelete?
    ensures s.threads[i].sid < |s.sessions|
    ensures var key := s.sessions[s.threads[i].sid].key; key in s.addrMap && s.addrMap[key] == s.threads[i].sid
  {
    CalmInv(s);
    assert Deletes(s.threads[i]);
    DeletesWhat(s, i);
    assert Accounted(s, s.threads[i].sid);
  }

  // --------------------------------------------------- runs that break promises

  lemma {:induction false} CalmAppend(s: State, events: seq<Event>, t: State, e: Event)
    requires IsCalmRun(s, events, t) && Can(t, e) && (e.Step? ==> !Upsets(t, e.i))
    ensures IsCalmRun(s, events + [e], Do(t, e))
    decreases |events|
  {
    if events == [] {
      assert IsCalmRun(Do(t, e), [], Do(t, e));
    } else {
      CalmAppend(Do(s, events[0]), events[1..], t, e);
      assert (events + [e])[1..] == events[1..] + [e];
    }
  }

  lemma CalmReach(t: State, e: Event) returns (u: State)
    requires Calm(t) && Can(t, e) && (e.Step? ==> !Upsets(t, e.i))
    ensures u == Do(t, e) && Calm(u)
  {
    var maxConn, events :| IsCalmRun(Init(maxConn), events, t);
    CalmAppend(Init(maxConn), events, t, e);
    u := Do(t, e);
  }

  lemma {:induction false} CalmIsRun(s: State, events: seq<Event>, t: State)
    requires IsCalmRun(s, events, t)
    ensures IsRun(s, events, t)
    decreases |events|
  {
    if events != [] {
      CalmIsRun(Do(s, events[0]), events[1..], t);
    }
  }

  lemma CalmIsReachable(t: State)
    requires Calm(t)
    ensures Reachable(t)
  {
    var maxConn, events :| IsCalmRun(Init(maxConn), events, t);
    CalmIsRun(Init(maxConn), events, t);
  }

  /** Two packets of one address have arrived; the first is building the session. */
  lemma PlaceholderSet() returns (s: State)
    ensures Reachable(s)
    ensures s == State([Session(7, Unset, 0, false, 0)], map[7 := 0], [Check(0), Start(7)], 0, 0, 2, 0, false, true)
  {
    s := Init(0);
    assert IsRun(Init(0), [], s);
    s := Reach(s, Packet(7));
    s := Reach(s, Packet(7));
    s := Reach(s, Step(0, Good));
    s := Reach(s, Step(0, Good));
  }

  /** Close is about to take away a placeholder whose session is still being built. */
  lemma PlaceholderFound() returns (s: State)
    ensures s == State([Session(7, Unset, 0, false, 0)], map[7 := 0], [Check(0), Start(7), Removal(0, Unmap, ByCleaner)],
                       0, 0, 2, 0, true, true)
    ensures Reachable(s) && Orphans(s, 2)
  {
    s := PlaceholderSet();
    s := Reach(s, CloseBegin);
    s := Reach(s, CloseVisit(7));
    s := Reach(s, Step(2, Good));
  }

  lemma PlaceholderGone() returns (s: State)
    ensures Reachable(s) && s.closing && s.addrMap == map[] && s.maxConn == 0
    ensures s.sessions == [Session(7, Unset, 0, false, 0)] && s.threads == [Check(0), Start(7), Done]
  {
    s := PlaceholderFound();
    s := Reach(s, Step(2, Good));
    s := Reach(s, Step(2, Good));
  }

  /** A waiting packet then builds a second session. */
  lemma PlaceholderStolen() returns (s: State)
    ensures Reachable(s) && s.closing && s.addrMap == map[7 := 1]
    ensures s.sessions == [Session(7, Unset, 0, false, 0), Session(7, Unset, 0, false, 1)]
    ensures s.threads == [Check(0), Check(1), Done] && s.maxConn == 0
  {
    s := PlaceholderGone();
    s := Reach(s, Step(1, Good));
    s := Reach(s, Step(1, Good));
  }

  /** Four good steps take a builder from its check to an open target. */
  lemma Opens(s: State, i: nat) returns (t: State)
    requires Reachable(s) && s.maxConn == 0 && i < |s.threads| && s.threads[i].Check? && s.threads[i].sid < |s.sessions|
    ensures Reachable(t) && t.threads == s.threads[i := Announce(s.threads[i].sid)] && t.maxConn == 0
    ensures t.sessions == s.sessions[s.threads[i].sid := s.sessions[s.threads[i].sid].(target := Open)]
    ensures t.closing == s.closing && t.addrMap == s.addrMap
  {
    t := Reach(s, Step(i, Good));
    t := Reach(t, Step(i, Good));
    t := Reach(t, Step(i, Good));
    t := Reach(t, Step(i, Good));
    assert t.threads == s.threads[i := Announce(s.threads[i].sid)];
  }

  /** After Close has begun, one address can have two open streams that nobody is about to close. */
  lemma TwoStreamsDuringClose() returns (s: State)
    ensures Reachable(s) && s.closing && |s.sessions| == 2
    ensures s.sessions[0].key == s.sessions[1].key && s.sessions[0].target.Open? && s.sessions[1].target.Open?
    ensures !Pending(s.threads, 0) && !Pending(s.threads, 1)
  {
    s := PlaceholderStolen();
    s := Opens(s, 0);
    s := Opens(s, 1);
  }

  /** After Close has begun, a failing builder can delete the placeholder of another session. */
  lemma FailureDeletesOther() returns (s: State)
    ensures Reachable(s) && s.closing && |s.threads| > 0 && s.threads[0] == FailDelete(0, false) && Evicts(s, 0)
    ensures |s.sessions| == 2 && s.sessions[0].key in s.addrMap && s.addrMap[s.sessions[0].key] == 1
  {
    s := PlaceholderStolen();
    s := Reach(s, Step(0, Bad));
    s := Reach(s, Step(0, Good));
    s := Reach(s, Step(0, Good));
  }

  /** The first packet of an address has arrived, and its goroutine may build the session. */
  lemma Taking() returns (s: State)
    ensures Calm(s)
    ensures s == State([Session(7, Unset, 0, false, 0)], map[7 := 0], [Take(0)], 0, 0, 1, 0, false, true)
  {
    s := Init(0);
    assert IsCalmRun(Init(0), [], s);
    s := CalmReach(s, Packet(7));
    s := CalmReach(s, Step(0, Good));
    s := CalmReach(s, Step(0, Good));
    s := CalmReach(s, Step(0, Good));
  }

  /** The session is established. */
  lemma Established() returns (s: State)
    ensures Calm(s)
    ensures s == State([Session(7, Open, 1, false, 0)], map[7 := 0], [First(0)], 1, 0, 1, 0, false, true)
  {
    s := Taking();
    s := CalmReach(s, Step(0, Good));
    s := CalmReach(s, Step(0, Good));
    s := CalmReach(s, Step(0, Good));
    s := CalmReach(s, Step(0, Good));
  }

  /** The sweeper has taken the session out of the map and not yet closed it. */
  lemma SweptNotClosed() returns (s: State)
    ensures Calm(s) && !s.closing && s.addrMap == map[] && s.listening && s.maxConn == 0
    ensures s.sessions == [Session(7, Open, 1, false, 0)] && s.threads == [First(0), Removal(0, Shut, ByCleaner)]
  {
    s := Established();
    s := CalmReach(s, SweepVisit(7));
    s := CalmReach(s, Step(1, Good));
    s := CalmReach(s, Step(1, Good));
    s := CalmReach(s, Step(1, Good));
  }

  /** The next packet of that address finds no session and may build one. */
  lemma NextPacketTaking() returns (s: State)
    ensures Calm(s) && !s.closing && s.maxConn == 0
    ensures s.sessions == [Session(7, Open, 1, false, 0), Session(7, Unset, 0, false, 2)]
    ensures s.threads == [First(0), Removal(0, Shut, ByCleaner), Take(1)]
  {
    s := SweptNotClosed();
    s := CalmReach(s, Packet(7));
    s := CalmReach(s, Step(2, Good));
    s := CalmReach(s, Step(2, Good));
    s := CalmReach(s, Step(2, Good));
  }

  /** Even in a calm run, it opens a second stream beside the lingering one. */
  lemma TwoStreamsDuringRemoval() returns (s: State)
    ensures Calm(s) && !s.closing && |s.sessions| == 2
    ensures s.sessions[0].key == s.sessions[1].key && s.sessions[0].target.Open? && s.sessions[1].target.Open?
  {
    s := NextPacketTaking();
    s := CalmReach(s, Step(2, Good));
    s := CalmReach(s, Step(2, Good));
    s := CalmReach(s, Step(2, Good));
  }

  /** The sweeper has found the session in the map and not yet deleted it. */
  lemma SweeperLooked() returns (s: State)
    ensures Reachable(s) && !s.closing && s.addrMap == map[7 := 0] && s.listening && s.maxConn == 0
    ensures s.sessions == [Session(7, Open, 1, false, 0)] && s.threads == [First(0), Removal(0, Unmap, ByCleaner)]
  {
    s := Established();
    CalmIsReachable(s);
    s := Reach(s, SweepVisit(7));
    s := Reach(s, Step(1, Good));
    s := Reach(s, Step(1, Good));
  }

  /** The builder's own write has failed, and it has found the session there too and deleted it. */
  lemma TwoRemovers() returns (s: State)
    ensures Reachable(s) && !s.closing && s.addrMap == map[] && s.listening && s.maxConn == 0
    ensures s.sessions == [Session(7, Open, 1, false, 0)]
    ensures s.threads == [Removal(0, Shut, ByBuilder), Removal(0, Unmap, ByCleaner)]
  {
    s := SweeperLooked();
    s := Reach(s, Step(0, Bad));
    s := Reach(s, Step(0, Good));
    s := Reach(s, Step(0, Good));
    s := Reach(s, Step(0, Good));
  }

  /** A new session is stored for the address, and the sweeper deletes its entry instead of the old one. */
  lemma NewcomerEvicted() returns (s: State)
    ensures Reachable(s) && !s.closing && s.addrMap == map[] && s.listening && s.maxConn == 0
    ensures s.sessions == [Session(7, Open, 1, false, 0), Session(7, Unset, 0, false, 2)]
    ensures s.threads == [Removal(0, Shut, ByBuilder), Removal(0, Shut, ByCleaner), Check(1)]
  {
    s := TwoRemovers();
    s := Reach(s, Packet(7));
    s := Reach(s, Step(2, Good));
    s := Reach(s, Step(2, Good));
    assert Evicts(s, 1);
    s := Reach(s, Step(1, Good));
  }

  /**
  So the comparison in removeSession does not protect a session that replaced the removed one,
  without any Close: two sessions of one address are being built at once, and only one is in the map.
  */
  lemma TwoBuildersWithoutClose() returns (s: State)
    ensures Reachable(s) && !s.closing && s.maxConn == 0 && s.addrMap == map[7 := 2]
    ensures |s.sessions| == 3 && s.sessions[1] == Session(7, Unset, 0, false, 2) && s.sessions[2] == Session(7, Unset, 0, false, 3)
    ensures |s.threads| == 4 && s.threads[2] == Check(1) && s.threads[3] == Check(2)
  {
    s := NewcomerEvicted();
    s := Reach(s, Packet(7));
    s := Reach(s, Step(3, Good));
    s := Reach(s, Step(3, Good));
  }

  /** And if the first of them fails, it deletes the placeholder of the second. */
  lemma FailureDeletesOtherWithoutClose() returns (s: State)
    ensures Reachable(s) && !s.closing && |s.threads| == 4 && s.threads[2] == FailDelete(1, false) && Evicts(s, 2)
  {
    s := TwoBuildersWithoutClose();
    s := Reach(s, Step(2, Bad));
    s := Reach(s, Step(2, Good));
    s := Reach(s, Step(2, Good));
  }
}
