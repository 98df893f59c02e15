/**
The UDP forwarding server: one goroutine per received packet, a placeholder in
addrMap for the goroutine that builds a session, a ready channel that releases
the others, a sweeper and Close, all interleaving step by step. Each access to
addrMap, to NowConn, to a session or to a channel is a step of its own; only
removeSession's test of the target goes with the closing, which loses no
interleaving, because a target that is set stays set.
*/
module UdpSession {

  type Key = int

  datatype Target = Unset | Open | Closed

  /** A session: its target, how often its ready channel was closed, whether building it failed, and its builder. */
  datatype Session = Session(key: Key, target: Target, closes: nat, failed: bool, builder: nat)

  /** Where a goroutine is in removeSession: before its Load, before its Delete, before its Close. */
  datatype Stage = Look | Unmap | Shut

  /** Who called it: a sender whose write failed, the builder when it is done, the sweeper or Close. */
  datatype Caller = BySender | ByBuilder | ByCleaner

  datatype Pc =
    // process and dispatch
    | Start(key: Key)                     // before addrMap.Load
    | Slow(key: Key)                      // before LoadOrStore
    | Wait(sid: nat)                      // the select on ready, timeout and closeCh
    | Write(sid: nat)                     // before sess.target.Write
    | Put                                 // before the packet buffer goes back to the pool
    // runSession
    | Check(sid: nat)                     // before CheckFlowAndConnNum, with GetConn's test of NowConn
    | Take(sid: nat)                      // the test passed; before NowConn is incremented
    | Connect(sid: nat)                   // before SendLinkInfo
    | FailErr(sid: nat, slot: bool)       // failBuild: before sess.err is set
    | FailReady(sid: nat, slot: bool)     // before close(sess.ready)
    | FailDelete(sid: nat, slot: bool)    // before addrMap.Delete
    | FailPut(sid: nat, slot: bool)       // before the buffer is put back
    | SetTarget(sid: nat)                 // before sess.target is set
    | Announce(sid: nat)                  // before close(sess.ready)
    | First(sid: nat)                     // before the first target.Write
    | FirstPut(sid: nat, sent: bool)      // before the packet buffer is put back
    | GetRead(sid: nat)                   // before the read buffer is taken
    | Read(sid: nat)                      // before target.Read
    | Forward(sid: nat)                   // before listener.WriteTo
    | PutRead(sid: nat)                   // deferred: before the read buffer is put back
    | Release                             // deferred: before AddConn
    // sweeper and Close
    | Sweeping(sid: nat)                  // an entry of addrMap that the sweeper visits
    // removeSession
    | Removal(sid: nat, stage: Stage, caller: Caller)
    | Done

  datatype State = State(
    sessions: seq<Session>, addrMap: map<Key, nat>, threads: seq<Pc>,
    nowConn: int, maxConn: nat, gets: nat, puts: nat, closing: bool, listening: bool)

  function Init(maxConn: nat): State {
    State([], map[], [], 0, maxConn, 0, 0, false, true)
  }

  /** What the environment or the scheduler decides when a step has more than one outcome. */
  datatype Pick = Good | Bad | Cancel

  datatype Event =
    | Packet(key: Key)                    // a packet was read into a pooled buffer
    | Step(i: nat, pick: Pick)
    | SweepVisit(key: Key)
    | CloseBegin                          // close(closeCh)
    | CloseVisit(key: Key)
    | CloseListener

  predicate HasSid(pc: Pc) {
    !pc.Start? && !pc.Slow? && !pc.Put? && !pc.Release? && !pc.Done?
  }

  /** The steps of runSession up to its removeSession or failBuild's end. */
  predicate Builds(pc: Pc) {
    && HasSid(pc) && !pc.Wait? && !pc.Write? && !pc.Sweeping?
    && (pc.Removal? ==> pc.caller.ByBuilder?)
  }

  predicate CanStep(s: State, pc: Pc, pick: Pick) {
    (HasSid(pc) ==> pc.sid < |s.sessions|) &&
    match pc
    case Wait(sid) =>
      (match pick case Good => s.sessions[sid].closes > 0 case Bad => true case Cancel => s.closing)
    case Write(sid) => pick.Bad? || (pick.Good? && s.sessions[sid].target.Open?)
    case Check(_) => pick.Bad? || (pick.Good? && (s.maxConn == 0 || s.nowConn < s.maxConn))
    case Connect(_) => !pick.Cancel?
    case First(sid) => pick.Bad? || (pick.Good? && s.sessions[sid].target.Open?)
    case Read(sid) => pick.Bad? || (pick.Good? && s.sessions[sid].target.Open?)
    case Forward(_) => !pick.Cancel?
    case Sweeping(sid) => pick.Bad? || (pick.Good? && !s.sessions[sid].target.Unset?)
    case Done => false
    case _ => pick.Good?
  }

  /**
  A Range of the sweeper that is under way when Close begins goes on; what it can still do to
  an entry is among what CloseVisit does, which also takes sessions without a target.
  */
  predicate Can(s: State, e: Event) {
    match e
    case Packet(_) => s.listening
    case Step(i, pick) => i < |s.threads| && CanStep(s, s.threads[i], pick)
    case SweepVisit(key) => !s.closing && key in s.addrMap
    case CloseBegin => !s.closing
    case CloseVisit(key) => s.closing && key in s.addrMap
    case CloseListener => s.closing
  }

  /** The session is the one that its address maps to. */
  predicate Current(s: State, sid: nat)
    requires sid < |s.sessions|
  {
    s.sessions[sid].key in s.addrMap && s.addrMap[s.sessions[sid].key] == sid
  }

  /** addrMap.Delete, whatever the entry is by then. */
  function DeleteKey(s: State, sid: nat): State
    requires sid < |s.sessions|
  {
    s.(addrMap := s.addrMap - {s.sessions[sid].key})
  }

  /** removeSession's end: close a target that is set. */
  function CloseTarget(s: State, sid: nat): State
    requires sid < |s.sessions|
  {
    var x := s.sessions[sid];
    s.(sessions := if x.target.Unset? then s.sessions else s.sessions[sid := x.(target := Closed)])
  }

  function Update(s: State, sid: nat, x: Session): State
    requires sid < |s.sessions|
  {
    s.(sessions := s.sessions[sid := x])
  }

  /** The shared state after thread `i` at `pc` has taken its step; the thread's own next step is Next. */
  function Effect(s: State, i: nat, pc: Pc, pick: Pick): State
    requires CanStep(s, pc, pick)
  {
    match pc
    case Slow(key) =>
      if key in s.addrMap then s
      else s.(sessions := s.sessions + [Session(key, Unset, 0, false, i)], addrMap := s.addrMap[key := |s.sessions|])
    case Put => s.(puts := s.puts + 1)
    case Take(_) => s.(nowConn := s.nowConn + 1)
    case FailErr(sid, _) => Update(s, sid, s.sessions[sid].(failed := true))
    case FailReady(sid, _) => Update(s, sid, s.sessions[sid].(closes := s.sessions[sid].closes + 1))
    case FailDelete(sid, _) => DeleteKey(s, sid)
    case FailPut(_, _) => s.(puts := s.puts + 1)
    case SetTarget(sid) => Update(s, sid, s.sessions[sid].(target := Open))
    case Announce(sid) => Update(s, sid, s.sessions[sid].(closes := s.sessions[sid].closes + 1))
    case FirstPut(_, _) => s.(puts := s.puts + 1)
    case GetRead(_) => s.(gets := s.gets + 1)
    case PutRead(_) => s.(puts := s.puts + 1)
    case Release => s.(nowConn := s.nowConn - 1)
    case Removal(sid, stage, _) =>
      if stage.Unmap? then DeleteKey(s, sid) else if stage.Shut? then CloseTarget(s, sid) else s
    case _ => s
  }

  function Next(s: State, pc: Pc, pick: Pick): Pc
    requires CanStep(s, pc, pick)
  {
    match pc
    case Start(key) => if key in s.addrMap then Wait(s.addrMap[key]) else Slow(key)
    case Slow(key) => if key in s.addrMap then Wait(s.addrMap[key]) else Check(|s.sessions|)
    case Wait(sid) => if pick.Good? && !s.sessions[sid].failed then Write(sid) else Put
    case Write(sid) => if pick.Good? then Put else Removal(sid, Look, BySender)
    case Put => Done
    case Check(sid) => if pick.Good? then Take(sid) else FailErr(sid, false)
    case Take(sid) => Connect(sid)
    case Connect(sid) => if pick.Good? then SetTarget(sid) else FailErr(sid, true)
    case FailErr(sid, slot) => FailReady(sid, slot)
    case FailReady(sid, slot) => FailDelete(sid, slot)
    case FailDelete(sid, slot) => FailPut(sid, slot)
    case FailPut(_, slot) => if slot then Release else Done
    case SetTarget(sid) => Announce(sid)
    case Announce(sid) => First(sid)
    case First(sid) => FirstPut(sid, pick.Good?)
    case FirstPut(sid, sent) => if sent then GetRead(sid) else Removal(sid, Look, ByBuilder)
    case GetRead(sid) => Read(sid)
    case Read(sid) => if pick.Good? then Forward(sid) else PutRead(sid)
    case Forward(sid) => if pick.Good? then Read(sid) else PutRead(sid)
    case PutRead(sid) => Removal(sid, Look, ByBuilder)
    case Release => Done
    case Sweeping(sid) => if pick.Good? then Removal(sid, Look, ByCleaner) else Done
    case Removal(sid, stage, caller) =>
      if stage.Look? then Removal(sid, if Current(s, sid) then Unmap else Shut, caller)
      else if stage.Unmap? then Removal(sid, Shut, caller)
      else if caller.BySender? then Put
      else if caller.ByBuilder? then Release
      else Done
  }

  function Do(s: State, e: Event): State
    requires Can(s, e)
  {
    match e
    case Packet(key) => s.(threads := s.threads + [Start(key)], gets := s.gets + 1)
    case Step(i, pick) =>
      var pc := s.threads[i];
      Effect(s, i, pc, pick).(threads := s.threads[i := Next(s, pc, pick)])
    case SweepVisit(key) => s.(threads := s.threads + [Sweeping(s.addrMap[key])])
    case CloseBegin => s.(closing := true)
    case CloseVisit(key) => s.(threads := s.threads + [Removal(s.addrMap[key], Look, ByCleaner)])
    case CloseListener => s.(listening := false)
  }

  ghost predicate IsRun(s: State, events: seq<Event>, t: State)
    decreases |events|
  {
    if events == [] then s == t
    else Can(s, events[0]) && IsRun(Do(s, events[0]), events[1..], t)
  }

  ghost predicate Reachable(t: State) {
    exists maxConn, events :: IsRun(Init(maxConn), events, t)
  }
}
