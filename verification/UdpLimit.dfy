/** The connection limit of a client: how far concurrent builders can exceed it. */
module UdpLimit {
  import opened UdpSession
  import opened UdpSafety

  predicate Takes(pc: Pc) { pc.Take? }

  /** The builders that have passed the test of NowConn and not yet been counted. */
  function TakesOf(threads: seq<Pc>): nat {
    if threads == [] then 0 else (if Takes(threads[0]) then 1 else 0) + TakesOf(threads[1..])
  }

  lemma {:induction false} TakesUpdate(threads: seq<Pc>, i: nat, pc: Pc)
    requires i < |threads|
    ensures TakesOf(threads[i := pc]) + (if Takes(threads[i]) then 1 else 0) == TakesOf(threads) + (if Takes(pc) then 1 else 0)
  {
    if i > 0 {
      TakesUpdate(threads[1..], i - 1, pc);
      assert threads[i := pc][1..] == threads[1..][i - 1 := pc];
    }
  }

  lemma {:induction false} TakesAppend(threads: seq<Pc>, pc: Pc)
    ensures TakesOf(threads + [pc]) == TakesOf(threads) + (if Takes(pc) then 1 else 0)
  {
    if threads != [] {
      TakesAppend(threads[1..], pc);
      assert (threads + [pc])[1..] == threads[1..] + [pc];
    }
  }

  /** What one thread's step does to NowConn and to those about to be counted. */
  lemma TakeBalance(s: State, i: nat, pc: Pc, pick: Pick)
    requires CanStep(s, pc, pick)
    ensures var t := Effect(s, i, pc, pick); var next := Next(s, pc, pick);
            && t.maxConn == s.maxConn
            && (t.nowConn + (if Takes(next) then 1 else 0) <= s.nowConn + (if Takes(pc) then 1 else 0)
                || ((s.maxConn == 0 || s.nowConn < s.maxConn) && t.nowConn == s.nowConn))
  {
  }

  lemma MaxConnKept(s: State, e: Event)
    requires Can(s, e)
    ensures Do(s, e).maxConn == s.maxConn
  {
    if e.Step? {
      TakeBalance(s, e.i, s.threads[e.i], e.pick);
    }
  }

  // --------------------------------------------------- when the limit is kept

  /** The connections counted and those about to be counted are within the limit. */
  predicate Fits(s: State) { s.nowConn + TakesOf(s.threads) <= s.maxConn }

  /** A test of NowConn passes although those about to be counted fill the limit. */
  predicate Overbooks(s: State, e: Event)
    requires Can(s, e)
  {
    e.Step? && s.threads[e.i].Check? && e.pick.Good? && s.nowConn + TakesOf(s.threads) >= s.maxConn
  }

  /** What one step does to the sum of both. */
  lemma SumStep(s: State, i: nat, pc: Pc, pick: Pick)
    requires CanStep(s, pc, pick)
    ensures Effect(s, i, pc, pick).nowConn + (if Takes(Next(s, pc, pick)) then 1 else 0)
            == s.nowConn + (if Takes(pc) then 1 else 0)
               + (if pc.Check? && pick.Good? then 1 else 0) - (if pc.Release? then 1 else 0)
  {
  }

  /** The exact step at which the limit is lost. */
  lemma OverbookingExact(s: State, e: Event)
    requires Can(s, e) && s.maxConn > 0 && Fits(s)
    ensures Fits(Do(s, e)) <==> !Overbooks(s, e)
  {
    MaxConnKept(s, e);
    if e.Step? {
      SumStep(s, e.i, s.threads[e.i], e.pick);
      TakesUpdate(s.threads, e.i, Next(s, s.threads[e.i], e.pick));
    } else if !e.CloseBegin? && !e.CloseListener? {
      TakesAppend(s.threads, Do(s, e).threads[|s.threads|]);
    }
  }

  ghost predicate AlwaysFits(s: State, events: seq<Event>)
    decreases |events|
  {
    Fits(s) && (events != [] ==> Can(s, events[0]) && AlwaysFits(Do(s, events[0]), events[1..]))
  }

  ghost predicate NeverOverbooks(s: State, events: seq<Event>)
    decreases |events|
  {
    events != [] ==> Can(s, events[0]) && !Overbooks(s, events[0]) && NeverOverbooks(Do(s, events[0]), events[1..])
  }

  lemma {:induction false} FitsFromHere(s: State, events: seq<Event>, t: State)
    requires IsRun(s, events, t) && s.maxConn > 0 && Fits(s)
    ensures AlwaysFits(s, events) <==> NeverOverbooks(s, events)
    decreases |events|
  {
    if events != [] {
      OverbookingExact(s, events[0]);
      MaxConnKept(s, events[0]);
      if Fits(Do(s, events[0])) {
        FitsFromHere(Do(s, events[0]), events[1..], t);
      }
    }
  }

  /** In a run the sum stays within the limit exactly if no test overbooks. */
  lemma FitsExactly(maxConn: nat, events: seq<Event>, t: State)
    requires maxConn > 0 && IsRun(Init(maxConn), events, t)
    ensures AlwaysFits(Init(maxConn), events) <==> NeverOverbooks(Init(maxConn), events)
  {
    FitsFromHere(Init(maxConn), events, t);
  }

  /** A run in which builders that passed the test are counted, and nothing else happens. */
  ghost predicate IsTakeRun(s: State, events: seq<Event>, t: State)
    decreases |events|
  {
    if events == [] then s == t
    else
      && events[0].Step? && Can(s, events[0]) && Takes(s.threads[events[0].i])
      && IsTakeRun(Do(s, events[0]), events[1..], t)
  }

  /** Counting one moves it from one summand to the other. */
  lemma TakeStep(s: State, i: nat, pick: Pick)
    requires Can(s, Step(i, pick)) && Takes(s.threads[i])
    ensures var t := Do(s, Step(i, pick));
            && t.maxConn == s.maxConn && t.nowConn == s.nowConn + 1
            && TakesOf(t.threads) + 1 == TakesOf(s.threads)
  {
    MaxConnKept(s, Step(i, pick));
    TakesUpdate(s.threads, i, Next(s, s.threads[i], pick));
  }

  lemma {:induction false} TakeRunSum(s: State, events: seq<Event>, t: State)
    requires IsTakeRun(s, events, t)
    ensures t.maxConn == s.maxConn && t.nowConn + TakesOf(t.threads) == s.nowConn + TakesOf(s.threads)
    decreases |events|
  {
    if events != [] {
      TakeStep(s, events[0].i, events[0].pick);
      TakeRunSum(Do(s, events[0]), events[1..], t);
    }
  }

  lemma {:induction false} FindTake(threads: seq<Pc>) returns (i: nat)
    requires TakesOf(threads) > 0
    ensures i < |threads| && Takes(threads[i])
  {
    if Takes(threads[0]) {
      i := 0;
    } else {
      i := FindTake(threads[1..]);
      i := i + 1;
    }
  }

  /** All who passed the test can be counted. */
  lemma {:induction false} CountAll(s: State) returns (events: seq<Event>, t: State)
    requires Inv(s)
    ensures IsTakeRun(s, events, t) && TakesOf(t.threads) == 0
    decreases TakesOf(s.threads)
  {
    if TakesOf(s.threads) == 0 {
      events, t := [], s;
    } else {
      var i := FindTake(s.threads);
      assert ThreadOk(s, i, s.threads[i]);
      var e := Step(i, Good);
      StepKeeps(s, e);
      TakeStep(s, i, Good);
      var rest;
      rest, t := CountAll(Do(s, e));
      events := [e] + rest;
      assert events[0] == e && events[1..] == rest;
    }
  }

  /** However those who have passed the test are counted, NowConn stays within the limit. */
  ghost predicate StaysWithin(s: State) {
    forall events, t :: IsTakeRun(s, events, t) ==> t.nowConn <= t.maxConn
  }

  /**
  The limit is safe exactly while the sum stays within it: as soon as the sum exceeds the limit,
  NowConn does so once those who have passed the test are counted.
  */
  lemma LimitExact(s: State)
    requires Reachable(s)
    ensures StaysWithin(s) <==> Fits(s)
  {
    ReachableInv(s);
    if Fits(s) {
      forall events, t | IsTakeRun(s, events, t)
        ensures t.nowConn <= t.maxConn
      {
        TakeRunSum(s, events, t);
      }
      assert StaysWithin(s);
    } else {
      var events, t := CountAll(s);
      TakeRunSum(s, events, t);
      assert t.nowConn > t.maxConn;
      assert !StaysWithin(s);
    }
  }

  // ------------------------------------------------- how far it is exceeded

  /** A run in which at most `p` builders at once are between GetConn's test and its increment. */
  ghost predicate IsCrowdRun(s: State, events: seq<Event>, t: State, p: nat)
    decreases |events|
  {
    && TakesOf(s.threads) <= p
    && if events == [] then s == t
       else Can(s, events[0]) && IsCrowdRun(Do(s, events[0]), events[1..], t, p)
  }

  lemma CrowdStep(s: State, e: Event, p: nat)
    requires Can(s, e) && s.maxConn > 0 && p > 0 && TakesOf(Do(s, e).threads) <= p
    requires s.nowConn + TakesOf(s.threads) < s.maxConn + p
    ensures Do(s, e).maxConn == s.maxConn
    ensures Do(s, e).nowConn + TakesOf(Do(s, e).threads) < s.maxConn + p
  {
    if e.Step? {
      TakeBalance(s, e.i, s.threads[e.i], e.pick);
      TakesUpdate(s.threads, e.i, Next(s, s.threads[e.i], e.pick));
    } else if !e.CloseBegin? && !e.CloseListener? {
      TakesAppend(s.threads, Do(s, e).threads[|s.threads|]);
    }
  }

  lemma {:induction false} CrowdRun(s: State, events: seq<Event>, t: State, p: nat)
    requires IsCrowdRun(s, events, t, p) && s.maxConn > 0 && p > 0
    requires s.nowConn + TakesOf(s.threads) < s.maxConn + p
    ensures t.maxConn == s.maxConn && t.nowConn + TakesOf(t.threads) < s.maxConn + p
    decreases |events|
  {
    if events != [] {
      CrowdStep(s, events[0], p);
      CrowdRun(Do(s, events[0]), events[1..], t, p);
    }
  }

  /**
  The limit is exceeded by less than the number of builders that are ever between the test and
  the increment at once; so it is kept as long as these two do not overlap.
  */
  lemma LimitByCrowd(maxConn: nat, events: seq<Event>, t: State, p: nat)
    requires maxConn > 0 && p > 0 && IsCrowdRun(Init(maxConn), events, t, p)
    ensures t.nowConn < maxConn + p
  {
    CrowdRun(Init(maxConn), events, t, p);
  }

  /** Under a limit of one, one builder has passed the test. */
  lemma OnePassed() returns (s: State)
    ensures Reachable(s)
    ensures s == State([Session(7, Unset, 0, false, 0)], map[7 := 0], [Take(0)], 0, 1, 1, 0, false, true)
  {
    s := Init(1);
    assert IsRun(Init(1), [], s);
    s := Reach(s, Packet(7));
    s := Reach(s, Step(0, Good));
    s := Reach(s, Step(0, Good));
    s := Reach(s, Step(0, Good));
  }

  /** Then a second one passes it too. */
  lemma BothPassed() returns (s: State)
    ensures Reachable(s) && s.maxConn == 1 && s.nowConn == 0 && s.threads == [Take(0), Take(1)]
    ensures |s.sessions| == 2
  {
    s := OnePassed();
    s := Reach(s, Packet(8));
    s := Reach(s, Step(1, Good));
    s := Reach(s, Step(1, Good));
    s := Reach(s, Step(1, Good));
  }

  /** The test and the increment are not one step: then a limit of one lets both through. */
  lemma LimitExceeded() returns (s: State)
    ensures Reachable(s) && s.maxConn == 1 && s.nowConn == 2
  {
    s := BothPassed();
    s := Reach(s, Step(0, Good));
    s := Reach(s, Step(1, Good));
  }
}
