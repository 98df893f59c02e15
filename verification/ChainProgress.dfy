/**
The growing chain: every call returns, a popTail that returns nothing had nothing left to
return, and the rings double.
*/
module ChainProgress {
  import opened Basics
  import opened Ring
  import Dequeue
  import opened RingChain

  // ------------------------------------------------------------ the measure

  function ProducerRank<V>(s: Chain<V>): nat {
    match s.producer
    case QIdle => 0
    case QUnlock => 1
    case QLink(_) => 2
    case QHeadStore(_) => 3
    case QAlloc(_, _) => 9
    case QGrow(_, _) => 10
    case QRing(_, d, p) =>
      (match p
       case PLoaded(_, ptrs) => if d < |s.rings| && s.rings[d].word == ptrs then 11 else 13
       case PTop(_) => 12
       case _ => 1)
    case QHead(_) => 13
    case QStart(_) => 14
  }

  /** Includes the one load of the producer that an addition to the word may spoil. */
  function ConsumerRank<V>(k: Consumer<V>): nat {
    match k
    case KIdle => 0
    case KTail => 8
    case KNext(_) => 7
    case KRing(_, _, c) =>
      (match c case CTop => 6 case CSlot(_, _) => 5 case CHave(_, _, _) => 4 case _ => 3)
    case KMove(_) => 3
  }

  /** And 5 for every ring that the consumer has still to move on to. */
  function Measure<V>(s: Chain<V>): int {
    ProducerRank(s) + ConsumerRank(s.consumer) + 5 * (|s.rings| - 1 - At(s))
  }

  /** popTail's busy loop: the slot has been claimed and is still empty. */
  predicate Spins<V(==)>(s: Chain<V>, e: ChainEvent<V>) {
    && e.Consume? && s.consumer.KRing? && s.consumer.d < |s.rings|
    && s.consumer.c.CSlot? && s.consumer.c.slot < |s.rings[s.consumer.d].slots|
    && s.rings[s.consumer.d].slots[s.consumer.c.slot] == None
  }

  function Brings<V(==)>(s: Chain<V>, e: ChainEvent<V>): nat {
    match e
    case StartPush(_) => 15
    case StartPop => 9
    case Produce => 0
    case Consume => if Spins(s, e) then 2 else 0
  }

  lemma ProduceInRingUses<V>(s: Chain<V>)
    requires Inv(s) && Can(s, Produce) && s.producer.QRing?
    ensures Measure(DoProducer(s)) < Measure(s)
  {
    PushRingOk(s.rings[s.producer.d], s.producer.p);
  }

  lemma ProduceUses<V>(s: Chain<V>)
    requires Inv(s) && Can(s, Produce)
    ensures Measure(DoProducer(s)) < Measure(s)
  {
    if s.producer.QRing? {
      ProduceInRingUses(s);
    }
  }

  lemma ConsumeInRingUses<V>(s: Chain<V>)
    requires Inv(s) && Can(s, Consume) && s.consumer.KRing?
    ensures Measure(DoConsumer(s)) < Measure(s) + Brings(s, Consume)
  {
    if s.consumer.c.CHave? {
      TailHoldsOldest(s.rings[s.consumer.d]);
    }
  }

  lemma ConsumeUses<V>(s: Chain<V>)
    requires Inv(s) && Can(s, Consume)
    ensures Measure(DoConsumer(s)) < Measure(s) + Brings(s, Consume)
  {
    if s.consumer.KRing? {
      ConsumeInRingUses(s);
    }
  }

  lemma StepUses<V>(s: Chain<V>, e: ChainEvent<V>)
    requires Inv(s) && Can(s, e)
    ensures Measure(Do(s, e)) < Measure(s) + Brings(s, e)
  {
    match e
    case Produce => ProduceUses(s);
    case Consume => ConsumeUses(s);
    case _ =>
  }

  ghost function AllBrings<V>(s: Chain<V>, events: seq<ChainEvent<V>>): nat
    decreases |events|
  {
    if events == [] || !Can(s, events[0]) then 0
    else Brings(s, events[0]) + AllBrings(Do(s, events[0]), events[1..])
  }

  lemma {:induction false} RunUses<V>(s: Chain<V>, events: seq<ChainEvent<V>>, t: Chain<V>)
    requires Inv(s) && InOk(s) && IsRun(s, events, t)
    ensures |events| + Measure(t) <= Measure(s) + AllBrings(s, events)
    decreases |events|
  {
    if events != [] {
      StepUses(s, events[0]);
      StepKeeps(s, events[0]);
      StepKeepsOrder(s, events[0]);
      RunUses(Do(s, events[0]), events[1..], t);
    }
  }

  /**
  In every run producer and consumer together take no more steps than 15 for each call of
  pushHead, 9 for each of popTail and 2 for each turn of the busy loop: growing included.
  */
  lemma RunIsBounded<V>(n: nat, events: seq<ChainEvent<V>>, t: Chain<V>)
    requires SizeOk(n) && IsRun(Init(n), events, t)
    ensures |events| <= AllBrings(Init(n), events)
  {
    InitInv<V>(n);
    RunUses(Init(n), events, t);
    RunKeeps(Init(n), events, t);
  }

  lemma GoesOn<V>(s: Chain<V>)
    requires Inv(s)
    ensures !s.producer.QIdle? ==> Can(s, Produce)
    ensures !s.consumer.KIdle? ==> Can(s, Consume)
    ensures Spins(s, Consume) ==> s.producer.QRing? && s.producer.p.POwn?
  {
    if s.producer.QAlloc? {
      assert RingOk(s.rings[s.producer.d]);
    }
    if Spins(s, Consume) {
      var r := s.rings[At(s)];
      assert r.slots[r.tail % |r.slots|] == Due(r, r.tail);
    }
  }

  /** The producer's store fills the slot that the busy loop waits for. */
  lemma StoreEndsSpin<V>(s: Chain<V>)
    requires Inv(s) && Spins(s, Consume)
    ensures Can(s, Produce) && !Spins(Do(s, Produce), Consume)
  {
    GoesOn(s);
    var r := s.rings[At(s)];
    assert r.slots[r.tail % |r.slots|] == Due(r, r.tail);
  }

  /** A call that has not returned can always take a step; the busy loop waits for one step of the producer. */
  lemma NeverStuck<V(!new)>(n: nat, s: Chain<V>)
    requires SizeOk(n) && Reachable(n, s)
    ensures !s.producer.QIdle? ==> Can(s, Produce)
    ensures !s.consumer.KIdle? ==> Can(s, Consume)
    ensures Spins(s, Consume) ==> Can(s, Produce) && !Spins(Do(s, Produce), Consume)
  {
    ReachableInv(n, s);
    GoesOn(s);
    if Spins(s, Consume) {
      StoreEndsSpin(s);
    }
  }

  // ------------------------------------------------------ an empty popTail

  /** A ring that is not linked yet holds the value of the push in progress and no other. */
  predicate FreshOk<V>(s: Chain<V>) {
    s.producer.QHeadStore? || s.producer.QLink? ==> s.rings != [] && |s.rings[|s.rings| - 1].log| == 1
  }

  /** A consumer that found no next ring has in its own ring or before it all that had been pushed by then. */
  ghost predicate BeforeOk<V>(s: Chain<V>) {
    && FreshOk(s)
    && s.before <= Returned(s)
    && (s.consumer.KRing? && s.consumer.last ==>
          s.consumer.d < |s.rings| && s.before <= |Admitted(s.rings[..s.consumer.d + 1])|)
  }

  /** Up to the last ring that is linked, the rings have admitted the values of all pushes that have returned. */
  lemma LinkedHoldsReturned<V>(s: Chain<V>)
    requires Inv(s) && InOk(s) && FreshOk(s)
    ensures s.linked < |s.rings| && Returned(s) <= |Admitted(s.rings[..s.linked + 1])|
  {
    var n := |s.rings| - 1;
    if s.linked < n {
      assert s.rings[..s.linked + 1] == s.rings[..n];
    } else {
      assert s.rings[..s.linked + 1] == s.rings;
    }
  }

  lemma {:induction false} AdmittedGrows<V>(r: seq<Ring<V>>, t: seq<Ring<V>>)
    requires |r| == |t| && forall i :: 0 <= i < |r| ==> |r[i].log| <= |t[i].log|
    ensures |Admitted(r)| <= |Admitted(t)|
  {
    if r != [] {
      AdmittedGrows(r[..|r| - 1], t[..|t| - 1]);
    }
  }

  lemma LogsGrow<V>(s: Chain<V>, e: ChainEvent<V>)
    requires Inv(s) && Can(s, e)
    ensures |s.rings| <= |Do(s, e).rings|
    ensures forall i :: 0 <= i < |s.rings| ==> |s.rings[i].log| <= |Do(s, e).rings[i].log|
  {
    if e.Produce? && s.producer.QRing? {
      PushRingOk(s.rings[s.producer.d], s.producer.p);
    } else if e.Consume? && s.consumer.KRing? {
      Dequeue.PopStepKeeps(s.rings[s.consumer.d], s.consumer.c);
    }
  }

  lemma StepKeepsFresh<V>(s: Chain<V>, e: ChainEvent<V>)
    requires Inv(s) && FreshOk(s) && Can(s, e)
    ensures FreshOk(Do(s, e))
  {
    if e.Produce? && s.producer.QAlloc? {
      var n := |s.rings[s.producer.d].slots|;
      GrownOk(n);
      FreshRingOk(Grown(n), s.producer.v);
    } else if e.Consume? && s.consumer.KRing? {
      Dequeue.PopStepKeeps(s.rings[s.consumer.d], s.consumer.c);
    }
  }

  lemma StepReturns<V>(s: Chain<V>, e: ChainEvent<V>)
    requires Can(s, e)
    ensures Returned(s) <= Returned(Do(s, e))
    ensures Do(s, e).before == if e.StartPop? then Returned(s) else s.before
  {
    StepPushes(s, e);
  }

  lemma PrefixGrows<V>(s: Chain<V>, e: ChainEvent<V>, k: nat)
    requires Inv(s) && Can(s, e) && k <= |s.rings|
    ensures k <= |Do(s, e).rings| && |Admitted(s.rings[..k])| <= |Admitted(Do(s, e).rings[..k])|
  {
    LogsGrow(s, e);
    AdmittedGrows(s.rings[..k], Do(s, e).rings[..k]);
  }

  /** Only the load of next finds that there is none. */
  lemma LastStays<V>(s: Chain<V>, e: ChainEvent<V>)
    requires Can(s, e) && Do(s, e).consumer.KRing? && Do(s, e).consumer.last
    ensures if e.Consume? && s.consumer.KNext? then
              Do(s, e).consumer.d == s.consumer.d >= s.linked && Do(s, e).rings == s.rings
            else
              s.consumer.KRing? && s.consumer.last && s.consumer.d == Do(s, e).consumer.d && !e.StartPop?
  {
  }

  lemma StepKeepsBefore<V>(s: Chain<V>, e: ChainEvent<V>)
    requires Inv(s) && InOk(s) && BeforeOk(s) && Can(s, e)
    ensures BeforeOk(Do(s, e))
  {
    StepKeepsFresh(s, e);
    StepReturns(s, e);
    if Do(s, e).consumer.KRing? && Do(s, e).consumer.last {
      LastStays(s, e);
      if e.Consume? && s.consumer.KNext? {
        LinkedHoldsReturned(s);
        assert s.consumer.d == s.linked;
      } else {
        PrefixGrows(s, e, s.consumer.d + 1);
      }
    }
  }

  lemma {:induction false} RunKeepsBefore<V>(s: Chain<V>, events: seq<ChainEvent<V>>, t: Chain<V>)
    requires Inv(s) && InOk(s) && BeforeOk(s) && IsRun(s, events, t)
    ensures BeforeOk(t)
    decreases |events|
  {
    if events != [] {
      StepKeeps(s, events[0]);
      StepKeepsOrder(s, events[0]);
      StepKeepsBefore(s, events[0]);
      RunKeepsBefore(Do(s, events[0]), events[1..], t);
    }
  }

  /** Whatever is behind the consumer has been returned. */
  lemma EmptyRing<V>(s: Chain<V>)
    requires Inv(s) && s.consumer.KRing? && s.consumer.c.CTop? && LooksEmpty(s.rings[At(s)].word)
    ensures s.out == Admitted(s.rings[..At(s) + 1])
  {
    var d := At(s);
    EmptyIsExact(s.rings[d]);
    assert s.rings[..d + 1][..d] == s.rings[..d];
    assert s.rings[d].log[..s.rings[d].tail] == s.rings[d].log;
  }

  lemma ReachableBefore<V(!new)>(n: nat, s: Chain<V>)
    requires SizeOk(n) && Reachable(n, s)
    ensures Inv(s) && InOk(s) && BeforeOk(s)
  {
    var events :| IsRun(Init(n), events, s);
    InitInv<V>(n);
    RunKeeps(Init(n), events, s);
    RunKeepsBefore(Init(n), events, s);
  }

  /** popTail returns nothing only from an empty ring without a next one. */
  lemma ReturnsNothing<V>(s: Chain<V>)
    requires Inv(s) && Can(s, Consume) && DoConsumer(s).consumer.KIdle? && DoConsumer(s).out == s.out
    ensures s.consumer.KRing? && s.consumer.last && s.consumer.c.CTop? && LooksEmpty(s.rings[At(s)].word)
  {
  }

  lemma OutIsPushed<V>(s: Chain<V>)
    requires OutOk(s) && InOk(s)
    ensures s.out <= s.pushed
  {
    OutIsAdmitted(s);
  }

  /**
  A popTail that returns nothing has nothing to return: the value of every pushHead that had
  returned when this popTail began has been returned by an earlier one.
  */
  lemma EmptyIsTrue<V(!new)>(n: nat, s: Chain<V>)
    requires SizeOk(n) && Reachable(n, s) && Can(s, Consume)
    requires Do(s, Consume).consumer.KIdle? && Do(s, Consume).out == s.out
    ensures s.before <= |s.out| && s.out <= s.pushed
  {
    ReachableBefore(n, s);
    ReturnsNothing(s);
    EmptyRing(s);
    OutIsPushed(s);
  }

  // ------------------------------------------------------- calls on their own

  /** What every reachable state satisfies. */
  ghost predicate Reached<V>(s: Chain<V>) { Inv(s) && InOk(s) && BeforeOk(s) }

  lemma StepReached<V>(s: Chain<V>, e: ChainEvent<V>)
    requires Reached(s) && Can(s, e)
    ensures Reached(Do(s, e)) && Measure(Do(s, e)) >= 0
    ensures Measure(Do(s, e)) < Measure(s) + Brings(s, e)
  {
    StepUses(s, e);
    StepKeeps(s, e);
    StepKeepsOrder(s, e);
    StepKeepsBefore(s, e);
  }

  lemma ReachedGoesOn<V>(s: Chain<V>)
    requires Reached(s)
    ensures !s.producer.QIdle? ==> Can(s, Produce)
    ensures !s.consumer.KIdle? ==> Can(s, Consume)
    ensures s.producer.QIdle? ==> !Spins(s, Consume)
  {
    GoesOn(s);
  }

  /** The rest of a pushHead, without steps of the consumer. */
  lemma {:induction false} FinishPush<V>(s: Chain<V>) returns (events: seq<ChainEvent<V>>, t: Chain<V>)
    requires Reached(s)
    ensures IsRun(s, events, t) && Reached(t) && t.producer.QIdle? && t.pushed == s.pushed && t.out == s.out
    decreases Measure(s)
  {
    if s.producer.QIdle? {
      events, t := [], s;
    } else {
      ReachedGoesOn(s);
      StepReached(s, Produce);
      StepPushes(s, Produce);
      events, t := FinishPush(DoProducer(s));
      events := [Produce] + events;
    }
  }

  lemma ConsumeReturns<V>(s: Chain<V>)
    requires Inv(s) && Can(s, Consume) && s.producer.QIdle?
    ensures DoConsumer(s).producer.QIdle? && DoConsumer(s).before == s.before
    ensures DoConsumer(s).out != s.out ==>
              DoConsumer(s).consumer.KIdle? && exists v :: DoConsumer(s).out == s.out + [v]
  {
  }

  /** The rest of a popTail while no push is in progress: it returns the next value, if one is due. */
  lemma {:induction false} FinishPop<V>(s: Chain<V>) returns (events: seq<ChainEvent<V>>, t: Chain<V>)
    requires Reached(s) && s.producer.QIdle? && !s.consumer.KIdle? && |s.out| < s.before
    ensures IsRun(s, events, t) && t.consumer.KIdle? && t.pushed == s.pushed
    ensures s.out <= t.out <= t.pushed && |t.out| == |s.out| + 1
    decreases Measure(s)
  {
    ReachedGoesOn(s);
    StepReached(s, Consume);
    StepPushes(s, Consume);
    ConsumeReturns(s);
    var u := DoConsumer(s);
    if u.consumer.KIdle? {
      if u.out == s.out {
        ReturnsNothing(s);
        EmptyRing(s);
      }
      OutIsPushed(u);
      events, t := [Consume], u;
      assert IsRun(u, [], u);
    } else {
      events, t := FinishPop(u);
      events := [Consume] + events;
    }
  }

  lemma RunOne<V>(s: Chain<V>, e: ChainEvent<V>, events: seq<ChainEvent<V>>, t: Chain<V>)
    requires Can(s, e) && IsRun(Do(s, e), events, t)
    ensures IsRun(s, [e] + events, t)
  {
    assert ([e] + events)[1..] == events;
  }

  /** A pushHead that is left alone returns, and has put its value behind all the others. */
  lemma PushAlone<V(!new)>(n: nat, s: Chain<V>, v: V) returns (events: seq<ChainEvent<V>>, t: Chain<V>)
    requires SizeOk(n) && Reachable(n, s) && s.producer.QIdle?
    ensures IsRun(s, [StartPush(v)] + events, t)
    ensures t.producer.QIdle? && t.out == s.out && Admitted(t.rings) == Admitted(s.rings) + [v]
  {
    ReachableBefore(n, s);
    StepReached(s, StartPush(v));
    events, t := FinishPush(Do(s, StartPush(v)));
    RunOne(s, StartPush(v), events, t);
  }

  lemma PopDue<V>(s: Chain<V>) returns (events: seq<ChainEvent<V>>, t: Chain<V>)
    requires Reached(s) && s.producer.QIdle? && s.consumer.KTail? && |s.out| < |s.pushed| == s.before
    ensures IsRun(s, events, t) && t.consumer.KIdle? && t.pushed == s.pushed && t.out == s.out + [s.pushed[|s.out|]]
  {
    events, t := FinishPop(s);
    assert t.out == s.out + [t.out[|s.out|]];
  }

  /** A popTail that is left alone returns the oldest value that has been pushed and not returned. */
  lemma PopAlone<V(!new)>(n: nat, s: Chain<V>) returns (events: seq<ChainEvent<V>>, t: Chain<V>)
    requires SizeOk(n) && Reachable(n, s) && s.producer.QIdle? && s.consumer.KIdle? && |s.out| < |s.pushed|
    ensures IsRun(s, [StartPop] + events, t)
    ensures t.consumer.KIdle? && t.pushed == s.pushed && t.out == s.out + [s.pushed[|s.out|]]
  {
    ReachableBefore(n, s);
    StepReached(s, StartPop);
    events, t := PopDue(Do(s, StartPop));
    RunOne(s, StartPop, events, t);
  }

  // --------------------------------------------------------------- the rings

  /** Each ring has twice the slots of the one before, up to 2^30. */
  ghost predicate SizesOk<V>(n: nat, s: Chain<V>) {
    && s.rings != [] && |s.rings[0].slots| == n
    && forall i :: 0 < i < |s.rings| ==>
         |s.rings[i].slots| == Min(2 * |s.rings[i - 1].slots|, 0x4000_0000)
  }

  lemma AllocKeepsSizes<V>(n: nat, s: Chain<V>)
    requires Inv(s) && SizesOk(n, s) && Can(s, Produce) && s.producer.QAlloc?
    ensures SizesOk(n, DoProducer(s))
  {
    GrownOk(|s.rings[s.producer.d].slots|);
  }

  lemma StepKeepsSlots<V>(s: Chain<V>, e: ChainEvent<V>)
    requires Inv(s) && Can(s, e) && !(e.Produce? && s.producer.QAlloc?)
    ensures |Do(s, e).rings| == |s.rings|
    ensures forall i :: 0 <= i < |s.rings| ==> |Do(s, e).rings[i].slots| == |s.rings[i].slots|
  {
    if e.Produce? && s.producer.QRing? {
      PushRingOk(s.rings[s.producer.d], s.producer.p);
    } else if e.Consume? && s.consumer.KRing? {
      Dequeue.PopStepKeeps(s.rings[s.consumer.d], s.consumer.c);
    }
  }

  lemma StepKeepsSizes<V>(n: nat, s: Chain<V>, e: ChainEvent<V>)
    requires Inv(s) && SizesOk(n, s) && Can(s, e)
    ensures SizesOk(n, Do(s, e))
  {
    if e.Produce? && s.producer.QAlloc? {
      AllocKeepsSizes(n, s);
    } else {
      StepKeepsSlots(s, e);
    }
  }

  lemma {:induction false} RunKeepsSizes<V>(n: nat, s: Chain<V>, events: seq<ChainEvent<V>>, t: Chain<V>)
    requires Inv(s) && SizesOk(n, s) && IsRun(s, events, t)
    ensures SizesOk(n, t)
    decreases |events|
  {
    if events != [] {
      StepKeepsSizes(n, s, events[0]);
      StepKeeps(s, events[0]);
      RunKeepsSizes(n, Do(s, events[0]), events[1..], t);
    }
  }

  /** In every reachable state each ring is twice the one before it, up to the limit. */
  lemma RingsDouble<V(!new)>(n: nat, s: Chain<V>)
    requires SizeOk(n) && Reachable(n, s)
    ensures SizesOk(n, s)
  {
    var events :| IsRun(Init(n), events, s);
    InitInv<V>(n);
    RunKeepsSizes(n, Init(n), events, s);
  }
}
