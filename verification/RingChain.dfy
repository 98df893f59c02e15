/**
bufChain with one producer and one consumer: rings of growing size linked from
the tail, where the consumer reads, to the head, where the producer writes.
*/
module RingChain {
  import opened Basics
  import opened Ring
  import opened Dequeue

  datatype Producer<V> =
    | QIdle
    | QStart(v: V)                             // pushHead, before the load of newChain
    | QHead(v: V)                              // before the load of c.head
    | QRing(v: V, d: nat, p: Pusher<V>)        // inside d.pushHead
    | QGrow(v: V, d: nat)                      // d was full; before the compare-and-swap of newChain
    | QAlloc(v: V, d: nat)                     // building the next ring
    | QHeadStore(d: nat)                       // ring d+1 built, before c.head is stored
    | QLink(d: nat)                            // before d.next is stored
    | QUnlock                                  // before newChain is reset

  datatype Consumer<V> =
    | KIdle
    | KTail                                    // popTail, before the load of c.tail
    | KNext(d: nat)                            // before the load of d.next
    | KRing(d: nat, last: bool, c: Popper<V>)  // inside d.popTail; last says that d.next was nil
    | KMove(d: nat)                            // d drained; before the compare-and-swap of c.tail

  /**
  `rings` are all rings ever built, in order; ring i's next pointer is set when
  i < linked. `pushed` are the values given to pushHead, in the order of the
  calls, and `out` those returned by popTail; `before` is how many of the calls of
  pushHead had returned when the latest popTail began.
  */
  datatype Chain<V> = Chain(
    rings: seq<Ring<V>>, head: nat, tail: nat, linked: nat, newChain: nat,
    producer: Producer<V>, consumer: Consumer<V>, pushed: seq<V>, out: seq<V>, before: nat)

  datatype ChainEvent<V> = StartPush(v: V) | Produce | StartPop | Consume

  function Init<V>(n: nat): Chain<V>
    requires SizeOk(n)
  {
    Chain([Empty(n)], 0, 0, 0, 0, QIdle, KIdle, [], [], 0)
  }

  /** A new ring of `n` slots into which pushHead has put its first value. */
  function FreshRing<V>(n: nat, v: V): Ring<V>
    requires SizeOk(n)
  {
    var r := Empty<V>(n);
    Store(Claim(r, r.word, v), HeadSlot(r.word, n), v, 0)
  }

  predicate PusherReady<V>(r: Ring<V>, p: Pusher<V>) {
    !p.PIdle? && |r.slots| > 0 && (p.POwn? ==> p.slot < |r.slots|)
  }

  predicate PopperReady<V>(r: Ring<V>, c: Popper<V>) {
    !c.CIdle? && |r.slots| > 0 && (c.CSlot? || c.CHave? ==> c.slot < |r.slots|)
  }

  ghost predicate Can<V>(s: Chain<V>, e: ChainEvent<V>) {
    match e
    case StartPush(v) => s.producer.QIdle?
    case Produce =>
      && !s.producer.QIdle?
      && (s.producer.QRing? ==> s.producer.d < |s.rings| && PusherReady(s.rings[s.producer.d], s.producer.p))
      && (s.producer.QAlloc? ==> s.producer.d < |s.rings| && SizeOk(|s.rings[s.producer.d].slots|))
    case StartPop => s.consumer.KIdle?
    case Consume =>
      && !s.consumer.KIdle?
      && (s.consumer.KRing? ==> s.consumer.d < |s.rings| && PopperReady(s.rings[s.consumer.d], s.consumer.c))
  }

  function DoProducer<V>(s: Chain<V>): Chain<V>
    requires Can(s, Produce)
  {
    match s.producer
    case QStart(v) => if s.newChain > 0 then s else s.(producer := QHead(v))
    case QHead(v) => s.(producer := QRing(v, s.head, PTop(v)))
    case QRing(v, d, p) =>
      var (ring, next) := DoPush(s.rings[d], p);
      s.(rings := s.rings[d := ring],
         producer := if !next.PIdle? then QRing(v, d, next)
                     else if p.POwn? then QIdle                 // stored
                     else QGrow(v, d))                          // full
    case QGrow(v, d) =>
      if s.newChain == 0 then s.(newChain := 1, producer := QAlloc(v, d)) else s.(producer := QStart(v))
    case QAlloc(v, d) =>
      GrownOk(|s.rings[d].slots|);
      s.(rings := s.rings + [FreshRing(Grown(|s.rings[d].slots|), v)], producer := QHeadStore(d))
    case QHeadStore(d) => s.(head := d + 1, producer := QLink(d))
    case QLink(d) => s.(linked := d + 1, producer := QUnlock)
    case QUnlock => s.(newChain := 0, producer := QIdle)
  }

  function DoConsumer<V(==)>(s: Chain<V>): Chain<V>
    requires Can(s, Consume)
  {
    match s.consumer
    case KTail => s.(consumer := KNext(s.tail))
    case KNext(d) => s.(consumer := KRing(d, d >= s.linked, CTop))
    case KRing(d, last, c) =>
      var (ring, next) := DoPop(s.rings[d], c);
      s.(rings := s.rings[d := ring],
         consumer := if !next.CIdle? then KRing(d, last, next)
                     else if c.CTook? || last then KIdle        // a value, or nothing to return
                     else KMove(d),
         out := if c.CTook? then s.out + [c.v] else s.out)
    case KMove(d) =>
      s.(tail := if s.tail == d then d + 1 else s.tail, consumer := KNext(d + 1))
  }

  /** How many calls of pushHead have returned. */
  function Returned<V>(s: Chain<V>): nat {
    if s.producer.QIdle? || s.pushed == [] then |s.pushed| else |s.pushed| - 1
  }

  function Do<V(==)>(s: Chain<V>, e: ChainEvent<V>): Chain<V>
    requires Can(s, e)
  {
    match e
    case StartPush(v) => s.(producer := QStart(v), pushed := s.pushed + [v])
    case Produce => DoProducer(s)
    case StartPop => s.(consumer := KTail, before := Returned(s))
    case Consume => DoConsumer(s)
  }

  // -------------------------------------------------------------- invariant

  /** The values that the rings have admitted, ring by ring. */
  function Admitted<V>(rings: seq<Ring<V>>): seq<V> {
    if rings == [] then [] else Admitted(rings[..|rings| - 1]) + rings[|rings| - 1].log
  }

  /** The value of a push that no ring has admitted yet. */
  function Pending<V>(s: Chain<V>): seq<V> {
    match s.producer
    case QStart(v) => [v]
    case QHead(v) => [v]
    case QRing(v, _, p) => if p.POwn? then [] else [v]
    case QGrow(v, _) => [v]
    case QAlloc(v, _) => [v]
    case _ => []
  }

  /** The ring the consumer is working on. */
  function At<V>(s: Chain<V>): nat {
    match s.consumer
    case KIdle => s.tail
    case KTail => s.tail
    case KNext(d) => d
    case KRing(d, _, _) => d
    case KMove(d) => d
  }

  /** The ring the producer is working on, or will work on at its next push. */
  function Target<V>(s: Chain<V>): nat {
    if s.producer.QHeadStore? then s.producer.d + 1 else s.head
  }

  /** Nothing is in progress in this ring on the producer's side. */
  predicate Settled<V>(r: Ring<V>) { r.owed == {} }

  /** Every value this ring ever held has been returned. */
  predicate Spent<V>(r: Ring<V>) { Settled(r) && r.tail == |r.log| && !r.taken }

  /** The consumer has not reached this ring. */
  predicate Untouched<V>(r: Ring<V>) { r.tail == 0 && !r.taken }

  ghost predicate Rings<V>(s: Chain<V>) {
    && (forall i :: 0 <= i < |s.rings| ==> RingOk(s.rings[i]))
    && Target(s) == |s.rings| - 1
    && (forall i :: 0 <= i < Target(s) ==> Settled(s.rings[i]))
  }

  ghost predicate ProducerOk<V>(s: Chain<V>) {
    && Target(s) < |s.rings| && s.head < |s.rings|
    && (s.newChain == 0 <==> !(s.producer.QAlloc? || s.producer.QHeadStore? || s.producer.QLink? || s.producer.QUnlock?))
    && (s.producer.QRing? || s.producer.QGrow? || s.producer.QAlloc? ==> s.producer.d == s.head)
    && (s.producer.QHeadStore? ==> s.producer.d == s.head)
    && (s.producer.QLink? ==> s.producer.d + 1 == s.head)
    && s.linked == (if s.producer.QLink? then s.head - 1 else s.head)
    && (s.producer.QRing? ==> !s.producer.p.PIdle? && OwnerOk(s.rings[s.head], s.producer.p))
    && s.rings[Target(s)].owed == (if s.producer.QRing? && s.producer.p.POwn? then {s.producer.p.h} else {})
  }

  ghost predicate ConsumerOk<V>(s: Chain<V>) {
    && At(s) <= s.linked < |s.rings|
    && s.tail == At(s)
    && (forall i :: 0 <= i < At(s) ==> Spent(s.rings[i]))
    && (forall i :: At(s) < i < |s.rings| ==> Untouched(s.rings[i]))
    && (s.consumer.KRing? ==> !s.consumer.c.CIdle? && PopperOk(s.rings[At(s)], s.consumer.c)
                              && (!s.consumer.last ==> At(s) < s.linked))
    && (!s.consumer.KRing? ==> !s.rings[At(s)].taken)
    && (s.consumer.KMove? ==> At(s) < s.linked && Spent(s.rings[At(s)]))
  }

  ghost predicate Inv<V>(s: Chain<V>) {
    && Rings(s)
    && ProducerOk(s)
    && ConsumerOk(s)
    && OutOk(s)
  }

  // ------------------------------------------------------- what steps keep

  lemma FreshRingOk<V>(n: nat, v: V)
    requires SizeOk(n)
    ensures RingOk(FreshRing(n, v)) && Settled(FreshRing(n, v)) && Untouched(FreshRing(n, v))
    ensures FreshRing(n, v).log == [v]
  {
    var r := Empty<V>(n);
    EmptyOk<V>(n);
    FullIsExact(r);
    ClaimOk(r, v);
    SlotsAreIndices(r);
    var c := Claim(r, r.word, v);
    assert 0 in c.owed && 0 % n == 0;
    StoreOk(c, 0);
  }

  lemma {:induction false} AdmittedSplit<V>(rings: seq<Ring<V>>, d: nat)
    requires d < |rings|
    ensures Admitted(rings[..d]) + rings[d].log <= Admitted(rings)
  {
    var n := |rings| - 1;
    if d == n {
      assert rings[..n] == rings[..|rings| - 1];
    } else {
      AdmittedSplit(rings[..n], d);
      assert rings[..n][..d] == rings[..d];
    }
  }

  lemma {:induction false} AdmittedSame<V>(r: seq<Ring<V>>, s: seq<Ring<V>>)
    requires |r| == |s| && forall i :: 0 <= i < |r| ==> r[i].log == s[i].log
    ensures Admitted(r) == Admitted(s)
  {
    if r != [] {
      AdmittedSame(r[..|r| - 1], s[..|s| - 1]);
    }
  }

  /** One step of pushHead on a ring: what it does to the ring and to the pusher. */
  lemma PushRingOk<V>(ring: Ring<V>, p: Pusher<V>)
    requires RingOk(ring) && !p.PIdle? && OwnerOk(ring, p)
    requires ring.owed == (if p.POwn? then {p.h} else {})
    ensures RingOk(DoPush(ring, p).0) && OwnerOk(DoPush(ring, p).0, DoPush(ring, p).1)
    ensures DoPush(ring, p).0.owed == (if DoPush(ring, p).1.POwn? then {DoPush(ring, p).1.h} else {})
    ensures DoPush(ring, p).0.tail == ring.tail && DoPush(ring, p).0.taken == ring.taken
    ensures |DoPush(ring, p).0.slots| == |ring.slots|
    ensures DoPush(ring, p).0.log == if DoPush(ring, p).1.POwn? then ring.log + [p.v] else ring.log
    ensures DoPush(ring, p).1.POwn? ==> p.PLoaded?
  {
    match p
    case PTop(_) =>
    case PLoaded(v, ptrs) =>
      if !LooksFull(ptrs, |ring.slots|) && ring.word == ptrs {
        ClaimStep(ring, p);
      }
    case POwn(v, slot, h) =>
      StoreOk(ring, h);
  }

  /** A step on the producer's side does not disturb the consumer in the same ring. */
  lemma PushSparesPopper<V>(ring: Ring<V>, p: Pusher<V>, c: Popper<V>)
    requires RingOk(ring) && !p.PIdle? && OwnerOk(ring, p) && PopperOk(ring, c)
    ensures PopperOk(DoPush(ring, p).0, c)
  {
    if p.POwn? {
      OwedSlotIsFree(ring, p.h);
    }
  }

  /** The bytes returned are the spent rings' values and the current ring's returned ones. */
  ghost predicate OutOk<V>(s: Chain<V>) {
    && At(s) < |s.rings| && s.rings[At(s)].tail <= |s.rings[At(s)].log|
    && s.out == Admitted(s.rings[..At(s)]) + s.rings[At(s)].log[..s.rings[At(s)].tail]
  }

  /** Every value given to pushHead is admitted, in the order of the calls, but for the one in progress. */
  ghost predicate InOk<V>(s: Chain<V>) {
    && (s.producer.QRing? ==> !s.producer.p.PIdle? && s.producer.p.v == s.producer.v)
    && s.pushed == Admitted(s.rings) + Pending(s)
  }

  lemma InitInv<V>(n: nat)
    requires SizeOk(n)
    ensures Inv(Init<V>(n)) && InOk(Init<V>(n))
  {
    EmptyOk<V>(n);
  }

  lemma ProduceInRingKeepsRings<V>(s: Chain<V>)
    requires Rings(s) && ProducerOk(s) && s.producer.QRing?
    ensures Rings(DoProducer(s)) && ProducerOk(DoProducer(s))
  {
    PushRingOk(s.rings[s.producer.d], s.producer.p);
  }

  lemma ProduceInRingKeepsConsumer<V>(s: Chain<V>)
    requires Rings(s) && ProducerOk(s) && ConsumerOk(s) && s.producer.QRing?
    ensures ConsumerOk(DoProducer(s))
  {
    var QRing(v, d, p) := s.producer;
    PushRingOk(s.rings[d], p);
    if s.consumer.KRing? && At(s) == d {
      PushSparesPopper(s.rings[d], p, s.consumer.c);
    }
  }

  lemma ProduceInRing<V>(s: Chain<V>)
    requires Inv(s) && s.producer.QRing?
    ensures Inv(DoProducer(s))
  {
    var QRing(v, d, p) := s.producer;
    ProduceInRingKeepsRings(s);
    ProduceInRingKeepsConsumer(s);
    PushRingOk(s.rings[d], p);
    assert s.rings[d := DoPush(s.rings[d], p).0][..At(s)] == s.rings[..At(s)];
  }

  lemma ProduceAlloc<V>(s: Chain<V>)
    requires Inv(s) && Can(s, Produce) && s.producer.QAlloc?
    ensures Inv(DoProducer(s))
  {
    var n := |s.rings[s.producer.d].slots|;
    GrownOk(n);
    FreshRingOk(Grown(n), s.producer.v);
    var t := DoProducer(s);
    assert t.rings[..At(t)] == s.rings[..At(s)];
  }

  lemma ProduceStart<V>(s: Chain<V>)
    requires Inv(s) && (s.producer.QStart? || s.producer.QHead? || s.producer.QGrow?)
    ensures Inv(DoProducer(s))
  {
  }

  lemma ProduceLink<V>(s: Chain<V>)
    requires Inv(s) && (s.producer.QHeadStore? || s.producer.QLink? || s.producer.QUnlock?)
    ensures Inv(DoProducer(s))
  {
  }

  lemma ConsumeInRingKeepsRings<V>(s: Chain<V>)
    requires Rings(s) && ProducerOk(s) && ConsumerOk(s) && s.consumer.KRing?
    ensures Rings(DoConsumer(s)) && ProducerOk(DoConsumer(s))
  {
    PopStepKeeps(s.rings[s.consumer.d], s.consumer.c);
  }

  lemma ConsumeInRingKeepsConsumer<V>(s: Chain<V>)
    requires Rings(s) && ProducerOk(s) && ConsumerOk(s) && s.consumer.KRing?
    ensures ConsumerOk(DoConsumer(s))
  {
    PopStepKeeps(s.rings[s.consumer.d], s.consumer.c);
    EmptyIsExact(s.rings[s.consumer.d]);
  }

  lemma ConsumeInRing<V>(s: Chain<V>)
    requires Inv(s) && s.consumer.KRing?
    ensures Inv(DoConsumer(s))
  {
    var KRing(d, last, c) := s.consumer;
    ConsumeInRingKeepsRings(s);
    ConsumeInRingKeepsConsumer(s);
    PopStepKeeps(s.rings[d], c);
    assert s.rings[d := DoPop(s.rings[d], c).0][..d] == s.rings[..d];
  }

  lemma ConsumeLoad<V>(s: Chain<V>)
    requires Inv(s) && (s.consumer.KTail? || s.consumer.KNext?)
    ensures Inv(DoConsumer(s))
  {
  }

  lemma MoveOut<V>(rings: seq<Ring<V>>, d: nat)
    requires d + 1 < |rings| && Spent(rings[d]) && Untouched(rings[d + 1])
    ensures Admitted(rings[..d]) + rings[d].log[..rings[d].tail]
            == Admitted(rings[..d + 1]) + rings[d + 1].log[..rings[d + 1].tail]
  {
    assert rings[..d + 1][..d] == rings[..d];
    assert rings[d].log[..rings[d].tail] == rings[d].log;
  }

  lemma ConsumeMove<V>(s: Chain<V>)
    requires Inv(s) && s.consumer.KMove?
    ensures Inv(DoConsumer(s))
  {
    MoveOut(s.rings, s.consumer.d);
  }

  lemma StepKeeps<V>(s: Chain<V>, e: ChainEvent<V>)
    requires Inv(s) && Can(s, e)
    ensures Inv(Do(s, e))
  {
    match e
    case StartPush(_) =>
    case Produce =>
      if s.producer.QRing? {
        ProduceInRing(s);
      } else if s.producer.QAlloc? {
        ProduceAlloc(s);
      } else if s.producer.QStart? || s.producer.QHead? || s.producer.QGrow? {
        ProduceStart(s);
      } else {
        ProduceLink(s);
      }
    case StartPop =>
    case Consume =>
      if s.consumer.KRing? {
        ConsumeInRing(s);
      } else if s.consumer.KMove? {
        ConsumeMove(s);
      } else {
        ConsumeLoad(s);
      }
  }

  /** A value added to the log of the last ring is the last one admitted. */
  lemma AdmittedLast<V>(rings: seq<Ring<V>>, ring: Ring<V>, more: seq<V>)
    requires rings != [] && ring.log == rings[|rings| - 1].log + more
    ensures Admitted(rings[|rings| - 1 := ring]) == Admitted(rings) + more
  {
    var n := |rings| - 1;
    assert rings[n := ring][..n] == rings[..n];
  }

  /** A step of pushHead adds its value to the log when it claims an index, and keeps it until then. */
  lemma PushLogs<V>(ring: Ring<V>, p: Pusher<V>)
    requires RingOk(ring) && !p.PIdle? && OwnerOk(ring, p)
    requires ring.owed == (if p.POwn? then {p.h} else {})
    ensures DoPush(ring, p).0.log == ring.log + if DoPush(ring, p).1.POwn? then [p.v] else []
    ensures !DoPush(ring, p).1.PIdle? ==> DoPush(ring, p).1.v == p.v
  {
    PushRingOk(ring, p);
  }

  /** The pending value becomes the last of those admitted, or stays pending. */
  lemma PendingMoves<V>(pushed: seq<V>, before: seq<V>, pending: seq<V>, after: seq<V>, more: seq<V>, rest: seq<V>)
    requires pushed == before + pending && after == before + more && pending == more + rest
    ensures pushed == after + rest
  {
    Assoc(before, more, rest);
  }

  lemma ProduceInRingKeepsOrder<V>(s: Chain<V>)
    requires Rings(s) && ProducerOk(s) && InOk(s) && s.producer.QRing?
    ensures InOk(DoProducer(s))
  {
    var QRing(v, d, p) := s.producer;
    var (ring, next) := DoPush(s.rings[d], p);
    var more := if next.POwn? then [v] else [];
    PushLogs(s.rings[d], p);
    AdmittedLast(s.rings, ring, more);
    assert p.POwn? ==> next.PIdle?;
    var t := DoProducer(s);
    PendingMoves(s.pushed, Admitted(s.rings), Pending(s), Admitted(t.rings), more, Pending(t));
  }

  lemma AdmittedNext<V>(rings: seq<Ring<V>>, ring: Ring<V>)
    ensures Admitted(rings + [ring]) == Admitted(rings) + ring.log
  {
    assert (rings + [ring])[..|rings|] == rings;
  }

  lemma ProduceAllocKeepsOrder<V>(s: Chain<V>)
    requires Rings(s) && InOk(s) && Can(s, Produce) && s.producer.QAlloc?
    ensures InOk(DoProducer(s))
  {
    var n, v := |s.rings[s.producer.d].slots|, s.producer.v;
    GrownOk(n);
    FreshRingOk(Grown(n), v);
    AdmittedNext(s.rings, FreshRing(Grown(n), v));
    PendingMoves(s.pushed, Admitted(s.rings), [v], Admitted(DoProducer(s).rings), [v], []);
  }

  lemma ProduceElseKeepsOrder<V>(s: Chain<V>)
    requires InOk(s) && Can(s, Produce) && !s.producer.QRing? && !s.producer.QAlloc?
    ensures InOk(DoProducer(s))
  {
  }

  lemma ConsumeKeepsOrder<V>(s: Chain<V>)
    requires Rings(s) && ConsumerOk(s) && InOk(s) && Can(s, Consume)
    ensures InOk(DoConsumer(s))
  {
    if s.consumer.KRing? {
      PopStepKeeps(s.rings[s.consumer.d], s.consumer.c);
      AdmittedSame(s.rings, DoConsumer(s).rings);
    }
  }

  /** No step changes the order of what was pushed, whatever the rings do. */
  lemma StepKeepsOrder<V>(s: Chain<V>, e: ChainEvent<V>)
    requires Inv(s) && InOk(s) && Can(s, e)
    ensures InOk(Do(s, e))
  {
    if e.Produce? && s.producer.QRing? {
      ProduceInRingKeepsOrder(s);
    } else if e.Produce? && s.producer.QAlloc? {
      ProduceAllocKeepsOrder(s);
    } else if e.Produce? {
      ProduceElseKeepsOrder(s);
    } else if e.Consume? {
      ConsumeKeepsOrder(s);
    }
  }

  ghost predicate IsRun<V>(s: Chain<V>, events: seq<ChainEvent<V>>, t: Chain<V>)
    decreases |events|
  {
    if events == [] then s == t
    else Can(s, events[0]) && IsRun(Do(s, events[0]), events[1..], t)
  }

  /** States that a chain whose first ring has `n` slots can reach. */
  ghost predicate Reachable<V(!new)>(n: nat, t: Chain<V>)
    requires SizeOk(n)
  {
    exists events :: IsRun(Init(n), events, t)
  }

  lemma {:induction false} RunKeeps<V>(s: Chain<V>, events: seq<ChainEvent<V>>, t: Chain<V>)
    requires Inv(s) && InOk(s) && IsRun(s, events, t)
    ensures Inv(t) && InOk(t)
    decreases |events|
  {
    if events != [] {
      StepKeeps(s, events[0]);
      StepKeepsOrder(s, events[0]);
      RunKeeps(Do(s, events[0]), events[1..], t);
    }
  }

  lemma ReachableInv<V(!new)>(n: nat, t: Chain<V>)
    requires SizeOk(n) && Reachable(n, t)
    ensures Inv(t) && InOk(t)
  {
    var events :| IsRun(Init(n), events, t);
    InitInv<V>(n);
    RunKeeps(Init(n), events, t);
  }

  // -------------------------------------------------------------- theorems

  /** The values that a run's calls of pushHead are given. */
  function Calls<V>(events: seq<ChainEvent<V>>): seq<V> {
    if events == [] then [] else Given(events[0]) + Calls(events[1..])
  }

  function Given<V>(e: ChainEvent<V>): seq<V> { if e.StartPush? then [e.v] else [] }

  lemma StepPushes<V>(s: Chain<V>, e: ChainEvent<V>)
    requires Can(s, e)
    ensures Do(s, e).pushed == s.pushed + Given(e)
  {
    if e.Produce? {
      assert DoProducer(s).pushed == s.pushed;
    } else if e.Consume? {
      assert DoConsumer(s).pushed == s.pushed;
    }
  }

  /** `pushed` is what the calls were given, in the order of the calls. */
  lemma {:induction false} PushedAreTheCalls<V>(s: Chain<V>, events: seq<ChainEvent<V>>, t: Chain<V>)
    requires IsRun(s, events, t)
    ensures t.pushed == s.pushed + Calls(events)
    decreases |events|
  {
    if events != [] {
      StepPushes(s, events[0]);
      Assoc(s.pushed, Given(events[0]), Calls(events[1..]));
      PushedAreTheCalls(Do(s, events[0]), events[1..], t);
    }
  }

  /** What is returned was admitted, in the same order. */
  lemma OutIsAdmitted<V>(s: Chain<V>)
    requires OutOk(s)
    ensures s.out <= Admitted(s.rings)
  {
    var r := s.rings[At(s)];
    AdmittedSplit(s.rings, At(s));
    assert r.log == r.log[..r.tail] + r.log[r.tail..];
    Assoc(Admitted(s.rings[..At(s)]), r.log[..r.tail], r.log[r.tail..]);
  }

  /**
  First in, first out, across every growth of the chain: in every run the values
  returned are the first of those given to pushHead, in the order of the calls,
  and what was given is admitted except the value of a push in progress.
  */
  lemma ChainIsFifo<V(!new)>(n: nat, events: seq<ChainEvent<V>>, s: Chain<V>)
    requires SizeOk(n) && IsRun(Init(n), events, s)
    ensures s.out <= Calls(events)
    ensures Calls(events) == Admitted(s.rings) + Pending(s)
  {
    InitInv<V>(n);
    RunKeeps(Init(n), events, s);
    PushedAreTheCalls(Init(n), events, s);
    OutIsAdmitted(s);
  }

  /**
  A ring is dropped from the tail only when it is empty for good: every value it
  ever held has been returned, and the producer works on a later ring.
  */
  lemma DroppedRingsAreSpent<V(!new)>(n: nat, s: Chain<V>, d: nat)
    requires SizeOk(n) && Reachable(n, s)
    requires d < s.tail || (d == s.tail && s.consumer.KMove?)
    ensures d < |s.rings| && Spent(s.rings[d])
    ensures d < s.head
    ensures s.producer.QRing? || s.producer.QGrow? || s.producer.QAlloc? ==> s.producer.d > d
  {
    ReachableInv(n, s);
  }

  /** Only the first value is put into a ring before it is linked, and no later ring is ever skipped. */
  lemma RingsInOrder<V(!new)>(n: nat, s: Chain<V>)
    requires SizeOk(n) && Reachable(n, s)
    ensures s.tail <= s.linked <= s.head < |s.rings| <= s.head + 2
    ensures forall i :: s.tail < i < |s.rings| ==> s.rings[i].tail == 0
  {
    ReachableInv(n, s);
  }

  /**
  Nothing is lost: every admitted value that popTail has not returned is in its
  slot, in the hands of the producer that is about to store it, or about to be
  returned, also while a larger ring is built and linked.
  */
  lemma NothingLostInChain<V(!new)>(n: nat, s: Chain<V>, d: nat, i: nat)
    requires SizeOk(n) && Reachable(n, s)
    requires d < |s.rings| && s.rings[d].tail <= i < |s.rings[d].log|
    ensures |s.rings[d].slots| > 0
    ensures || s.rings[d].slots[i % |s.rings[d].slots|] == Some(s.rings[d].log[i])
            || (s.producer.QRing? && s.producer.d == d && s.producer.p.POwn? && s.producer.p.h == i && s.producer.v == s.rings[d].log[i])
            || (s.consumer.KRing? && s.consumer.d == d && s.consumer.c.CTook? && i == s.rings[d].tail && s.consumer.c.v == s.rings[d].log[i])
  {
    ReachableInv(n, s);
    var r := s.rings[d];
    assert RingOk(r);
    if i in r.owed {
      assert d == Target(s);
    } else if i >= First(r) {
      assert Due(r, i) == Some(r.log[i]);
    } else {
      assert r.taken && d == At(s);
    }
  }
}
