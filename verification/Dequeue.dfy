/**
bufDequeue under any number of producers and one consumer, one atomic step at a
time: every load, compare-and-swap, store and addition is a step of its own, and
the steps of all threads interleave freely.
*/
module Dequeue {
  import opened Basics
  import opened Window
  import opened Ring

  datatype Pusher<V> =
    | PIdle
    | PTop(v: V)                             // pushHead, before the load
    | PLoaded(v: V, ptrs: nat)
    | POwn(v: V, slot: nat, h: nat)          // index claimed, slot not yet stored; h is the index unwrapped

  datatype Popper<V> =
    | CIdle
    | CTop                                   // popTail, before the load
    | CSlot(tail: nat, slot: nat)            // not empty; before the load of the slot
    | CHave(tail: nat, slot: nat, v: V)      // slot loaded, before its compare-and-swap
    | CTook(tail: nat, v: V)                 // slot emptied, before the addition

  datatype State<V> = State(ring: Ring<V>, pushers: seq<Pusher<V>>, popper: Popper<V>, out: seq<V>)

  datatype Event<V> =
    | Push(p: nat, v: V)
    | PushStep(p: nat)
    | Pop
    | PopStep

  function Init<V>(n: nat, pushers: nat): State<V>
    requires SizeOk(n)
  {
    State(Empty(n), seq(pushers, _ => PIdle), CIdle, [])
  }

  function DoPush<V>(ring: Ring<V>, p: Pusher<V>): (Ring<V>, Pusher<V>)
    requires !p.PIdle? && |ring.slots| > 0 && (p.POwn? ==> p.slot < |ring.slots|)
  {
    match p
    case PTop(v) => (ring, PLoaded(v, ring.word))
    case PLoaded(v, ptrs) =>
      if LooksFull(ptrs, |ring.slots|) then (ring, PIdle)        // pushHead returns false
      else if ring.word == ptrs then (Claim(ring, ptrs, v), POwn(v, HeadSlot(ptrs, |ring.slots|), |ring.log|))
      else (ring, PTop(v))
    case POwn(v, slot, h) => (Store(ring, slot, v, h), PIdle)    // pushHead returns true
  }

  function DoPop<V(==)>(ring: Ring<V>, c: Popper<V>): (Ring<V>, Popper<V>)
    requires !c.CIdle? && |ring.slots| > 0 && (c.CSlot? || c.CHave? ==> c.slot < |ring.slots|)
  {
    match c
    case CTop =>
      if LooksEmpty(ring.word) then (ring, CIdle)                // popTail returns false
      else (ring, CSlot(UnpackPair(ring.word).1, TailSlot(ring.word, |ring.slots|)))
    case CSlot(tail, slot) =>
      (match ring.slots[slot]
       case Some(v) => (ring, CHave(tail, slot, v))
       case None => (ring, CTop))                                // claimed, not stored yet
    case CHave(tail, slot, v) =>
      if ring.slots[slot] == Some(v) then (Take(ring, slot), CTook(tail, v)) else (ring, CTop)
    case CTook(tail, v) => (Advance(ring, tail), CIdle)          // popTail returns v
  }

  predicate Can<V>(s: State<V>, e: Event<V>) {
    match e
    case Push(p, v) => p < |s.pushers| && s.pushers[p].PIdle?
    case PushStep(p) => p < |s.pushers| && !s.pushers[p].PIdle? && |s.ring.slots| > 0
                        && (s.pushers[p].POwn? ==> s.pushers[p].slot < |s.ring.slots|)
    case Pop => s.popper.CIdle?
    case PopStep => !s.popper.CIdle? && |s.ring.slots| > 0
                    && (s.popper.CSlot? || s.popper.CHave? ==> s.popper.slot < |s.ring.slots|)
  }

  function Do<V(==)>(s: State<V>, e: Event<V>): State<V>
    requires Can(s, e)
  {
    match e
    case Push(p, v) => s.(pushers := s.pushers[p := PTop(v)])
    case PushStep(p) =>
      var (ring, next) := DoPush(s.ring, s.pushers[p]);
      s.(ring := ring, pushers := s.pushers[p := next])
    case Pop => s.(popper := CTop)
    case PopStep =>
      var (ring, next) := DoPop(s.ring, s.popper);
      s.(ring := ring, popper := next, out := if s.popper.CTook? then s.out + [s.popper.v] else s.out)
  }

  // -------------------------------------------------------------- invariant

  /** An owner's index is admitted with its value, and its slot is the one the code computed. */
  predicate OwnerOk<V(==)>(ring: Ring<V>, p: Pusher<V>) {
    p.POwn? ==> p.h in ring.owed && p.h < |ring.log| && ring.log[p.h] == p.v
                && |ring.slots| > 0 && p.slot == p.h % |ring.slots|
  }

  ghost predicate Owners<V>(s: State<V>) {
    && (forall p :: 0 <= p < |s.pushers| ==> OwnerOk(s.ring, s.pushers[p]))
    && (forall p, q :: 0 <= p < q < |s.pushers| && s.pushers[p].POwn? && s.pushers[q].POwn? ==>
          s.pushers[p].h != s.pushers[q].h)
    && (forall h :: h in s.ring.owed ==> exists p :: 0 <= p < |s.pushers| && s.pushers[p].POwn? && s.pushers[p].h == h)
  }

  ghost predicate PopperOk<V>(ring: Ring<V>, c: Popper<V>) {
    && |ring.slots| > 0
    && (ring.taken <==> c.CTook?)
    && (c.CSlot? || c.CHave? || c.CTook? ==> c.tail == ring.tail % TWO32 && ring.tail < |ring.log|)
    && (c.CSlot? || c.CHave? ==> c.slot == ring.tail % |ring.slots|)
    && (c.CHave? ==> ring.slots[c.slot] == Some(c.v))
    && (c.CTook? ==> c.v == ring.log[ring.tail])
  }

  ghost predicate Inv<V>(s: State<V>) {
    && RingOk(s.ring)
    && Owners(s)
    && PopperOk(s.ring, s.popper)
    && s.out == s.ring.log[..s.ring.tail]
  }

  lemma InitInv<V>(n: nat, pushers: nat)
    requires SizeOk(n)
    ensures Inv(Init<V>(n, pushers))
  {
    EmptyOk<V>(n);
  }

  /** A successful claim makes the pusher the owner of the next index, and of its slot. */
  lemma ClaimStep<V>(ring: Ring<V>, p: Pusher<V>)
    requires RingOk(ring) && p.PLoaded? && ring.word == p.ptrs && !LooksFull(p.ptrs, |ring.slots|)
    ensures DoPush(ring, p) == (Claim(ring, ring.word, p.v), POwn(p.v, |ring.log| % |ring.slots|, |ring.log|))
    ensures RingOk(Claim(ring, ring.word, p.v)) && |ring.log| !in ring.owed
  {
    ClaimOk(ring, p.v);
    SlotsAreIndices(ring);
  }

  lemma ClaimKeepsOwners<V>(s: State<V>, p: nat, v: V)
    requires RingOk(s.ring) && Owners(s) && p < |s.pushers| && s.pushers[p].PLoaded?
    ensures Owners(s.(ring := Claim(s.ring, s.ring.word, v),
                      pushers := s.pushers[p := POwn(v, |s.ring.log| % |s.ring.slots|, |s.ring.log|)]))
  {
    var h := |s.ring.log|;
    var ring := Claim(s.ring, s.ring.word, v);
    var pushers := s.pushers[p := POwn(v, h % |s.ring.slots|, h)];
    forall k | k in ring.owed
      ensures exists q :: 0 <= q < |pushers| && pushers[q].POwn? && pushers[q].h == k
    {
      if k == h {
        assert pushers[p].h == h;
      } else {
        var q :| 0 <= q < |s.pushers| && s.pushers[q].POwn? && s.pushers[q].h == k;
        assert pushers[q] == s.pushers[q];
      }
    }
    forall q | 0 <= q < |pushers|
      ensures OwnerOk(ring, pushers[q])
    {
      assert OwnerOk(s.ring, s.pushers[q]);
    }
  }

  lemma ClaimKeeps<V>(s: State<V>, p: nat)
    requires Inv(s) && Can(s, PushStep(p)) && s.pushers[p].PLoaded?
    requires !LooksFull(s.pushers[p].ptrs, |s.ring.slots|) && s.ring.word == s.pushers[p].ptrs
    ensures Inv(Do(s, PushStep(p)))
  {
    ClaimStep(s.ring, s.pushers[p]);
    ClaimKeepsOwners(s, p, s.pushers[p].v);
  }

  lemma StoreKeeps<V>(s: State<V>, p: nat)
    requires Inv(s) && Can(s, PushStep(p)) && s.pushers[p].POwn?
    ensures Inv(Do(s, PushStep(p)))
  {
    var POwn(v, slot, h) := s.pushers[p];
    var t := Do(s, PushStep(p));
    assert OwnerOk(s.ring, s.pushers[p]);
    StoreOk(s.ring, h);
    OwedSlotIsFree(s.ring, h);
    forall k | k in t.ring.owed
      ensures exists q :: 0 <= q < |t.pushers| && t.pushers[q].POwn? && t.pushers[q].h == k
    {
      var q :| 0 <= q < |s.pushers| && s.pushers[q].POwn? && s.pushers[q].h == k;
      assert t.pushers[q] == s.pushers[q];
    }
    forall q | 0 <= q < |t.pushers|
      ensures OwnerOk(t.ring, t.pushers[q])
    {
      assert OwnerOk(s.ring, s.pushers[q]);
    }
  }

  lemma PushKeeps<V>(s: State<V>, e: Event<V>)
    requires Inv(s) && Can(s, e) && (e.Push? || (e.PushStep? && !s.pushers[e.p].POwn?))
    requires e.PushStep? ==> Do(s, e).ring == s.ring && !Do(s, e).pushers[e.p].POwn?
    ensures Inv(Do(s, e))
  {
    var t := Do(s, e);
    forall h | h in t.ring.owed
      ensures exists q :: 0 <= q < |t.pushers| && t.pushers[q].POwn? && t.pushers[q].h == h
    {
      var q :| 0 <= q < |s.pushers| && s.pushers[q].POwn? && s.pushers[q].h == h;
      assert t.pushers[q] == s.pushers[q];
    }
  }

  lemma PopStepKeeps<V>(ring: Ring<V>, c: Popper<V>)
    requires RingOk(ring) && PopperOk(ring, c) && !c.CIdle?
    ensures RingOk(DoPop(ring, c).0) && PopperOk(DoPop(ring, c).0, DoPop(ring, c).1)
    ensures DoPop(ring, c).0.log == ring.log && DoPop(ring, c).0.owed == ring.owed
    ensures |DoPop(ring, c).0.slots| == |ring.slots|
    ensures DoPop(ring, c).0.tail == if c.CTook? then ring.tail + 1 else ring.tail
  {
    match c
    case CTop =>
      EmptyIsExact(ring);
      SlotsAreIndices(ring);
      Unpacked(ring);
    case CSlot(_, _) =>
    case CHave(_, _, _) =>
      TailHoldsOldest(ring);
      TakeOk(ring);
    case CTook(_, _) =>
      AdvanceOk(ring);
  }

  lemma PopKeeps<V>(s: State<V>, e: Event<V>)
    requires Inv(s) && Can(s, e) && (e.Pop? || e.PopStep?)
    ensures Inv(Do(s, e))
  {
    if e.PopStep? {
      PopStepKeeps(s.ring, s.popper);
      var t := Do(s, e);
      forall q | 0 <= q < |t.pushers|
        ensures OwnerOk(t.ring, t.pushers[q])
      {
        assert OwnerOk(s.ring, s.pushers[q]);
      }
    }
  }

  lemma StepKeeps<V>(s: State<V>, e: Event<V>)
    requires Inv(s) && Can(s, e)
    ensures Inv(Do(s, e))
  {
    match e
    case Push(_, _) => PushKeeps(s, e);
    case PushStep(p) =>
      if s.pushers[p].POwn? {
        StoreKeeps(s, p);
      } else if s.pushers[p].PLoaded? && !LooksFull(s.pushers[p].ptrs, |s.ring.slots|) && s.ring.word == s.pushers[p].ptrs {
        ClaimKeeps(s, p);
      } else {
        PushKeeps(s, e);
      }
    case Pop => PopKeeps(s, e);
    case PopStep => PopKeeps(s, e);
  }

  ghost predicate IsRun<V>(s: State<V>, events: seq<Event<V>>, t: State<V>)
    decreases |events|
  {
    if events == [] then s == t
    else Can(s, events[0]) && IsRun(Do(s, events[0]), events[1..], t)
  }

  /** States that a ring of `n` slots and `pushers` producers can reach. */
  ghost predicate Reachable<V(!new)>(n: nat, pushers: nat, t: State<V>)
    requires SizeOk(n)
  {
    exists events :: IsRun(Init(n, pushers), events, t)
  }

  lemma {:induction false} RunKeeps<V>(s: State<V>, events: seq<Event<V>>, t: State<V>)
    requires Inv(s) && IsRun(s, events, t)
    ensures Inv(t)
    decreases |events|
  {
    if events == [] {
    } else {
      StepKeeps(s, events[0]);
      RunKeeps(Do(s, events[0]), events[1..], t);
    }
  }

  lemma ReachableInv<V(!new)>(n: nat, pushers: nat, t: State<V>)
    requires SizeOk(n) && Reachable(n, pushers, t)
    ensures Inv(t)
  {
    var events :| IsRun(Init(n, pushers), events, t);
    InitInv<V>(n, pushers);
    RunKeeps(Init(n, pushers), events, t);
  }

  // -------------------------------------------------------------- theorems

  /** Values leave in the order in which the head's compare-and-swap admitted them. */
  lemma FirstInFirstOut<V(!new)>(n: nat, pushers: nat, s: State<V>)
    requires SizeOk(n) && Reachable(n, pushers, s)
    ensures s.out <= s.ring.log
    ensures |s.ring.log| - |s.out| <= |s.ring.slots|
  {
    ReachableInv(n, pushers, s);
  }

  /**
  Nothing is lost: every admitted value that popTail has not returned is in its
  slot, in the hands of the producer that claimed it, or about to be returned.
  */
  lemma NothingLost<V(!new)>(n: nat, pushers: nat, s: State<V>, i: nat)
    requires SizeOk(n) && Reachable(n, pushers, s)
    requires |s.out| <= i < |s.ring.log|
    ensures |s.ring.slots| > 0
    ensures || s.ring.slots[i % |s.ring.slots|] == Some(s.ring.log[i])
            || (exists p :: 0 <= p < |s.pushers| && s.pushers[p].POwn? && s.pushers[p].h == i && s.pushers[p].v == s.ring.log[i])
            || (s.popper.CTook? && s.popper.v == s.ring.log[i] && i == |s.out|)
  {
    ReachableInv(n, pushers, s);
    if i in s.ring.owed {
      var p :| 0 <= p < |s.pushers| && s.pushers[p].POwn? && s.pushers[p].h == i;
      assert OwnerOk(s.ring, s.pushers[p]);
    } else if i >= First(s.ring) {
      assert s.ring.slots[i % |s.ring.slots|] == Due(s.ring, i);
    }
  }

  /** A producer's store never lands on a value: its slot is empty until it is filled. */
  lemma NothingOverwritten<V(!new)>(n: nat, pushers: nat, s: State<V>, p: nat)
    requires SizeOk(n) && Reachable(n, pushers, s)
    requires p < |s.pushers| && s.pushers[p].POwn?
    ensures s.pushers[p].slot < |s.ring.slots| && s.ring.slots[s.pushers[p].slot] == None
  {
    ReachableInv(n, pushers, s);
    assert OwnerOk(s.ring, s.pushers[p]);
    OwedSlotIsFree(s.ring, s.pushers[p].h);
  }

  /** popTail's compare-and-swap never fails, and takes the oldest value. */
  lemma TakeSucceeds<V(!new)>(n: nat, pushers: nat, s: State<V>)
    requires SizeOk(n) && Reachable(n, pushers, s) && s.popper.CHave?
    ensures s.popper.slot < |s.ring.slots| && s.ring.slots[s.popper.slot] == Some(s.popper.v)
    ensures |s.out| < |s.ring.log| && s.popper.v == s.ring.log[|s.out|]
  {
    ReachableInv(n, pushers, s);
    TailHoldsOldest(s.ring);
  }

  /**
  The verdicts are exact although the indices wrap: a freshly loaded word looks
  full exactly when no slot is free, and empty exactly when all has been returned.
  */
  lemma VerdictsExact<V(!new)>(n: nat, pushers: nat, s: State<V>)
    requires SizeOk(n) && Reachable(n, pushers, s)
    ensures LooksFull(s.ring.word, |s.ring.slots|) <==> |s.ring.log| - |s.out| == |s.ring.slots|
    ensures LooksEmpty(s.ring.word) <==> s.out == s.ring.log
  {
    ReachableInv(n, pushers, s);
    FullIsExact(s.ring);
    EmptyIsExact(s.ring);
  }
}
