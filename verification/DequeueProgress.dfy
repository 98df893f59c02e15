/**
Every call of pushHead and popTail comes to an end, and its verdict is true. The steps of
a run are bounded by its calls and by the turns that popTail spends on a slot whose
producer has claimed it and not yet stored.
*/
module DequeueProgress {
  import opened Basics
  import opened Window
  import opened Ring
  import opened Dequeue

  // ------------------------------------------------------------ the measure

  /** The steps left to a producer if nobody interferes; one with a word that is out of date loads again. */
  function PushRank<V>(word: nat, p: Pusher<V>): nat {
    match p
    case PIdle => 0
    case POwn(_, _, _) => 1
    case PLoaded(_, ptrs) => if ptrs == word then 2 else 4
    case PTop(_) => 3
  }

  /** Whoever has yet to change the word pays for the `n` producers whose loads that will spoil. */
  function PushWeight<V>(word: nat, n: nat, p: Pusher<V>): nat {
    PushRank(word, p) + if p.PTop? || p.PLoaded? then 2 * n else 0
  }

  function PopWeight<V>(n: nat, c: Popper<V>): nat {
    match c
    case CIdle => 0
    case CTook(_, _) => 1 + 2 * n
    case CHave(_, _, _) => 2 + 2 * n
    case CSlot(_, _) => 3 + 2 * n
    case CTop => 4 + 2 * n
  }

  function PushWeights<V>(word: nat, n: nat, ps: seq<Pusher<V>>): nat {
    if ps == [] then 0 else PushWeight(word, n, ps[0]) + PushWeights(word, n, ps[1..])
  }

  function Measure<V>(s: State<V>): nat {
    PushWeights(s.ring.word, |s.pushers|, s.pushers) + PopWeight(|s.pushers|, s.popper)
  }

  /** popTail's busy loop: the slot has been claimed and is still empty. */
  predicate Spins<V(==)>(s: State<V>, e: Event<V>) {
    e.PopStep? && s.popper.CSlot? && s.popper.slot < |s.ring.slots| && s.ring.slots[s.popper.slot] == None
  }

  /** What an event may cost: a call of pushHead or popTail among `n` producers, and a turn of the busy loop. */
  function Brings<V(==)>(s: State<V>, e: Event<V>): nat {
    match e
    case Push(_, _) => 4 + 2 * |s.pushers|
    case Pop => 5 + 2 * |s.pushers|
    case PushStep(_) => 0
    case PopStep => if Spins(s, e) then 2 else 0
  }

  lemma {:induction false} WeightsUpdate<V>(word: nat, n: nat, ps: seq<Pusher<V>>, i: nat, p: Pusher<V>)
    requires i < |ps|
    ensures PushWeights(word, n, ps[i := p]) + PushWeight(word, n, ps[i])
            == PushWeights(word, n, ps) + PushWeight(word, n, p)
  {
    if i > 0 {
      WeightsUpdate(word, n, ps[1..], i - 1, p);
      assert ps[i := p][1..] == ps[1..][i - 1 := p];
    }
  }

  /** A change of the word costs each producer at most a load and a failed compare-and-swap. */
  lemma {:induction false} WeightsOfWord<V>(word: nat, after: nat, n: nat, ps: seq<Pusher<V>>)
    ensures PushWeights(after, n, ps) <= PushWeights(word, n, ps) + 2 * |ps|
  {
    if ps != [] {
      WeightsOfWord(word, after, n, ps[1..]);
    }
  }

  lemma PushUses<V>(s: State<V>, p: nat)
    requires Inv(s) && Can(s, PushStep(p))
    ensures Measure(Do(s, PushStep(p))) < Measure(s)
  {
    var t, n := Do(s, PushStep(p)), |s.pushers|;
    WeightsUpdate(t.ring.word, n, s.pushers, p, t.pushers[p]);
    if t.ring.word != s.ring.word {
      WeightsOfWord(s.ring.word, t.ring.word, n, s.pushers);
    }
  }

  lemma PopUses<V>(s: State<V>)
    requires Inv(s) && Can(s, PopStep)
    ensures Measure(Do(s, PopStep)) < Measure(s) + Brings(s, PopStep)
  {
    var t := Do(s, PopStep);
    if s.popper.CHave? {
      TailHoldsOldest(s.ring);
    } else if s.popper.CTook? {
      WeightsOfWord(s.ring.word, t.ring.word, |s.pushers|, s.pushers);
    }
  }

  lemma StepUses<V>(s: State<V>, e: Event<V>)
    requires Inv(s) && Can(s, e)
    ensures Measure(Do(s, e)) < Measure(s) + Brings(s, e)
  {
    match e
    case Push(p, v) => WeightsUpdate(s.ring.word, |s.pushers|, s.pushers, p, PTop(v));
    case PushStep(p) => PushUses(s, p);
    case Pop =>
    case PopStep => PopUses(s);
  }

  // -------------------------------------------------------------- theorems

  function AllBrings<V(==)>(s: State<V>, events: seq<Event<V>>): nat
    decreases |events|
  {
    if events == [] || !Can(s, events[0]) then 0
    else Brings(s, events[0]) + AllBrings(Do(s, events[0]), events[1..])
  }

  lemma {:induction false} RunUses<V>(s: State<V>, events: seq<Event<V>>, t: State<V>)
    requires Inv(s) && IsRun(s, events, t)
    ensures |events| + Measure(t) <= Measure(s) + AllBrings(s, events)
    decreases |events|
  {
    if events != [] {
      StepUses(s, events[0]);
      StepKeeps(s, events[0]);
      RunUses(Do(s, events[0]), events[1..], t);
    }
  }

  lemma {:induction false} IdleWeights<V>(word: nat, n: nat, ps: seq<Pusher<V>>)
    requires forall i :: 0 <= i < |ps| ==> ps[i].PIdle?
    ensures PushWeights(word, n, ps) == 0
  {
    if ps != [] {
      IdleWeights(word, n, ps[1..]);
    }
  }

  /**
  Lock freedom: in every run of `k` producers and one consumer all threads together take no
  more steps than 4 + 2 k for each call of pushHead, 5 + 2 k for each of popTail and 2 for
  each turn of the busy loop, failed compare-and-swaps included.
  */
  lemma RunIsBounded<V>(n: nat, k: nat, events: seq<Event<V>>, t: State<V>)
    requires SizeOk(n) && IsRun(Init(n, k), events, t)
    ensures |events| <= AllBrings(Init(n, k), events)
  {
    var s := Init<V>(n, k);
    InitInv<V>(n, k);
    IdleWeights(s.ring.word, k, s.pushers);
    RunUses(s, events, t);
  }

  /** A call that has not returned can always take a step. */
  lemma NeverStuck<V(!new)>(n: nat, k: nat, s: State<V>)
    requires SizeOk(n) && Reachable(n, k, s)
    ensures forall p :: 0 <= p < |s.pushers| && !s.pushers[p].PIdle? ==> Can(s, PushStep(p))
    ensures !s.popper.CIdle? ==> Can(s, PopStep)
  {
    ReachableInv(n, k, s);
    forall p | 0 <= p < |s.pushers| && !s.pushers[p].PIdle?
      ensures Can(s, PushStep(p))
    {
      assert OwnerOk(s.ring, s.pushers[p]);
    }
  }

  /** The busy loop waits for one step of one producer, which fills the slot. */
  lemma SpinHasOwner<V(!new)>(n: nat, k: nat, s: State<V>) returns (p: nat)
    requires SizeOk(n) && Reachable(n, k, s) && Spins(s, PopStep)
    ensures Can(s, PushStep(p)) && s.pushers[p].POwn?
    ensures !Spins(Do(s, PushStep(p)), PopStep)
  {
    ReachableInv(n, k, s);
    var r := s.ring;
    assert r.slots[r.tail % |r.slots|] == Due(r, r.tail);
    p :| 0 <= p < |s.pushers| && s.pushers[p].POwn? && s.pushers[p].h == r.tail;
    assert OwnerOk(r, s.pushers[p]);
  }

  /** popTail returns nothing exactly if, at its load, every admitted value had been returned; else it goes for the oldest. */
  lemma PopVerdict<V(!new)>(n: nat, k: nat, s: State<V>)
    requires SizeOk(n) && Reachable(n, k, s) && s.popper.CTop?
    ensures Can(s, PopStep)
    ensures Do(s, PopStep).popper.CIdle? <==> s.out == s.ring.log
    ensures !Do(s, PopStep).popper.CIdle? ==>
              Do(s, PopStep).popper == CSlot(|s.out| % TWO32, |s.out| % |s.ring.slots|)
  {
    ReachableInv(n, k, s);
    EmptyIsExact(s.ring);
    SlotsAreIndices(s.ring);
    Unpacked(s.ring);
  }

  /** From there, with its slot filled, popTail takes and returns the oldest value in three steps of its own. */
  lemma PopTakes<V(!new)>(n: nat, k: nat, s: State<V>)
    requires SizeOk(n) && Reachable(n, k, s) && Can(s, PopStep)
    ensures s.popper.CSlot? && !Spins(s, PopStep) ==> Do(s, PopStep).popper.CHave?
    ensures s.popper.CHave? ==> Do(s, PopStep).popper.CTook?
    ensures s.popper.CTook? ==>
              |s.out| < |s.ring.log| && Do(s, PopStep).popper.CIdle? && Do(s, PopStep).out == s.out + [s.ring.log[|s.out|]]
  {
    ReachableInv(n, k, s);
    if s.popper.CHave? {
      TailHoldsOldest(s.ring);
    }
  }

  /**
  pushHead reports a full ring exactly if there was no free slot when it loaded the word, whatever
  the ring holds by then; else it admits its value if the word is still the same, or loads again.
  */
  lemma PushVerdict<V(!new)>(n: nat, k: nat, s: State<V>, p: nat, later: Ring<V>)
    requires SizeOk(n) && Reachable(n, k, s) && p < |s.pushers| && s.pushers[p].PTop? && |later.slots| == |s.ring.slots|
    ensures Can(s, PushStep(p)) && Do(s, PushStep(p)).ring == s.ring
    ensures |later.slots| > 0 && Do(s, PushStep(p)).pushers[p].PLoaded?
    ensures var (ring, next) := DoPush(later, Do(s, PushStep(p)).pushers[p]);
      if |s.ring.log| - |s.out| == |s.ring.slots| then next.PIdle? && ring == later
      else if later.word == s.ring.word then next.POwn? && ring.log == later.log + [s.pushers[p].v]
      else next == s.pushers[p] && ring == later
  {
    ReachableInv(n, k, s);
    FullIsExact(s.ring);
  }

  // ------------------------------------------------------- calls on their own

  lemma RunOne<V>(s: State<V>, e: Event<V>, events: seq<Event<V>>, t: State<V>)
    requires Can(s, e) && IsRun(Do(s, e), events, t)
    ensures IsRun(s, [e] + events, t)
  {
    assert ([e] + events)[1..] == events;
  }

  /** A pushHead that is left alone admits and stores its value in three steps, or finds the ring full in two. */
  lemma PushAlone<V(!new)>(n: nat, k: nat, s: State<V>, p: nat, v: V) returns (t: State<V>)
    requires SizeOk(n) && Reachable(n, k, s) && p < |s.pushers| && s.pushers[p].PIdle?
    ensures |s.ring.log| - |s.out| < |s.ring.slots| ==>
              && IsRun(s, [Push(p, v), PushStep(p), PushStep(p), PushStep(p)], t)
              && t.ring.log == s.ring.log + [v] && t.pushers == s.pushers && t.ring.owed == s.ring.owed
    ensures |s.ring.log| - |s.out| == |s.ring.slots| ==>
              IsRun(s, [Push(p, v), PushStep(p), PushStep(p)], t) && t == s
  {
    ReachableInv(n, k, s);
    FullIsExact(s.ring);
    var a := Do(s, Push(p, v));
    var b := Do(a, PushStep(p));
    var c := Do(b, PushStep(p));
    if |s.ring.log| - |s.out| == |s.ring.slots| {
      t := c;
      assert t.pushers == s.pushers;
      RunOne(b, PushStep(p), [], t);
      RunOne(a, PushStep(p), [PushStep(p)], t);
      RunOne(s, Push(p, v), [PushStep(p), PushStep(p)], t);
    } else {
      t := Do(c, PushStep(p));
      StepKeeps(s, Push(p, v));
      StepKeeps(a, PushStep(p));
      ClaimStep(b.ring, b.pushers[p]);
      assert t.pushers == s.pushers;
      RunOne(c, PushStep(p), [], t);
      RunOne(b, PushStep(p), [PushStep(p)], t);
      RunOne(a, PushStep(p), [PushStep(p), PushStep(p)], t);
      RunOne(s, Push(p, v), [PushStep(p), PushStep(p), PushStep(p)], t);
    }
  }

  /** The first three steps of popTail on a ring that nobody else changes. */
  lemma PopLooks<V>(s: State<V>)
    requires Inv(s) && s.popper.CIdle? && s.out != s.ring.log && |s.out| !in s.ring.owed
    ensures |s.ring.slots| > 0 && |s.out| < |s.ring.log|
    ensures var tail, slot, v := |s.out| % TWO32, |s.out| % |s.ring.slots|, s.ring.log[|s.out|];
      && s.ring.slots[slot] == Some(v)
      && DoPop(s.ring, CTop) == (s.ring, CSlot(tail, slot))
      && DoPop(s.ring, CSlot(tail, slot)) == (s.ring, CHave(tail, slot, v))
      && DoPop(s.ring, CHave(tail, slot, v)) == (Take(s.ring, slot), CTook(tail, v))
  {
    EmptyIsExact(s.ring);
    SlotsAreIndices(s.ring);
    Unpacked(s.ring);
    assert s.ring.slots[s.ring.tail % |s.ring.slots|] == Due(s.ring, s.ring.tail);
  }

  /** A popTail that is left alone returns the oldest value in four steps, if no producer owes it. */
  lemma PopAlone<V(!new)>(n: nat, k: nat, s: State<V>) returns (t: State<V>)
    requires SizeOk(n) && Reachable(n, k, s) && s.popper.CIdle? && s.out != s.ring.log && |s.out| !in s.ring.owed
    ensures IsRun(s, [Pop, PopStep, PopStep, PopStep, PopStep], t)
    ensures |s.out| < |s.ring.log| && t.out == s.out + [s.ring.log[|s.out|]] && t.popper.CIdle? && t.pushers == s.pushers
  {
    ReachableInv(n, k, s);
    PopLooks(s);
    var tail, slot, v := |s.out| % TWO32, |s.out| % |s.ring.slots|, s.ring.log[|s.out|];
    var a, b, c := s.(popper := CTop), s.(popper := CSlot(tail, slot)), s.(popper := CHave(tail, slot, v));
    var d := s.(ring := Take(s.ring, slot), popper := CTook(tail, v));
    t := Do(d, PopStep);
    RunOne(d, PopStep, [], t);
    RunOne(c, PopStep, [PopStep], t);
    RunOne(b, PopStep, [PopStep, PopStep], t);
    RunOne(a, PopStep, [PopStep, PopStep, PopStep], t);
    RunOne(s, Pop, [PopStep, PopStep, PopStep, PopStep], t);
  }
}
