/**
The multiplexer's write queue: three first-in-first-out classes and a starvation
counter, one unsigned byte that wraps. The chains are taken as sequences; that
they behave so is what RingChain proves.
*/
module PriorityQueue {
  import opened Basics
  import opened FrameCodec

  newtype uint8 = x: int | 0 <= x < 256

  const MAX_STARVING: uint8 := 8

  datatype Class = Highest | Middle | Lowest

  /** The class of a frame, by its flag; any flag not named here is in the lowest class. */
  function ClassOf(flag: byte): Class {
    if flag == PING_FLAG || flag == PING_RETURN then Highest
    else if flag == NEW_CONN || flag == NEW_CONN_OK || flag == NEW_CONN_FAIL then Middle
    else Lowest
  }

  datatype Packet = Packet(flag: byte, id: int)

  datatype Queues = Queues(highest: seq<Packet>, middle: seq<Packet>, lowest: seq<Packet>, starving: uint8)

  function Of(q: Queues, c: Class): seq<Packet> {
    match c case Highest => q.highest case Middle => q.middle case Lowest => q.lowest
  }

  /** Adding one to an unsigned byte. */
  function Increment(x: uint8): uint8 { if x == 255 then 0 else x + 1 }

  /** The class that the next TryPop serves. */
  function Next(q: Queues): Option<Class> {
    if q.highest != [] then Some(Highest)
    else if q.middle != [] && (q.starving < MAX_STARVING || q.lowest == []) then Some(Middle)
    else if q.lowest != [] then Some(Lowest)
    else None
  }

  /** The queues after the class `c` has been served. */
  function Served(q: Queues, c: Class): Queues
    requires Of(q, c) != []
  {
    match c
    case Highest => q.(highest := q.highest[1..])
    case Middle => q.(middle := q.middle[1..], starving := Increment(q.starving))
    case Lowest => q.(lowest := q.lowest[1..], starving := q.starving / 2)
  }

  function Pushed(q: Queues, p: Packet): Queues {
    match ClassOf(p.flag)
    case Highest => q.(highest := q.highest + [p])
    case Middle => q.(middle := q.middle + [p])
    case Lowest => q.(lowest := q.lowest + [p])
  }

  class WriteQueue {
    var highest: seq<Packet>
    var middle: seq<Packet>
    var lowest: seq<Packet>
    var starving: uint8

    constructor ()
      ensures State() == Queues([], [], [], 0)
    {
      highest, middle, lowest, starving := [], [], [], 0;
    }

    function State(): Queues
      reads this
    {
      Queues(highest, middle, lowest, starving)
    }

    method Push(p: Packet)
      modifies this
      ensures State() == Pushed(old(State()), p)
    {
      if p.flag == PING_FLAG || p.flag == PING_RETURN {
        highest := highest + [p];
      } else if p.flag == NEW_CONN || p.flag == NEW_CONN_OK || p.flag == NEW_CONN_FAIL {
        middle := middle + [p];
      } else {
        lowest := lowest + [p];
      }
    }

    /** Serves the class that Next names, from its front; returns nothing only if all classes are empty. */
    method TryPop() returns (r: Option<Packet>)
      modifies this
      ensures Next(old(State())).None? ==> r == None && State() == old(State())
      ensures Next(old(State())).Some? ==>
                var c := Next(old(State())).value;
                Of(old(State()), c) != [] && r == Some(Of(old(State()), c)[0]) && State() == Served(old(State()), c)
    {
      if highest != [] {
        r := Some(highest[0]);
        highest := highest[1..];
        return;
      }
      if starving < MAX_STARVING {
        if middle != [] {
          r := Some(middle[0]);
          middle := middle[1..];
          starving := Increment(starving);
          return;
        }
      }
      if lowest != [] {
        r := Some(lowest[0]);
        lowest := lowest[1..];
        if starving > 0 {
          starving := starving / 2;
        }
        return;
      }
      if starving > 0 {
        if middle != [] {
          r := Some(middle[0]);
          middle := middle[1..];
          starving := Increment(starving);
          return;
        }
      }
      r := None;
    }
  }

  /** Nothing is served only when nothing waits, whatever the counter says. */
  lemma NoneMeansEmpty(q: Queues)
    ensures Next(q).None? <==> q.highest == [] && q.middle == [] && q.lowest == []
    ensures Next(q).Some? ==> Of(q, Next(q).value) != []
  {
  }

  // -------------------------------------------------------------- fairness

  datatype Event = Push(p: Packet) | Pop

  function After(q: Queues, e: Event): Queues {
    match e
    case Push(p) => Pushed(q, p)
    case Pop => if Next(q).Some? then Served(q, Next(q).value) else q
  }

  /** How many pops of a class a sequence of events performs. */
  function Pops(q: Queues, events: seq<Event>, c: Class): nat
    decreases |events|
  {
    if events == [] then 0
    else (if events[0].Pop? && Next(q) == Some(c) then 1 else 0) + Pops(After(q, events[0]), events[1..], c)
  }

  function Run(q: Queues, events: seq<Event>): Queues
    decreases |events|
  {
    if events == [] then q else Run(After(q, events[0]), events[1..])
  }

  /** The class has a packet waiting before every event. */
  predicate Waits(q: Queues, events: seq<Event>, c: Class)
    decreases |events|
  {
    events != [] ==> Of(q, c) != [] && Waits(After(q, events[0]), events[1..], c)
  }

  function Capped(x: uint8): nat { if x < MAX_STARVING then x as int else 8 }

  lemma {:induction false} MiddleServed(q: Queues, events: seq<Event>)
    requires Waits(q, events, Lowest)
    ensures Pops(q, events, Middle) + Capped(q.starving)
            <= 8 * Pops(q, events, Lowest) + Capped(Run(q, events).starving)
    decreases |events|
  {
    if events != [] {
      MiddleServed(After(q, events[0]), events[1..]);
    }
  }

  /** Which flags are in which class: pings before everything, what opens a connection before what it carries. */
  lemma ClassExact(flag: byte)
    ensures ClassOf(flag) == Highest <==> flag == 0 || flag == 8
    ensures ClassOf(flag) == Middle <==> flag == 1 || flag == 2 || flag == 6
    ensures ClassOf(flag) == Lowest <==> flag == 3 || flag == 4 || flag == 5 || flag == 7 || flag > 8
  {
  }

  /** As long as a ping waits, nothing else leaves; and what it then finds still waits. */
  lemma {:induction false} PingsGoFirst(q: Queues, events: seq<Event>)
    requires Waits(q, events, Highest)
    ensures Pops(q, events, Middle) == 0 && Pops(q, events, Lowest) == 0
    ensures q.middle <= Run(q, events).middle && q.lowest <= Run(q, events).lowest
    ensures Run(q, events).starving == q.starving
    decreases |events|
  {
    if events != [] {
      PingsGoFirst(After(q, events[0]), events[1..]);
    }
  }

  /** How often the counter must be halved before it lets the middle class through. */
  function Halvings(x: uint8): nat {
    if x < MAX_STARVING then 0 else 1 + Halvings(x / 2)
  }

  lemma {:induction false} HalvingsValue(x: uint8)
    ensures Halvings(x) == if x < 8 then 0 else if x < 16 then 1 else if x < 32 then 2
                           else if x < 64 then 3 else if x < 128 then 4 else 5
  {
    if x >= 8 {
      HalvingsValue(x / 2);
    }
  }

  lemma HalvingsGrow(x: uint8)
    ensures Halvings(x) <= 5
    ensures Halvings(Increment(x)) <= Halvings(x) + 1
  {
    HalvingsValue(x);
    HalvingsValue(Increment(x));
  }

  lemma {:induction false} LowestServed(q: Queues, events: seq<Event>)
    requires Waits(q, events, Middle)
    ensures Pops(q, events, Lowest) + Halvings(Run(q, events).starving)
            <= Pops(q, events, Middle) + Halvings(q.starving)
    decreases |events|
  {
    if events != [] {
      HalvingsGrow(q.starving);
      LowestServed(After(q, events[0]), events[1..]);
    }
  }

  /** A packet with `k` packets before it waits as long as its class has been served at most `k` times. */
  lemma {:induction false} StillWaiting(q: Queues, events: seq<Event>, c: Class, k: nat)
    requires k < |Of(q, c)| && Pops(q, events, c) <= k
    ensures Waits(q, events, c)
    decreases |events|
  {
    if events != [] {
      var served := events[0].Pop? && Next(q) == Some(c);
      if !(served && k == 0) {
        StillWaiting(After(q, events[0]), events[1..], c, if served then k - 1 else k);
      }
    }
  }

  /**
  A lowest-class packet with `k` before it sees at most 8 * (k + 1) pops of the
  middle class before it leaves, from any value of the counter.
  */
  lemma LowestIsNotStarved(q: Queues, events: seq<Event>, k: nat)
    requires k < |q.lowest| && Pops(q, events, Lowest) <= k
    ensures Pops(q, events, Middle) <= 8 * (k + 1)
  {
    StillWaiting(q, events, Lowest, k);
    MiddleServed(q, events);
  }

  /**
  A middle-class packet with `k` before it sees at most k + 5 pops of the lowest
  class before it leaves, from any value of the counter, also one left by its wrap.
  */
  lemma MiddleIsNotStarved(q: Queues, events: seq<Event>, k: nat)
    requires k < |q.middle| && Pops(q, events, Middle) <= k
    ensures Pops(q, events, Lowest) <= k + 5
  {
    StillWaiting(q, events, Middle, k);
    LowestServed(q, events);
    HalvingsGrow(q.starving);
  }

  // ------------------------------------------------------------------ order

  /** The packet of a class that an event pushes, if any. */
  function Arriving(e: Event, c: Class): seq<Packet> {
    if e.Push? && ClassOf(e.p.flag) == c then [e.p] else []
  }

  /** The packet of a class that an event pops, if any. */
  function Leaving(q: Queues, e: Event, c: Class): seq<Packet> {
    if e.Pop? && Next(q) == Some(c) then Of(q, c)[..1] else []
  }

  /** The packets of a class that are pushed, in order. */
  function Arrivals(events: seq<Event>, c: Class): seq<Packet> {
    if events == [] then [] else Arriving(events[0], c) + Arrivals(events[1..], c)
  }

  /** The packets of a class that are popped, in order. */
  function PoppedOf(q: Queues, events: seq<Event>, c: Class): seq<Packet>
    decreases |events|
  {
    if events == [] then [] else Leaving(q, events[0], c) + PoppedOf(After(q, events[0]), events[1..], c)
  }

  /** One event takes from the front of a class and adds at its end. */
  lemma EventIsFifo(q: Queues, e: Event, c: Class)
    ensures Of(q, c) + Arriving(e, c) == Leaving(q, e, c) + Of(After(q, e), c)
  {
    NoneMeansEmpty(q);
  }

  lemma Through<T>(a: seq<T>, x: seq<T>, y: seq<T>, b: seq<T>, r: seq<T>, p: seq<T>, f: seq<T>)
    requires a + x == y + b && b + r == p + f
    ensures a + (x + r) == (y + p) + f
  {
    assert a + (x + r) == (a + x) + r;
    assert y + (b + r) == (y + b) + r;
    assert y + (p + f) == (y + p) + f;
  }

  /**
  Each class is first in, first out, over any events from any state: what waited,
  followed by what was pushed, is what was popped, followed by what waits now.
  */
  lemma {:induction false} ClassIsFifo(q: Queues, events: seq<Event>, c: Class)
    ensures Of(q, c) + Arrivals(events, c) == PoppedOf(q, events, c) + Of(Run(q, events), c)
    decreases |events|
  {
    if events != [] {
      var e, t, rest := events[0], After(q, events[0]), events[1..];
      EventIsFifo(q, e, c);
      ClassIsFifo(t, rest, c);
      Through(Of(q, c), Arriving(e, c), Leaving(q, e, c), Of(t, c),
              Arrivals(rest, c), PoppedOf(t, rest, c), Of(Run(t, rest), c));
    }
  }

  /** Pops counts the popped packets. */
  lemma {:induction false} PopsIsLength(q: Queues, events: seq<Event>, c: Class)
    ensures Pops(q, events, c) == |PoppedOf(q, events, c)|
    decreases |events|
  {
    if events != [] {
      NoneMeansEmpty(q);
      PopsIsLength(After(q, events[0]), events[1..], c);
    }
  }
}
