/**
bufDequeue: the lock-free ring of the multiplexer, with 32-bit indices that wrap.
A ring is described by its packed index word and its slots, together with the
history that a proof needs: every value in the order in which the compare-and-
swap of the head admitted it, and the unwrapped tail.
*/
module Ring {
  import opened Basics
  import opened Window

  /**
  `word` and `slots` are what the code stores. `log` is every value admitted so
  far, so its length is the unwrapped head; `tail` is the unwrapped tail; `owed`
  are the indices admitted and not yet stored; `taken` says that the consumer
  has emptied the tail slot and not yet advanced the tail.
  */
  datatype Ring<V> = Ring(word: nat, slots: seq<Option<V>>, log: seq<V>, tail: nat, owed: set<nat>, taken: bool)

  const LIMIT := TWO32 / 4

  function Two(k: nat): (p: nat)
    ensures p > 0
  {
    if k == 0 then 1 else 2 * Two(k - 1)
  }

  /** A ring's size: a power of two up to dequeueLimit. */
  ghost predicate SizeOk(n: nat) {
    exists k: nat :: k <= 30 && n == Two(k)
  }

  /** The size of the ring that replaces a full one of size `n`. */
  function Grown(n: nat): nat {
    if n * 2 >= LIMIT then LIMIT else n * 2
  }

  lemma {:induction false} TwoPlus(a: nat, b: nat)
    ensures Two(a + b) == Two(a) * Two(b)
  {
    if a > 0 {
      TwoPlus(a - 1, b);
      assert Two(a) * Two(b) == 2 * (Two(a - 1) * Two(b));
    }
  }

  lemma {:induction false} TwoGrows(a: nat, b: nat)
    requires a <= b
    ensures Two(a) <= Two(b)
  {
    if a < b {
      TwoGrows(a, b - 1);
    }
  }

  /** Stated of variables, so that the solver does not unroll the powers. */
  lemma TwoValues(e: nat, t: nat, u: nat)
    requires e == 8 && t == 30 && u == 32
    ensures Two(t) == LIMIT && Two(u) == TWO32
  {
    var d := e - 4;
    assert Two(d - 3) == 2 && Two(d - 2) == 4;
    TwoPlus(d - 2, d - 2);
    TwoPlus(d, d);
    TwoPlus(e, e);
    TwoPlus(2 * e, 2 * e);
    TwoPlus(d - 2, t);
  }

  lemma GrownOk(n: nat)
    requires SizeOk(n)
    ensures SizeOk(Grown(n))
  {
    var k: nat :| k <= 30 && n == Two(k);
    TwoValues(8, 30, 32);
    if k < 30 {
      assert n * 2 == Two(k + 1);
    }
  }

  /** A ring's size divides the range of an index, so wrapping an index keeps its slot. */
  lemma SizeDivides(n: nat)
    requires SizeOk(n)
    ensures 0 < n <= LIMIT && TWO32 % n == 0
  {
    var k: nat :| k <= 30 && n == Two(k);
    PowerDivides(k, 30, 32);
  }

  lemma PowerDivides(k: nat, t: nat, u: nat)
    requires k <= t == 30 && u == 32
    ensures 0 < Two(k) <= LIMIT && TWO32 % Two(k) == 0
  {
    TwoValues(8, t, u);
    TwoPlus(u - k, k);
    TwoGrows(k, t);
    DivRem(TWO32, Two(u - k), 0, Two(k));
  }

  function Empty<V>(n: nat): (r: Ring<V>)
    requires SizeOk(n)
  {
    Ring(0, seq(n, _ => None), [], 0, {}, false)
  }

  // ------------------------------------------------------- the code's steps

  /** The test in pushHead that the ring is full, on a loaded word. */
  predicate LooksFull(word: nat, n: nat) {
    var (head, tail) := UnpackPair(word);
    (tail + n) % TWO32 == head
  }

  /** The test in popTail that the ring is empty, on a loaded word. */
  predicate LooksEmpty(word: nat) {
    var (head, tail) := UnpackPair(word);
    tail == head
  }

  /** The slot that pushHead writes: head & (n-1), a remainder because n is a power of two. */
  function HeadSlot(word: nat, n: nat): (i: nat)
    requires n > 0
    ensures i < n
  {
    UnpackPair(word).0 % n
  }

  /** The slot that popTail reads. */
  function TailSlot(word: nat, n: nat): (i: nat)
    requires n > 0
    ensures i < n
  {
    UnpackPair(word).1 % n
  }

  /** The compare-and-swap of pushHead, once it succeeds against `ptrs`. */
  function Claim<V>(r: Ring<V>, ptrs: nat, v: V): Ring<V> {
    var (head, tail) := UnpackPair(ptrs);
    r.(word := PackPair((head + 1) % TWO32, tail), log := r.log + [v], owed := r.owed + {|r.log|})
  }

  /** The plain store of pushHead into the slot it owns, for the value admitted as number `h`. */
  function Store<V>(r: Ring<V>, slot: nat, v: V, h: nat): Ring<V>
    requires slot < |r.slots|
  {
    r.(slots := r.slots[slot := Some(v)], owed := r.owed - {h})
  }

  /** The compare-and-swap of popTail that empties the slot. */
  function Take<V>(r: Ring<V>, slot: nat): Ring<V>
    requires slot < |r.slots|
  {
    r.(slots := r.slots[slot := None], taken := true)
  }

  /** What popTail adds to the word: 1, or the constant that wraps the low half without a carry. */
  function TailStep(tail: nat): nat {
    if tail < TWO32 - 1 then 1 else TWO64 - 1 - (TWO32 - 1 - 1)
  }

  /** The atomic addition at the end of popTail, for the tail index it had loaded. */
  function Advance<V>(r: Ring<V>, tail: nat): Ring<V> {
    r.(word := (r.word + TailStep(tail)) % TWO64, tail := r.tail + 1, taken := false)
  }

  // -------------------------------------------------------------- invariant

  /** The first index that the consumer has not emptied. */
  function First<V>(r: Ring<V>): nat {
    if r.taken then r.tail + 1 else r.tail
  }

  /** What the slot of index `i` must hold, for an index in the ring's current window. */
  function Due<V>(r: Ring<V>, i: nat): Option<V> {
    if i < |r.log| && i !in r.owed then Some(r.log[i]) else None
  }

  ghost predicate Counts<V>(r: Ring<V>) {
    && SizeOk(|r.slots|) && 0 < |r.slots| <= LIMIT
    && r.tail <= |r.log| <= r.tail + |r.slots|
    && First(r) <= |r.log|
    && r.word == PackPair(|r.log| % TWO32, r.tail % TWO32)
  }

  ghost predicate RingOk<V>(r: Ring<V>) {
    && Counts(r)
    && (forall i :: i in r.owed ==> First(r) <= i < |r.log|)
    && (forall i {:trigger Due(r, i)} :: First(r) <= i < First(r) + |r.slots| ==> r.slots[i % |r.slots|] == Due(r, i))
  }

  // ----------------------------------------------------------- arithmetic

  lemma MultipleGap(k: int, n: nat)
    ensures k * n >= n || k * n <= 0
  {
    if k >= 1 {
      assert k * n == n + (k - 1) * n;
    }
  }

  lemma ModDistinct(i: nat, j: nat, n: nat)
    requires n > 0 && i < j < i + n
    ensures i % n != j % n
  {
    MultipleGap(j / n - i / n, n);
    assert j - i == (j / n - i / n) * n + (j % n - i % n);
  }

  lemma AddMultiple(u: nat, j: nat, n: nat)
    requires n > 0
    ensures (u + j * n) % n == u % n
  {
    assert (u / n + j) * n == (u / n) * n + j * n;
    DivRem(u + j * n, u / n + j, u % n, n);
  }

  lemma ModOfMultiple(h: nat, m: nat, n: nat)
    requires n > 0 && m > 0 && m % n == 0
    ensures h % m % n == h % n
  {
    var q, k := h / m, m / n;
    assert h == h % m + q * m && m == k * n;
    MulAssoc(q, k, n);
    AddMultiple(h % m, q * k, n);
  }

  lemma MulAssoc(q: nat, k: nat, n: nat)
    ensures q * (k * n) == (q * k) * n
  {
  }

  lemma ModOfMod(h: nat, n: nat)
    requires SizeOk(n)
    ensures n > 0 && h % TWO32 % n == h % n
  {
    SizeDivides(n);
    ModOfMultiple(h, TWO32, n);
  }

  lemma ModPlus(a: nat, n: nat)
    ensures (a % TWO32 + n) % TWO32 == (a + n) % TWO32
  {
  }

  /** Equal modulo 2^32 and close together means equal. */
  lemma ModEqual(a: nat, b: nat)
    requires a <= b < a + TWO32 && a % TWO32 == b % TWO32
    ensures a == b
  {
  }

  lemma Unpacked<V>(r: Ring<V>)
    requires Counts(r)
    ensures UnpackPair(r.word) == (|r.log| % TWO32, r.tail % TWO32)
  {
    UnpackPair2(|r.log| % TWO32, r.tail % TWO32);
  }

  /** The ring looks full exactly when it holds as many unfinished indices as it has slots. */
  lemma FullIsExact<V>(r: Ring<V>)
    requires Counts(r)
    ensures LooksFull(r.word, |r.slots|) <==> |r.log| == r.tail + |r.slots|
  {
    Unpacked(r);
    ModPlus(r.tail, |r.slots|);
    if LooksFull(r.word, |r.slots|) {
      ModEqual(|r.log|, r.tail + |r.slots|);
    }
  }

  /** The ring looks empty exactly when every admitted value has left. */
  lemma EmptyIsExact<V>(r: Ring<V>)
    requires Counts(r)
    ensures LooksEmpty(r.word) <==> |r.log| == r.tail
  {
    Unpacked(r);
    if LooksEmpty(r.word) {
      ModEqual(r.tail, |r.log|);
    }
  }

  lemma SlotsAreIndices<V>(r: Ring<V>)
    requires Counts(r)
    ensures HeadSlot(r.word, |r.slots|) == |r.log| % |r.slots|
    ensures TailSlot(r.word, |r.slots|) == r.tail % |r.slots|
  {
    Unpacked(r);
    ModOfMod(|r.log|, |r.slots|);
    ModOfMod(r.tail, |r.slots|);
  }

  /** Adding the tail step moves the tail by one and leaves the head alone, also across the wrap. */
  lemma AdvanceWord(head: nat, tail: nat)
    requires head < TWO32 && tail < TWO32
    ensures (PackPair(head, tail) + TailStep(tail)) % TWO64 == PackPair(head, (tail + 1) % TWO32)
  {
    assert PackPair(head, tail) == head * TWO32 + tail;
  }

  // ------------------------------------------------------- what steps keep

  lemma EmptyOk<V>(n: nat)
    requires SizeOk(n)
    ensures RingOk(Empty<V>(n))
  {
    SizeDivides(n);
  }

  /** Claiming an index in a ring that is not full; it may race with a consumer that has taken and not advanced. */
  lemma ClaimOk<V>(r: Ring<V>, v: V)
    requires RingOk(r) && !LooksFull(r.word, |r.slots|)
    ensures RingOk(Claim(r, r.word, v))
  {
    var s := Claim(r, r.word, v);
    FullIsExact(r);
    Unpacked(r);
    ModPlus(|r.log|, 1);
    assert Counts(s);
    forall i {:trigger Due(s, i)} | First(s) <= i < First(s) + |s.slots|
      ensures s.slots[i % |s.slots|] == Due(s, i)
    {
      assert r.slots[i % |r.slots|] == Due(r, i);
    }
  }

  /** The claimed slot is empty until its owner fills it: nothing is ever overwritten. */
  lemma OwedSlotIsFree<V>(r: Ring<V>, h: nat)
    requires RingOk(r) && h in r.owed
    ensures r.slots[h % |r.slots|] == None
  {
    assert Due(r, h) == None;
  }

  lemma StoreOk<V>(r: Ring<V>, h: nat)
    requires RingOk(r) && h in r.owed
    ensures RingOk(Store(r, h % |r.slots|, r.log[h], h))
  {
    var n := |r.slots|;
    var s := Store(r, h % n, r.log[h], h);
    forall i {:trigger Due(s, i)} | First(s) <= i < First(s) + n
      ensures s.slots[i % n] == Due(s, i)
    {
      assert r.slots[i % n] == Due(r, i);
      if i < h { ModDistinct(i, h, n); }
      if h < i { ModDistinct(h, i, n); }
    }
  }

  /** A filled tail slot holds exactly the oldest value not yet taken. */
  lemma TailHoldsOldest<V>(r: Ring<V>)
    requires RingOk(r) && !r.taken && r.slots[r.tail % |r.slots|].Some?
    ensures r.tail < |r.log| && r.tail !in r.owed
    ensures r.slots[r.tail % |r.slots|] == Some(r.log[r.tail])
  {
    assert Due(r, r.tail) == r.slots[r.tail % |r.slots|];
  }

  lemma TakeOk<V>(r: Ring<V>)
    requires RingOk(r) && !r.taken && r.slots[r.tail % |r.slots|].Some?
    ensures RingOk(Take(r, r.tail % |r.slots|))
  {
    var n := |r.slots|;
    TailHoldsOldest(r);
    var s := Take(r, r.tail % n);
    forall i {:trigger Due(s, i)} | First(s) <= i < First(s) + n
      ensures s.slots[i % n] == Due(s, i)
    {
      if i < r.tail + n {
        assert r.slots[i % n] == Due(r, i);
        ModDistinct(r.tail, i, n);
      } else {
        WrapSlot(r.tail, n);
      }
    }
  }

  lemma WrapSlot(t: nat, n: nat)
    requires n > 0
    ensures (t + n) % n == t % n
  {
    DivRem(t + n, t / n + 1, t % n, n);
  }

  lemma AdvanceOk<V>(r: Ring<V>)
    requires RingOk(r) && r.taken
    ensures RingOk(Advance(r, r.tail % TWO32))
  {
    var s := Advance(r, r.tail % TWO32);
    AdvanceWord(|r.log| % TWO32, r.tail % TWO32);
    ModPlus(r.tail, 1);
    forall i {:trigger Due(s, i)} | First(s) <= i < First(s) + |s.slots|
      ensures s.slots[i % |s.slots|] == Due(s, i)
    {
      assert r.slots[i % |r.slots|] == Due(r, i);
    }
  }
}
