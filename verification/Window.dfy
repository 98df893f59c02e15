/**
The 64-bit words of the multiplexer's windows: constants, and the packing of a
wait bit, a 31-bit size and a 31-bit count into one machine word.
*/
module Window {
  import opened Basics

  const TWO31 := 0x8000_0000
  const TWO32 := 0x1_0000_0000
  const TWO63 := 0x8000_0000_0000_0000
  const TWO64 := 0x1_0000_0000_0000_0000

  /** poolSizeWindow: what a 4096-byte buffer leaves for content. */
  const SEGMENT := 4096 - 2 - 4 - 4 - 1

  const INITIAL_WINDOW := SEGMENT * 30

  /** What one packed word says. */
  datatype Word = Word(size: nat, done: nat, wait: bool)

  predicate Fits(w: Word) {
    w.size < TWO31 && w.done < TWO31
  }

  /** The word that pack produces for these arguments: both counts are masked to 31 bits. */
  function PackWord(size: nat, done: nat, wait: bool): (w: Word)
    ensures Fits(w)
    ensures size < TWO31 ==> w.size == size
    ensures done < TWO31 ==> w.done == done
    ensures w.wait == wait
  {
    Word(size % TWO31, done % TWO31, wait)
  }

  /** window.pack: shifts and ors of disjoint bit ranges, written as sums. */
  function Pack(size: nat, done: nat, wait: bool): (u: nat)
  {
    (if wait then TWO63 else 0) + (size % TWO31) * TWO32 + done % TWO31
  }

  /** window.unpack: shifts are divisions, masks are remainders. */
  function Unpack(u: nat): (w: Word)
  {
    Word(u / TWO32 % TWO31, u % TWO31, u / TWO63 % 2 == 1)
  }

  /** Packing loses nothing: the word fits 64 bits and unpacks to the masked fields. */
  lemma UnpackPack(size: nat, done: nat, wait: bool)
    ensures Pack(size, done, wait) < TWO64
    ensures Unpack(Pack(size, done, wait)) == PackWord(size, done, wait)
  {
    var u := Pack(size, done, wait);
    var hi, lo := size % TWO31, done % TWO31;
    assert u == ((if wait then TWO31 else 0) + hi) * TWO32 + lo;
    DivRem(u, (if wait then TWO31 else 0) + hi, lo, TWO32);
    DivRem(u / TWO32, if wait then 1 else 0, hi, TWO31);
    DivRem(u, if wait then 1 else 0, hi * TWO32 + lo, TWO63);
    LowBits(u);
  }

  /** Comparing packed words is comparing what they say. */
  lemma PackInjective(v: Word, w: Word)
    requires Fits(v) && Fits(w)
    requires Pack(v.size, v.done, v.wait) == Pack(w.size, w.done, w.wait)
    ensures v == w
  {
    UnpackPack(v.size, v.done, v.wait);
    UnpackPack(w.size, w.done, w.wait);
  }

  lemma LowBits(u: nat)
    ensures u % TWO31 == u % TWO32 % TWO31
  {
  }

  // ------------------------------------- the queue's length-and-wait word

  /** bufDequeue.pack, as receiveWindowQueue uses it: length above, wait below. */
  function PackPair(high: nat, low: nat): (u: nat) {
    (high % TWO32) * TWO32 + low % TWO32
  }

  /** bufDequeue.unpack. */
  function UnpackPair(u: nat): (p: (nat, nat)) {
    (u / TWO32 % TWO32, u % TWO32)
  }

  lemma UnpackPair2(high: nat, low: nat)
    requires high < TWO32 && low < TWO32
    ensures PackPair(high, low) < TWO64
    ensures UnpackPair(PackPair(high, low)) == (high, low)
  {
    DivRem(PackPair(high, low), high, low, TWO32);
  }

  /** What TryPop adds to the word for an element of length `l`: the complement of l<<32 - 1. */
  function MinusLength(l: nat): nat
    requires l < TWO31
  {
    if l == 0 then 0 else TWO64 - 1 - (l * TWO32 - 1)       // 0 - 1 wraps to all ones, whose complement is 0
  }

  /** The wrapping addition in TryPop takes exactly `l` off the length and leaves the wait mark alone. */
  lemma MinusWraps(len: nat, wait: nat, l: nat)
    requires l <= len < TWO32 && l < TWO31 && wait <= 1
    ensures (PackPair(len, wait) + MinusLength(l)) % TWO64 == PackPair(len - l, wait)
  {
    var sum := PackPair(len, wait) + MinusLength(l);
    if l == 0 {
      DivRem(sum, 0, PackPair(len, wait), TWO64);
    } else {
      DivRem(sum, 1, PackPair(len - l, wait), TWO64);
    }
  }

  lemma TryPopSubtracts(len: nat, wait: nat, l: nat)
    requires l <= len < TWO32 && l < TWO31 && wait <= 1
    ensures UnpackPair((PackPair(len, wait) + MinusLength(l)) % TWO64) == (len - l, wait)
  {
    UnpackPair2(len - l, wait);
    MinusWraps(len, wait, l);
  }
}
