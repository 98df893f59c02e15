/** What several modules share: optional values, bytes, and 16-bit numbers in network order. */
module Basics {
  datatype Option<+T> = None | Some(value: T)

  newtype byte = x: int | 0 <= x < 256

  type ByteString = seq<byte>

  function Min(a: nat, b: nat): nat { if a < b then a else b }

  lemma Assoc<T>(a: seq<T>, b: seq<T>, c: seq<T>)
    ensures a + (b + c) == (a + b) + c
  {
  }

  lemma DivRem(u: nat, q: nat, r: nat, d: nat)
    requires d > 0 && u == q * d + r && r < d
    ensures u / d == q && u % d == r
  {
    var k := u / d - q;
    assert k * d == r - u % d;
  }

  function U16(hi: byte, lo: byte): (n: nat)
    ensures n < 0x1_0000
  {
    hi as nat * 256 + lo as nat
  }

  function Pair(n: nat): (b: ByteString)
    requires n < 0x1_0000
    ensures |b| == 2 && U16(b[0], b[1]) == n
  {
    [(n / 256) as byte, (n % 256) as byte]
  }

  lemma PairBack(a: byte, b: byte)
    ensures Pair(U16(a, b)) == [a, b]
  {
    DivRem(U16(a, b), a as nat, b as nat, 256);
  }
}
