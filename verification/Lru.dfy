/**
The LRU cache: what its operations make of the list of entries, front first, and why a
larger cache always holds what a smaller one holds.
*/
module Lru {
  import opened Basics

  datatype Entry<K, V> = Entry(key: K, value: V)

  // -------------------------------------------------------------- operations

  function Find<K(==), V>(s: seq<Entry<K, V>>, k: K): Option<V> {
    if s == [] then None else if s[0].key == k then Some(s[0].value) else Find(s[1..], k)
  }

  predicate HasKey<K(==), V>(s: seq<Entry<K, V>>, k: K) { Find(s, k).Some? }

  function Without<K(==), V>(s: seq<Entry<K, V>>, k: K): (r: seq<Entry<K, V>>)
    ensures |r| <= |s|
    ensures !HasKey(s, k) ==> r == s
  {
    if s == [] then [] else if s[0].key == k then Without(s[1..], k) else [s[0]] + Without(s[1..], k)
  }

  function DropLast<T>(s: seq<T>): seq<T> { if s == [] then [] else s[..|s| - 1] }

  /** `max` 0 stands for no limit. */
  function Add<K(==), V>(s: seq<Entry<K, V>>, max: nat, k: K, v: V): seq<Entry<K, V>> {
    var t := [Entry(k, v)] + Without(s, k);
    if !HasKey(s, k) && max != 0 && |t| > max then DropLast(t) else t
  }

  function Get<K(==), V>(s: seq<Entry<K, V>>, k: K): seq<Entry<K, V>> {
    match Find(s, k)
    case None => s
    case Some(v) => [Entry(k, v)] + Without(s, k)
  }

  datatype Op<K, V> = OpAdd(key: K, value: V) | OpGet(key: K) | OpRemove(key: K) | OpRemoveOldest

  function Apply<K(==), V>(s: seq<Entry<K, V>>, max: nat, op: Op<K, V>): seq<Entry<K, V>> {
    match op
    case OpAdd(k, v) => Add(s, max, k, v)
    case OpGet(k) => Get(s, k)
    case OpRemove(k) => Without(s, k)
    case OpRemoveOldest => DropLast(s)
  }

  function Run<K(==), V>(s: seq<Entry<K, V>>, max: nat, ops: seq<Op<K, V>>): seq<Entry<K, V>>
    decreases |ops|
  {
    if ops == [] then s else Run(Apply(s, max, ops[0]), max, ops[1..])
  }

  // ---------------------------------------------------------------- keys

  /** No key occurs twice. */
  predicate Distinct<K(==), V>(s: seq<Entry<K, V>>) {
    s == [] || (!HasKey(s[1..], s[0].key) && Distinct(s[1..]))
  }

  lemma {:induction false} WithoutKeys<K, V>(s: seq<Entry<K, V>>, k: K, j: K)
    ensures Find(Without(s, k), j) == if j == k then None else Find(s, j)
  {
    if s != [] {
      WithoutKeys(s[1..], k, j);
      assert s[0].key != k ==> ([s[0]] + Without(s[1..], k))[1..] == Without(s[1..], k);
    }
  }

  lemma {:induction false} WithoutDistinct<K, V>(s: seq<Entry<K, V>>, k: K)
    requires Distinct(s)
    ensures Distinct(Without(s, k))
    ensures HasKey(s, k) ==> |Without(s, k)| == |s| - 1
  {
    if s != [] {
      WithoutDistinct(s[1..], k);
      if s[0].key != k {
        WithoutKeys(s[1..], k, s[0].key);
        assert ([s[0]] + Without(s[1..], k))[1..] == Without(s[1..], k);
      }
    }
  }

  lemma {:induction false} DropLastKeys<K, V>(s: seq<Entry<K, V>>, k: K)
    requires Distinct(s)
    ensures Distinct(DropLast(s))
    ensures HasKey(DropLast(s), k) ==> HasKey(s, k)
  {
    if |s| > 1 {
      DropLastKeys(s[1..], k);
      DropLastKeys(s[1..], s[0].key);
      DropTail(s);
    }
  }

  lemma FrontDistinct<K, V>(e: Entry<K, V>, s: seq<Entry<K, V>>)
    requires Distinct(s) && !HasKey(s, e.key)
    ensures Distinct([e] + s)
  {
    assert ([e] + s)[1..] == s;
  }

  predicate WithinLimit<T>(s: seq<T>, max: nat) { max != 0 ==> |s| <= max }

  /** Every operation keeps the keys distinct and the length within the limit. */
  lemma ApplyOk<K, V>(s: seq<Entry<K, V>>, max: nat, op: Op<K, V>)
    requires Distinct(s) && WithinLimit(s, max)
    ensures Distinct(Apply(s, max, op)) && WithinLimit(Apply(s, max, op), max)
  {
    match op {
      case OpAdd(k, v) =>
        WithoutDistinct(s, k);
        WithoutKeys(s, k, k);
        FrontDistinct(Entry(k, v), Without(s, k));
        DropLastKeys([Entry(k, v)] + Without(s, k), k);
      case OpGet(k) =>
        WithoutDistinct(s, k);
        WithoutKeys(s, k, k);
        if HasKey(s, k) {
          FrontDistinct(Entry(k, Find(s, k).value), Without(s, k));
        }
      case OpRemove(k) =>
        WithoutDistinct(s, k);
      case OpRemoveOldest =>
        if s != [] {
          DropLastKeys(s, s[0].key);
        }
    }
  }

  lemma {:induction false} RunOk<K, V>(s: seq<Entry<K, V>>, max: nat, ops: seq<Op<K, V>>)
    requires Distinct(s) && WithinLimit(s, max)
    ensures Distinct(Run(s, max, ops)) && WithinLimit(Run(s, max, ops), max)
    decreases |ops|
  {
    if ops != [] {
      ApplyOk(s, max, ops[0]);
      RunOk(Apply(s, max, ops[0]), max, ops[1..]);
    }
  }

  // ------------------------------------------------------------- inclusion

  /** `s` is what is left of `l` when some entries are struck out. */
  predicate Sub<T(==)>(s: seq<T>, l: seq<T>) {
    if s == [] then true
    else if l == [] then false
    else if s[0] == l[0] then Sub(s[1..], l[1..])
    else Sub(s, l[1..])
  }

  lemma {:induction false} SubFind<K, V>(s: seq<Entry<K, V>>, l: seq<Entry<K, V>>, k: K)
    requires Sub(s, l) && Distinct(s) && Distinct(l) && HasKey(s, k)
    ensures Find(l, k) == Find(s, k)
    decreases |l|
  {
    if s[0] == l[0] {
      if s[0].key != k {
        SubFind(s[1..], l[1..], k);
      }
    } else {
      SubFind(s, l[1..], k);
      if l[0].key == k {
        assert HasKey(l[1..], k);
      }
    }
  }

  lemma {:induction false} SubLength<T>(s: seq<T>, l: seq<T>)
    requires Sub(s, l)
    ensures |s| <= |l|
    ensures |s| == |l| ==> s == l
    decreases |l|
  {
    if s != [] {
      if s[0] == l[0] {
        SubLength(s[1..], l[1..]);
        assert s == [s[0]] + s[1..] && l == [l[0]] + l[1..];
      } else {
        SubLength(s, l[1..]);
      }
    }
  }

  /** A shorter list is still struck out of what has one more entry in front. */
  lemma {:induction false} SubSkip<T>(s: seq<T>, e: T, l: seq<T>)
    requires Sub(s, l)
    ensures Sub(s, [e] + l)
    decreases |l|, 1
  {
    assert ([e] + l)[1..] == l;
    if s != [] && s[0] == e {
      SubTail(s, l);
    }
  }

  lemma {:induction false} SubTail<T>(s: seq<T>, l: seq<T>)
    requires Sub(s, l) && s != []
    ensures Sub(s[1..], l)
    decreases |l|, 0
  {
    if s[0] == l[0] {
      assert l == [l[0]] + l[1..];
      SubSkip(s[1..], l[0], l[1..]);
    } else {
      SubTail(s, l[1..]);
      assert l == [l[0]] + l[1..];
      SubSkip(s[1..], l[0], l[1..]);
    }
  }

  lemma SubFront<T>(e: T, s: seq<T>, l: seq<T>)
    requires Sub(s, l)
    ensures Sub([e] + s, [e] + l)
  {
    assert ([e] + s)[1..] == s && ([e] + l)[1..] == l;
  }

  lemma {:induction false} SubWithout<K, V>(s: seq<Entry<K, V>>, l: seq<Entry<K, V>>, k: K)
    requires Sub(s, l)
    ensures Sub(Without(s, k), Without(l, k))
    decreases |l|
  {
    if s != [] {
      if s[0] == l[0] {
        SubWithout(s[1..], l[1..], k);
        if s[0].key != k {
          SubFront(s[0], Without(s[1..], k), Without(l[1..], k));
        }
      } else {
        SubWithout(s, l[1..], k);
        if l[0].key != k {
          SubSkip(Without(s, k), l[0], Without(l[1..], k));
        }
      }
    }
  }

  lemma DropTail<T>(l: seq<T>)
    requires |l| > 1
    ensures DropLast(l) == [l[0]] + DropLast(l[1..]) && DropLast(l)[1..] == DropLast(l[1..])
  {
    assert l == [l[0]] + l[1..];
    assert [l[0]] + DropLast(l[1..]) == ([l[0]] + l[1..])[..|l| - 1];
  }

  lemma {:induction false} SubDropBoth<T>(s: seq<T>, l: seq<T>)
    requires Sub(s, l)
    ensures Sub(DropLast(s), DropLast(l))
    decreases |l|
  {
    if |s| > 1 {
      if s[0] == l[0] {
        SubLength(s[1..], l[1..]);
        SubDropBoth(s[1..], l[1..]);
        DropTail(s);
        DropTail(l);
      } else {
        SubLength(s, l[1..]);
        SubDropBoth(s, l[1..]);
        DropTail(l);
      }
    }
  }

  lemma {:induction false} SubDropShort<T>(s: seq<T>, l: seq<T>)
    requires Sub(s, l)
    ensures Sub(DropLast(s), l)
    decreases |l|
  {
    if |s| > 1 {
      if s[0] == l[0] {
        SubDropShort(s[1..], l[1..]);
        DropTail(s);
      } else {
        SubDropShort(s, l[1..]);
      }
    }
  }

  /** The larger limit, 0 being no limit at all. */
  predicate AtMost(a: nat, b: nat) { b == 0 || (a != 0 && a <= b) }

  /** A cache with limit `a` beside one with limit `b`: the room for what only the larger one holds is never exceeded. */
  predicate Beside<K(==), V(==)>(s: seq<Entry<K, V>>, a: nat, l: seq<Entry<K, V>>, b: nat) {
    && Distinct(s) && Distinct(l) && WithinLimit(s, a) && WithinLimit(l, b)
    && Sub(s, l) && (b != 0 ==> |l| - |s| <= b - a)
  }

  lemma BesideAdd<K, V>(s: seq<Entry<K, V>>, a: nat, l: seq<Entry<K, V>>, b: nat, k: K, v: V)
    requires AtMost(a, b) && Beside(s, a, l, b)
    ensures Sub(Add(s, a, k, v), Add(l, b, k, v))
    ensures b != 0 ==> |Add(l, b, k, v)| - |Add(s, a, k, v)| <= b - a
  {
    var e := Entry(k, v);
    var ts, tl := [e] + Without(s, k), [e] + Without(l, k);
    SubWithout(s, l, k);
    SubFront(e, Without(s, k), Without(l, k));
    SubDropBoth(ts, tl);
    SubDropShort(ts, tl);
    WithoutDistinct(s, k);
    WithoutDistinct(l, k);
    if HasKey(s, k) {
      SubFind(s, l, k);
    }
  }

  lemma BesideGet<K, V>(s: seq<Entry<K, V>>, a: nat, l: seq<Entry<K, V>>, b: nat, k: K)
    requires Beside(s, a, l, b)
    ensures Sub(Get(s, k), Get(l, k)) && |Get(s, k)| == |s| && |Get(l, k)| == |l|
  {
    SubWithout(s, l, k);
    WithoutDistinct(s, k);
    WithoutDistinct(l, k);
    if HasKey(s, k) {
      SubFind(s, l, k);
      SubFront(Entry(k, Find(s, k).value), Without(s, k), Without(l, k));
    } else if HasKey(l, k) {
      SubSkip(s, Entry(k, Find(l, k).value), Without(l, k));
    }
  }

  lemma BesideRemove<K, V>(s: seq<Entry<K, V>>, a: nat, l: seq<Entry<K, V>>, b: nat, k: K)
    requires Beside(s, a, l, b)
    ensures Sub(Without(s, k), Without(l, k))
    ensures b != 0 ==> |Without(l, k)| - |Without(s, k)| <= b - a
  {
    SubWithout(s, l, k);
    WithoutDistinct(s, k);
    WithoutDistinct(l, k);
    if HasKey(s, k) {
      SubFind(s, l, k);
    }
  }

  /** RemoveOldest takes different keys out of the two caches, but the smaller one still holds no more. */
  lemma BesideRemoveOldest<K, V>(s: seq<Entry<K, V>>, a: nat, l: seq<Entry<K, V>>, b: nat)
    requires AtMost(a, b) && Beside(s, a, l, b)
    ensures Sub(DropLast(s), DropLast(l))
    ensures b != 0 ==> |DropLast(l)| - |DropLast(s)| <= b - a
  {
    SubDropBoth(s, l);
    SubLength(s, l);
  }

  lemma BesideStep<K, V>(s: seq<Entry<K, V>>, a: nat, l: seq<Entry<K, V>>, b: nat, op: Op<K, V>)
    requires AtMost(a, b) && Beside(s, a, l, b)
    ensures Beside(Apply(s, a, op), a, Apply(l, b, op), b)
  {
    ApplyOk(s, a, op);
    ApplyOk(l, b, op);
    match op {
      case OpAdd(k, v) => BesideAdd(s, a, l, b, k, v);
      case OpGet(k) => BesideGet(s, a, l, b, k);
      case OpRemove(k) => BesideRemove(s, a, l, b, k);
      case OpRemoveOldest => BesideRemoveOldest(s, a, l, b);
    }
  }

  lemma {:induction false} BesideRun<K, V>(s: seq<Entry<K, V>>, a: nat, l: seq<Entry<K, V>>, b: nat, ops: seq<Op<K, V>>)
    requires AtMost(a, b) && Beside(s, a, l, b)
    ensures Beside(Run(s, a, ops), a, Run(l, b, ops), b)
    decreases |ops|
  {
    if ops != [] {
      BesideStep(s, a, l, b, ops[0]);
      BesideRun(Apply(s, a, ops[0]), a, Apply(l, b, ops[0]), b, ops[1..]);
    }
  }

  /**
  After the same additions, lookups and removals, by key or of the oldest entry, the larger
  cache holds everything that the smaller one holds, in the same order, with the same values.
  */
  lemma Inclusion<K, V>(a: nat, b: nat, ops: seq<Op<K, V>>, k: K)
    requires AtMost(a, b)
    ensures Sub(Run([], a, ops), Run([], b, ops))
    ensures HasKey(Run([], a, ops), k) ==> Find(Run([], b, ops), k) == Find(Run([], a, ops), k)
  {
    BesideRun([], a, [], b, ops);
    if HasKey(Run([], a, ops), k) {
      SubFind(Run([], a, ops), Run([], b, ops), k);
    }
  }

  // --------------------------------------------------------------- recency

  function Adds<K, V>(es: seq<Entry<K, V>>): (ops: seq<Op<K, V>>)
    ensures |ops| == |es|
  {
    if es == [] then [] else Adds(es[..|es| - 1]) + [OpAdd(es[|es| - 1].key, es[|es| - 1].value)]
  }

  lemma {:induction false} RunSnoc<K, V>(s: seq<Entry<K, V>>, max: nat, ops: seq<Op<K, V>>, op: Op<K, V>)
    ensures Run(s, max, ops + [op]) == Apply(Run(s, max, ops), max, op)
    decreases |ops|
  {
    if ops == [] {
      assert (ops + [op])[1..] == [];
    } else {
      assert (ops + [op])[1..] == ops[1..] + [op];
      RunSnoc(Apply(s, max, ops[0]), max, ops[1..], op);
    }
  }

  /** Where the key was added last; -1 if never. */
  function LastAt<K(==), V>(es: seq<Entry<K, V>>, k: K): (p: int)
    ensures -1 <= p < |es|
    ensures p >= 0 ==> es[p].key == k
  {
    if es == [] then -1 else if es[|es| - 1].key == k then |es| - 1 else LastAt(es[..|es| - 1], k)
  }

  predicate Absent<K(==), V>(r: seq<Entry<K, V>>, k: K) { forall i :: 0 <= i < |r| ==> r[i].key != k }

  /**
  The list `r` is made of the last additions of its keys, latest first, and a key is missing
  only when the list is full of keys added after it.
  */
  ghost predicate MostRecent<K, V>(r: seq<Entry<K, V>>, es: seq<Entry<K, V>>, max: nat) {
    && (forall i :: 0 <= i < |r| ==> LastAt(es, r[i].key) >= 0 && es[LastAt(es, r[i].key)] == r[i])
    && (forall i, j :: 0 <= i < j < |r| ==> LastAt(es, r[i].key) > LastAt(es, r[j].key))
    && (forall p :: 0 <= p < |es| && LastAt(es, es[p].key) == p && Absent(r, es[p].key) ==>
          max != 0 && |r| == max && forall i :: 0 <= i < |r| ==> LastAt(es, r[i].key) > p)
  }

  lemma {:induction false} AbsentHasNot<K, V>(r: seq<Entry<K, V>>, k: K)
    ensures Absent(r, k) <==> !HasKey(r, k)
  {
    if r != [] {
      AbsentHasNot(r[1..], k);
      assert r == [r[0]] + r[1..];
    }
  }

  lemma {:induction false} WithoutCut<K, V>(s: seq<Entry<K, V>>, k: K) returns (i: nat)
    requires Distinct(s) && HasKey(s, k)
    ensures i < |s| && s[i].key == k && Without(s, k) == s[..i] + s[i + 1..]
  {
    if s[0].key == k {
      i := 0;
    } else {
      i := WithoutCut(s[1..], k);
      i := i + 1;
      assert s[..i] == [s[0]] + s[1..][..i - 1];
    }
  }

  /** The list `r'` is `e` and then the entries of `r` at the positions `kept`, which have other keys. */
  ghost predicate Picked<K, V>(r: seq<Entry<K, V>>, e: Entry<K, V>, kept: seq<nat>, r': seq<Entry<K, V>>) {
    && |r'| == |kept| + 1 && r'[0] == e
    && (forall i :: 0 <= i < |kept| ==> kept[i] < |r| && r'[i + 1] == r[kept[i]] && r[kept[i]].key != e.key)
    && (forall i, j :: 0 <= i < j < |kept| ==> kept[i] < kept[j])
  }

  /** The numbers from 0 on without `c`. */
  function Skipping(n: nat, c: nat): (s: seq<nat>)
    ensures |s| == n && forall i :: 0 <= i < n ==> s[i] == if i < c then i else i + 1
  {
    seq(n, i => if i < c then i else i + 1)
  }

  lemma SkippingHas(n: nat, c: nat, q: nat)
    requires q <= n && q != c && c <= n
    ensures q in Skipping(n, c)
  {
    var at := if q < c then q else q - 1;
    assert Skipping(n, c)[at] == q;
  }

  lemma PickedCut<K, V>(r: seq<Entry<K, V>>, e: Entry<K, V>, c: nat)
    requires c < |r| && forall q :: 0 <= q < |r| && r[q].key == e.key ==> q == c
    ensures Picked(r, e, Skipping(|r| - 1, c), [e] + (r[..c] + r[c + 1..]))
  {
    var rest := r[..c] + r[c + 1..];
    assert forall i :: 0 <= i < |rest| ==> ([e] + rest)[i + 1] == rest[i];
  }

  lemma AddKnown<K, V>(r: seq<Entry<K, V>>, max: nat, e: Entry<K, V>) returns (kept: seq<nat>)
    requires Distinct(r) && HasKey(r, e.key)
    ensures Picked(r, e, kept, Add(r, max, e.key, e.value)) && |kept| == |r| - 1
    ensures forall q :: 0 <= q < |r| && r[q].key != e.key ==> q in kept
  {
    var c := WithoutCut(r, e.key);
    UniqueKey(r, c);
    kept := Skipping(|r| - 1, c);
    PickedCut(r, e, c);
    forall q | 0 <= q < |r| && r[q].key != e.key
      ensures q in kept
    {
      SkippingHas(|r| - 1, c, q);
    }
  }

  lemma AddNew<K, V>(r: seq<Entry<K, V>>, max: nat, e: Entry<K, V>) returns (kept: seq<nat>)
    requires WithinLimit(r, max) && !HasKey(r, e.key)
    ensures Picked(r, e, kept, Add(r, max, e.key, e.value))
    ensures |kept| == if max != 0 && |r| == max then |r| - 1 else |r|
    ensures forall q :: 0 <= q < |kept| ==> q in kept
  {
    AbsentHasNot(r, e.key);
    var m := if max != 0 && |r| == max then |r| - 1 else |r|;
    kept := seq(m, i requires 0 <= i < m => i);
    forall q | 0 <= q < m
      ensures q in kept
    {
      assert kept[q] == q;
    }
  }

  /** The list after an addition, by positions; only the last entry of a full list can be missing. */
  lemma AddShape<K, V>(r: seq<Entry<K, V>>, max: nat, e: Entry<K, V>) returns (kept: seq<nat>)
    requires Distinct(r) && WithinLimit(r, max)
    ensures Picked(r, e, kept, Add(r, max, e.key, e.value))
    ensures forall q :: 0 <= q < |r| && r[q].key != e.key && q !in kept ==> q == |r| - 1 && max != 0 && |kept| + 1 == max
    ensures max != 0 && |r| == max ==> |kept| + 1 == max
  {
    AbsentHasNot(r, e.key);
    if HasKey(r, e.key) {
      kept := AddKnown(r, max, e);
    } else {
      kept := AddNew(r, max, e);
    }
  }

  lemma {:induction false} UniqueKey<K, V>(s: seq<Entry<K, V>>, c: nat)
    requires Distinct(s) && c < |s|
    ensures forall q :: 0 <= q < |s| && s[q].key == s[c].key ==> q == c
    decreases |s|
  {
    AbsentHasNot(s[1..], s[0].key);
    assert forall q :: 1 <= q < |s| ==> s[q] == s[1..][q - 1];
    if c > 0 {
      UniqueKey(s[1..], c - 1);
    }
  }

  lemma LastAtSnoc<K, V>(es: seq<Entry<K, V>>, e: Entry<K, V>, k: K)
    ensures LastAt(es + [e], k) == if k == e.key then |es| else LastAt(es, k)
  {
    assert (es + [e])[..|es|] == es;
  }

  lemma RecentEntries<K, V>(r: seq<Entry<K, V>>, es: seq<Entry<K, V>>, max: nat, e: Entry<K, V>, r': seq<Entry<K, V>>, kept: seq<nat>)
    requires MostRecent(r, es, max) && Picked(r, e, kept, r')
    ensures forall i :: 0 <= i < |r'| ==> LastAt(es + [e], r'[i].key) >= 0 && (es + [e])[LastAt(es + [e], r'[i].key)] == r'[i]
    ensures forall i, j :: 0 <= i < j < |r'| ==> LastAt(es + [e], r'[i].key) > LastAt(es + [e], r'[j].key)
  {
    forall i | 0 <= i < |r'|
      ensures LastAt(es + [e], r'[i].key) == if i == 0 then |es| else LastAt(es, r'[i].key)
    {
      LastAtSnoc(es, e, r'[i].key);
      if i > 0 {
        assert r'[i - 1 + 1] == r[kept[i - 1]];
      }
    }
    forall i | 0 < i < |r'|
      ensures 0 <= LastAt(es, r'[i].key) && es[LastAt(es, r'[i].key)] == r'[i]
    {
      assert r'[i - 1 + 1] == r[kept[i - 1]];
    }
    forall i, j | 0 < i < j < |r'|
      ensures LastAt(es, r'[i].key) > LastAt(es, r'[j].key)
    {
      assert r'[i - 1 + 1] == r[kept[i - 1]] && r'[j - 1 + 1] == r[kept[j - 1]];
    }
  }

  lemma RecentMissing<K, V>(r: seq<Entry<K, V>>, es: seq<Entry<K, V>>, max: nat, e: Entry<K, V>, p: nat)
    requires Distinct(r) && WithinLimit(r, max) && MostRecent(r, es, max)
    requires p < |es| && LastAt(es + [e], es[p].key) == p && Absent(Add(r, max, e.key, e.value), es[p].key)
    ensures max != 0 && |Add(r, max, e.key, e.value)| == max
    ensures forall i :: 0 <= i < |Add(r, max, e.key, e.value)| ==> LastAt(es + [e], Add(r, max, e.key, e.value)[i].key) > p
  {
    var r' := Add(r, max, e.key, e.value);
    var kept := AddShape(r, max, e);
    var k := es[p].key;
    LastAtSnoc(es, e, k);
    forall i | 0 <= i < |kept|
      ensures r[kept[i]].key != k
    {
      assert r'[i + 1] == r[kept[i]];
    }
    forall i | 0 <= i < |r'|
      ensures LastAt(es + [e], r'[i].key) > p
    {
      LastAtSnoc(es, e, r'[i].key);
      if i > 0 {
        assert r'[i - 1 + 1] == r[kept[i - 1]];
      }
    }
  }

  lemma RecentStep<K, V>(r: seq<Entry<K, V>>, es: seq<Entry<K, V>>, max: nat, e: Entry<K, V>)
    requires Distinct(r) && WithinLimit(r, max) && MostRecent(r, es, max)
    ensures MostRecent(Add(r, max, e.key, e.value), es + [e], max)
  {
    var r' := Add(r, max, e.key, e.value);
    var kept := AddShape(r, max, e);
    RecentEntries(r, es, max, e, r', kept);
    forall p | 0 <= p < |es + [e]| && LastAt(es + [e], (es + [e])[p].key) == p && Absent(r', (es + [e])[p].key)
      ensures max != 0 && |r'| == max && forall i :: 0 <= i < |r'| ==> LastAt(es + [e], r'[i].key) > p
    {
      if p < |es| {
        RecentMissing(r, es, max, e, p);
      }
    }
  }

  /** After additions only, the cache holds exactly the most recently added keys, latest first, with their last values. */
  lemma {:induction false} HoldsMostRecent<K, V>(max: nat, es: seq<Entry<K, V>>)
    ensures Distinct(Run([], max, Adds(es))) && WithinLimit(Run([], max, Adds(es)), max)
    ensures MostRecent(Run([], max, Adds(es)), es, max)
  {
    RunOk([], max, Adds(es));
    if es != [] {
      HoldsMostRecent(max, es[..|es| - 1]);
      AddsLast(max, es);
      RecentLast(Run([], max, Adds(es[..|es| - 1])), max, es);
    }
  }

  lemma RecentLast<K, V>(r: seq<Entry<K, V>>, max: nat, es: seq<Entry<K, V>>)
    requires es != [] && Distinct(r) && WithinLimit(r, max) && MostRecent(r, es[..|es| - 1], max)
    ensures MostRecent(Add(r, max, es[|es| - 1].key, es[|es| - 1].value), es, max)
  {
    var before, e := es[..|es| - 1], es[|es| - 1];
    RecentStep(r, before, max, e);
    assert before + [e] == es;
  }

  lemma AddsLast<K, V>(max: nat, es: seq<Entry<K, V>>)
    requires es != []
    ensures var before, e := es[..|es| - 1], es[|es| - 1];
      Run([], max, Adds(es)) == Add(Run([], max, Adds(before)), max, e.key, e.value)
  {
    var before, e := es[..|es| - 1], es[|es| - 1];
    RunSnoc([], max, Adds(before), OpAdd(e.key, e.value));
  }
}
