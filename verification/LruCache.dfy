/** The Cache object: a list of elements and a map from keys to the same elements, updated together. */
module LruCache {
  import opened Basics
  import opened Lru

  class Element<K, V> {
    const key: K
    var value: V

    constructor (key: K, value: V)
      ensures this.key == key && this.value == value
    {
      this.key, this.value := key, value;
    }
  }

  /** The entries of a list of elements. */
  ghost function Entries<K, V>(ll: seq<Element<K, V>>): (s: seq<Entry<K, V>>)
    reads ll
    ensures |s| == |ll| && forall i :: 0 <= i < |ll| ==> s[i] == Entry(ll[i].key, ll[i].value)
  {
    if ll == [] then [] else [Entry(ll[0].key, ll[0].value)] + Entries(ll[1..])
  }

  /** The list and the map hold the same elements, each once and under its own key. */
  ghost predicate Linked<K, V>(ll: seq<Element<K, V>>, cache: map<K, Element<K, V>>) {
    && (forall i :: 0 <= i < |ll| ==> ll[i].key in cache && cache[ll[i].key] == ll[i])
    && (forall k :: k in cache ==> cache[k].key == k && cache[k] in ll)
    && (forall i, j :: 0 <= i < j < |ll| ==> ll[i] != ll[j])
  }

  class Cache<K(==), V> {
    /** 0 stands for no limit. */
    const maxEntries: nat
    /** Front first. */
    var ll: seq<Element<K, V>>
    var cache: map<K, Element<K, V>>

    ghost predicate Valid()
      reads this
    {
      Linked(ll, cache) && WithinLimit(ll, maxEntries)
    }

    ghost function Contents(): (s: seq<Entry<K, V>>)
      reads this, ll
    {
      Entries(ll)
    }

    constructor (maxEntries: nat)
      ensures Valid() && Contents() == [] && this.maxEntries == maxEntries
    {
      this.maxEntries := maxEntries;
      ll, cache := [], map[];
    }

    method Get(key: K) returns (r: Option<V>)
      requires Valid()
      modifies this`ll
      ensures Valid()
      ensures Contents() == Lru.Get(old(Contents()), key) && r == Find(old(Contents()), key)
    {
      Agreement(ll, cache, key);
      if key in cache {
        var ele := cache[key];
        MoveToFront(ele);
        return Some(ele.value);
      }
      return None;
    }

    method MoveToFront(e: Element<K, V>)
      requires Linked(ll, cache) && e in ll
      modifies this`ll
      ensures Linked(ll, cache) && |ll| == |old(ll)| && ll[0] == e
      ensures Entries(ll[1..]) == Without(old(Contents()), e.key)
      ensures Contents() == [Entry(e.key, e.value)] + Without(old(Contents()), e.key)
    {
      var i :| 0 <= i < |ll| && ll[i] == e;
      CutEntries(ll, cache, i);
      FrontLinked(ll, cache, i);
      assert ([e] + Cut(ll, i))[1..] == Cut(ll, i);
      ll := [e] + Cut(ll, i);
    }

    method RemoveElement(e: Element<K, V>)
      requires Linked(ll, cache) && e in ll
      modifies this
      ensures Linked(ll, cache) && |ll| == |old(ll)| - 1
      ensures Contents() == Without(old(Contents()), e.key)
    {
      var i :| 0 <= i < |ll| && ll[i] == e;
      CutEntries(ll, cache, i);
      CutLinked(ll, cache, i);
      ll := Cut(ll, i);
      cache := cache - {e.key};
    }

    method Remove(key: K)
      requires Valid()
      modifies this
      ensures Valid() && Contents() == Without(old(Contents()), key)
    {
      Agreement(ll, cache, key);
      if key in cache {
        RemoveElement(cache[key]);
      }
    }

    method RemoveOldest()
      requires Linked(ll, cache)
      modifies this
      ensures Linked(ll, cache)
      ensures |ll| == if old(ll) == [] then 0 else |old(ll)| - 1
      ensures Contents() == DropLast(old(Contents()))
    {
      if |ll| > 0 {
        LastEntry(ll, cache);
        RemoveElement(ll[|ll| - 1]);
      }
    }

    method Add(key: K, value: V)
      requires Valid()
      modifies this, ll
      ensures Valid()
      ensures Contents() == Lru.Add(old(Contents()), maxEntries, key, value)
    {
      Agreement(ll, cache, key);
      if key in cache {
        AddKnownKey(key, value);
      } else {
        AddNewKey(key, value);
      }
    }

    method PushFront(key: K, value: V)
      requires Linked(ll, cache) && key !in cache
      modifies this
      ensures Linked(ll, cache) && |ll| == |old(ll)| + 1
      ensures Contents() == [Entry(key, value)] + old(Contents())
    {
      var ele := new Element(key, value);
      PushLinked(ll, cache, ele);
      assert ([ele] + ll)[1..] == ll;
      ll := [ele] + ll;
      cache := cache[key := ele];
    }

    method AddNewKey(key: K, value: V)
      requires Valid() && key !in cache
      modifies this
      ensures Valid()
      ensures Contents() == Lru.Add(old(Contents()), maxEntries, key, value)
    {
      Agreement(ll, cache, key);
      PushFront(key, value);
      if maxEntries != 0 && |ll| > maxEntries {
        RemoveOldest();
      }
    }

    method AddKnownKey(key: K, value: V)
      requires Valid() && key in cache
      modifies this`ll, cache[key]
      ensures Valid()
      ensures Contents() == [Entry(key, value)] + Without(old(Contents()), key)
    {
      var ee := cache[key];
      MoveToFront(ee);
      ghost var rest := ll[1..];
      assert ee !in rest;
      ee.value := value;
      assert Entries(rest) == Without(old(Contents()), key);
    }
  }

  // --------------------------------------------------------------- lemmas

  /** The list and the map agree: the same keys, and the value of a key is the same in both. */
  lemma Agreement<K, V>(ll: seq<Element<K, V>>, cache: map<K, Element<K, V>>, k: K)
    requires Linked(ll, cache)
    ensures Distinct(Entries(ll))
    ensures HasKey(Entries(ll), k) <==> k in cache
    ensures k in cache ==> Find(Entries(ll), k) == Some(cache[k].value)
  {
    ApartIsDistinct(Entries(ll));
    AbsentHasNot(Entries(ll), k);
    if k in cache {
      var i :| 0 <= i < |ll| && ll[i] == cache[k];
      FindAt(Entries(ll), i);
    }
  }

  function Cut<T>(s: seq<T>, i: nat): (r: seq<T>)
    requires i < |s|
    ensures |r| == |s| - 1 && forall j :: 0 <= j < |r| ==> r[j] == if j < i then s[j] else s[j + 1]
  {
    s[..i] + s[i + 1..]
  }

  lemma CutCommutes<K, V>(ll: seq<Element<K, V>>, i: nat)
    requires i < |ll|
    ensures Entries(Cut(ll, i)) == Cut(Entries(ll), i)
  {
    var a, b := Entries(Cut(ll, i)), Cut(Entries(ll), i);
    forall j | 0 <= j < |a|
      ensures a[j] == b[j]
    {
      var e := Cut(ll, i)[j];
      assert e == if j < i then ll[j] else ll[j + 1];
    }
  }

  lemma CutEntries<K, V>(ll: seq<Element<K, V>>, cache: map<K, Element<K, V>>, i: nat)
    requires Linked(ll, cache) && i < |ll|
    ensures Entries(Cut(ll, i)) == Without(Entries(ll), ll[i].key)
  {
    Agreement(ll, cache, ll[i].key);
    WithoutAt(Entries(ll), i);
    CutCommutes(ll, i);
  }

  lemma CutHas<T>(s: seq<T>, i: nat, x: T)
    requires i < |s| && x in s && x != s[i]
    ensures x in Cut(s, i)
  {
    var j :| 0 <= j < |s| && s[j] == x;
    assert Cut(s, i)[if j < i then j else j - 1] == x;
  }

  lemma CutLinked<K, V>(ll: seq<Element<K, V>>, cache: map<K, Element<K, V>>, i: nat)
    requires Linked(ll, cache) && i < |ll|
    ensures Linked(Cut(ll, i), cache - {ll[i].key})
  {
    var rest, c := Cut(ll, i), cache - {ll[i].key};
    forall k | k in c
      ensures c[k].key == k && c[k] in rest
    {
      CutHas(ll, i, cache[k]);
    }
    forall j | 0 <= j < |rest|
      ensures rest[j].key != ll[i].key
    {
      assert rest[j] != ll[i];
    }
  }

  lemma PushLinked<K, V>(ll: seq<Element<K, V>>, cache: map<K, Element<K, V>>, e: Element<K, V>)
    requires Linked(ll, cache) && e.key !in cache
    ensures Linked([e] + ll, cache[e.key := e])
  {
    var front := [e] + ll;
    assert front[0] == e;
    forall k | k in cache
      ensures cache[k] in front
    {
      var j :| 0 <= j < |ll| && ll[j] == cache[k];
      assert front[j + 1] == cache[k];
    }
  }

  /** Moving to the front is taking out and pushing. */
  lemma FrontLinked<K, V>(ll: seq<Element<K, V>>, cache: map<K, Element<K, V>>, i: nat)
    requires Linked(ll, cache) && i < |ll|
    ensures Linked([ll[i]] + Cut(ll, i), cache)
  {
    var e := ll[i];
    CutLinked(ll, cache, i);
    PushLinked(Cut(ll, i), cache - {e.key}, e);
    assert (cache - {e.key})[e.key := e] == cache;
  }

  lemma LastEntry<K, V>(ll: seq<Element<K, V>>, cache: map<K, Element<K, V>>)
    requires Linked(ll, cache) && ll != []
    ensures Without(Entries(ll), ll[|ll| - 1].key) == DropLast(Entries(ll))
  {
    assert Cut(Entries(ll), |ll| - 1) == DropLast(Entries(ll));
    Agreement(ll, cache, ll[0].key);
    WithoutAt(Entries(ll), |ll| - 1);
  }

  lemma {:induction false} ApartIsDistinct<K, V>(s: seq<Entry<K, V>>)
    requires forall i, j :: 0 <= i < j < |s| ==> s[i].key != s[j].key
    ensures Distinct(s)
  {
    if s != [] {
      AbsentHasNot(s[1..], s[0].key);
      ApartIsDistinct(s[1..]);
    }
  }

  lemma {:induction false} FindAt<K, V>(s: seq<Entry<K, V>>, i: nat)
    requires Distinct(s) && i < |s|
    ensures Find(s, s[i].key) == Some(s[i].value)
    decreases i
  {
    AbsentHasNot(s[1..], s[0].key);
    if i > 0 {
      FindAt(s[1..], i - 1);
    }
  }

  lemma WithoutAt<K, V>(s: seq<Entry<K, V>>, i: nat)
    requires Distinct(s) && i < |s|
    ensures Without(s, s[i].key) == Cut(s, i)
  {
    FindAt(s, i);
    var c := WithoutCut(s, s[i].key);
    UniqueKey(s, i);
  }
}
