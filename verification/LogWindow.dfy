/** What the log buffer keeps and lists: the last entries, consecutively numbered, and the object that does it. */
module LogWindow {
  import opened Text
  import opened LogBuffer

  // ---------------------------------------------------------------- numbers

  /** The entries carry the numbers up to the last one given out, without a gap. */
  predicate Numbered(log: Log) {
    && 0 < log.max && |log.entries| <= log.max && |log.entries| <= log.nextId
    && forall i :: 0 <= i < |log.entries| ==> log.entries[i].id == log.nextId - |log.entries| + 1 + i
  }

  /** What is in the second log was in the first or has a number beyond all of the first. */
  ghost predicate Newer(before: Log, after: Log) {
    && before.nextId <= after.nextId
    && forall e :: e in after.entries ==> e in before.entries || before.nextId < e.id
  }

  lemma StoreNumbered(log: Log, now: int, stream: Stream, message: string)
    requires Numbered(log)
    ensures Numbered(Store(log, now, stream, message)) && Newer(log, Store(log, now, stream, message))
  {
    var all := log.entries + [Entry(log.nextId + 1, now, stream, message)];
    assert forall e :: e in LastN(all, log.max) ==> e in all;
  }

  lemma NewerTransitive(a: Log, b: Log, c: Log)
    requires Newer(a, b) && Newer(b, c)
    ensures Newer(a, c)
  {
  }

  lemma {:induction false} LinesNumbered(log: Log, now: int, stream: Stream, lines: seq<string>)
    requires Numbered(log)
    ensures Numbered(AddLines(log, now, stream, lines)) && Newer(log, AddLines(log, now, stream, lines))
    decreases |lines|
  {
    if lines != [] {
      var next := AddLine(log, now, stream, lines[0]);
      StoreNumbered(log, now, stream, Clean(lines[0]));
      LinesNumbered(next, now, stream, lines[1..]);
      NewerTransitive(log, next, AddLines(next, now, stream, lines[1..]));
    }
  }

  datatype Op = OpChunk(time: int, stream: Stream, chunk: string) | OpClear

  function ApplyOp(log: Log, op: Op): Log {
    match op
    case OpChunk(time, stream, chunk) => AddChunk(log, time, stream, chunk)
    case OpClear => Clear(log)
  }

  function RunLog(log: Log, ops: seq<Op>): Log
    decreases |ops|
  {
    if ops == [] then log else RunLog(ApplyOp(log, ops[0]), ops[1..])
  }

  lemma OpNumbered(log: Log, op: Op)
    requires Numbered(log)
    ensures Numbered(ApplyOp(log, op)) && Newer(log, ApplyOp(log, op))
  {
    if op.OpChunk? && op.chunk != "" {
      var lines := Split(Partial(log, op.stream) + Unix(op.chunk), '\n');
      LinesNumbered(Keep(log, op.stream, Last(lines)), op.time, op.stream, Init(lines));
    }
  }

  /** Over every run the numbers stay consecutive, and no number is given out twice, not even after a clear. */
  lemma {:induction false} NumbersNeverReused(log: Log, ops: seq<Op>)
    requires Numbered(log)
    ensures Numbered(RunLog(log, ops)) && Newer(log, RunLog(log, ops))
    decreases |ops|
  {
    if ops != [] {
      var next := ApplyOp(log, ops[0]);
      OpNumbered(log, ops[0]);
      NumbersNeverReused(next, ops[1..]);
      NewerTransitive(log, next, RunLog(next, ops[1..]));
    }
  }

  // ---------------------------------------------------------------- window

  /** The first log holds the end of what the second, larger one holds. */
  predicate EndOf(a: Log, b: Log) {
    && a.nextId == b.nextId && a.partial == b.partial && 0 < a.max <= b.max
    && a.entries == LastN(b.entries, a.max)
  }

  lemma LastOfMore<T>(s: seq<T>, x: T, small: nat, large: nat)
    requires 0 < small <= large
    ensures LastN(LastN(s, small) + [x], small) == LastN(LastN(s + [x], large), small)
  {
  }

  lemma StoreEndOf(a: Log, b: Log, now: int, stream: Stream, message: string)
    requires EndOf(a, b)
    ensures EndOf(Store(a, now, stream, message), Store(b, now, stream, message))
  {
    var e := Entry(b.nextId + 1, now, stream, message);
    LastOfMore(b.entries, e, a.max, b.max);
    assert Store(a, now, stream, message).entries == LastN(LastN(b.entries, a.max) + [e], a.max);
    assert Store(b, now, stream, message).entries == LastN(b.entries + [e], b.max);
  }

  lemma {:induction false} LinesEndOf(a: Log, b: Log, now: int, stream: Stream, lines: seq<string>)
    requires EndOf(a, b)
    ensures EndOf(AddLines(a, now, stream, lines), AddLines(b, now, stream, lines))
    decreases |lines|
  {
    if lines != [] {
      StoreEndOf(a, b, now, stream, Clean(lines[0]));
      LinesEndOf(AddLine(a, now, stream, lines[0]), AddLine(b, now, stream, lines[0]), now, stream, lines[1..]);
    }
  }

  lemma OpEndOf(a: Log, b: Log, op: Op)
    requires EndOf(a, b)
    ensures EndOf(ApplyOp(a, op), ApplyOp(b, op))
  {
    if op.OpChunk? && op.chunk != "" {
      var lines := Split(Partial(a, op.stream) + Unix(op.chunk), '\n');
      LinesEndOf(Keep(a, op.stream, Last(lines)), Keep(b, op.stream, Last(lines)), op.time, op.stream, Init(lines));
    }
  }

  /**
  A buffer for `a.max` entries holds the last `a.max` entries of any larger one, so the last
  ones of all that were stored since the last clear.
  */
  lemma {:induction false} HoldsTheLast(a: Log, b: Log, ops: seq<Op>)
    requires EndOf(a, b)
    ensures EndOf(RunLog(a, ops), RunLog(b, ops))
    decreases |ops|
  {
    if ops != [] {
      OpEndOf(a, b, ops[0]);
      HoldsTheLast(ApplyOp(a, ops[0]), ApplyOp(b, ops[0]), ops[1..]);
    }
  }

  // --------------------------------------------------------------- listing

  predicate ContainsText(s: string, part: string) {
    exists i :: 0 <= i <= |s| && part <= s[i..]
  }

  predicate Matches(e: Entry, query: string) {
    query == "" || ContainsText(ToLower(e.message), query) || ContainsText(ToLower(e.stream), query)
  }

  function Matching(query: string): Entry -> bool { e => Matches(e, query) }

  function Filter<T>(s: seq<T>, p: T -> bool): seq<T> {
    if s == [] then [] else (if p(s[0]) then [s[0]] else []) + Filter(s[1..], p)
  }

  lemma {:induction false} FilterAppend<T>(a: seq<T>, b: seq<T>, p: T -> bool)
    ensures Filter(a + b, p) == Filter(a, p) + Filter(b, p)
  {
    if a == [] {
      assert a + b == b;
    } else {
      assert (a + b)[1..] == a[1..] + b;
      FilterAppend(a[1..], b, p);
      var first := if p(a[0]) then [a[0]] else [];
      assert first + (Filter(a[1..], p) + Filter(b, p)) == (first + Filter(a[1..], p)) + Filter(b, p);
    }
  }

  function Limit(log: Log, limit: int): nat { if limit <= 0 || limit > log.max then log.max else limit }

  /** The last matching entries, in order. */
  function Listing(log: Log, limit: int, query: string): seq<Entry> {
    LastN(Filter(log.entries, Matching(ToLower(TrimSpace(query)))), Limit(log, limit))
  }

  // The places in a list from which a selection is taken.

  predicate Ascending(at: seq<nat>) { forall j, k :: 0 <= j < k < |at| ==> at[j] < at[k] }

  /** The selection takes exactly the elements of these places. */
  predicate TakenFrom<T(==)>(r: seq<T>, s: seq<T>, at: seq<nat>) {
    |r| == |at| && Ascending(at) && forall k :: 0 <= k < |at| ==> at[k] < |s| && r[k] == s[at[k]]
  }

  function Places<T>(s: seq<T>, p: T -> bool): seq<nat> {
    if s == [] then [] else Places(s[..|s| - 1], p) + (if p(s[|s| - 1]) then [|s| - 1] else [])
  }

  lemma {:induction false} PlacesAre<T>(s: seq<T>, p: T -> bool)
    ensures forall i :: i in Places(s, p) <==> 0 <= i < |s| && p(s[i])
    decreases |s|
  {
    if s != [] {
      PlacesAre(s[..|s| - 1], p);
    }
  }

  lemma {:induction false} FilterTakes<T>(s: seq<T>, p: T -> bool)
    ensures TakenFrom(Filter(s, p), s, Places(s, p))
    decreases |s|
  {
    if s != [] {
      var front, last := s[..|s| - 1], s[|s| - 1];
      assert s == front + [last];
      FilterTakes(front, p);
      FilterAppend(front, [last], p);
      assert Filter([last], p) == if p(last) then [last] else [];
    }
  }

  lemma LastAreTaken<T>(r: seq<T>, s: seq<T>, at: seq<nat>, n: nat)
    requires TakenFrom(r, s, at)
    ensures TakenFrom(LastN(r, n), s, LastN(at, n))
  {
  }

  /** What the last `n` places leave out comes before them, and there are `n` of them. */
  lemma LeftOut(at: seq<nat>, n: nat, i: nat)
    requires Ascending(at) && i in at && i !in LastN(at, n)
    ensures |LastN(at, n)| == n && forall k :: 0 <= k < n ==> i < LastN(at, n)[k]
  {
    var j :| 0 <= j < |at| && at[j] == i;
    var from := |at| - |LastN(at, n)|;
    assert forall m :: from <= m < |at| ==> at[m] == LastN(at, n)[m - from];
  }

  /** The text occurs in the message or in the stream's name, capitals aside. */
  ghost predicate Occurs(text: string, e: Entry) {
    || (exists a, b :: ToLower(e.message) == a + text + b)
    || (exists a, b :: ToLower(e.stream) == a + text + b)
  }

  lemma ContainsExact(s: string, part: string)
    ensures ContainsText(s, part) <==> exists a, b :: s == a + part + b
  {
    if ContainsText(s, part) {
      var i :| 0 <= i <= |s| && part <= s[i..];
      assert s == s[..i] + part + s[i + |part|..];
    }
    if exists a, b :: s == a + part + b {
      var a, b :| s == a + part + b;
      assert s[|a|..] == part + b;
    }
  }

  lemma MatchesExact(e: Entry, text: string)
    ensures Matches(e, text) <==> Occurs(text, e)
  {
    ContainsExact(ToLower(e.message), text);
    ContainsExact(ToLower(e.stream), text);
    if text == "" {
      assert ToLower(e.message) == "" + text + ToLower(e.message);
    }
  }

  /**
  A listing holds entries in which the text occurs, in their order, and no more than the limit
  allows; one in which it occurs and that is not there comes before all that are, and these are as many as allowed.
  */
  lemma ListingExact(log: Log, limit: int, query: string) returns (at: seq<nat>)
    requires 0 < log.max
    ensures var r := Listing(log, limit, query);
      var text := ToLower(TrimSpace(query)); var most := if 1 <= limit <= log.max then limit else log.max;
      && TakenFrom(r, log.entries, at) && |r| <= most
      && (forall k :: 0 <= k < |r| ==> Occurs(text, r[k]))
      && (forall i :: 0 <= i < |log.entries| && Occurs(text, log.entries[i]) && i !in at ==>
            |r| == most && forall k :: 0 <= k < |at| ==> i < at[k])
  {
    var text, p := ToLower(TrimSpace(query)), Matching(ToLower(TrimSpace(query)));
    var all, n := Places(log.entries, p), Limit(log, limit);
    at := LastN(all, n);
    PlacesAre(log.entries, p);
    FilterTakes(log.entries, p);
    LastAreTaken(Filter(log.entries, p), log.entries, all, n);
    forall k | 0 <= k < |at|
      ensures Occurs(text, log.entries[at[k]])
    {
      assert at[k] in all;
      MatchesExact(log.entries[at[k]], text);
    }
    forall i | 0 <= i < |log.entries| && Occurs(text, log.entries[i]) && i !in at
      ensures |at| == n && forall k :: 0 <= k < |at| ==> i < at[k]
    {
      MatchesExact(log.entries[i], text);
      LeftOut(all, n, i);
    }
  }

  function Reverse<T>(s: seq<T>): (r: seq<T>)
    ensures |r| == |s|
  {
    if s == [] then [] else [s[|s| - 1]] + Reverse(s[..|s| - 1])
  }

  lemma ReverseSnoc<T>(s: seq<T>, x: T)
    ensures Reverse(s + [x]) == [x] + Reverse(s)
  {
    assert (s + [x])[..|s|] == s;
  }

  // ---------------------------------------------------------------- object

  class Buffer {
    var nextId: nat
    var max: nat
    var entries: seq<Entry>
    var partial: map<Stream, string>

    function Contents(): Log
      reads this
    {
      Log(nextId, max, entries, partial)
    }

    constructor (max: int)
      ensures Contents() == Log(0, if max <= 0 then 1000 else max, [], map[])
      ensures Numbered(Contents())
    {
      this.max := if max <= 0 then 1000 else max;
      nextId, entries, partial := 0, [], map[];
    }

    method AddLine(now: int, stream: Stream, input: string)
      requires Numbered(Contents())
      modifies this`nextId, this`entries
      ensures Contents() == LogBuffer.AddLine(old(Contents()), now, stream, input)
      ensures Numbered(Contents()) && Newer(old(Contents()), Contents())
    {
      var line := Clean(input);
      if line == "" {
        return;
      }
      StoreNumbered(Contents(), now, stream, line);
      nextId := nextId + 1;
      entries := entries + [Entry(nextId, now, stream, line)];
      if |entries| > max {
        entries := entries[|entries| - max..];
      }
      assert Contents() == Store(old(Contents()), now, stream, line);
    }

    method AddChunk(now: int, stream: Stream, chunk: string)
      requires Numbered(Contents())
      modifies this`nextId, this`entries, this`partial
      ensures Contents() == LogBuffer.AddChunk(old(Contents()), now, stream, chunk)
      ensures Numbered(Contents()) && Newer(old(Contents()), Contents())
    {
      if chunk == "" {
        return;
      }
      ghost var before := Contents();
      OpNumbered(before, OpChunk(now, stream, chunk));
      var text := Partial(Contents(), stream) + Unix(chunk);
      var lines := Split(text, '\n');
      partial := partial[stream := lines[|lines| - 1]];
      var complete := lines[..|lines| - 1];
      for i := 0 to |complete|
        invariant Numbered(Contents())
        invariant LogBuffer.AddChunk(before, now, stream, chunk) == AddLines(Contents(), now, stream, complete[i..])
      {
        assert complete[i..][1..] == complete[i + 1..];
        AddLine(now, stream, complete[i]);
      }
    }

    /** The loop from the newest entry back. */
    static method Collect(es: seq<Entry>, n: nat, p: Entry -> bool) returns (out: seq<Entry>)
      ensures out == LastN(Filter(es, p), n)
    {
      out := [];
      var i: nat := |es|;
      assert es[i..] == [];
      while i > 0 && |out| < n
        invariant i <= |es| && |out| <= n
        invariant Reverse(out) == Filter(es[i..], p)
      {
        i := i - 1;
        ListStep(es, i, p, out);
        if p(es[i]) {
          out := out + [es[i]];
        }
      }
      EndOfFilter(es, i, n, p);
      out := Reverse(out);
    }

    method List(limit: int, query: string) returns (out: seq<Entry>)
      requires Numbered(Contents())
      ensures out == Listing(Contents(), limit, query)
    {
      var n := limit;
      if n <= 0 || n > max {
        n := max;
      }
      out := Collect(entries, n, Matching(ToLower(TrimSpace(query))));
    }

    method Clear()
      requires Numbered(Contents())
      modifies this`entries, this`partial
      ensures Contents() == LogBuffer.Clear(old(Contents())) && Numbered(Contents()) && Newer(old(Contents()), Contents())
    {
      entries := [];
      partial := map[];
    }
  }

  /** One element more from the end of the list. */
  lemma ListStep<T>(s: seq<T>, i: nat, p: T -> bool, out: seq<T>)
    requires i < |s| && Reverse(out) == Filter(s[i + 1..], p)
    ensures Reverse(if p(s[i]) then out + [s[i]] else out) == Filter(s[i..], p)
  {
    assert s[i..][1..] == s[i + 1..];
    ReverseSnoc(out, s[i]);
  }

  /** When all elements have been looked at, or enough have been found, the end of the matches is there. */
  lemma EndOfFilter<T>(s: seq<T>, i: nat, n: nat, p: T -> bool)
    requires i <= |s| && |Filter(s[i..], p)| <= n
    requires i == 0 || |Filter(s[i..], p)| == n
    ensures LastN(Filter(s, p), n) == Filter(s[i..], p)
  {
    assert s[..i] + s[i..] == s;
    FilterAppend(s[..i], s[i..], p);
  }
}
