/**
Port pools: printed and parsed by the control plane, and read again, by other
code, on the node.
*/
module PortRanges {
  import opened Basics
  import opened Text

  datatype PortRange = PortRange(start: int, end: int) {
    predicate Contains(port: int) { start <= port <= end }
  }

  predicate ValidRange(r: PortRange) { 1 <= r.start <= r.end <= 65535 }

  predicate ValidRanges(rs: seq<PortRange>) { forall i :: 0 <= i < |rs| ==> ValidRange(rs[i]) }

  /** portInRanges: what the control plane asks of a pool. */
  predicate PortInRanges(port: int, rs: seq<PortRange>) {
    exists i :: 0 <= i < |rs| && rs[i].Contains(port)
  }

  // -------------------------------------------------------------- printing

  function FormatInt(n: int): string {
    if n < 0 then ['-'] + Itoa(-n) else Itoa(n)
  }

  function FormatRange(r: PortRange): string {
    if r.start == r.end then FormatInt(r.start) else FormatInt(r.start) + ['-'] + FormatInt(r.end)
  }

  function FormatParts(rs: seq<PortRange>): (parts: seq<string>)
    ensures |parts| == |rs|
    ensures forall i :: 0 <= i < |rs| ==> parts[i] == FormatRange(rs[i])
  {
    if rs == [] then [] else [FormatRange(rs[0])] + FormatParts(rs[1..])
  }

  /** FormatPortRanges. */
  function Format(rs: seq<PortRange>): string { Join(FormatParts(rs), ',') }

  // --------------------------------------------- the control plane's parser

  function ParsePort(input: string): Result<int> {
    match Atoi(TrimSpace(input))
    case None => Err
    case Some(port) => if port < 1 || port > 65535 then Err else Ok(port)
  }

  /** One part between commas, already trimmed and not empty. */
  function ParsePart(part: string): Result<PortRange> {
    var i := IndexOf(part, '-');
    if i < |part| then
      match ParsePort(part[..i])
      case Err => Err
      case Ok(start) =>
        match ParsePort(part[i + 1..])
        case Err => Err
        case Ok(end) => if start > end then Err else Ok(PortRange(start, end))
    else
      match ParsePort(part)
      case Err => Err
      case Ok(port) => Ok(PortRange(port, port))
  }

  /** One turn of the loop: blank parts are skipped. */
  function ReadPart(part: string): Result<Option<PortRange>> {
    var p := TrimSpace(part);
    if p == [] then Ok(None)
    else match ParsePart(p) case Err => Err case Ok(r) => Ok(Some(r))
  }

  /** What a loop collects that stops at the first error and skips what its body skips. */
  function Collect<R>(f: string -> Result<Option<R>>, parts: seq<string>): Result<seq<R>> {
    if parts == [] then Ok([])
    else
      match f(parts[0])
      case Err => Err
      case Ok(None) => Collect(f, parts[1..])
      case Ok(Some(r)) => Prepend([r], Collect(f, parts[1..]))
  }

  function Prepend<R>(done: seq<R>, rest: Result<seq<R>>): Result<seq<R>> {
    match rest case Err => Err case Ok(rs) => Ok(done + rs)
  }

  lemma CollectStep<R>(f: string -> Result<Option<R>>, parts: seq<string>, k: nat, done: seq<R>)
    requires k < |parts|
    ensures Prepend(done, Collect(f, parts[k..])) ==
            match f(parts[k])
            case Err => Err
            case Ok(None) => Prepend(done, Collect(f, parts[k + 1..]))
            case Ok(Some(r)) => Prepend(done + [r], Collect(f, parts[k + 1..]))
  {
    assert parts[k..][1..] == parts[k + 1..];
    var rest := Collect(f, parts[k + 1..]);
    if rest.Ok? && f(parts[k]).Ok? && f(parts[k]).value.Some? {
      var r := f(parts[k]).value.value;
      assert (done + [r]) + rest.value == done + ([r] + rest.value);
    }
  }

  lemma CollectEnds<R>(f: string -> Result<Option<R>>, parts: seq<string>, done: seq<R>)
    ensures Prepend([], Collect(f, parts[0..])) == Collect(f, parts)
    ensures Prepend(done, Collect(f, parts[|parts|..])) == Ok(done)
  {
    assert parts[0..] == parts && done + [] == done;
    var c := Collect(f, parts);
    assert c.Ok? ==> [] + c.value == c.value;
  }

  lemma {:induction false} CollectEach<R>(f: string -> Result<Option<R>>, parts: seq<string>, rs: seq<R>)
    requires |parts| == |rs| && forall i :: 0 <= i < |rs| ==> f(parts[i]) == Ok(Some(rs[i]))
    ensures Collect(f, parts) == Ok(rs)
  {
    if rs != [] {
      CollectEach(f, parts[1..], rs[1..]);
      assert rs == [rs[0]] + rs[1..];
    }
  }

  function Parse(input: string): Result<seq<PortRange>> {
    var s := TrimSpace(input);
    if s == [] then Ok([]) else Collect(ReadPart, Split(s, ','))
  }

  /** ParsePortRanges, the loop. */
  method ParsePortRanges(input: string) returns (r: Result<seq<PortRange>>)
    ensures r == Parse(input)
  {
    var s := TrimSpace(input);
    if s == [] {
      return Ok([]);
    }
    r := ParseList(Split(s, ','));
  }

  /** The loop over the parts. */
  method ParseList(parts: seq<string>) returns (r: Result<seq<PortRange>>)
    ensures r == Collect(ReadPart, parts)
  {
    var ranges: seq<PortRange> := [];
    var k := 0;
    CollectEnds(ReadPart, parts, ranges);
    while k < |parts|
      invariant 0 <= k <= |parts|
      invariant Collect(ReadPart, parts) == Prepend(ranges, Collect(ReadPart, parts[k..]))
    {
      CollectStep(ReadPart, parts, k, ranges);
      var part := TrimSpace(parts[k]);
      k := k + 1;
      if part == [] {
        continue;
      }
      var parsed := ParsePart(part);
      if parsed.Err? {
        return Err;
      }
      ranges := ranges + [parsed.value];
    }
    CollectEnds(ReadPart, parts, ranges);
    return Ok(ranges);
  }

  // ------------------------------------------------------ the node's parser

  /** IsPort: the node accepts 65536 as well. */
  predicate IsPort(p: string) {
    match Atoi(p) case None => false case Some(n) => 1 <= n <= 65536
  }

  function Interval(lo: int, hi: int): (s: seq<int>)
    ensures forall p :: p in s <==> lo <= p <= hi
    decreases hi - lo + 1
  {
    if lo > hi then [] else [lo] + Interval(lo + 1, hi)
  }

  function Expand(part: string): seq<int> {
    var fw := Split(part, '-');
    if |fw| == 2 then
      if IsPort(fw[0]) && IsPort(fw[1]) then Interval(Atoi(fw[0]).value, Atoi(fw[1]).value) else []
    else if IsPort(part) then [Atoi(part).value]
    else []
  }

  function ExpandAll(parts: seq<string>): seq<int> {
    if parts == [] then [] else Expand(parts[0]) + ExpandAll(parts[1..])
  }

  /** What GetPorts returns. */
  function Ports(p: string): seq<int> { ExpandAll(Split(p, ',')) }

  /** GetPorts, the loop over the parts. */
  method GetPorts(p: string) returns (ps: seq<int>)
    ensures ps == Ports(p)
  {
    ps := [];
    var arr := Split(p, ',');
    for k := 0 to |arr|
      invariant ps + ExpandAll(arr[k..]) == ExpandAll(arr)
    {
      ExpandStep(arr, k, ps);
      ps := AppendPorts(ps, arr[k]);
    }
  }

  /** GetPorts, the body of that loop, with the loop over one interval. */
  method AppendPorts(before: seq<int>, v: string) returns (ps: seq<int>)
    ensures ps == before + Expand(v)
  {
    ps := before;
    var fw := Split(v, '-');
    if |fw| == 2 {
      if IsPort(fw[0]) && IsPort(fw[1]) {
        var start, end := Atoi(fw[0]).value, Atoi(fw[1]).value;
        var i := start;
        while i <= end
          invariant ps + Interval(i, end) == before + Interval(start, end)
        {
          Assoc(ps, [i], Interval(i + 1, end));
          ps := ps + [i];
          i := i + 1;
        }
      }
    } else if IsPort(v) {
      ps := ps + [Atoi(v).value];
    }
  }

  lemma ExpandStep(arr: seq<string>, k: nat, done: seq<int>)
    requires k < |arr|
    ensures done + ExpandAll(arr[k..]) == (done + Expand(arr[k])) + ExpandAll(arr[k + 1..])
  {
    assert arr[k..][1..] == arr[k + 1..];
  }

  // -------------------------------------------------------------- agreement

  lemma TrimItoa(n: nat)
    requires n <= MAX_INT
    ensures TrimSpace(Itoa(n)) == Itoa(n) && ParsePort(Itoa(n)) == if 1 <= n <= 65535 then Ok(n) else Err
  {
    AtoiOfItoa(n);
    TrimNothing(Itoa(n));
  }

  lemma SingleShape(n: nat)
    requires n <= MAX_INT
    ensures ',' !in Itoa(n) && TrimSpace(Itoa(n)) == Itoa(n)
    ensures IndexOf(Itoa(n), '-') == |Itoa(n)| && Split(Itoa(n), '-') == [Itoa(n)]
  {
    AtoiOfItoa(n);
    IndexOfAbsent(Itoa(n), '-');
    TrimNothing(Itoa(n));
  }

  lemma PairShape(a: string, b: string)
    requires a != [] && b != [] && ',' !in a && ',' !in b && '-' !in a && '-' !in b
    requires !IsSpace(a[0]) && !IsSpace(b[|b| - 1])
    ensures ',' !in a + ['-'] + b && TrimSpace(a + ['-'] + b) == a + ['-'] + b
    ensures IndexOf(a + ['-'] + b, '-') == |a|
    ensures Split(a + ['-'] + b, '-') == [a, b]
  {
    var s := a + ['-'] + b;
    IndexOfAfter(a, '-', b);
    IndexOfAbsent(b, '-');
    assert s[0] == a[0] && s[|s| - 1] == b[|b| - 1];
    TrimNothing(s);
    assert s[..|a|] == a && s[|a| + 1..] == b;
  }

  /** What a printed range looks like: one number, or two with a hyphen between. */
  lemma RangeShape(r: PortRange)
    requires ValidRange(r)
    ensures ',' !in FormatRange(r) && FormatRange(r) != [] && TrimSpace(FormatRange(r)) == FormatRange(r)
    ensures IndexOf(FormatRange(r), '-') == |Itoa(r.start)|
    ensures r.start == r.end ==> Split(FormatRange(r), '-') == [Itoa(r.start)]
    ensures r.start < r.end ==> Split(FormatRange(r), '-') == [Itoa(r.start), Itoa(r.end)]
  {
    AtoiOfItoa(r.start);
    AtoiOfItoa(r.end);
    if r.start == r.end {
      SingleShape(r.start);
    } else {
      PairShape(Itoa(r.start), Itoa(r.end));
    }
  }

  lemma ParseSingle(a: string, lo: int)
    requires IndexOf(a, '-') == |a| && ParsePort(a) == Ok(lo)
    ensures ParsePart(a) == Ok(PortRange(lo, lo))
  {
  }

  lemma ParsePair(part: string, a: string, b: string, lo: int, hi: int)
    requires part == a + ['-'] + b && IndexOf(part, '-') == |a|
    requires ParsePort(a) == Ok(lo) && ParsePort(b) == Ok(hi) && lo <= hi
    ensures ParsePart(part) == Ok(PortRange(lo, hi))
  {
    assert part[..|a|] == a && part[|a| + 1..] == b;
  }

  lemma ParseFormatRange(r: PortRange)
    requires ValidRange(r)
    ensures ParsePart(FormatRange(r)) == Ok(r)
  {
    RangeShape(r);
    TrimItoa(r.start);
    TrimItoa(r.end);
    if r.start == r.end {
      ParseSingle(Itoa(r.start), r.start);
    } else {
      ParsePair(FormatRange(r), Itoa(r.start), Itoa(r.end), r.start, r.end);
    }
  }

  lemma {:induction false} JoinEdges(parts: seq<string>)
    requires parts != []
    requires forall i :: 0 <= i < |parts| ==> parts[i] != [] && !IsSpace(parts[i][0]) && !IsSpace(parts[i][|parts[i]| - 1])
    ensures Join(parts, ',') != [] && !IsSpace(Join(parts, ',')[0]) && !IsSpace(Join(parts, ',')[|Join(parts, ',')| - 1])
  {
    if |parts| > 1 {
      JoinEdges(parts[1..]);
    }
  }

  lemma RangeEdges(r: PortRange)
    requires ValidRange(r)
    ensures FormatRange(r) != [] && !IsSpace(FormatRange(r)[0]) && !IsSpace(FormatRange(r)[|FormatRange(r)| - 1])
  {
    AtoiOfItoa(r.start);
    AtoiOfItoa(r.end);
  }

  lemma FormattedParts(rs: seq<PortRange>)
    requires rs != [] && ValidRanges(rs)
    ensures Split(Format(rs), ',') == FormatParts(rs)
    ensures TrimSpace(Format(rs)) == Format(rs) && Format(rs) != []
  {
    var parts := FormatParts(rs);
    forall i | 0 <= i < |parts|
      ensures ',' !in parts[i] && parts[i] != [] && !IsSpace(parts[i][0]) && !IsSpace(parts[i][|parts[i]| - 1])
    {
      RangeShape(rs[i]);
      RangeEdges(rs[i]);
    }
    SplitJoin(parts, ',');
    JoinEdges(parts);
    TrimNothing(Format(rs));
  }

  /** Parsing a printed pool gives the pool back. */
  lemma ParseFormat(rs: seq<PortRange>)
    requires ValidRanges(rs)
    ensures Parse(Format(rs)) == Ok(rs)
  {
    if rs != [] {
      FormattedParts(rs);
      forall i | 0 <= i < |rs|
        ensures ReadPart(FormatParts(rs)[i]) == Ok(Some(rs[i]))
      {
        RangeShape(rs[i]);
        ParseFormatRange(rs[i]);
      }
      CollectEach(ReadPart, FormatParts(rs), rs);
    }
  }

  lemma ExpandSingle(part: string, n: int)
    requires Split(part, '-') == [part] && Atoi(part) == Some(n) && 1 <= n <= 65535
    ensures Expand(part) == [n]
  {
  }

  lemma ExpandPair(part: string, a: string, b: string, lo: int, hi: int)
    requires Split(part, '-') == [a, b] && Atoi(a) == Some(lo) && Atoi(b) == Some(hi) && 1 <= lo <= hi <= 65535
    ensures forall p :: p in Expand(part) <==> lo <= p <= hi
  {
  }

  lemma ExpandFormatRange(r: PortRange)
    requires ValidRange(r)
    ensures forall p :: p in Expand(FormatRange(r)) <==> r.Contains(p)
  {
    RangeShape(r);
    AtoiOfItoa(r.start);
    AtoiOfItoa(r.end);
    if r.start == r.end {
      ExpandSingle(Itoa(r.start), r.start);
    } else {
      ExpandPair(FormatRange(r), Itoa(r.start), Itoa(r.end), r.start, r.end);
    }
  }

  lemma {:induction false} ExpandFormatParts(rs: seq<PortRange>, p: int)
    requires ValidRanges(rs)
    ensures p in ExpandAll(FormatParts(rs)) <==> PortInRanges(p, rs)
  {
    if rs != [] {
      ExpandFormatRange(rs[0]);
      ExpandFormatParts(rs[1..], p);
      if PortInRanges(p, rs) {
        var i :| 0 <= i < |rs| && rs[i].Contains(p);
        assert i > 0 ==> rs[1..][i - 1].Contains(p);
      }
      if PortInRanges(p, rs[1..]) {
        var i :| 0 <= i < |rs[1..]| && rs[1..][i].Contains(p);
        assert rs[i + 1].Contains(p);
      }
    }
  }

  /** The node reads a printed pool as exactly the ports the control plane allows. */
  lemma NodeAgrees(rs: seq<PortRange>, p: int)
    requires ValidRanges(rs)
    ensures p in Ports(Format(rs)) <==> PortInRanges(p, rs)
  {
    if rs == [] {
      assert Split([], ',') == [[]];
      assert Split([], '-') == [[]];
    } else {
      FormattedParts(rs);
      ExpandFormatParts(rs, p);
    }
  }

  /** Whatever the control plane's parser accepts is a list of valid ranges, so it prints and reads back as itself. */
  lemma PartIsValid(part: string)
    ensures ReadPart(part).Ok? && ReadPart(part).value.Some? ==> ValidRange(ReadPart(part).value.value)
  {
  }

  lemma {:induction false} CollectAll<R>(f: string -> Result<Option<R>>, parts: seq<string>, ok: R -> bool)
    requires forall part :: f(part).Ok? && f(part).value.Some? ==> ok(f(part).value.value)
    requires Collect(f, parts).Ok?
    ensures forall i :: 0 <= i < |Collect(f, parts).value| ==> ok(Collect(f, parts).value[i])
  {
    if parts != [] {
      CollectAll(f, parts[1..], ok);
    }
  }

  /** Whatever the control plane's parser accepts is a list of valid ranges. */
  lemma ParsedIsValid(input: string)
    requires Parse(input).Ok?
    ensures ValidRanges(Parse(input).value)
  {
    forall part
      ensures ReadPart(part).Ok? && ReadPart(part).value.Some? ==> ValidRange(ReadPart(part).value.value)
    {
      PartIsValid(part);
    }
    if TrimSpace(input) != [] {
      CollectAll(ReadPart, Split(TrimSpace(input), ','), r => ValidRange(r));
    }
  }

  /** So an accepted text, printed, is read the same way by both sides. */
  lemma AcceptedTextAgrees(input: string, p: int)
    requires Parse(input).Ok?
    ensures Parse(Format(Parse(input).value)) == Parse(input)
    ensures p in Ports(Format(Parse(input).value)) <==> PortInRanges(p, Parse(input).value)
  {
    ParsedIsValid(input);
    ParseFormat(Parse(input).value);
    NodeAgrees(Parse(input).value, p);
  }
}
