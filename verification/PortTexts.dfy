/** Which texts the control plane accepts as a pool of ports, and which ports they grant. */
module PortTexts {
  import opened Basics
  import opened Text
  import opened PortRanges

  /** Decimal digits, perhaps with a plus sign before them, for a port number. */
  predicate Numeral(d: string, port: int) {
    && 1 <= port <= 65535
    && (var digits := if d != [] && d[0] == '+' then d[1..] else d;
        digits != [] && AllDigits(digits) && DecimalValue(digits) == port)
  }

  predicate Among(s: string, l: string, d: string, r: string) { s == l + d + r && Blank(l) && Blank(r) }

  /** Such digits among spaces. */
  ghost predicate PortText(s: string, port: int) {
    exists l: string, d: string, r: string :: Among(s, l, d, r) && Numeral(d, port)
  }

  predicate Hyphened(s: string, a: string, b: string) { s == a + ['-'] + b }

  /** One port, or two of them in order with a hyphen between. */
  ghost predicate RangeText(s: string, lo: int, hi: int) {
    || (lo == hi && PortText(s, lo))
    || (lo <= hi && exists a: string, b: string :: Hyphened(s, a, b) && PortText(a, lo) && PortText(b, hi))
  }

  lemma NumeralSolid(d: string, port: int)
    requires Numeral(d, port)
    ensures d != [] && Trimmed(d) && '-' !in d && Atoi(d) == Some(port)
  {
    var digits := if d[0] == '+' then d[1..] else d;
    assert IsDigit(digits[0]) && IsDigit(digits[|digits| - 1]);
  }

  lemma AtoiIsNumeral(d: string, port: int)
    requires Atoi(d) == Some(port) && 1 <= port <= 65535
    ensures Numeral(d, port)
  {
  }

  lemma NoHyphen(l: string, d: string, r: string)
    requires Blank(l) && Blank(r) && '-' !in d
    ensures '-' !in l + d + r
  {
  }

  lemma PortTextParses(s: string, port: int)
    requires PortText(s, port)
    ensures ParsePort(s) == Ok(port) && '-' !in s
  {
    var l: string, d: string, r: string :| Among(s, l, d, r) && Numeral(d, port);
    NumeralSolid(d, port);
    TrimIs(l, d, r);
    NoHyphen(l, d, r);
  }

  lemma ParsedIsPortText(s: string, port: int)
    requires ParsePort(s) == Ok(port)
    ensures PortText(s, port)
  {
    var l, r := TrimParts(s);
    AtoiIsNumeral(TrimSpace(s), port);
    assert Among(s, l, TrimSpace(s), r);
  }

  /** A port among spaces may have more of them before it, or behind it. */
  lemma WidenLeft(l: string, s: string, port: int)
    requires Blank(l) && PortText(s, port)
    ensures PortText(l + s, port)
  {
    var l': string, d: string, r: string :| Among(s, l', d, r) && Numeral(d, port);
    assert l + (l' + d + r) == (l + l') + d + r;
    assert Among(l + s, l + l', d, r);
  }

  lemma WidenRight(s: string, r: string, port: int)
    requires Blank(r) && PortText(s, port)
    ensures PortText(s + r, port)
  {
    var l: string, d: string, r': string :| Among(s, l, d, r') && Numeral(d, port);
    assert (l + d + r') + r == l + d + (r' + r);
    assert Among(s + r, l, d, r' + r);
  }

  lemma Regroup(l: string, a: string, h: string, b: string, r: string)
    ensures l + (a + h + b) + r == (l + a) + h + (b + r)
  {
  }

  // -------------------------------------------------------------- one part

  lemma PairIsText(l: string, a: string, b: string, r: string, lo: int, hi: int)
    requires Blank(l) && Blank(r) && PortText(a, lo) && PortText(b, hi) && lo <= hi
    ensures RangeText(l + (a + ['-'] + b) + r, lo, hi)
  {
    WidenLeft(l, a, lo);
    WidenRight(b, r, hi);
    Regroup(l, a, ['-'], b, r);
    assert Hyphened(l + (a + ['-'] + b) + r, l + a, b + r);
  }

  lemma CutAt(t: string, i: nat)
    requires i < |t|
    ensures t == t[..i] + [t[i]] + t[i + 1..]
  {
  }

  lemma PartSplits(t: string, lo: int, hi: int) returns (a: string, b: string)
    requires ParsePart(t) == Ok(PortRange(lo, hi)) && IndexOf(t, '-') < |t|
    ensures t == a + ['-'] + b && ParsePort(a) == Ok(lo) && ParsePort(b) == Ok(hi) && lo <= hi
  {
    var i := IndexOf(t, '-');
    a, b := t[..i], t[i + 1..];
    CutAt(t, i);
  }

  lemma SingleIsText(l: string, t: string, r: string, port: int)
    requires Blank(l) && Blank(r) && ParsePort(t) == Ok(port)
    ensures RangeText(l + t + r, port, port)
  {
    ParsedIsPortText(t, port);
    WidenLeft(l, t, port);
    WidenRight(l + t, r, port);
  }

  /** What ParsePart accepts is, with the spaces put back, a text of that range. */
  lemma PartIsText(l: string, t: string, r: string, lo: int, hi: int)
    requires Blank(l) && Blank(r) && ParsePart(t) == Ok(PortRange(lo, hi))
    ensures RangeText(l + t + r, lo, hi)
  {
    if IndexOf(t, '-') < |t| {
      var a, b := PartSplits(t, lo, hi);
      ParsedIsPortText(a, lo);
      ParsedIsPortText(b, hi);
      PairIsText(l, a, b, r, lo, hi);
    } else {
      SingleIsText(l, t, r, lo);
    }
  }

  lemma SingleIsRead(part: string, port: int)
    requires PortText(part, port)
    ensures ReadPart(part) == Ok(Some(PortRange(port, port)))
  {
    var l: string, d: string, r: string :| Among(part, l, d, r) && Numeral(d, port);
    NumeralSolid(d, port);
    TrimIs(l, d, r);
    TrimNothing(d);
    IndexOfAbsent(d, '-');
  }

  lemma PairTrims(l: string, d: string, m: string, e: string, r: string)
    requires Blank(l) && Blank(r) && d != [] && Trimmed(d) && e != [] && Trimmed(e)
    ensures TrimSpace(l + (d + m + e) + r) == d + m + e
  {
    var t := d + m + e;
    assert t[0] == d[0] && t[|t| - 1] == e[|e| - 1];
    TrimIs(l, t, r);
  }

  lemma PairParses(x: string, y: string, lo: int, hi: int)
    requires ParsePort(x) == Ok(lo) && '-' !in x && ParsePort(y) == Ok(hi) && lo <= hi
    ensures ParsePart(x + ['-'] + y) == Ok(PortRange(lo, hi))
  {
    IndexOfAfter(x, '-', y);
    ParsePair(x + ['-'] + y, x, y, lo, hi);
  }

  /** The two parts of the trimmed text are the halves without the outer spaces. */
  lemma PairTrimmed(l: string, d: string, r': string, l': string, e: string, r: string)
    requires Blank(l) && Blank(r) && d != [] && Trimmed(d) && e != [] && Trimmed(e)
    ensures TrimSpace((l + d + r') + ['-'] + (l' + e + r)) == (d + r') + ['-'] + (l' + e)
  {
    Regroup(d, r', ['-'], l', e);
    PairTrims(l, d, r' + ['-'] + l', e, r);
    Regroup(l, d + r', ['-'], l' + e, r);
    assert l + (d + r') == l + d + r' && (l' + e) + r == l' + e + r;
  }

  lemma PairIsRead(a: string, b: string, lo: int, hi: int)
    requires PortText(a, lo) && PortText(b, hi) && lo <= hi
    ensures ReadPart(a + ['-'] + b) == Ok(Some(PortRange(lo, hi)))
  {
    var l: string, d: string, r': string :| Among(a, l, d, r') && Numeral(d, lo);
    var l': string, e: string, r: string :| Among(b, l', e, r) && Numeral(e, hi);
    NumeralSolid(d, lo);
    NumeralSolid(e, hi);
    PairTrimmed(l, d, r', l', e, r);
    Halves(d, r', l', e, lo, hi);
    PairParses(d + r', l' + e, lo, hi);
  }

  lemma Halves(d: string, r: string, l: string, e: string, lo: int, hi: int)
    requires Numeral(d, lo) && Blank(r) && Blank(l) && Numeral(e, hi)
    ensures ParsePort(d + r) == Ok(lo) && '-' !in d + r && ParsePort(l + e) == Ok(hi)
  {
    assert Among(d + r, [], d, r) && Among(l + e, l, e, []);
    PortTextParses(d + r, lo);
    PortTextParses(l + e, hi);
  }

  lemma BlankExact(part: string)
    ensures TrimSpace(part) == [] <==> Blank(part)
  {
    var l, r := TrimParts(part);
    if Blank(part) {
      TrimIs(part, [], []);
      assert part + [] + [] == part;
    }
  }

  /** A part between commas is skipped if it is blank, read if it is the text of a range, and else an error. */
  lemma PartExact(part: string, lo: int, hi: int)
    ensures ReadPart(part) == Ok(None) <==> Blank(part)
    ensures ReadPart(part) == Ok(Some(PortRange(lo, hi))) <==> RangeText(part, lo, hi)
  {
    BlankExact(part);
    var l, r := TrimParts(part);
    if ReadPart(part) == Ok(Some(PortRange(lo, hi))) {
      PartIsText(l, TrimSpace(part), r, lo, hi);
    }
    if RangeText(part, lo, hi) {
      if lo == hi && PortText(part, lo) {
        SingleIsRead(part, lo);
      } else {
        var a: string, b: string :| Hyphened(part, a, b) && PortText(a, lo) && PortText(b, hi);
        PairIsRead(a, b, lo, hi);
      }
    }
  }

  // ------------------------------------------------------------- the pool

  ghost predicate PartOk(part: string) { Blank(part) || exists lo: int, hi: int :: RangeText(part, lo, hi) }

  ghost predicate Grants(part: string, port: int) {
    exists lo: int, hi: int :: RangeText(part, lo, hi) && lo <= port <= hi
  }

  lemma PartOkExact(part: string)
    ensures PartOk(part) <==> ReadPart(part).Ok?
  {
    PartExact(part, 0, 0);
    if ReadPart(part).Ok? && ReadPart(part).value.Some? {
      var r := ReadPart(part).value.value;
      PartExact(part, r.start, r.end);
    }
    forall lo: int, hi: int | RangeText(part, lo, hi)
      ensures ReadPart(part).Ok?
    {
      PartExact(part, lo, hi);
    }
  }

  lemma GrantsExact(part: string, port: int)
    ensures Grants(part, port) <==>
            ReadPart(part).Ok? && ReadPart(part).value.Some? && ReadPart(part).value.value.Contains(port)
  {
    if ReadPart(part).Ok? && ReadPart(part).value.Some? {
      var r := ReadPart(part).value.value;
      PartExact(part, r.start, r.end);
    }
    forall lo: int, hi: int | RangeText(part, lo, hi)
      ensures ReadPart(part) == Ok(Some(PortRange(lo, hi)))
    {
      PartExact(part, lo, hi);
    }
  }

  lemma {:induction false} CollectExact(parts: seq<string>, port: int)
    ensures Collect(ReadPart, parts).Ok? <==> forall part :: part in parts ==> PartOk(part)
    ensures Collect(ReadPart, parts).Ok? ==>
              (PortInRanges(port, Collect(ReadPart, parts).value) <==> exists part :: part in parts && Grants(part, port))
  {
    if parts != [] {
      var first, rest := parts[0], parts[1..];
      CollectExact(rest, port);
      PartOkExact(first);
      GrantsExact(first, port);
      assert forall part :: part in parts <==> part == first || part in rest;
      if Collect(ReadPart, parts).Ok? && ReadPart(first).value.Some? {
        InFirst(ReadPart(first).value.value, Collect(ReadPart, rest).value, port);
      }
    }
  }

  lemma InFirst(r: PortRange, rs: seq<PortRange>, port: int)
    ensures PortInRanges(port, [r] + rs) <==> r.Contains(port) || PortInRanges(port, rs)
  {
    var all := [r] + rs;
    if r.Contains(port) {
      assert all[0].Contains(port);
    }
    if PortInRanges(port, rs) {
      var i :| 0 <= i < |rs| && rs[i].Contains(port);
      assert all[i + 1].Contains(port);
    }
  }

  /**
  A pool is accepted exactly if every part between its commas is blank or the text of a range,
  and then it grants exactly the ports of these ranges.
  */
  lemma PoolTextExact(input: string, port: int)
    ensures var parts := Split(TrimSpace(input), ',');
      && (Parse(input).Ok? <==> forall part :: part in parts ==> PartOk(part))
      && (Parse(input).Ok? ==> (PortInRanges(port, Parse(input).value) <==> exists part :: part in parts && Grants(part, port)))
  {
    CollectExact(Split(TrimSpace(input), ','), port);
    if TrimSpace(input) == [] {
      assert Split([], ',') == [[]];
      PartOkExact([]);
      GrantsExact([], port);
    }
  }

  /** The node takes one port number more than the control plane, as a part of its own. */
  lemma NodeTakesOneMore(n: nat)
    requires n <= MAX_INT
    ensures Ports(Itoa(n)) == if 1 <= n <= 65536 then [n] else []
    ensures ReadPart(Itoa(n)).Ok? <==> 1 <= n <= 65535
  {
    var s := Itoa(n);
    AtoiOfItoa(n);
    SingleShape(n);
    IndexOfAbsent(s, ',');
    assert Split(s, ',') == [s] && s[..|s|] == s;
    assert ExpandAll([s]) == Expand(s) + ExpandAll([]);
    assert Expand(s) == if 1 <= n <= 65536 then [n] else [];
    TrimItoa(n);
  }
}
