/**
The log buffer of the launcher: chunks of output become lines, lines become numbered
entries, and only the last of them are kept.
*/
module LogBuffer {
  import opened Text

  type Stream = string

  datatype Entry = Entry(id: nat, time: int, stream: Stream, message: string)

  datatype Log = Log(nextId: nat, max: nat, entries: seq<Entry>, partial: map<Stream, string>)

  // ------------------------------------------------------------- cleaning

  const ESC: char := '\U{1b}'

  predicate IsParameter(c: char) { '0' <= c <= '9' || c == ';' || c == '?' }

  predicate IsIntermediate(c: char) { ' ' <= c <= '/' }

  predicate IsFinal(c: char) { '@' <= c <= '~' }

  /** How many characters at the front satisfy the class. */
  function Span(s: string, class_: char -> bool): (n: nat)
    ensures n <= |s|
  {
    if s == [] || !class_(s[0]) then 0 else 1 + Span(s[1..], class_)
  }

  /** The length of the escape sequence that `s` starts with; 0 if it starts with none. */
  function EscapeLength(s: string): (n: nat)
    ensures n <= |s|
  {
    if |s| < 2 || s[0] != ESC || s[1] != '[' then 0
    else
      var p := Span(s[2..], IsParameter);
      var q := Span(s[2 + p..], IsIntermediate);
      if 2 + p + q < |s| && IsFinal(s[2 + p + q]) then 2 + p + q + 1 else 0
  }

  /** ansiPattern.ReplaceAllString(line, ""). */
  function StripAnsi(s: string): string
    decreases |s|
  {
    if s == [] then []
    else if EscapeLength(s) > 0 then StripAnsi(s[EscapeLength(s)..])
    else [s[0]] + StripAnsi(s[1..])
  }

  function Clean(line: string): string { TrimSpace(StripAnsi(line)) }

  // ------------------------------------------------------ what is stripped

  lemma {:induction false} SpanIs(s: string, class_: char -> bool, front: string)
    requires front <= s && forall i :: 0 <= i < |front| ==> class_(front[i])
    requires |front| == |s| || !class_(s[|front|])
    ensures Span(s, class_) == |front|
  {
    if front != [] {
      assert s[0] == front[0] && front[1..] <= s[1..];
      SpanIs(s[1..], class_, front[1..]);
    }
  }

  lemma {:induction false} SpanHolds(s: string, class_: char -> bool)
    ensures forall i :: 0 <= i < Span(s, class_) ==> class_(s[i])
  {
    if s != [] && class_(s[0]) {
      SpanHolds(s[1..], class_);
      assert forall i :: 0 < i < Span(s, class_) ==> s[i] == s[1..][i - 1];
    }
  }

  // Texts of the pattern's three classes, with the characters written out.

  predicate Parameters(s: string) { forall i :: 0 <= i < |s| ==> s[i] in "0123456789;?" }

  predicate Intermediates(s: string) { forall i :: 0 <= i < |s| ==> s[i] in " !\"#$%&'()*+,-./" }

  predicate Finishes(c: char) { '@' <= c <= 'Z' || 'a' <= c <= 'z' || c in "[\\]^_`{|}~" }

  lemma ParametersExact(s: string)
    ensures Parameters(s) <==> forall i :: 0 <= i < |s| ==> IsParameter(s[i])
  {
  }

  lemma IntermediatesExact(s: string)
    ensures Intermediates(s) <==> forall i :: 0 <= i < |s| ==> IsIntermediate(s[i])
  {
  }

  lemma FinishesExact(c: char)
    ensures Finishes(c) <==> IsFinal(c)
  {
  }

  function Escape(params: string, inter: string, last: char): string {
    [ESC, '['] + (params + (inter + [last]))
  }

  lemma EscapeLengthIs(params: string, inter: string, last: char, rest: string)
    requires Parameters(params) && Intermediates(inter) && Finishes(last)
    ensures EscapeLength(Escape(params, inter, last) + rest) == |Escape(params, inter, last)|
  {
    ParametersExact(params);
    IntermediatesExact(inter);
    FinishesExact(last);
    ClassesLength(params, inter, last, rest);
  }

  lemma ClassesLength(params: string, inter: string, last: char, rest: string)
    requires forall i :: 0 <= i < |params| ==> IsParameter(params[i])
    requires forall i :: 0 <= i < |inter| ==> IsIntermediate(inter[i])
    requires IsFinal(last)
    ensures EscapeLength(Escape(params, inter, last) + rest) == |Escape(params, inter, last)|
  {
    var s := Escape(params, inter, last) + rest;
    var tail := inter + ([last] + rest);
    assert s[2..] == params + tail;
    SpanIs(s[2..], IsParameter, params);
    assert s[2 + |params|..] == tail;
    SpanIs(tail, IsIntermediate, inter);
  }

  /** A sequence that is found has that form, and it is the only thing that is removed. */
  lemma EscapeHasForm(s: string) returns (params: string, inter: string, last: char)
    requires EscapeLength(s) > 0
    ensures Parameters(params) && Intermediates(inter) && Finishes(last)
    ensures s[..EscapeLength(s)] == Escape(params, inter, last)
  {
    var p := Span(s[2..], IsParameter);
    var q := Span(s[2 + p..], IsIntermediate);
    SpanHolds(s[2..], IsParameter);
    SpanHolds(s[2 + p..], IsIntermediate);
    params, inter, last := s[2..][..p], s[2 + p..][..q], s[2 + p + q];
    ParametersExact(params);
    IntermediatesExact(inter);
    FinishesExact(last);
    assert s[..2] == [ESC, '['];
    assert s[..EscapeLength(s)] == s[..2] + (params + (inter + [last]));
  }

  lemma {:induction false} FirstIsRemoved(plain: string, escape: string, rest: string)
    requires ESC !in plain && EscapeLength(escape + rest) == |escape| > 0
    ensures StripAnsi(plain + (escape + rest)) == plain + StripAnsi(rest)
  {
    var s := plain + (escape + rest);
    if plain == [] {
      assert s == escape + rest && s[|escape|..] == rest;
    } else {
      assert s[0] == plain[0] && s[1..] == plain[1..] + (escape + rest);
      FirstIsRemoved(plain[1..], escape, rest);
    }
  }

  /** Each control sequence is removed, and the text before it stays as it is. */
  lemma EscapeIsRemoved(plain: string, params: string, inter: string, last: char, rest: string)
    requires ESC !in plain && Parameters(params) && Intermediates(inter) && Finishes(last)
    ensures StripAnsi(plain + (Escape(params, inter, last) + rest)) == plain + StripAnsi(rest)
  {
    EscapeLengthIs(params, inter, last, rest);
    FirstIsRemoved(plain, Escape(params, inter, last), rest);
  }

  /** A text in which no control sequence begins stays as it is. */
  lemma {:induction false} PlainStays(s: string)
    requires forall i :: 0 <= i < |s| ==> EscapeLength(s[i..]) == 0
    ensures StripAnsi(s) == s
  {
    if s != [] {
      assert s[0..] == s;
      assert forall i :: 0 <= i < |s| - 1 ==> s[1..][i..] == s[i + 1..];
      PlainStays(s[1..]);
    }
  }

  /** strings.ReplaceAll(chunk, "\r\n", "\n"). */
  function Unix(s: string): string
    decreases |s|
  {
    if s == [] then []
    else if |s| >= 2 && s[0] == '\r' && s[1] == '\n' then ['\n'] + Unix(s[2..])
    else [s[0]] + Unix(s[1..])
  }

  // ----------------------------------------------------------- operations

  function LastN<T>(s: seq<T>, n: nat): seq<T> { if |s| <= n then s else s[|s| - n..] }

  /** Appends an entry with the next number and forgets what is too many. */
  function Store(log: Log, now: int, stream: Stream, message: string): Log {
    log.(nextId := log.nextId + 1,
         entries := LastN(log.entries + [Entry(log.nextId + 1, now, stream, message)], log.max))
  }

  function AddLine(log: Log, now: int, stream: Stream, line: string): Log {
    if Clean(line) == "" then log else Store(log, now, stream, Clean(line))
  }

  function AddLines(log: Log, now: int, stream: Stream, lines: seq<string>): Log
    decreases |lines|
  {
    if lines == [] then log else AddLines(AddLine(log, now, stream, lines[0]), now, stream, lines[1..])
  }

  function Partial(log: Log, stream: Stream): string { if stream in log.partial then log.partial[stream] else "" }

  function Init<T>(s: seq<T>): seq<T>
    requires s != []
  {
    s[..|s| - 1]
  }

  function Last<T>(s: seq<T>): T
    requires s != []
  {
    s[|s| - 1]
  }

  function Keep(log: Log, stream: Stream, text: string): Log { log.(partial := log.partial[stream := text]) }

  function AddChunk(log: Log, now: int, stream: Stream, chunk: string): Log {
    if chunk == "" then log
    else
      var lines := Split(Partial(log, stream) + Unix(chunk), '\n');
      AddLines(Keep(log, stream, Last(lines)), now, stream, Init(lines))
  }

  function Clear(log: Log): Log { log.(entries := [], partial := map[]) }

  // ----------------------------------------- a trailing carriage return

  lemma {:induction false} SpanSnoc(s: string, class_: char -> bool, c: char)
    requires !class_(c)
    ensures Span(s + [c], class_) == Span(s, class_)
  {
    if s == [] {
      assert (s + [c])[0] == c;
    } else if class_(s[0]) {
      assert (s + [c])[1..] == s[1..] + [c];
      SpanSnoc(s[1..], class_, c);
    }
  }

  lemma EscapeSnoc(s: string)
    ensures s != [] ==> EscapeLength(s + ['\r']) == EscapeLength(s)
  {
    if |s| >= 2 {
      var t := s + ['\r'];
      assert t[2..] == s[2..] + ['\r'];
      SpanSnoc(s[2..], IsParameter, '\r');
      var p := Span(s[2..], IsParameter);
      assert t[2 + p..] == s[2 + p..] + ['\r'];
      SpanSnoc(s[2 + p..], IsIntermediate, '\r');
    }
  }

  lemma {:induction false} StripSnoc(s: string)
    ensures StripAnsi(s + ['\r']) == StripAnsi(s) + ['\r']
    decreases |s|
  {
    var t := s + ['\r'];
    if s == [] {
      assert t[1..] == [];
    } else {
      EscapeSnoc(s);
      var n := EscapeLength(s);
      if n > 0 {
        assert t[n..] == s[n..] + ['\r'];
        StripSnoc(s[n..]);
      } else {
        assert t[1..] == s[1..] + ['\r'];
        StripSnoc(s[1..]);
      }
    }
  }

  lemma {:induction false} TrimLeftSnoc(s: string)
    ensures TrimLeft(s + ['\r']) == if TrimLeft(s) == [] then [] else TrimLeft(s) + ['\r']
  {
    var t := s + ['\r'];
    if s == [] {
      assert t[1..] == [];
    } else if IsSpace(s[0]) {
      assert t[1..] == s[1..] + ['\r'];
      TrimLeftSnoc(s[1..]);
    }
  }

  /** A carriage return at the end of a line does not show in the message. */
  lemma CleanIgnoresCr(line: string)
    ensures Clean(line + ['\r']) == Clean(line)
  {
    StripSnoc(line);
    var s := StripAnsi(line);
    TrimLeftSnoc(s);
    var l := TrimLeft(s);
    assert (l + ['\r'])[..|l|] == l;
  }

  lemma LineIgnoresCr(log: Log, now: int, stream: Stream, line: string)
    ensures AddLine(log, now, stream, line + ['\r']) == AddLine(log, now, stream, line)
  {
    CleanIgnoresCr(line);
  }

  // -------------------------------------------------------- splitting lines

  lemma SplitLine(line: string, rest: string)
    requires '\n' !in line
    ensures Split(line + ['\n'] + rest, '\n') == [line] + Split(rest, '\n')
  {
    var s := line + ['\n'] + rest;
    IndexOfAfter(line, '\n', rest);
    assert s[..|line|] == line && s[|line| + 1..] == rest;
  }

  lemma SplitWhole(line: string)
    requires '\n' !in line
    ensures Split(line, '\n') == [line]
  {
    IndexOfAbsent(line, '\n');
  }

  /** Nothing that is kept for later holds a line end. */
  lemma {:induction false} LastHasNoLineEnd(s: string)
    ensures '\n' !in Last(Split(s, '\n'))
    decreases |s|
  {
    var i := IndexOf(s, '\n');
    if i < |s| {
      LastHasNoLineEnd(s[i + 1..]);
    } else {
      assert s[..i] == s;
    }
  }

  lemma ConsThrough<T>(h: T, s: seq<T>, t: seq<T>)
    requires s != []
    ensures Init([h] + s) + t == [h] + (Init(s) + t) && Last([h] + s) == Last(s)
  {
  }

  /** Splitting a text that arrives in two parts: the last piece of the first part is continued by the second. */
  lemma {:induction false} SplitAppend(x: string, b: string)
    ensures Split(x + b, '\n') == Init(Split(x, '\n')) + Split(Last(Split(x, '\n')) + b, '\n')
    decreases |x|
  {
    var i := IndexOf(x, '\n');
    if i == |x| {
      assert x[..i] == x;
      SplitWhole(x);
    } else {
      var h, r := x[..i], x[i + 1..];
      assert x == h + ['\n'] + r && x + b == h + ['\n'] + (r + b);
      SplitLine(h, r);
      SplitLine(h, r + b);
      SplitAppend(r, b);
      ConsThrough(h, Split(r, '\n'), Split(Last(Split(r, '\n')) + b, '\n'));
    }
  }

  lemma InitCons<T>(h: T, rest: seq<T>)
    requires rest != []
    ensures Init([h] + rest) == [h] + Init(rest) && Last([h] + rest) == Last(rest)
  {
  }

  lemma {:induction false} AddLinesAppend(log: Log, now: int, stream: Stream, a: seq<string>, b: seq<string>)
    ensures AddLines(log, now, stream, a + b) == AddLines(AddLines(log, now, stream, a), now, stream, b)
    decreases |a|
  {
    if a == [] {
      assert a + b == b;
    } else {
      assert (a + b)[1..] == a[1..] + b;
      AddLinesAppend(AddLine(log, now, stream, a[0]), now, stream, a[1..], b);
    }
  }

  /** The lines of a text, with what was kept before in front of it. */
  function Lines(p: string, c: string): (ls: seq<string>)
    ensures ls != []
  {
    Split(p + c, '\n')
  }

  lemma LinesOfEnd(p: string, rest: string)
    requires '\n' !in p
    ensures Lines(p, ['\n'] + rest) == [p] + Lines("", rest)
  {
    assert p + (['\n'] + rest) == p + ['\n'] + rest && "" + rest == rest;
    SplitLine(p, rest);
  }

  lemma AddOneLine(log: Log, now: int, stream: Stream, line: string, more: seq<string>)
    requires more != []
    ensures AddLines(log, now, stream, Init([line] + more)) == AddLines(AddLine(log, now, stream, line), now, stream, Init(more))
    ensures Last([line] + more) == Last(more)
  {
    InitCons(line, more);
    assert ([line] + Init(more))[1..] == Init(more);
  }

  /** Whether "\r\n" is replaced first or not, the same entries result and the same text is kept. */
  lemma {:induction false} UnixMakesNoDifference(log: Log, now: int, stream: Stream, p: string, c: string)
    requires '\n' !in p
    ensures AddLines(log, now, stream, Init(Lines(p, Unix(c)))) == AddLines(log, now, stream, Init(Lines(p, c)))
    ensures Last(Lines(p, Unix(c))) == Last(Lines(p, c))
    decreases |c|
  {
    if c == [] {
    } else if |c| >= 2 && c[0] == '\r' && c[1] == '\n' {
      CrLfStep(log, now, stream, p, c);
    } else if c[0] == '\n' {
      var rest := c[1..];
      assert c == ['\n'] + rest;
      LinesOfEnd(p, rest);
      LinesOfEnd(p, Unix(rest));
      AddOneLine(log, now, stream, p, Lines("", rest));
      AddOneLine(log, now, stream, p, Lines("", Unix(rest)));
      UnixMakesNoDifference(AddLine(log, now, stream, p), now, stream, "", rest);
    } else {
      var rest := c[1..];
      assert p + c == (p + [c[0]]) + rest && p + ([c[0]] + Unix(rest)) == (p + [c[0]]) + Unix(rest);
      UnixMakesNoDifference(log, now, stream, p + [c[0]], rest);
    }
  }

  lemma {:induction false} CrLfStep(log: Log, now: int, stream: Stream, p: string, c: string)
    requires '\n' !in p && |c| >= 2 && c[0] == '\r' && c[1] == '\n'
    ensures AddLines(log, now, stream, Init(Lines(p, Unix(c)))) == AddLines(log, now, stream, Init(Lines(p, c)))
    ensures Last(Lines(p, Unix(c))) == Last(Lines(p, c))
    decreases |c|, 0
  {
    var rest := c[2..];
    assert c == ['\r', '\n'] + rest;
    assert p + c == (p + ['\r']) + (['\n'] + rest);
    LinesOfEnd(p + ['\r'], rest);
    LinesOfEnd(p, Unix(rest));
    AddOneLine(log, now, stream, p + ['\r'], Lines("", rest));
    AddOneLine(log, now, stream, p, Lines("", Unix(rest)));
    LineIgnoresCr(log, now, stream, p);
    UnixMakesNoDifference(AddLine(log, now, stream, p), now, stream, "", rest);
  }

  // ---------------------------------------------------------------- chunks

  lemma {:induction false} AddLinesKeep(log: Log, now: int, stream: Stream, lines: seq<string>, text: string)
    ensures AddLines(Keep(log, stream, text), now, stream, lines) == Keep(AddLines(log, now, stream, lines), stream, text)
    ensures AddLines(log, now, stream, lines).partial == log.partial
    decreases |lines|
  {
    if lines != [] {
      AddLinesKeep(AddLine(log, now, stream, lines[0]), now, stream, lines[1..], text);
      assert AddLine(Keep(log, stream, text), now, stream, lines[0]) == Keep(AddLine(log, now, stream, lines[0]), stream, text);
    }
  }

  /** A chunk adds the lines of the text as it came, and keeps what follows the last line end. */
  lemma RawChunk(log: Log, now: int, stream: Stream, chunk: string)
    requires chunk != "" && '\n' !in Partial(log, stream)
    ensures var lines := Lines(Partial(log, stream), chunk);
      AddChunk(log, now, stream, chunk) == Keep(AddLines(log, now, stream, Init(lines)), stream, Last(lines))
  {
    var p := Partial(log, stream);
    UnixMakesNoDifference(log, now, stream, p, chunk);
    AddLinesKeep(log, now, stream, Init(Lines(p, Unix(chunk))), Last(Lines(p, Unix(chunk))));
  }

  lemma KeepTwice(log: Log, stream: Stream, a: string, b: string)
    ensures Keep(Keep(log, stream, a), stream, b) == Keep(log, stream, b)
  {
  }

  /** Two chunks are as good as one. */
  lemma TwoChunks(log: Log, now: int, stream: Stream, a: string, b: string)
    requires '\n' !in Partial(log, stream)
    ensures AddChunk(AddChunk(log, now, stream, a), now, stream, b) == AddChunk(log, now, stream, a + b)
    ensures '\n' !in Partial(AddChunk(log, now, stream, a), stream)
  {
    if a == "" {
      assert a + b == b;
    } else {
      var p := Partial(log, stream);
      LastHasNoLineEnd(p + a);
      RawChunk(log, now, stream, a);
      if b == "" {
        assert a + b == a;
      } else {
        TwoRawChunks(log, now, stream, a, b);
      }
    }
  }

  lemma SecondChunk(log: Log, now: int, stream: Stream, kept: string, b: string)
    requires '\n' !in kept && b != ""
    ensures var lines := Lines(kept, b);
      AddChunk(Keep(log, stream, kept), now, stream, b) == Keep(AddLines(log, now, stream, Init(lines)), stream, Last(lines))
  {
    var lines := Lines(kept, b);
    RawChunk(Keep(log, stream, kept), now, stream, b);
    AddLinesKeep(log, now, stream, Init(lines), kept);
    KeepTwice(AddLines(log, now, stream, Init(lines)), stream, kept, Last(lines));
  }

  lemma LinesAppend(p: string, a: string, b: string)
    ensures var first := Lines(p, a);
      var second := Lines(Last(first), b);
      Init(Lines(p, a + b)) == Init(first) + Init(second) && Last(Lines(p, a + b)) == Last(second)
  {
    SplitAppend(p + a, b);
    assert (p + a) + b == p + (a + b);
    InitAppend(Init(Lines(p, a)), Lines(Last(Lines(p, a)), b));
  }

  lemma TwoRawChunks(log: Log, now: int, stream: Stream, a: string, b: string)
    requires '\n' !in Partial(log, stream) && a != "" && b != ""
    ensures AddChunk(AddChunk(log, now, stream, a), now, stream, b) == AddChunk(log, now, stream, a + b)
  {
    var p := Partial(log, stream);
    var first := Lines(p, a);
    var second := Lines(Last(first), b);
    LastHasNoLineEnd(p + a);
    RawChunk(log, now, stream, a);
    SecondChunk(AddLines(log, now, stream, Init(first)), now, stream, Last(first), b);
    LinesAppend(p, a, b);
    AddLinesAppend(log, now, stream, Init(first), Init(second));
    RawChunk(log, now, stream, a + b);
  }

  lemma InitAppend<T>(a: seq<T>, b: seq<T>)
    requires b != []
    ensures Init(a + b) == a + Init(b) && Last(a + b) == Last(b)
  {
  }

  // ----------------------------------------------------------------- times

  /** The log without its times. */
  function EraseAll(es: seq<Entry>): (r: seq<Entry>)
    ensures |r| == |es| && forall i :: 0 <= i < |es| ==> r[i] == es[i].(time := 0)
  {
    seq(|es|, i requires 0 <= i < |es| => es[i].(time := 0))
  }

  function Erase(log: Log): Log { log.(entries := EraseAll(log.entries)) }

  lemma EraseAdded(es: seq<Entry>, e: Entry, n: nat)
    ensures EraseAll(LastN(es + [e], n)) == LastN(EraseAll(es) + [e.(time := 0)], n)
  {
    var all := es + [e];
    assert EraseAll(all) == EraseAll(es) + [e.(time := 0)];
    forall i | 0 <= i < |LastN(all, n)|
      ensures EraseAll(LastN(all, n))[i] == LastN(EraseAll(all), n)[i]
    {
    }
  }

  lemma EraseStore(log: Log, now: int, stream: Stream, message: string)
    ensures Erase(Store(log, now, stream, message)) == Store(Erase(log), 0, stream, message)
  {
    EraseAdded(log.entries, Entry(log.nextId + 1, now, stream, message), log.max);
  }

  lemma EraseLine(log: Log, now: int, stream: Stream, line: string)
    ensures Erase(AddLine(log, now, stream, line)) == AddLine(Erase(log), 0, stream, line)
  {
    EraseStore(log, now, stream, Clean(line));
  }

  lemma {:induction false} EraseLines(log: Log, now: int, stream: Stream, lines: seq<string>)
    ensures Erase(AddLines(log, now, stream, lines)) == AddLines(Erase(log), 0, stream, lines)
    decreases |lines|
  {
    if lines != [] {
      EraseLine(log, now, stream, lines[0]);
      EraseLines(AddLine(log, now, stream, lines[0]), now, stream, lines[1..]);
    }
  }

  lemma EraseChunk(log: Log, now: int, stream: Stream, chunk: string)
    ensures Erase(AddChunk(log, now, stream, chunk)) == AddChunk(Erase(log), 0, stream, chunk)
  {
    if chunk != "" {
      var lines := Split(Partial(log, stream) + Unix(chunk), '\n');
      EraseLines(Keep(log, stream, Last(lines)), now, stream, Init(lines));
    }
  }

  datatype Arrival = Arrival(time: int, chunk: string)

  function AddAll(log: Log, stream: Stream, arrivals: seq<Arrival>): Log
    decreases |arrivals|
  {
    if arrivals == [] then log else AddAll(AddChunk(log, arrivals[0].time, stream, arrivals[0].chunk), stream, arrivals[1..])
  }

  function WholeText(arrivals: seq<Arrival>): string { if arrivals == [] then "" else arrivals[0].chunk + WholeText(arrivals[1..]) }

  /**
  However a text is cut into chunks, even inside a "\r\n", the same messages are stored
  under the same numbers and the same rest is kept; only the times differ.
  */
  lemma {:induction false} ChunkingMakesNoDifference(log: Log, stream: Stream, arrivals: seq<Arrival>)
    requires '\n' !in Partial(log, stream)
    ensures Erase(AddAll(log, stream, arrivals)) == AddChunk(Erase(log), 0, stream, WholeText(arrivals))
    decreases |arrivals|
  {
    if arrivals != [] {
      var a := arrivals[0];
      var next := AddChunk(log, a.time, stream, a.chunk);
      EraseChunk(log, a.time, stream, a.chunk);
      TwoChunks(Erase(log), 0, stream, a.chunk, WholeText(arrivals[1..]));
      ChunkingMakesNoDifference(next, stream, arrivals[1..]);
    }
  }
}
