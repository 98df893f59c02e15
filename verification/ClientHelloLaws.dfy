/**
What the grammar promises: which name the reader ends with, and that messages and their
bytes determine each other.
*/
module ClientHelloLaws {
  import opened Basics
  import opened ClientHello

  // ---------------------------------------------------------- which host name

  predicate Carries(e: Extension) { e.kind == SERVER_NAME && ScanServerName(e.body).HostName? }

  lemma AbsorbName(f: Fields, e: Extension)
    requires BodyOk(e)
    ensures Absorb(f, e).serverName == if Carries(e) then ScanServerName(e.body).name else f.serverName
  {
  }

  /** The extension `i` is the last one that carries a host name; none does if `i` is negative. */
  predicate LastCarrier(es: seq<Extension>, i: int) {
    && i < |es| && (i >= 0 ==> Carries(es[i]))
    && (forall j :: 0 <= j < |es| && i < j ==> !Carries(es[j]))
  }

  lemma LastCarrierOfRest(es: seq<Extension>, i: int)
    requires es != [] && LastCarrier(es, i)
    ensures LastCarrier(es[1..], if i > 0 then i - 1 else -1)
    ensures i != 0 ==> (i < 0 ==> !Carries(es[0]))
  {
    var k := if i > 0 then i - 1 else -1;
    forall j | 0 <= j < |es[1..]| && k < j
      ensures !Carries(es[1..][j])
    {
      assert es[1..][j] == es[j + 1];
    }
  }

  lemma {:induction false} LastCarrierWins(f: Fields, es: seq<Extension>, i: int)
    requires AllOk(es) && LastCarrier(es, i)
    ensures AbsorbAll(f, es).serverName == if i < 0 then f.serverName else ScanServerName(es[i].body).name
    decreases |es|
  {
    if es != [] {
      AbsorbName(f, es[0]);
      LastCarrierOfRest(es, i);
      LastCarrierWins(Absorb(f, es[0]), es[1..], if i > 0 then i - 1 else -1);
    }
  }

  function ExtensionsOf(h: Hello): seq<Extension> { if h.extensions.Some? then h.extensions.value else [] }

  /**
  The server name of an accepted message is the first host name of the last server_name
  extension that carries one, and empty if none does.
  */
  lemma ServerNameIs(prior: Fields, h: Hello, i: int)
    requires Acceptable(h) && LastCarrier(ExtensionsOf(h), i)
    ensures Read(prior, h).serverName == if i < 0 then [] else ScanServerName(ExtensionsOf(h)[i].body).name
  {
    if h.extensions.Some? {
      LastCarrierWins(Begin(prior, h), h.extensions.value, i);
    }
  }

  // -------------------------------------------------------------- name lists

  datatype Name = Name(kind: byte, value: ByteString)

  predicate NameOk(n: Name) { |n.value| < 0x1_0000 }

  function EncodeName(n: Name): ByteString
    requires NameOk(n)
  {
    [n.kind] + Pair(|n.value|) + n.value
  }

  predicate OtherNames(ns: seq<Name>) { forall i :: 0 <= i < |ns| ==> NameOk(ns[i]) && ns[i].kind != 0 }

  function EncodeNames(ns: seq<Name>): ByteString
    requires OtherNames(ns)
  {
    if ns == [] then [] else EncodeName(ns[0]) + EncodeNames(ns[1..])
  }

  predicate EndsInDot(v: ByteString) { v != [] && v[|v| - 1] == '.' as byte }

  lemma ScanEncodedName(n: Name, rest: ByteString)
    requires NameOk(n)
    ensures ScanNames(EncodeName(n) + rest) ==
              if n.kind != 0 then ScanNames(rest) else if EndsInDot(n.value) then Malformed else HostName(n.value)
  {
    var d := EncodeName(n) + rest;
    var l := |n.value|;
    assert d[0] == n.kind && U16(d[1], d[2]) == l;
    assert d[3..][..l] == n.value && d[3..][l..] == rest;
  }

  /** Names of other kinds are passed over, the first host name is taken, and what follows it is not looked at. */
  lemma {:induction false} FirstHostName(others: seq<Name>, host: Name, rest: ByteString)
    requires OtherNames(others) && NameOk(host) && host.kind == 0
    ensures ScanNames(EncodeNames(others) + EncodeName(host) + rest) ==
              if EndsInDot(host.value) then Malformed else HostName(host.value)
  {
    if others == [] {
      assert EncodeNames(others) + EncodeName(host) + rest == EncodeName(host) + rest;
      ScanEncodedName(host, rest);
    } else {
      var more := EncodeNames(others[1..]) + EncodeName(host) + rest;
      assert EncodeNames(others) + EncodeName(host) + rest == EncodeName(others[0]) + more;
      ScanEncodedName(others[0], more);
      FirstHostName(others[1..], host, rest);
    }
  }

  /** The other way: a name that the scan reports stands behind names of other kinds. */
  lemma {:induction false} HostNameIsThere(d: ByteString) returns (others: seq<Name>, rest: ByteString)
    requires ScanNames(d).HostName?
    ensures OtherNames(others) && NameOk(Name(0, ScanNames(d).name)) && !EndsInDot(ScanNames(d).name)
    ensures d == EncodeNames(others) + EncodeName(Name(0, ScanNames(d).name)) + rest
    decreases |d|
  {
    var n := U16(d[1], d[2]);
    var first := Name(d[0], d[3..][..n]);
    NameBack(d);
    if d[0] == 0 {
      others, rest := [], d[3..][n..];
      assert EncodeNames([]) + EncodeName(first) == EncodeName(first);
    } else {
      var more;
      more, rest := HostNameIsThere(d[3..][n..]);
      others := [first] + more;
      NamesCons(first, more);
      Regroup(EncodeName(first), EncodeNames(more), EncodeName(Name(0, ScanNames(d).name)), rest);
    }
  }

  lemma NameBack(d: ByteString)
    requires |d| >= 3 && |d| - 3 >= U16(d[1], d[2])
    ensures var n := U16(d[1], d[2]); d == EncodeName(Name(d[0], d[3..][..n])) + d[3..][n..]
  {
    PairBack(d[1], d[2]);
  }

  lemma NamesCons(first: Name, more: seq<Name>)
    requires NameOk(first) && first.kind != 0 && OtherNames(more)
    ensures OtherNames([first] + more) && EncodeNames([first] + more) == EncodeName(first) + EncodeNames(more)
  {
    assert ([first] + more)[1..] == more;
  }

  lemma Regroup(a: ByteString, b: ByteString, c: ByteString, e: ByteString)
    ensures a + (b + c + e) == (a + b) + c + e
  {
  }

  // -------------------------------------------------------------- round trips

  predicate ExtensionOk(e: Extension) { e.kind < 0x1_0000 && |e.body| < 0x1_0000 }

  predicate ExtensionsOk(es: seq<Extension>) { forall i :: 0 <= i < |es| ==> ExtensionOk(es[i]) }

  function EncodeExtension(e: Extension): ByteString
    requires ExtensionOk(e)
  {
    Pair(e.kind) + Pair(|e.body|) + e.body
  }

  function EncodeExtensions(es: seq<Extension>): ByteString
    requires ExtensionsOk(es)
  {
    if es == [] then [] else EncodeExtension(es[0]) + EncodeExtensions(es[1..])
  }

  /** Where the parts of a header of two pairs, a body and a rest lie. */
  lemma PartsOf(p: ByteString, q: ByteString, body: ByteString, rest: ByteString)
    requires |p| == 2 && |q| == 2
    ensures var d := p + q + body + rest;
      && d[0] == p[0] && d[1] == p[1] && d[2] == q[0] && d[3] == q[1]
      && d[4..][..|body|] == body && d[4..][|body|..] == rest
  {
    var d := p + q + body + rest;
    assert d[4..] == body + rest;
  }

  lemma ExtensionCut(e: Extension, rest: ByteString)
    requires ExtensionOk(e)
    ensures var d := EncodeExtension(e) + rest;
      && |d| >= 4 && U16(d[0], d[1]) == e.kind && U16(d[2], d[3]) == |e.body| <= |d| - 4
      && d[4..][..|e.body|] == e.body && d[4..][|e.body|..] == rest
  {
    var p, q := Pair(e.kind), Pair(|e.body|);
    PartsOf(p, q, e.body, rest);
    assert EncodeExtension(e) == p + q + e.body;
  }

  lemma {:induction false} ExtensionsRoundTrip(es: seq<Extension>)
    requires ExtensionsOk(es)
    ensures ParseExtensions(EncodeExtensions(es)) == Some(es)
  {
    if es != [] {
      ExtensionCut(es[0], EncodeExtensions(es[1..]));
      ExtensionsRoundTrip(es[1..]);
      assert [es[0]] + es[1..] == es;
    }
  }

  lemma {:induction false} ExtensionsCanonical(d: ByteString)
    requires ParseExtensions(d).Some?
    ensures ExtensionsOk(ParseExtensions(d).value) && EncodeExtensions(ParseExtensions(d).value) == d
    decreases |d|
  {
    if d != [] {
      var n := U16(d[2], d[3]);
      ExtensionBack(d);
      ExtensionsCanonical(d[4..][n..]);
      ExtensionsCons(Extension(U16(d[0], d[1]), d[4..][..n]), ParseExtensions(d[4..][n..]).value);
    }
  }

  lemma ExtensionBack(d: ByteString)
    requires |d| >= 4 && |d| - 4 >= U16(d[2], d[3])
    ensures var n := U16(d[2], d[3]); d == EncodeExtension(Extension(U16(d[0], d[1]), d[4..][..n])) + d[4..][n..]
  {
    PairBack(d[0], d[1]);
    PairBack(d[2], d[3]);
  }

  lemma ExtensionsCons(e: Extension, rest: seq<Extension>)
    requires ExtensionOk(e) && ExtensionsOk(rest)
    ensures ExtensionsOk([e] + rest) && EncodeExtensions([e] + rest) == EncodeExtension(e) + EncodeExtensions(rest)
  {
    assert ([e] + rest)[1..] == rest;
  }

  predicate SuitesOk(ws: seq<nat>) { 2 * |ws| < 0x1_0000 && forall i :: 0 <= i < |ws| ==> ws[i] < 0x1_0000 }

  function EncodeWords(ws: seq<nat>): (d: ByteString)
    requires forall i :: 0 <= i < |ws| ==> ws[i] < 0x1_0000
    ensures |d| == 2 * |ws|
  {
    if ws == [] then [] else Pair(ws[0]) + EncodeWords(ws[1..])
  }

  lemma {:induction false} WordsRoundTrip(ws: seq<nat>)
    requires forall i :: 0 <= i < |ws| ==> ws[i] < 0x1_0000
    ensures Words(EncodeWords(ws)) == ws
  {
    if ws != [] {
      assert EncodeWords(ws)[2..] == EncodeWords(ws[1..]);
      WordsRoundTrip(ws[1..]);
      assert [ws[0]] + ws[1..] == ws;
    }
  }

  lemma {:induction false} WordsCanonical(d: ByteString)
    requires |d| % 2 == 0
    ensures |Words(d)| == |d| / 2
    ensures forall i :: 0 <= i < |Words(d)| ==> Words(d)[i] < 0x1_0000
    ensures EncodeWords(Words(d)) == d
  {
    if d != [] {
      WordsCanonical(d[2..]);
      PairBack(d[0], d[1]);
      var rest := Words(d[2..]);
      assert ([U16(d[0], d[1])] + rest)[1..] == rest;
      assert d == [d[0], d[1]] + d[2..];
    }
  }

  /** The messages that have an encoding. */
  predicate HelloOk(h: Hello) {
    && |h.header| == 4 && h.vers < 0x1_0000 && |h.random| == 32 && |h.sessionId| <= 32
    && SuitesOk(h.suites) && |h.compression| < 256
    && (h.extensions.Some? ==>
          ExtensionsOk(h.extensions.value) && |EncodeExtensions(h.extensions.value)| < 0x1_0000)
  }

  function EncodeBlock(es: Option<seq<Extension>>): ByteString
    requires es.Some? ==> ExtensionsOk(es.value) && |EncodeExtensions(es.value)| < 0x1_0000
  {
    match es
    case None => []
    case Some(all) => Pair(|EncodeExtensions(all)|) + EncodeExtensions(all)
  }

  function EncodeVector8(v: ByteString): ByteString
    requires |v| < 256
  {
    [|v| as byte] + v
  }

  function EncodeVector16(v: ByteString): ByteString
    requires |v| < 0x1_0000
  {
    Pair(|v|) + v
  }

  function EncodeStart(h: Hello): ByteString
    requires |h.header| == 4 && h.vers < 0x1_0000 && |h.random| == 32
  {
    h.header + Pair(h.vers) + h.random
  }

  function EncodeHello(h: Hello): ByteString
    requires HelloOk(h)
  {
    EncodeStart(h) + (EncodeVector8(h.sessionId)
      + (EncodeVector16(EncodeWords(h.suites)) + (EncodeVector8(h.compression) + EncodeBlock(h.extensions))))
  }

  lemma Vector8RoundTrip(v: ByteString, rest: ByteString)
    requires |v| < 256
    ensures Vector8(EncodeVector8(v) + rest) == Some((v, rest))
  {
    var d := EncodeVector8(v) + rest;
    assert d[1..] == v + rest;
    assert (v + rest)[..|v|] == v && (v + rest)[|v|..] == rest;
  }

  lemma Vector16Of(p: ByteString, v: ByteString, rest: ByteString)
    requires |p| == 2 && U16(p[0], p[1]) == |v|
    ensures Vector16(p + v + rest) == Some((v, rest))
  {
    var d := p + v + rest;
    assert d[0] == p[0] && d[1] == p[1] && d[2..] == v + rest;
    assert (v + rest)[..|v|] == v && (v + rest)[|v|..] == rest;
  }

  lemma Vector16RoundTrip(v: ByteString, rest: ByteString)
    requires |v| < 0x1_0000
    ensures Vector16(EncodeVector16(v) + rest) == Some((v, rest))
  {
    var p := Pair(|v|);
    Vector16Of(p, v, rest);
    assert EncodeVector16(v) == p + v;
  }

  lemma Vector8Canonical(d: ByteString)
    requires Vector8(d).Some?
    ensures var (v, rest) := Vector8(d).value; |v| < 256 && EncodeVector8(v) + rest == d
  {
  }

  lemma Vector16Parts(d: ByteString)
    requires Vector16(d).Some?
    ensures var (v, rest) := Vector16(d).value; |v| == U16(d[0], d[1]) && d == [d[0], d[1]] + v + rest
  {
    assert d == [d[0], d[1]] + d[2..];
  }

  lemma Vector16Canonical(d: ByteString)
    requires Vector16(d).Some?
    ensures var (v, rest) := Vector16(d).value; |v| < 0x1_0000 && EncodeVector16(v) + rest == d
  {
    PairBack(d[0], d[1]);
    Vector16Parts(d);
  }

  lemma BlockRoundTrip(es: Option<seq<Extension>>)
    requires es.Some? ==> ExtensionsOk(es.value) && |EncodeExtensions(es.value)| < 0x1_0000
    ensures ParseBlock(EncodeBlock(es)) == Some(es)
  {
    if es.Some? {
      ExtensionsRoundTrip(es.value);
      assert EncodeBlock(es)[2..] == EncodeExtensions(es.value);
    }
  }

  lemma HeadAndRest(d: ByteString)
    requires |d| >= 2
    ensures d == [d[0], d[1]] + d[2..]
  {
  }

  lemma BlockOf(d: ByteString, es: seq<Extension>)
    requires |d| >= 2 && U16(d[0], d[1]) == |d| - 2 && ExtensionsOk(es) && EncodeExtensions(es) == d[2..]
    ensures |EncodeExtensions(es)| < 0x1_0000 && EncodeBlock(Some(es)) == d
  {
    PairBack(d[0], d[1]);
    HeadAndRest(d);
  }

  lemma BlockCanonical(d: ByteString)
    requires ParseBlock(d).Some?
    ensures var es := ParseBlock(d).value;
      && (es.Some? ==> ExtensionsOk(es.value) && |EncodeExtensions(es.value)| < 0x1_0000)
      && EncodeBlock(es) == d
  {
    if d != [] {
      ExtensionsCanonical(d[2..]);
      BlockOf(d, ParseExtensions(d[2..]).value);
    }
  }

  lemma StartRoundTrip(h: Hello, rest: ByteString)
    requires |h.header| == 4 && h.vers < 0x1_0000 && |h.random| == 32
    ensures var d := EncodeStart(h) + rest;
      && |d| >= 38 && d[..4] == h.header && U16(d[4], d[5]) == h.vers && d[6..38] == h.random && d[38..] == rest
  {
    var d := EncodeStart(h) + rest;
    assert d[4] == Pair(h.vers)[0] && d[5] == Pair(h.vers)[1];
  }

  lemma SessionRoundTrip(h: Hello, rest: ByteString)
    requires |h.header| == 4 && h.vers < 0x1_0000 && |h.random| == 32 && |h.sessionId| <= 32
    ensures ParseSessionId(EncodeStart(h) + (EncodeVector8(h.sessionId) + rest)) == Some((h.sessionId, rest))
  {
    StartRoundTrip(h, EncodeVector8(h.sessionId) + rest);
    Vector8RoundTrip(h.sessionId, rest);
  }

  lemma SuitesFrom(d: ByteString, ws: seq<nat>, rest: ByteString)
    requires SuitesOk(ws) && Vector16(d) == Some((EncodeWords(ws), rest))
    ensures ParseSuites(d) == Some((ws, rest))
  {
    WordsRoundTrip(ws);
    Doubled(|ws|);
  }

  lemma Doubled(n: nat)
    ensures 2 * n % 2 == 0
  {
  }

  lemma SuitesRoundTrip(ws: seq<nat>, rest: ByteString)
    requires SuitesOk(ws)
    ensures ParseSuites(EncodeVector16(EncodeWords(ws)) + rest) == Some((ws, rest))
  {
    Vector16RoundTrip(EncodeWords(ws), rest);
    SuitesFrom(EncodeVector16(EncodeWords(ws)) + rest, ws, rest);
  }

  lemma OpeningRoundTrip(h: Hello, block: ByteString)
    requires HelloOk(h)
    ensures var data := EncodeStart(h) + (EncodeVector8(h.sessionId)
              + (EncodeVector16(EncodeWords(h.suites)) + (EncodeVector8(h.compression) + block)));
      ParseOpening(data) == Some(Opening(h.(extensions := None), block))
  {
    var d2 := EncodeVector8(h.compression) + block;
    var d1 := EncodeVector16(EncodeWords(h.suites)) + d2;
    SessionRoundTrip(h, d1);
    SuitesRoundTrip(h.suites, d2);
    Vector8RoundTrip(h.compression, block);
    StartRoundTrip(h, EncodeVector8(h.sessionId) + d1);
  }

  /** Reading the encoding of a message gives the message. */
  lemma HelloRoundTrip(h: Hello)
    requires HelloOk(h)
    ensures ParseHello(EncodeHello(h)) == Some(h)
  {
    OpeningRoundTrip(h, EncodeBlock(h.extensions));
    BlockRoundTrip(h.extensions);
  }

  lemma SuitesCanonical(d: ByteString)
    requires ParseSuites(d).Some?
    ensures var (ws, rest) := ParseSuites(d).value; SuitesOk(ws) && EncodeVector16(EncodeWords(ws)) + rest == d
  {
    Vector16Canonical(d);
    WordsCanonical(Vector16(d).value.0);
  }

  /** And the bytes of a message are its only encoding. */
  lemma HelloCanonical(data: ByteString)
    requires ParseHello(data).Some?
    ensures HelloOk(ParseHello(data).value) && EncodeHello(ParseHello(data).value) == data
  {
    var h := ParseHello(data).value;
    var (sessionId, d1) := ParseSessionId(data).value;
    var (suites, d2) := ParseSuites(d1).value;
    var (compression, block) := Vector8(d2).value;
    Vector8Canonical(data[38..]);
    SuitesCanonical(d1);
    Vector8Canonical(d2);
    BlockCanonical(block);
    StartCanonical(data, h);
  }

  lemma StartCanonical(data: ByteString, h: Hello)
    requires |data| >= 38 && h.header == data[..4] && h.vers == U16(data[4], data[5]) && h.random == data[6..38]
    ensures EncodeStart(h) + data[38..] == data
  {
    PairBack(data[4], data[5]);
    assert EncodeStart(h) == data[..38];
  }
}
