/**
The TLS ClientHello as a grammar (section 7.4.1.2 of RFC 5246, section 3 of RFC 6066):
the framing of the message and of its extensions, what each extension may hold, and
what the reader keeps of it.
*/
module ClientHello {
  import opened Basics

  const SERVER_NAME := 0
  const STATUS_REQUEST := 5
  const SUPPORTED_CURVES := 10
  const SUPPORTED_POINTS := 11
  const SIGNATURE_ALGORITHMS := 13
  const ALPN := 16
  const SCT := 18
  const SESSION_TICKET := 35
  const NEXT_PROTO_NEG := 13172
  const RENEGOTIATION_INFO := 0xff01
  const SCSV_RENEGOTIATION := 0x00ff

  datatype Extension = Extension(kind: nat, body: ByteString)

  /** A message: four bytes of handshake header that nobody looks at, the fields, and maybe an extension block. */
  datatype Hello = Hello(
    header: ByteString, vers: nat, random: ByteString, sessionId: ByteString, suites: seq<nat>, compression: ByteString,
    extensions: Option<seq<Extension>>)

  // ---------------------------------------------------------------- framing

  /** A list of big-endian 16-bit numbers. */
  function Words(d: ByteString): seq<nat>
    requires |d| % 2 == 0
  {
    if d == [] then [] else [U16(d[0], d[1])] + Words(d[2..])
  }

  function ParseExtensions(d: ByteString): Option<seq<Extension>>
    decreases |d|
  {
    if d == [] then Some([])
    else if |d| < 4 || |d| - 4 < U16(d[2], d[3]) then None
    else
      var n := U16(d[2], d[3]);
      match ParseExtensions(d[4..][n..])
      case None => None
      case Some(rest) => Some([Extension(U16(d[0], d[1]), d[4..][..n])] + rest)
  }

  /** The optional block that follows the compression methods. */
  function ParseBlock(d: ByteString): Option<Option<seq<Extension>>> {
    if d == [] then Some(None)
    else if |d| < 2 || U16(d[0], d[1]) != |d| - 2 then None
    else
      match ParseExtensions(d[2..])
      case None => None
      case Some(es) => Some(Some(es))
  }

  /** Cuts off a part whose length is `n`. */
  function Cut(d: ByteString, n: nat): Option<(ByteString, ByteString)> {
    if |d| < n then None else Some((d[..n], d[n..]))
  }

  /** The part behind a one-byte length. */
  function Vector8(d: ByteString): Option<(ByteString, ByteString)> {
    if d == [] then None else Cut(d[1..], d[0] as nat)
  }

  /** The part behind a two-byte length. */
  function Vector16(d: ByteString): Option<(ByteString, ByteString)> {
    if |d| < 2 then None else Cut(d[2..], U16(d[0], d[1]))
  }

  /** The message up to its extension block, and that block. */
  datatype Opening = Opening(hello: Hello, block: ByteString)

  function ParseSessionId(data: ByteString): Option<(ByteString, ByteString)> {
    if |data| < 38 then None
    else
      match Vector8(data[38..])
      case None => None
      case Some((sessionId, d)) => if |sessionId| > 32 then None else Some((sessionId, d))
  }

  function ParseSuites(d: ByteString): Option<(seq<nat>, ByteString)> {
    match Vector16(d)
    case None => None
    case Some((suites, d')) => if |suites| % 2 == 1 then None else Some((Words(suites), d'))
  }

  function ParseOpening(data: ByteString): Option<Opening> {
    match ParseSessionId(data)
    case None => None
    case Some((sessionId, d)) =>
      match ParseSuites(d)
      case None => None
      case Some((suites, d')) =>
        match Vector8(d')
        case None => None
        case Some((compression, block)) =>
          Some(Opening(Hello(data[..4], U16(data[4], data[5]), data[6..38], sessionId, suites, compression, None), block))
  }

  function ParseHello(data: ByteString): Option<Hello> {
    match ParseOpening(data)
    case None => None
    case Some(o) =>
      match ParseBlock(o.block)
      case None => None
      case Some(es) => Some(o.hello.(extensions := es))
  }

  // ------------------------------------------------------------- extensions

  /** What reading a list of names comes to: nothing after the first host name is looked at. */
  datatype Scan = Malformed | NoHost | HostName(name: ByteString)

  function ScanNames(d: ByteString): Scan
    decreases |d|
  {
    if d == [] then NoHost
    else if |d| < 3 || |d| - 3 < U16(d[1], d[2]) then Malformed
    else
      var n := U16(d[1], d[2]);
      if d[0] != 0 then ScanNames(d[3..][n..])
      else if n > 0 && d[3..][n - 1] == '.' as byte then Malformed
      else HostName(d[3..][..n])
  }

  function ScanServerName(body: ByteString): Scan {
    if |body| < 2 || U16(body[0], body[1]) != |body| - 2 then Malformed else ScanNames(body[2..])
  }

  /** Protocol names, none of them empty. */
  function ScanProtocols(d: ByteString): Option<seq<ByteString>>
    decreases |d|
  {
    if d == [] then Some([])
    else if d[0] == 0 || d[0] as nat > |d| - 1 then None
    else
      var n := d[0] as nat;
      match ScanProtocols(d[1..][n..])
      case None => None
      case Some(rest) => Some([d[1..][..n]] + rest)
  }

  /** A body that is one vector of 16-bit numbers. */
  predicate IsWordList(body: ByteString) {
    |body| >= 2 && U16(body[0], body[1]) == |body| - 2 && |body| % 2 == 0
  }

  predicate IsProtocolList(body: ByteString) {
    |body| >= 2 && U16(body[0], body[1]) == |body| - 2 && ScanProtocols(body[2..]).Some?
  }

  predicate IsVector8(body: ByteString) { |body| >= 1 && body[0] as nat == |body| - 1 }

  predicate BodyOk(e: Extension) {
    if e.kind == SERVER_NAME then ScanServerName(e.body) != Malformed
    else if e.kind == NEXT_PROTO_NEG || e.kind == SCT then e.body == []
    else if e.kind == SUPPORTED_CURVES || e.kind == SIGNATURE_ALGORITHMS then IsWordList(e.body)
    else if e.kind == SUPPORTED_POINTS || e.kind == RENEGOTIATION_INFO then IsVector8(e.body)
    else if e.kind == ALPN then IsProtocolList(e.body)
    else true
  }

  predicate AllOk(es: seq<Extension>) { forall i :: 0 <= i < |es| ==> BodyOk(es[i]) }

  /** What the reader remembers of a message. */
  datatype Fields = Fields(
    vers: nat, random: ByteString, sessionId: ByteString, suites: seq<nat>, compression: ByteString,
    nextProtoNeg: bool, serverName: ByteString, ocspStapling: bool, scts: bool,
    curves: seq<nat>, points: ByteString, ticketSupported: bool, sessionTicket: ByteString,
    algorithms: seq<nat>, renegotiation: ByteString, renegotiationSupported: bool, protocols: seq<ByteString>)

  /** What one well-formed extension adds; a kind that is not known adds nothing. */
  function Absorb(f: Fields, e: Extension): Fields
    requires BodyOk(e)
  {
    if e.kind == SERVER_NAME then
      match ScanServerName(e.body)
      case HostName(name) => f.(serverName := name)
      case _ => f
    else if e.kind == NEXT_PROTO_NEG then f.(nextProtoNeg := true)
    else if e.kind == STATUS_REQUEST then f.(ocspStapling := |e.body| > 0 && e.body[0] == 1)
    else if e.kind == SUPPORTED_CURVES then f.(curves := Words(e.body[2..]))
    else if e.kind == SUPPORTED_POINTS then f.(points := e.body[1..])
    else if e.kind == SESSION_TICKET then f.(ticketSupported := true, sessionTicket := e.body)
    else if e.kind == SIGNATURE_ALGORITHMS then f.(algorithms := Words(e.body[2..]))
    else if e.kind == RENEGOTIATION_INFO then f.(renegotiation := e.body[1..], renegotiationSupported := true)
    else if e.kind == ALPN then f.(protocols := f.protocols + ScanProtocols(e.body[2..]).value)
    else if e.kind == SCT then f.(scts := true)
    else f
  }

  function AbsorbAll(f: Fields, es: seq<Extension>): Fields
    requires AllOk(es)
    decreases |es|
  {
    if es == [] then f else AbsorbAll(Absorb(f, es[0]), es[1..])
  }

  /** The fields before the first extension; five of them survive from an earlier message in the same object. */
  function Begin(prior: Fields, h: Hello): Fields {
    Fields(h.vers, h.random, h.sessionId, h.suites, h.compression,
           false, [], false, false, prior.curves, prior.points, false, [], [],
           prior.renegotiation, prior.renegotiationSupported || SCSV_RENEGOTIATION in h.suites, [])
  }

  predicate Acceptable(h: Hello) { h.extensions.Some? ==> AllOk(h.extensions.value) }

  /** What an accepted message comes to. */
  function Read(prior: Fields, h: Hello): Fields
    requires Acceptable(h)
  {
    match h.extensions
    case None => Begin(prior, h)
    case Some(es) => AbsorbAll(Begin(prior, h), es)
  }

  /** Framing and contents of an extension block in one pass. */
  function ReadBlock(f: Fields, d: ByteString): Option<Fields>
    decreases |d|
  {
    if d == [] then Some(f)
    else if |d| < 4 || |d| - 4 < U16(d[2], d[3]) then None
    else
      var n := U16(d[2], d[3]);
      var e := Extension(U16(d[0], d[1]), d[4..][..n]);
      if !BodyOk(e) then None else ReadBlock(Absorb(f, e), d[4..][n..])
  }

  /** One pass does what framing first and reading then does. */
  lemma {:induction false} ReadBlockExact(f: Fields, d: ByteString)
    ensures ReadBlock(f, d).Some? <==> ParseExtensions(d).Some? && AllOk(ParseExtensions(d).value)
    ensures ReadBlock(f, d).Some? ==> ReadBlock(f, d).value == AbsorbAll(f, ParseExtensions(d).value)
    decreases |d|
  {
    if |d| >= 4 && |d| - 4 >= U16(d[2], d[3]) {
      var n := U16(d[2], d[3]);
      var e := Extension(U16(d[0], d[1]), d[4..][..n]);
      var rest := ParseExtensions(d[4..][n..]);
      if BodyOk(e) {
        ReadBlockExact(Absorb(f, e), d[4..][n..]);
      }
      if rest.Some? {
        FirstOk(e, rest.value);
      }
    }
  }

  lemma FirstOk(e: Extension, rest: seq<Extension>)
    ensures AllOk([e] + rest) <==> BodyOk(e) && AllOk(rest)
    ensures ([e] + rest)[1..] == rest
  {
    var all := [e] + rest;
    assert all[0] == e;
    forall i | 0 <= i < |rest|
      ensures all[i + 1] == rest[i]
    {
    }
  }

  /** What the extension block decides once the opening has been read. */
  lemma BlockDecides(prior: Fields, data: ByteString)
    requires ParseOpening(data).Some?
    ensures var o := ParseOpening(data).value;
      var begun := Begin(prior, o.hello);
      var accepted := ParseHello(data).Some? && Acceptable(ParseHello(data).value);
      if o.block == [] then
        accepted && Read(prior, ParseHello(data).value) == begun
      else if |o.block| < 2 || U16(o.block[0], o.block[1]) != |o.block| - 2 then
        !accepted
      else
        && (accepted <==> ReadBlock(begun, o.block[2..]).Some?)
        && (accepted ==> Some(Read(prior, ParseHello(data).value)) == ReadBlock(begun, o.block[2..]))
  {
    var o := ParseOpening(data).value;
    if |o.block| >= 2 {
      BeginIgnoresBlock(prior, o.hello, ParseExtensions(o.block[2..]));
      ReadBlockExact(Begin(prior, o.hello), o.block[2..]);
    }
  }

  lemma BeginIgnoresBlock(prior: Fields, h: Hello, es: Option<seq<Extension>>)
    ensures Begin(prior, h.(extensions := es)) == Begin(prior, h)
  {
  }
}
