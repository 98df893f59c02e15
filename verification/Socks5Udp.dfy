/**
UDP datagrams of SOCKS5 (section 7 of RFC 1928), written and read through buffers of
fixed size. Where the code would index past its buffer, the outcome is OutOfRange.
*/
module Socks5Udp {
  import opened Basics

  const POOL_SIZE := 1472 + 200

  const IPV4: byte := 1
  const DOMAIN_NAME: byte := 3
  const IPV6: byte := 4

  /**
  For the two address kinds a host of four bytes stands for an address in dotted
  form and one of sixteen for an address in colon form; any other does not parse.
  */
  datatype Addr = Addr(kind: byte, host: ByteString, port: nat)

  datatype Header = Header(rsv: nat, frag: byte, addr: Option<Addr>)

  datatype Datagram = Datagram(header: Option<Header>, data: ByteString)

  datatype Outcome<+T> = Done(value: T) | Failed | OutOfRange

  predicate HeaderOk(h: Header) { h.rsv < 0x1_0000 && (h.addr.Some? ==> h.addr.value.port < 0x1_0000) }

  const BLANK_ADDR := Addr(0, [], 0)

  function HeaderOf(d: Datagram): Header { if d.header.Some? then d.header.value else Header(0, 0, None) }

  function AddrOf(h: Header): Addr { if h.addr.Some? then h.addr.value else BLANK_ADDR }

  function Zeros(n: nat): (b: ByteString)
    ensures |b| == n
  {
    seq(n, _ => 0)
  }

  // -------------------------------------------------------------- addresses

  /** What stands in front of an IPv4 address in the sixteen bytes of an IP. */
  const MAPPED: ByteString := [0, 0, 0, 0, 0, 0, 0, 0, 0, 0, 0xFF, 0xFF]

  predicate IsMapped(ip: ByteString) { |ip| == 16 && ip[..12] == MAPPED }

  /** The parsed host as four bytes, or zeros where there are none. */
  function To4(host: ByteString): (b: ByteString)
    ensures |b| == 4
  {
    if |host| == 4 then host else if IsMapped(host) then host[12..] else Zeros(4)
  }

  /** The parsed host as sixteen bytes, or zeros if it does not parse. */
  function To16(host: ByteString): (b: ByteString)
    ensures |b| == 16
  {
    if |host| == 4 then MAPPED + host else if |host| == 16 then host else Zeros(16)
  }

  /** IP.String: an IPv4 address is printed in dotted form, however many bytes hold it. */
  function Printed(ip: ByteString): ByteString { if IsMapped(ip) then ip[12..] else ip }

  /** Sixteen bytes are printed so that they can be read back, and what is printed so is what comes back. */
  lemma PrintedBack(host: ByteString)
    ensures |host| == 16 ==> To16(Printed(host)) == host
    ensures Printed(To16(host)) == host <==> |host| == 4 || (|host| == 16 && !IsMapped(host))
  {
    if |host| == 16 {
      assert host == host[..12] + host[12..];
    }
    if |host| == 4 {
      assert (MAPPED + host)[..12] == MAPPED && (MAPPED + host)[12..] == host;
    }
  }

  // ----------------------------------------------------------------- format

  /** The bytes of the host, or nothing if the buffer of `room` bytes has no place for it and the port. */
  function EncodeHost(a: Addr, room: nat): Option<ByteString> {
    if a.kind == IPV4 then Some([IPV4] + To4(a.host))
    else if a.kind == DOMAIN_NAME then
      if |a.host| + 4 > room then None else Some([DOMAIN_NAME, (|a.host| % 256) as byte] + a.host)
    else if a.kind == IPV6 then Some([IPV6] + To16(a.host))
    else Some([IPV4] + Zeros(4))
  }

  function EncodeAddr(a: Addr, room: nat): Option<ByteString>
    requires a.port < 0x1_0000
  {
    match EncodeHost(a, room)
    case None => None
    case Some(host) => Some(host + Pair(a.port))
  }

  function WriteHeader(h: Header): Outcome<ByteString>
    requires HeaderOk(h)
  {
    match EncodeAddr(AddrOf(h), POOL_SIZE - 3)
    case None => OutOfRange
    case Some(b) => Done(Pair(h.rsv) + [h.frag] + b)
  }

  function Write(d: Datagram): Outcome<ByteString>
    requires HeaderOk(HeaderOf(d))
  {
    match WriteHeader(HeaderOf(d))
    case Done(b) => Done(b + d.data)
    case failed => failed
  }

  /** The length of the header of a datagram that starts with these bytes. */
  function HeaderLength(s: ByteString): Option<nat>
    requires |s| >= 5
  {
    if s[3] == IPV4 then Some(10)
    else if s[3] == IPV6 then Some(22)
    else if s[3] == DOMAIN_NAME then Some(7 + s[4] as nat)
    else None
  }

  /** Where the host starts in the bytes of an address. */
  function HostAt(kind: byte): nat { if kind == DOMAIN_NAME then 2 else 1 }

  function DecodeAddr(b: ByteString): Addr
    requires |b| >= 4
  {
    var host := b[HostAt(b[0])..|b| - 2];
    Addr(b[0], if b[0] == IPV6 then Printed(host) else host, U16(b[|b| - 2], b[|b| - 1]))
  }

  /** The datagram that a stream starts with, and what follows it; a reserved field of zero takes the whole stream. */
  function ReadDatagram(s: ByteString): Outcome<(Datagram, ByteString)> {
    if |s| < 5 then Failed
    else
      match HeaderLength(s)
      case None => Failed
      case Some(hlen) =>
        var rsv := U16(s[0], s[1]);
        var total := if rsv == 0 then |s| else hlen + rsv;
        if total < hlen || total > POOL_SIZE then OutOfRange
        else if |s| < total then Failed
        else Done((Datagram(Some(Header(rsv, s[2], Some(DecodeAddr(s[3..hlen])))), s[hlen..total]), s[total..]))
  }

  // ------------------------------------------------------------ round trips

  predicate HostOk(a: Addr) {
    || (a.kind == IPV4 && |a.host| == 4)
    || (a.kind == IPV6 && (|a.host| == 4 || (|a.host| == 16 && !IsMapped(a.host))))
    || (a.kind == DOMAIN_NAME && |a.host| <= 255)
  }

  /** A datagram whose header and address are there and can be written as they are. */
  predicate Proper(d: Datagram) {
    && d.header.Some? && d.header.value.addr.Some? && HeaderOk(d.header.value) && HostOk(d.header.value.addr.value)
  }

  /** The host as it stands in a datagram. */
  function WireHost(a: Addr): ByteString { if a.kind == IPV6 then To16(a.host) else a.host }

  function Size(d: Datagram): nat
    requires Proper(d)
  {
    3 + HostAt(d.header.value.addr.value.kind) + |WireHost(d.header.value.addr.value)| + 2 + |d.data|
  }

  /** The bytes of a proper header, part by part. */
  function HeadBytes(h: Header): ByteString
    requires HeaderOk(h) && h.addr.Some?
  {
    var a := h.addr.value;
    Pair(h.rsv) + [h.frag] + ([a.kind] + (if a.kind == DOMAIN_NAME then [(|a.host| % 256) as byte] else []) + WireHost(a) + Pair(a.port))
  }

  lemma ProperIsWritten(d: Datagram)
    requires Proper(d)
    ensures Write(d) == Done(HeadBytes(d.header.value) + d.data)
  {
    var a := d.header.value.addr.value;
    var host := EncodeHost(a, POOL_SIZE - 3).value;
    assert host == [a.kind] + (if a.kind == DOMAIN_NAME then [(|a.host| % 256) as byte] else []) + WireHost(a);
  }

  /** The address part in front of the rest of a header. */
  lemma AddrBytes(p: ByteString, h: ByteString, q: ByteString)
    requires |p| <= 2 && |q| == 2 && |p + h + q| >= 4
    ensures var b := p + h + q;
      b[|p|..|b| - 2] == h && b[|b| - 2] == q[0] && b[|b| - 1] == q[1]
  {
  }

  lemma AddrDecoded(a: Addr)
    requires HostOk(a) && a.port < 0x1_0000
    ensures var b := [a.kind] + (if a.kind == DOMAIN_NAME then [(|a.host| % 256) as byte] else []) + WireHost(a) + Pair(a.port);
      |b| >= 4 && DecodeAddr(b) == a
  {
    AddrBytes([a.kind] + if a.kind == DOMAIN_NAME then [(|a.host| % 256) as byte] else [], WireHost(a), Pair(a.port));
    PrintedBack(a.host);
  }

  /** What reading finds in the head of a proper datagram, whatever follows it. */
  lemma HeadIsRead(h: Header, tail: ByteString)
    requires HeaderOk(h) && h.addr.Some? && HostOk(h.addr.value)
    ensures var s := HeadBytes(h) + tail;
      var hlen := |HeadBytes(h)|;
      && hlen >= 7 && |s| >= 5 && HeaderLength(s) == Some(hlen) && U16(s[0], s[1]) == h.rsv && s[2] == h.frag
      && s[3..hlen] == HeadBytes(h)[3..] && DecodeAddr(s[3..hlen]) == h.addr.value && s[hlen..] == tail
  {
    var a := h.addr.value;
    var s := HeadBytes(h) + tail;
    var b := [a.kind] + (if a.kind == DOMAIN_NAME then [(|a.host| % 256) as byte] else []) + WireHost(a) + Pair(a.port);
    var front := Pair(h.rsv) + [h.frag];
    assert HeadBytes(h) == front + b;
    assert s[0] == Pair(h.rsv)[0] && s[1] == Pair(h.rsv)[1] && s[2] == h.frag;
    assert s[3] == b[0] && s[4] == b[1];
    AddrDecoded(a);
    assert s[3..|HeadBytes(h)|] == b;
  }

  /** A datagram with a zero reserved field, read to the end of the stream, comes back. */
  lemma RoundTripWhole(d: Datagram)
    requires Proper(d) && d.header.value.rsv == 0 && Size(d) <= POOL_SIZE
    ensures Write(d).Done? && ReadDatagram(Write(d).value) == Done((d, []))
  {
    var h := HeadBytes(d.header.value);
    var s := h + d.data;
    ProperIsWritten(d);
    HeadIsRead(d.header.value, d.data);
    assert s[|h|..|s|] == d.data && s[|s|..] == [];
  }

  lemma MiddlePart(h: ByteString, d: ByteString, q: ByteString)
    ensures (h + (d + q))[|h|..|h| + |d|] == d && (h + (d + q))[|h| + |d|..] == q
  {
  }

  /** A datagram that states its length in the reserved field delimits itself, whatever follows. */
  lemma RoundTripStream(d: Datagram, suffix: ByteString)
    requires Proper(d) && d.header.value.rsv == |d.data| > 0 && Size(d) <= POOL_SIZE
    ensures Write(d).Done? && ReadDatagram(Write(d).value + suffix) == Done((d, suffix))
  {
    var h := HeadBytes(d.header.value);
    ProperIsWritten(d);
    HeadIsRead(d.header.value, d.data + suffix);
    Assoc(h, d.data, suffix);
    MiddlePart(h, d.data, suffix);
  }

  /** Datagrams that state their length can be sent one after the other. */
  predicate Stream(ds: seq<Datagram>) {
    forall i :: 0 <= i < |ds| ==> Proper(ds[i]) && ds[i].header.value.rsv == |ds[i].data| > 0 && Size(ds[i]) <= POOL_SIZE
  }

  function WriteAll(ds: seq<Datagram>): ByteString
    requires Stream(ds)
  {
    if ds == [] then [] else HeadBytes(ds[0].header.value) + ds[0].data + WriteAll(ds[1..])
  }

  function ReadAll(s: ByteString): Option<seq<Datagram>>
    decreases |s|
  {
    if s == [] then Some([])
    else
      match ReadDatagram(s)
      case Done((d, rest)) =>
        if |rest| < |s| then
          match ReadAll(rest)
          case None => None
          case Some(ds) => Some([d] + ds)
        else None
      case _ => None
  }

  lemma {:induction false} StreamRoundTrip(ds: seq<Datagram>)
    requires Stream(ds)
    ensures ReadAll(WriteAll(ds)) == Some(ds)
  {
    if ds != [] {
      ProperIsWritten(ds[0]);
      RoundTripStream(ds[0], WriteAll(ds[1..]));
      StreamRoundTrip(ds[1..]);
      assert [ds[0]] + ds[1..] == ds;
    }
  }

  // ------------------------------------------------------------- exactness

  /** Whatever is read is proper and no longer than the buffer. */
  lemma ReadIsProper(s: ByteString)
    requires ReadDatagram(s).Done?
    ensures var (d, rest) := ReadDatagram(s).value; Proper(d) && Size(d) <= POOL_SIZE && Size(d) + |rest| == |s|
  {
  }

  /** Writing and reading to the end gives the datagram back exactly if it is proper and fits the buffer. */
  lemma RoundTripExact(d: Datagram)
    requires HeaderOk(HeaderOf(d)) && HeaderOf(d).rsv == 0
    ensures (Write(d).Done? && ReadDatagram(Write(d).value) == Done((d, [])))
            <==> Proper(d) && Size(d) <= POOL_SIZE
  {
    if Proper(d) && Size(d) <= POOL_SIZE {
      RoundTripWhole(d);
    }
    if Write(d).Done? && ReadDatagram(Write(d).value) == Done((d, [])) {
      ReadIsProper(Write(d).value);
    }
  }
}
