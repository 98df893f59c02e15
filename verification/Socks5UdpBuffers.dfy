/** The datagram codec as the code runs it: bytes are put into and taken out of a buffer of the pool. */
module Socks5UdpBuffers {
  import opened Basics
  import opened Socks5Udp

  /** Go's copy: as many bytes as both sides have. Only what ends up in front of the new position is promised. */
  method Copy(b: array<byte>, at: nat, src: ByteString) returns (n: nat)
    requires at <= b.Length
    modifies b
    ensures n == if |src| <= b.Length - at then |src| else b.Length - at
    ensures b[..at + n] == old(b[..at]) + src[..n]
  {
    n := if |src| <= b.Length - at then |src| else b.Length - at;
    for i := 0 to n
      invariant b[..at + i] == old(b[..at]) + src[..i]
    {
      b[at + i] := src[i];
      assert b[..at + i + 1] == b[..at + i] + [src[i]];
      assert src[..i + 1] == src[..i] + [src[i]];
    }
  }

  method PutByte(b: array<byte>, at: nat, x: byte)
    requires at < b.Length
    modifies b
    ensures b[..at + 1] == old(b[..at]) + [x]
  {
    b[at] := x;
  }

  /** The branch for the kinds whose host has a fixed length. */
  method EncodeAddress(kind: byte, host: ByteString, b: array<byte>, at: nat) returns (pos: nat)
    requires at + 1 + |host| <= b.Length
    modifies b
    ensures pos == at + 1 + |host| && b[..pos] == old(b[..at]) + ([kind] + host)
  {
    PutByte(b, at, kind);
    pos := at + 1;
    var k := Copy(b, pos, host);
    pos := pos + k;
    assert host[..k] == host;
  }

  /** The branch for names, which may run into the end of the buffer. */
  method EncodeName(host: ByteString, b: array<byte>, at: nat) returns (pos: nat)
    requires at + 2 <= b.Length
    modifies b
    ensures at <= pos <= b.Length
    ensures pos + 2 <= b.Length <==> |host| + 4 <= b.Length - at
    ensures pos + 2 <= b.Length ==> b[..pos] == old(b[..at]) + ([DOMAIN_NAME, (|host| % 256) as byte] + host)
  {
    PutByte(b, at, DOMAIN_NAME);
    PutByte(b, at + 1, (|host| % 256) as byte);
    pos := at + 2;
    var k := Copy(b, pos, host);
    pos := pos + k;
    if k == |host| {
      assert host[..k] == host;
    }
  }

  method EncodeHostInto(a: Addr, b: array<byte>, at: nat) returns (pos: nat)
    requires at + 19 <= b.Length
    modifies b
    ensures at <= pos <= b.Length
    ensures pos + 2 <= b.Length <==> EncodeHost(a, b.Length - at).Some?
    ensures pos + 2 <= b.Length ==> b[..pos] == old(b[..at]) + EncodeHost(a, b.Length - at).value
  {
    if a.kind == IPV4 {
      pos := EncodeAddress(IPV4, To4(a.host), b, at);
    } else if a.kind == DOMAIN_NAME {
      pos := EncodeName(a.host, b, at);
    } else if a.kind == IPV6 {
      pos := EncodeAddress(IPV6, To16(a.host), b, at);
    } else {
      pos := EncodeAddress(IPV4, Zeros(4), b, at);
    }
  }

  /** Addr.Encode into the buffer from `at` on; not `ok` where the code would index past the buffer. */
  method Encode(a: Addr, b: array<byte>, at: nat) returns (n: nat, ok: bool)
    requires at + 19 <= b.Length && a.port < 0x1_0000
    modifies b
    ensures ok <==> EncodeAddr(a, b.Length - at).Some?
    ensures ok ==> at + n <= b.Length && b[..at + n] == old(b[..at]) + EncodeAddr(a, b.Length - at).value
  {
    var pos := EncodeHostInto(a, b, at);
    if b.Length < pos + 2 {
      return 0, false;
    }
    ghost var host := EncodeHost(a, b.Length - at).value;
    var port := Pair(a.port);
    PutByte(b, pos, port[0]);
    PutByte(b, pos + 1, port[1]);
    assert b[..pos + 2] == old(b[..at]) + (host + port);
    return pos + 2 - at, true;
  }

  /** UDPHeader.Write; what the buffer held before does not matter. */
  method WriteUdpHeader(h: Header, b: array<byte>) returns (r: Outcome<ByteString>)
    requires b.Length == POOL_SIZE && HeaderOk(h)
    modifies b
    ensures r == WriteHeader(h)
  {
    var rsv := Pair(h.rsv);
    PutByte(b, 0, rsv[0]);
    PutByte(b, 1, rsv[1]);
    PutByte(b, 2, h.frag);
    assert b[..3] == rsv + [h.frag];
    var length, ok := Encode(AddrOf(h), b, 3);
    if !ok {
      return OutOfRange;
    }
    return Done(b[..3 + length]);
  }

  method WriteDatagram(d: Datagram, b: array<byte>) returns (r: Outcome<ByteString>)
    requires b.Length == POOL_SIZE && HeaderOk(HeaderOf(d))
    modifies b
    ensures r == Write(d)
  {
    r := WriteUdpHeader(HeaderOf(d), b);
    if r.Done? {
      r := Done(r.value + d.data);
    }
  }

  /** Addr.Decode of a slice, which is as long as its kind needs. */
  method Decode(b: ByteString) returns (a: Addr)
    requires |b| >= 4 && (b[0] == IPV4 || b[0] == IPV6 || b[0] == DOMAIN_NAME)
    requires |b| == (if b[0] == IPV4 then 7 else if b[0] == IPV6 then 19 else 4 + b[1] as nat)
    ensures a == DecodeAddr(b)
  {
    var kind := b[0];
    var pos := 1;
    var host;
    if kind == IPV4 {
      host := b[pos..pos + 4];
      pos := pos + 4;
    } else if kind == IPV6 {
      host := Printed(b[pos..pos + 16]);
      pos := pos + 16;
    } else {
      var addrlen := b[pos] as nat;
      pos := pos + 1;
      host := b[pos..pos + addrlen];
      pos := pos + addrlen;
    }
    return Addr(kind, host, U16(b[pos], b[pos + 1]));
  }

  /** The length of the header, from what was read first. */
  method HeaderLengthIn(b: array<byte>) returns (hlen: Option<nat>)
    requires b.Length >= 5
    ensures hlen == HeaderLength(b[..5])
  {
    var kind := b[3];
    if kind == IPV4 {
      return Some(10);
    }
    if kind == IPV6 {
      return Some(22);
    }
    if kind == DOMAIN_NAME {
      return Some(7 + b[4] as nat);
    }
    return None;
  }

  /** Reads what follows the first five bytes; the total length, and what is left of the stream. */
  method Fill(s: ByteString, b: array<byte>, hlen: nat, rsv: nat) returns (r: Outcome<(nat, ByteString)>)
    requires b.Length == POOL_SIZE && |s| >= 5 && b[..5] == s[..5] && hlen >= 7
    modifies b
    ensures var total := if rsv == 0 then |s| else hlen + rsv;
      if total < hlen || total > POOL_SIZE then r == OutOfRange
      else if |s| < total then r == Failed
      else r == Done((total, s[total..])) && b[..total] == s[..total]
  {
    var n, k := 5, 0;
    if rsv == 0 {
      var extra := s[5..];
      k := Copy(b, n, extra);
      n := n + |extra|;
      if n < hlen || n > b.Length {
        return OutOfRange;
      }
      assert s[..5] + s[5..] == s[..n] && s[5..][..k] == s[5..];
      return Done((n, s[n..]));
    }
    if hlen + rsv > b.Length {
      return OutOfRange;
    }
    if |s| < hlen + rsv {
      return Failed;
    }
    var more := s[5..hlen + rsv];
    k := Copy(b, n, more);
    n := hlen + rsv;
    assert s[..5] + more == s[..n] && more[..k] == more;
    return Done((n, s[n..]));
  }

  /** Equal beginnings have equal parts. */
  lemma PartsAgree(b: ByteString, s: ByteString, m: nat, n: nat)
    requires 3 <= m <= n <= |b| && n <= |s| && b[..n] == s[..n]
    ensures b[3..m] == s[3..m] && b[m..n] == s[m..n]
  {
    assert b[3..m] == b[..n][3..m] && s[3..m] == s[..n][3..m];
    assert b[m..n] == b[..n][m..n] && s[m..n] == s[..n][m..n];
  }

  /** ReadUDPDatagram from the stream `s`; also what is left of the stream. */
  method ReadUDPDatagram(s: ByteString, b: array<byte>) returns (r: Outcome<(Datagram, ByteString)>)
    requires b.Length == POOL_SIZE
    modifies b
    ensures r == ReadDatagram(s)
  {
    if |s| < 5 {
      return Failed;
    }
    var k := Copy(b, 0, s[..5]);
    assert b[..5] == s[..5];
    var rsv, frag := U16(b[0], b[1]), b[2];
    assert rsv == U16(s[0], s[1]) && frag == s[2];
    var length := HeaderLengthIn(b);
    assert length == HeaderLength(s);
    if length.None? {
      return Failed;
    }
    var hlen := length.value;
    var filled := Fill(s, b, hlen, rsv);
    if !filled.Done? {
      return if filled.Failed? then Failed else OutOfRange;
    }
    var (n, rest) := filled.value;
    PartsAgree(b[..], s, hlen, n);
    assert b[3] == s[3] && b[4] == s[4];
    var addr := Decode(b[3..hlen]);
    return Done((Datagram(Some(Header(rsv, frag, Some(addr))), b[hlen..n]), rest));
  }
}
