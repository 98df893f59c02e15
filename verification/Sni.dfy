/**
Looking at the server name of a TLS connection before deciding what to do with it: the
bytes that were looked at are kept in the connection's replay buffer and read again first.
*/
module Sni {
  import opened Basics
  import opened ClientHello
  import opened ClientHelloParser

  const HANDSHAKE: byte := 0x16

  // -------------------------------------------------------------- one stream

  /** A connection: the replay buffer `Rb`, which may be nil, and the bytes still to come from the network. */
  datatype Channel = Channel(rb: Option<ByteString>, rest: ByteString)

  /** Everything a reader can still get. */
  function Remaining(c: Channel): ByteString { (if c.rb.Some? then c.rb.value else []) + c.rest }

  /** Conn.Read into a buffer of `n` bytes, when the network has `ready` bytes at hand. */
  function ReadFrom(c: Channel, n: nat, ready: nat): (ByteString, Channel) {
    if c.rb.Some? && c.rb.value != [] then
      var k := Min(n, |c.rb.value|);
      (c.rb.value[..k], c.(rb := Some(c.rb.value[k..])))
    else
      var k := Min(Min(n, ready), |c.rest|);
      (c.rest[..k], Channel(None, c.rest[k..]))
  }

  class Conn {
    var rb: Option<ByteString>
    var rest: ByteString

    function Contents(): Channel
      reads this
    {
      Channel(rb, rest)
    }

    constructor (stream: ByteString)
      ensures rb == None && rest == stream
    {
      rb, rest := None, stream;
    }

    method ReadNetwork(n: nat, ready: nat) returns (b: ByteString)
      modifies this`rest
      ensures b == old(rest)[..Min(Min(n, ready), |old(rest)|)] && b + rest == old(rest)
    {
      var k := Min(Min(n, ready), |rest|);
      b := rest[..k];
      rest := rest[k..];
    }

    method Read(n: nat, ready: nat) returns (b: ByteString)
      modifies this
      ensures (b, Contents()) == ReadFrom(old(Contents()), n, ready)
      ensures b + Remaining(Contents()) == Remaining(old(Contents()))
    {
      ReadKeeps(Contents(), n, ready);
      if rb.Some? {
        if |rb.value| > 0 {
          var k := Min(n, |rb.value|);
          b := rb.value[..k];
          rb := Some(rb.value[k..]);
          return;
        }
        rb := None;
      }
      b := ReadNetwork(n, ready);
    }

    /** io.ReadFull on the network: all `n` bytes, or what there is before the stream ends. */
    method ReadFull(n: nat) returns (b: ByteString, full: bool)
      modifies this`rest
      ensures full <==> |b| == n
      ensures |b| == Min(n, |old(rest)|) && b + rest == old(rest)
    {
      b := [];
      assert [] + rest == rest;
      while |b| < n && rest != []
        invariant |b| <= n && b + rest == old(rest)
        decreases |rest|
      {
        var more := ReadNetwork(n - |b|, |rest|);
        b := b + more;
      }
      full := |b| == n;
    }

    /** GetServerNameFromClientHello: what was taken from the stream is returned on every path. */
    method PeekServerName() returns (name: ByteString, taken: ByteString)
      requires rb == None
      modifies this
      ensures rb == None
      ensures taken + rest == old(rest)
      ensures name == SniOf(old(rest))
    {
      ghost var stream := rest;
      var header, full := ReadFull(5);
      if !full {
        return [], header;
      }
      assert header == stream[..5] && rest == stream[5..];
      if header[0] != HANDSHAKE {
        return [], header;
      }
      var recordLen := U16(header[3], header[4]);
      if recordLen <= 0 {
        return [], header;
      }
      var body;
      body, full := ReadFull(recordLen);
      assert header + (body + rest) == (header + body) + rest;
      if !full {
        return [], header + body;
      }
      assert body == stream[5..][..recordLen];
      var clientHello := new ClientHelloMsg();
      var ok := clientHello.Unmarshal(body);
      if !ok {
        return [], header + body;
      }
      name := clientHello.GetServerName();
      taken := header + body;
    }

    /** Peeking and then putting what was taken into the replay buffer leaves the stream as it was. */
    method Accept() returns (name: ByteString)
      requires rb == None
      modifies this
      ensures name == SniOf(old(rest))
      ensures Remaining(Contents()) == old(rest)
    {
      var taken;
      name, taken := PeekServerName();
      rb := Some(taken);
    }
  }

  /** The server name that a stream of bytes announces; empty if it does not start with a whole, acceptable ClientHello. */
  function SniOf(stream: ByteString): ByteString {
    if |stream| < 5 || stream[0] != HANDSHAKE then []
    else
      var n := U16(stream[3], stream[4]);
      if n == 0 || |stream[5..]| < n then []
      else
        match ParseHello(stream[5..][..n])
        case None => []
        case Some(h) => if Acceptable(h) then Read(BLANK, h).serverName else []
  }

  // ------------------------------------------------------------------ runs

  lemma ReadKeeps(c: Channel, n: nat, ready: nat)
    ensures var (b, c') := ReadFrom(c, n, ready); b + Remaining(c') == Remaining(c)
  {
    if c.rb.Some? && c.rb.value != [] {
      var k := Min(n, |c.rb.value|);
      assert c.rb.value[..k] + (c.rb.value[k..] + c.rest) == c.rb.value + c.rest;
    } else {
      var k := Min(Min(n, ready), |c.rest|);
      assert c.rest[..k] + c.rest[k..] == c.rest;
    }
  }

  datatype Request = Request(n: nat, ready: nat)

  /** What a sequence of reads delivers, and the channel after it. */
  function ReadAll(c: Channel, rs: seq<Request>): (ByteString, Channel)
    decreases |rs|
  {
    if rs == [] then ([], c)
    else
      var (b, c') := ReadFrom(c, rs[0].n, rs[0].ready);
      var (more, last) := ReadAll(c', rs[1..]);
      (b + more, last)
  }

  lemma {:induction false} ReadAllKeeps(c: Channel, rs: seq<Request>)
    ensures var (b, c') := ReadAll(c, rs); b + Remaining(c') == Remaining(c)
    decreases |rs|
  {
    if rs != [] {
      var (b, c') := ReadFrom(c, rs[0].n, rs[0].ready);
      var (more, last) := ReadAll(c', rs[1..]);
      ReadKeeps(c, rs[0].n, rs[0].ready);
      ReadAllKeeps(c', rs[1..]);
      Assoc(b, more, Remaining(last));
    }
  }

  /**
  After the peek, whatever buffers are offered and however the network delivers, the bytes
  read are a prefix of the original stream, and all of it once nothing remains.
  */
  lemma ReplayIsLossless(stream: ByteString, taken: ByteString, rest: ByteString, rs: seq<Request>)
    requires taken + rest == stream
    ensures var (b, c) := ReadAll(Channel(Some(taken), rest), rs);
      && b <= stream
      && (Remaining(c) == [] ==> b == stream)
  {
    ReadAllKeeps(Channel(Some(taken), rest), rs);
  }

  /** A read that asks for something and finds something delivers something. */
  lemma ReadProgress(c: Channel, n: nat, ready: nat)
    requires 0 < n && 0 < ready && Remaining(c) != []
    ensures |ReadFrom(c, n, ready).0| > 0
  {
  }
}
