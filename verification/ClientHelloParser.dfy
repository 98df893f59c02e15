/**
ClientHelloMsg.Unmarshal: it cuts its way through the bytes and fills its fields as it
goes. It accepts exactly what the grammar accepts and ends with what the grammar reads.
*/
module ClientHelloParser {
  import opened Basics
  import opened ClientHello

  const STATUS_TYPE_OCSP: byte := 1

  const BLANK := Fields(0, [], [], [], [], false, [], false, false, [], [], false, [], [], [], false, [])

  class ClientHelloMsg {
    /** The fields of the message, as one record. */
    var m: Fields

    constructor ()
      ensures m == BLANK
    {
      m := BLANK;
    }

    // ------------------------------------------------------ single extensions

    /** The loop over the names of a server_name extension. */
    method ReadServerName(body: ByteString) returns (ok: bool)
      modifies this
      ensures ok <==> ScanServerName(body) != Malformed
      ensures ok ==> m == match ScanServerName(body) { case HostName(name) => old(m).(serverName := name) case _ => old(m) }
    {
      var d := body;
      if |d| < 2 {
        return false;
      }
      var namesLen := U16(d[0], d[1]);
      d := d[2..];
      if |d| != namesLen {
        return false;
      }
      while |d| > 0
        invariant ScanServerName(body) == ScanNames(d)
        invariant m == old(m)
        decreases |d|
      {
        if |d| < 3 {
          return false;
        }
        var nameType := d[0];
        var nameLen := U16(d[1], d[2]);
        d := d[3..];
        if |d| < nameLen {
          return false;
        }
        if nameType == 0 {
          m := m.(serverName := d[..nameLen]);
          return !(nameLen > 0 && m.serverName[nameLen - 1] == '.' as byte);
        }
        d := d[nameLen..];
      }
      return true;
    }

    /** The loop over the protocols of an ALPN extension; the names are appended to those already there. */
    method ReadProtocols(body: ByteString) returns (ok: bool)
      modifies this
      ensures ok <==> IsProtocolList(body)
      ensures ok ==> m == old(m).(protocols := old(m).protocols + ScanProtocols(body[2..]).value)
    {
      if |body| < 2 {
        return false;
      }
      var l := U16(body[0], body[1]);
      if l != |body| - 2 {
        return false;
      }
      var d := body[2..];
      ghost var done: seq<ByteString> := [];
      NothingYet(ScanProtocols(d));
      assert old(m).protocols + done == old(m).protocols;
      while d != []
        invariant m == old(m).(protocols := old(m).protocols + done)
        invariant Continued(ScanProtocols(body[2..]), done, ScanProtocols(d))
        decreases |d|
      {
        ProtocolStep(ScanProtocols(body[2..]), done, d);
        var stringLen := d[0] as nat;
        d := d[1..];
        if stringLen == 0 || stringLen > |d| {
          return false;
        }
        assert (old(m).protocols + done) + [d[..stringLen]] == old(m).protocols + (done + [d[..stringLen]]);
        done := done + [d[..stringLen]];
        m := m.(protocols := m.protocols + [d[..stringLen]]);
        d := d[stringLen..];
      }
      assert done + [] == done;
      return true;
    }

    /** The loops that fill a slice of 16-bit numbers from `l` bytes. */
    static method ReadWords(d: ByteString, l: nat) returns (words: seq<nat>)
      requires l % 2 == 0 && l <= |d|
      ensures words == Words(d[..l])
    {
      words := [];
      ghost var rest := d[..l];
      for i := 0 to l / 2
        invariant rest == d[2 * i..l]
        invariant words + Words(rest) == Words(d[..l])
      {
        WordsStep(words, rest);
        words := words + [U16(d[2 * i], d[2 * i + 1])];
        rest := rest[2..];
      }
    }

    method ReadCurves(data: ByteString) returns (ok: bool)
      modifies this
      ensures ok <==> IsWordList(data)
      ensures ok ==> m == old(m).(curves := Words(data[2..]))
    {
      var length := |data|;
      if length < 2 {
        return false;
      }
      var l := U16(data[0], data[1]);
      if l % 2 == 1 || length != l + 2 {
        return false;
      }
      var words := ReadWords(data[2..], l);
      assert data[2..][..l] == data[2..];
      m := m.(curves := words);
      return true;
    }

    method ReadAlgorithms(data: ByteString) returns (ok: bool)
      modifies this
      ensures ok <==> IsWordList(data)
      ensures ok ==> m == old(m).(algorithms := Words(data[2..]))
    {
      var length := |data|;
      if length < 2 || length % 2 != 0 {
        return false;
      }
      var l := U16(data[0], data[1]);
      if l != length - 2 {
        return false;
      }
      var words := ReadWords(data[2..], l);
      assert data[2..][..l] == data[2..];
      m := m.(algorithms := words);
      return true;
    }

    method ReadPoints(data: ByteString) returns (ok: bool)
      modifies this
      ensures ok <==> IsVector8(data)
      ensures ok ==> m == old(m).(points := data[1..])
    {
      var length := |data|;
      if length < 1 {
        return false;
      }
      var l := data[0] as nat;
      if length != l + 1 {
        return false;
      }
      m := m.(points := data[1..]);
      return true;
    }

    method ReadRenegotiation(data: ByteString) returns (ok: bool)
      modifies this
      ensures ok <==> IsVector8(data)
      ensures ok ==> m == old(m).(renegotiation := data[1..], renegotiationSupported := true)
    {
      if |data| == 0 {
        return false;
      }
      var l := data[0] as nat;
      var d := data[1..];
      if l != |d| {
        return false;
      }
      m := m.(renegotiation := d);
      m := m.(renegotiationSupported := true);
      return true;
    }

    /** The switch over the kinds. */
    method ReadExtension(extension: nat, data: ByteString) returns (ok: bool)
      modifies this
      ensures ok <==> BodyOk(Extension(extension, data))
      ensures ok ==> m == Absorb(old(m), Extension(extension, data))
    {
      if extension == SERVER_NAME {
        ok := ReadServerName(data);
      } else if extension == NEXT_PROTO_NEG {
        if |data| > 0 {
          return false;
        }
        m := m.(nextProtoNeg := true);
        return true;
      } else if extension == STATUS_REQUEST {
        m := m.(ocspStapling := |data| > 0 && data[0] == STATUS_TYPE_OCSP);
        return true;
      } else if extension == SUPPORTED_CURVES {
        ok := ReadCurves(data);
      } else if extension == SUPPORTED_POINTS {
        ok := ReadPoints(data);
      } else if extension == SESSION_TICKET {
        m := m.(ticketSupported := true);
        m := m.(sessionTicket := data);
        return true;
      } else if extension == SIGNATURE_ALGORITHMS {
        ok := ReadAlgorithms(data);
      } else if extension == RENEGOTIATION_INFO {
        ok := ReadRenegotiation(data);
      } else if extension == ALPN {
        ok := ReadProtocols(data);
      } else if extension == SCT {
        m := m.(scts := true);
        return |data| == 0;
      } else {
        return true;
      }
    }

    // -------------------------------------------------------------- the message

    method ReadSessionId(input: ByteString) returns (ok: bool, data: ByteString)
      requires |input| >= 42
      modifies this
      ensures ok <==> ParseSessionId(input).Some?
      ensures ok ==> data == ParseSessionId(input).value.1
      ensures ok ==> m == old(m).(vers := U16(input[4], input[5]), random := input[6..38],
                                  sessionId := ParseSessionId(input).value.0)
    {
      data := input;
      m := m.(vers := U16(data[4], data[5]));
      m := m.(random := data[6..38]);
      var sessionIdLen := data[38] as nat;
      if sessionIdLen > 32 || |data| < 39 + sessionIdLen {
        return false, data;
      }
      m := m.(sessionId := data[39..39 + sessionIdLen]);
      data := data[39 + sessionIdLen..];
      assert input[38..][1..][..sessionIdLen] == m.sessionId && input[38..][1..][sessionIdLen..] == data;
      return true, data;
    }

    /** The loop over the cipher suites. */
    method ReadSuites(data: ByteString, length: nat)
      requires length % 2 == 0 && length <= |data|
      modifies this
      ensures var suites := Words(data[..length]);
        m == old(m).(suites := suites,
                     renegotiationSupported := old(m).renegotiationSupported || SCSV_RENEGOTIATION in suites)
    {
      m := m.(suites := []);
      ghost var rest := data[..length];
      for i := 0 to length / 2
        invariant rest == data[2 * i..length]
        invariant m.suites + Words(rest) == Words(data[..length])
        invariant m == old(m).(suites := m.suites,
                               renegotiationSupported := old(m).renegotiationSupported || SCSV_RENEGOTIATION in m.suites)
      {
        WordsStep(m.suites, rest);
        var suite := U16(data[2 * i], data[2 * i + 1]);
        m := m.(suites := m.suites + [suite]);
        if suite == SCSV_RENEGOTIATION {
          m := m.(renegotiationSupported := true);
        }
        rest := rest[2..];
      }
    }

    method ReadCipherSuites(input: ByteString) returns (ok: bool, data: ByteString)
      modifies this
      ensures ok <==> ParseSuites(input).Some?
      ensures ok ==> data == ParseSuites(input).value.1
      ensures ok ==>
        var suites := ParseSuites(input).value.0;
        m == old(m).(suites := suites,
                     renegotiationSupported := old(m).renegotiationSupported || SCSV_RENEGOTIATION in suites)
    {
      data := input;
      if |data| < 2 {
        return false, data;
      }
      var cipherSuiteLen := U16(data[0], data[1]);
      if cipherSuiteLen % 2 == 1 || |data| < 2 + cipherSuiteLen {
        return false, data;
      }
      ReadSuites(data[2..], cipherSuiteLen);
      assert data[2 + cipherSuiteLen..] == data[2..][cipherSuiteLen..];
      return true, data[2 + cipherSuiteLen..];
    }

    method ReadCompressionMethods(input: ByteString) returns (ok: bool, data: ByteString)
      modifies this
      ensures ok <==> Vector8(input).Some?
      ensures ok ==> data == Vector8(input).value.1 && m == old(m).(compression := Vector8(input).value.0)
    {
      data := input;
      if |data| < 1 {
        return false, data;
      }
      var compressionMethodsLen := data[0] as nat;
      if |data| < 1 + compressionMethodsLen {
        return false, data;
      }
      m := m.(compression := data[1..1 + compressionMethodsLen]);
      assert data[1..][..compressionMethodsLen] == m.compression;
      assert data[1..][compressionMethodsLen..] == data[1 + compressionMethodsLen..];
      return true, data[1 + compressionMethodsLen..];
    }

    /** The fixed part: everything up to the extension block, which is returned. */
    method ReadOpening(input: ByteString) returns (ok: bool, data: ByteString)
      modifies this
      ensures ok <==> ParseOpening(input).Some?
      ensures ok ==> data == ParseOpening(input).value.block
      ensures ok ==> m == Begin(old(m), ParseOpening(input).value.hello)
    {
      data := input;
      if |data| < 42 {
        ShortIsRefused(data);
        return false, data;
      }
      ok, data := ReadSessionId(data);
      if !ok {
        return;
      }
      ok, data := ReadCipherSuites(data);
      if !ok {
        return;
      }
      ok, data := ReadCompressionMethods(data);
      if !ok {
        return;
      }
      m := m.(nextProtoNeg := false);
      m := m.(serverName := []);
      m := m.(ocspStapling := false);
      m := m.(ticketSupported := false);
      m := m.(sessionTicket := []);
      m := m.(algorithms := []);
      m := m.(protocols := []);
      m := m.(scts := false);
    }

    /** The loop over the extensions. */
    method ReadExtensions(block: ByteString) returns (ok: bool)
      modifies this
      ensures ok <==> ReadBlock(old(m), block).Some?
      ensures ok ==> Some(m) == ReadBlock(old(m), block)
    {
      var data := block;
      while |data| != 0
        invariant ReadBlock(old(m), block) == ReadBlock(m, data)
        decreases |data|
      {
        ghost var here, whole := m, data;
        if |data| < 4 {
          return false;
        }
        var extension := U16(data[0], data[1]);
        var length := U16(data[2], data[3]);
        data := data[4..];
        if |data| < length {
          return false;
        }
        ReadBlockStep(here, whole);
        ok := ReadExtension(extension, data[..length]);
        if !ok {
          return false;
        }
        data := data[length..];
      }
      return true;
    }

    method Unmarshal(input: ByteString) returns (ok: bool)
      modifies this
      ensures ok <==> ParseHello(input).Some? && Acceptable(ParseHello(input).value)
      ensures ok ==> m == Read(old(m), ParseHello(input).value)
    {
      ghost var prior := m;
      var data;
      ok, data := ReadOpening(input);
      if !ok {
        return;
      }
      BlockDecides(prior, input);
      if |data| == 0 {
        return true;
      }
      if |data| < 2 {
        return false;
      }
      var extensionsLength := U16(data[0], data[1]);
      data := data[2..];
      if extensionsLength != |data| {
        return false;
      }
      ok := ReadExtensions(data);
    }

    method GetServerName() returns (name: ByteString)
      ensures name == m.serverName
    {
      return m.serverName;
    }
  }

  // --------------------------------------------------------------- lemmas

  lemma WordsStep(done: seq<nat>, d: ByteString)
    requires |d| % 2 == 0 && |d| >= 2
    ensures done + Words(d) == (done + [U16(d[0], d[1])]) + Words(d[2..])
  {
    assert Words(d) == [U16(d[0], d[1])] + Words(d[2..]);
  }

  lemma ReadBlockStep(f: Fields, d: ByteString)
    requires |d| >= 4 && |d| - 4 >= U16(d[2], d[3])
    ensures var n := U16(d[2], d[3]);
      var e := Extension(U16(d[0], d[1]), d[4..][..n]);
      ReadBlock(f, d) == if BodyOk(e) then ReadBlock(Absorb(f, e), d[4..][n..]) else None
  {
  }

  /** The scan of the whole is what has been collected and the scan of the rest. */
  predicate Continued(whole: Option<seq<ByteString>>, done: seq<ByteString>, rest: Option<seq<ByteString>>) {
    match rest
    case None => whole.None?
    case Some(more) => whole == Some(done + more)
  }

  lemma NothingYet(whole: Option<seq<ByteString>>)
    ensures Continued(whole, [], whole)
  {
    assert whole.Some? ==> [] + whole.value == whole.value;
  }

  lemma OneProtocolMore(whole: Option<seq<ByteString>>, done: seq<ByteString>, first: ByteString, rest: Option<seq<ByteString>>)
    requires Continued(whole, done, if rest.Some? then Some([first] + rest.value) else None)
    ensures Continued(whole, done + [first], rest)
  {
    if rest.Some? {
      assert done + ([first] + rest.value) == (done + [first]) + rest.value;
    }
  }

  lemma ProtocolStep(whole: Option<seq<ByteString>>, done: seq<ByteString>, d: ByteString)
    requires d != [] && Continued(whole, done, ScanProtocols(d))
    ensures var n := d[0] as nat;
      if n == 0 || n > |d| - 1 then whole.None?
      else Continued(whole, done + [d[1..][..n]], ScanProtocols(d[1..][n..]))
  {
    var n := d[0] as nat;
    if 0 < n <= |d| - 1 {
      OneProtocolMore(whole, done, d[1..][..n], ScanProtocols(d[1..][n..]));
    }
  }

  /** The test for 42 bytes refuses nothing that the grammar accepts. */
  lemma ShortIsRefused(data: ByteString)
    requires |data| < 42
    ensures ParseOpening(data).None?
  {
  }
}
