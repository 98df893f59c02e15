/**
The binary format of the multiplexer's frames: a flag byte, a little-endian
32-bit connection id, then a length and content, a 64-bit window, or nothing,
depending on the flag.
*/
module FrameCodec {
  import opened Basics
  import opened Window

  datatype Error = Eof | UnexpectedEof | TooLarge

  /** What reading gives: a value, or why there is none. */
  datatype Reading<+T> = Ok(value: T) | Err(error: Error)

  const PING_FLAG: byte := 0
  const NEW_CONN_OK: byte := 1
  const NEW_CONN_FAIL: byte := 2
  const NEW_MSG: byte := 3
  const NEW_MSG_PART: byte := 4
  const MSG_SEND_OK: byte := 5
  const NEW_CONN: byte := 6
  const PING_RETURN: byte := 8

  predicate HasContent(flag: byte) {
    flag == NEW_MSG || flag == NEW_MSG_PART || flag == PING_FLAG || flag == PING_RETURN
  }

  predicate IsInt32(id: int) { -TWO31 <= id < TWO31 }

  datatype Body = Content(bytes: seq<byte>) | WindowSize(window: nat) | Nothing

  /** A frame as both ends see it. */
  datatype Frame = Frame(flag: byte, id: int, body: Body)

  /** The frames that can be on the wire: the flag decides what follows it. */
  predicate Proper(f: Frame) {
    && IsInt32(f.id)
    && (HasContent(f.flag) <==> f.body.Content?)
    && (f.flag == MSG_SEND_OK <==> f.body.WindowSize?)
    && (f.body.Content? ==> |f.body.bytes| <= SEGMENT)
    && (f.body.WindowSize? ==> f.body.window < TWO64)
  }

  // --------------------------------------------------------- little endian

  /** The `k` lowest bytes of `x`, lowest first. */
  function LittleEndian(x: nat, k: nat): (b: seq<byte>)
    ensures |b| == k
  {
    if k == 0 then [] else [(x % 256) as byte] + LittleEndian(x / 256, k - 1)
  }

  function FromLittleEndian(b: seq<byte>): nat {
    if b == [] then 0 else b[0] as nat + 256 * FromLittleEndian(b[1..])
  }

  function Pow256(k: nat): (p: nat)
    ensures p > 0
  {
    if k == 0 then 1 else 256 * Pow256(k - 1)
  }

  lemma {:induction false} FromTo(x: nat, k: nat)
    requires x < Pow256(k)
    ensures FromLittleEndian(LittleEndian(x, k)) == x
  {
    if k > 0 {
      FromTo(x / 256, k - 1);
    }
  }

  lemma {:induction false} ToFrom(b: seq<byte>)
    ensures FromLittleEndian(b) < Pow256(|b|)
    ensures LittleEndian(FromLittleEndian(b), |b|) == b
  {
    if b != [] {
      ToFrom(b[1..]);
      var x := FromLittleEndian(b[1..]);
      DivRem(b[0] as nat + 256 * x, x, b[0] as nat, 256);
    }
  }

  lemma Powers()
    ensures Pow256(2) == 0x1_0000 && Pow256(4) == TWO32 && Pow256(8) == TWO64
  {
  }

  /** Go's conversion of an int32 to a uint32, and back. */
  function ToUint32(id: int): nat
    requires IsInt32(id)
  {
    if id < 0 then id + TWO32 else id
  }

  function ToInt32(u: nat): int
    requires u < TWO32
  {
    if u < TWO31 then u else u - TWO32
  }

  // ---------------------------------------------------------------- format

  function EncodeBody(body: Body): seq<byte> {
    match body
    case Content(b) => LittleEndian(|b|, 2) + b
    case WindowSize(w) => LittleEndian(w, 8)
    case Nothing => []
  }

  function Encode(f: Frame): seq<byte>
    requires Proper(f)
  {
    [f.flag] + LittleEndian(ToUint32(f.id), 4) + EncodeBody(f.body)
  }

  /** What io.ReadFull reports when it needs `k` bytes and the stream holds `have`. */
  function ShortRead(have: nat, k: nat): Error
    requires have < k
  {
    if have == 0 then Eof else UnexpectedEof
  }

  function DecodeBody(flag: byte, s: seq<byte>): Reading<(Body, seq<byte>)> {
    if HasContent(flag) then
      if |s| < 2 then Err(ShortRead(|s|, 2))
      else
        var l := FromLittleEndian(s[..2]);
        if l > SEGMENT then Err(TooLarge)
        else if |s[2..]| < l then Err(ShortRead(|s[2..]|, l))
        else Ok((Content(s[2..][..l]), s[2..][l..]))
    else if flag == MSG_SEND_OK then
      if |s| < 8 then Err(ShortRead(|s|, 8))
      else Ok((WindowSize(FromLittleEndian(s[..8])), s[8..]))
    else
      Ok((Nothing, s))
  }

  function Decode(s: seq<byte>): Reading<(Frame, seq<byte>)> {
    if |s| < 5 then Err(ShortRead(|s|, 5))
    else
      ToFrom4(s[1..5]);
      match DecodeBody(s[0], s[5..])
      case Err(e) => Err(e)
      case Ok(p) => Ok((Frame(s[0], ToInt32(FromLittleEndian(s[1..5])), p.0), p.1))
  }

  lemma ToFrom4(b: seq<byte>)
    requires |b| == 4
    ensures FromLittleEndian(b) < TWO32
  {
    ToFrom(b);
    Powers();
  }

  // ------------------------------------------------------------ round trip

  lemma BodyRoundTrip(flag: byte, body: Body, rest: seq<byte>)
    requires Proper(Frame(flag, 0, body))
    ensures DecodeBody(flag, EncodeBody(body) + rest) == Ok((body, rest))
  {
    Powers();
    var s := EncodeBody(body) + rest;
    match body
    case Content(b) =>
      FromTo(|b|, 2);
      assert s[..2] == LittleEndian(|b|, 2);
      assert s[2..] == b + rest;
    case WindowSize(w) =>
      FromTo(w, 8);
      assert s[..8] == LittleEndian(w, 8);
      assert s[8..] == rest;
    case Nothing =>
      assert s == rest;
  }

  /** Decoding what was encoded gives the frame back and leaves whatever followed it. */
  lemma RoundTrip(f: Frame, rest: seq<byte>)
    requires Proper(f)
    ensures Decode(Encode(f) + rest) == Ok((f, rest))
  {
    Powers();
    var s := Encode(f) + rest;
    FromTo(ToUint32(f.id), 4);
    assert s[1..5] == LittleEndian(ToUint32(f.id), 4);
    assert s[5..] == EncodeBody(f.body) + rest;
    BodyRoundTrip(f.flag, f.body, rest);
  }

  // ---------------------------------------------------------------- layout

  function Value2(b: seq<byte>): nat
    requires |b| == 2
  {
    b[0] as nat + 0x100 * b[1] as nat
  }

  function Value4(b: seq<byte>): nat
    requires |b| == 4
  {
    Value2(b[..2]) + 0x1_0000 * Value2(b[2..])
  }

  function Value8(b: seq<byte>): nat
    requires |b| == 8
  {
    Value4(b[..4]) + 0x1_0000_0000 * Value4(b[4..])
  }

  lemma Value2Is(b: seq<byte>)
    requires |b| == 2
    ensures FromLittleEndian(b) == Value2(b)
  {
    assert FromLittleEndian(b[1..]) == b[1] as nat + 256 * FromLittleEndian(b[1..][1..]);
  }

  lemma {:induction false} LittleEndianJoins(a: seq<byte>, b: seq<byte>)
    ensures FromLittleEndian(a + b) == FromLittleEndian(a) + Pow256(|a|) * FromLittleEndian(b)
  {
    if a == [] {
      assert a + b == b;
    } else {
      LittleEndianJoins(a[1..], b);
      assert (a + b)[1..] == a[1..] + b;
    }
  }

  lemma Value4Is(b: seq<byte>)
    requires |b| == 4
    ensures FromLittleEndian(b) == Value4(b)
  {
    Powers();
    assert b == b[..2] + b[2..];
    LittleEndianJoins(b[..2], b[2..]);
    Value2Is(b[..2]);
    Value2Is(b[2..]);
  }

  lemma Value8Is(b: seq<byte>)
    requires |b| == 8
    ensures FromLittleEndian(b) == Value8(b)
  {
    Powers();
    assert b == b[..4] + b[4..];
    LittleEndianJoins(b[..4], b[4..]);
    Value4Is(b[..4]);
    Value4Is(b[4..]);
  }

  /**
  Byte by byte: the flag, the id as a 32-bit two's complement number, lowest byte first; then for
  pings and messages a 16-bit length and the content, for SendOk the 64-bit window, for others nothing.
  */
  lemma Layout(f: Frame)
    requires Proper(f)
    ensures var b := Encode(f);
      && |b| >= 5 && b[0] == f.flag
      && Value4(b[1..5]) == (if f.id < 0 then f.id + 0x1_0000_0000 else f.id)
      && (f.flag == 0 || f.flag == 3 || f.flag == 4 || f.flag == 8 ==>
            f.body.Content? && |b| >= 7 && Value2(b[5..7]) == |b[7..]| && b[7..] == f.body.bytes)
      && (f.flag == 5 ==> f.body.WindowSize? && |b| == 13 && Value8(b[5..13]) == f.body.window)
      && (f.flag == 1 || f.flag == 2 || f.flag == 6 || f.flag == 7 || f.flag > 8 ==> |b| == 5)
  {
    Powers();
    var b, id := Encode(f), LittleEndian(ToUint32(f.id), 4);
    FromTo(ToUint32(f.id), 4);
    assert b[1..5] == id && b[5..] == EncodeBody(f.body);
    Value4Is(id);
    match f.body
    case Content(bytes) =>
      FromTo(|bytes|, 2);
      assert b[5..7] == b[5..][..2] == LittleEndian(|bytes|, 2) && b[7..] == b[5..][2..] == bytes;
      Value2Is(b[5..7]);
    case WindowSize(w) =>
      FromTo(w, 8);
      assert b[5..13] == LittleEndian(w, 8);
      Value8Is(b[5..13]);
    case Nothing =>
  }

  /** When reading a frame fails, and with which error: by the bytes there are and the declared length. */
  lemma FailsExactly(s: seq<byte>)
    ensures var r := Decode(s);
      if |s| < 5 then
        r == Err(if s == [] then Eof else UnexpectedEof)
      else if s[0] == 0 || s[0] == 3 || s[0] == 4 || s[0] == 8 then
        if |s| < 7 then r == Err(if |s| == 5 then Eof else UnexpectedEof)
        else if Value2(s[5..7]) > 4085 then r == Err(TooLarge)
        else if |s| < 7 + Value2(s[5..7]) then r == Err(if |s| == 7 then Eof else UnexpectedEof)
        else r.Ok?
      else if s[0] == 5 && |s| < 13 then
        r == Err(if |s| == 5 then Eof else UnexpectedEof)
      else r.Ok?
  {
    if |s| >= 7 {
      assert s[5..][..2] == s[5..7];
      Value2Is(s[5..7]);
    }
  }

  lemma BodyCanonical(flag: byte, s: seq<byte>)
    requires DecodeBody(flag, s).Ok?
    ensures var (body, rest) := DecodeBody(flag, s).value;
            Proper(Frame(flag, 0, body)) && EncodeBody(body) + rest == s
  {
    Powers();
    if HasContent(flag) {
      ToFrom(s[..2]);
    } else if flag == MSG_SEND_OK {
      ToFrom(s[..8]);
    }
  }

  lemma HeadCut(s: seq<byte>)
    requires |s| >= 5
    ensures s == [s[0]] + s[1..5] + s[5..]
  {
  }

  /** Decoding is exact: the only bytes that decode to a frame are its encoding. */
  lemma Canonical(s: seq<byte>)
    requires Decode(s).Ok?
    ensures Proper(Decode(s).value.0)
    ensures Encode(Decode(s).value.0) + Decode(s).value.1 == s
  {
    Powers();
    ToFrom(s[1..5]);
    BodyCanonical(s[0], s[5..]);
    HeadCut(s);
    var (body, rest) := DecodeBody(s[0], s[5..]).value;
    var f := Decode(s).value.0;
    assert ToUint32(f.id) == FromLittleEndian(s[1..5]);
    assert Encode(f) == [s[0]] + s[1..5] + EncodeBody(body);
    Assoc([s[0]] + s[1..5], EncodeBody(body), rest);
  }

  function EncodeAll(fs: seq<Frame>): seq<byte>
    requires forall i :: 0 <= i < |fs| ==> Proper(fs[i])
  {
    if fs == [] then [] else Encode(fs[0]) + EncodeAll(fs[1..])
  }

  /** The frames that a reader gets from a byte stream before it ends or fails. */
  function DecodeAll(s: seq<byte>): seq<Frame>
    decreases |s|
  {
    match Decode(s)
    case Err(_) => []
    case Ok(p) => if |p.1| < |s| then [p.0] + DecodeAll(p.1) else []
  }

  /** Any sequence of frames decodes to itself, and the stream is then used up. */
  lemma {:induction false} SequenceRoundTrip(fs: seq<Frame>)
    requires forall i :: 0 <= i < |fs| ==> Proper(fs[i])
    ensures DecodeAll(EncodeAll(fs)) == fs
  {
    if fs == [] {
    } else {
      RoundTrip(fs[0], EncodeAll(fs[1..]));
      SequenceRoundTrip(fs[1..]);
    }
  }

  // ------------------------------------------------------------- packagers

  /** What a caller hands to Set: nothing, a byte slice (possibly nil), or a window word. */
  datatype Data = NoData | NilSlice | Slice(bytes: seq<byte>) | WindowWord(window: nat)

  /** The frame that Set prepares: content that does not fit is dropped without an error. */
  function Prepared(flag: byte, id: int, data: Data): Frame
    requires flag == MSG_SEND_OK ==> data.WindowWord?
    requires HasContent(flag) ==> !data.WindowWord?
  {
    Frame(flag, id,
          if HasContent(flag) then
            Content(if data.Slice? && |data.bytes| <= SEGMENT then data.bytes else [])
          else if flag == MSG_SEND_OK then WindowSize(data.window)
          else Nothing)
  }

  /** Sending content through Set, Pack and UnPack returns it exactly when it fits one segment. */
  lemma ContentSurvives(flag: byte, id: int, bytes: seq<byte>, rest: seq<byte>)
    requires HasContent(flag) && IsInt32(id)
    ensures Decode(Encode(Prepared(flag, id, Slice(bytes))) + rest) == Ok((Frame(flag, id, Content(bytes)), rest))
            <==> |bytes| <= SEGMENT
  {
    RoundTrip(Prepared(flag, id, Slice(bytes)), rest);
  }

  /** An io.Writer that accepts everything. */
  class Writer {
    var out: seq<byte>

    constructor ()
      ensures out == []
    {
      out := [];
    }

    method Write(p: seq<byte>)
      modifies this
      ensures out == old(out) + p
    {
      out := out + p;
    }
  }

  /** An io.Reader over the bytes still to come. */
  class Reader {
    var input: seq<byte>

    constructor (s: seq<byte>)
      ensures input == s
    {
      input := s;
    }

    /** io.ReadFull into buf[lo..hi]: all or an error; what was there is consumed either way. */
    method ReadFull(buf: array<byte>, lo: nat, hi: nat) returns (n: nat, err: Reading<()>)
      requires lo <= hi <= buf.Length
      modifies this, buf
      ensures hi - lo <= |old(input)| ==>
                n == hi - lo && err == Ok(()) && input == old(input)[n..] && buf[lo..hi] == old(input)[..n]
      ensures hi - lo > |old(input)| ==>
                n == |old(input)| && err == Err(ShortRead(n, hi - lo)) && input == []
      ensures buf[..lo] == old(buf[..lo]) && buf[hi..] == old(buf[hi..])
    {
      var k := hi - lo;
      n := if k <= |input| then k else |input|;
      forall i | 0 <= i < n {
        buf[lo + i] := input[i];
      }
      err := if n == k then Ok(()) else Err(ShortRead(n, k));
      input := input[n..];
    }
  }

  /** Writes the `k` lowest bytes of `x` into buf[at..at+k], lowest first. */
  method PutLittleEndian(buf: array<byte>, at: nat, x: nat, k: nat)
    requires at + k <= buf.Length
    modifies buf
    ensures buf[at..at + k] == LittleEndian(x, k)
    ensures buf[..at] == old(buf[..at]) && buf[at + k..] == old(buf[at + k..])
  {
    var i, y := 0, x;
    while i < k
      invariant 0 <= i <= k
      invariant buf[at..at + i] + LittleEndian(y, k - i) == LittleEndian(x, k)
      invariant buf[..at] == old(buf[..at]) && buf[at + k..] == old(buf[at + k..])
    {
      ghost var done := buf[at..at + i];
      buf[at + i] := (y % 256) as byte;
      assert buf[at..at + (i + 1)] == done + [(y % 256) as byte];
      i, y := i + 1, y / 256;
    }
  }

  /** muxPackager together with its basePackager; content is the prefix of a pooled buffer. */
  class MuxPackager {
    var flag: byte
    var id: int
    var window: nat
    var length: nat
    const buf: array<byte>
    const content: array<byte>

    ghost predicate Valid()
      reads this
    {
      && buf.Length == SEGMENT && content.Length == SEGMENT && buf != content
      && IsInt32(id) && window < TWO64 && length <= SEGMENT
    }

    /** The frame this packager holds. */
    ghost function View(): Frame
      requires Valid()
      reads this, content
    {
      Frame(flag, id,
            if HasContent(flag) then Content(content[..length])
            else if flag == MSG_SEND_OK then WindowSize(window)
            else Nothing)
    }

    constructor ()
      ensures Valid() && length == 0 && fresh(buf) && fresh(content)
    {
      flag, id, window, length := 0, 0, 0, 0;
      buf := new byte[SEGMENT];
      content := new byte[SEGMENT];
    }

    method Set(flag: byte, id: int, data: Data)
      requires Valid() && IsInt32(id)
      requires flag == MSG_SEND_OK ==> data.WindowWord? && data.window < TWO64
      requires HasContent(flag) ==> !data.WindowWord?
      modifies this, content
      ensures Valid() && View() == Prepared(flag, id, data)
    {
      this.flag, this.id := flag, id;
      if HasContent(flag) {
        length := 0;
        if data.Slice? && |data.bytes| <= SEGMENT {
          var n := |data.bytes|;
          forall i | 0 <= i < n {
            content[i] := data.bytes[i];
          }
          length := n;
          assert content[..n] == data.bytes;
        }
      } else if flag == MSG_SEND_OK {
        window := data.window;
      }
    }

    method Pack(w: Writer)
      requires Valid()
      modifies buf, w
      ensures Valid() && View() == old(View())
      ensures Proper(View()) && w.out == old(w.out) + Encode(View())
    {
      buf[0] := flag;
      PutLittleEndian(buf, 1, ToUint32(id), 4);
      ghost var header := [flag] + LittleEndian(ToUint32(id), 4);
      assert buf[..5] == header by {
        assert buf[..1] == [flag];
        assert buf[..5] == buf[..1] + buf[1..1 + 4];
      }
      if HasContent(flag) {
        PutLittleEndian(buf, 5, length, 2);
        assert buf[..7] == buf[..5] + buf[5..5 + 2];
        w.Write(buf[..7]);
        w.Write(content[..length]);
      } else if flag == MSG_SEND_OK {
        PutLittleEndian(buf, 5, window, 8);
        assert buf[..13] == buf[..5] + buf[5..5 + 8];
        w.Write(buf[..13]);
      } else {
        w.Write(buf[..5]);
      }
    }

    /** Reads one frame; `n` is the number of bytes it took. */
    method UnPack(r: Reader) returns (n: nat, err: Reading<()>)
      requires Valid()
      modifies this, buf, content, r
      ensures Valid()
      ensures Decode(old(r.input)).Ok? ==>
                var (f, rest) := Decode(old(r.input)).value;
                err == Ok(()) && View() == f && r.input == rest && n == |old(r.input)| - |rest|
      ensures Decode(old(r.input)).Err? ==> err == Err(Decode(old(r.input)).error)
    {
      ghost var s := r.input;
      length := 0;
      var l: nat;
      l, err := r.ReadFull(buf, 0, 5);
      if err.Err? {
        n := 0;
        return;
      }
      n := l;
      flag := buf[0];
      assert buf[1..5] == buf[0..5][1..] == s[1..5];
      ToFrom4(buf[1..5]);
      id := ToInt32(FromLittleEndian(buf[1..5]));
      if HasContent(flag) {
        l, err := UnPackContent(r);
        n := n + l;
      } else if flag == MSG_SEND_OK {
        l, err := r.ReadFull(buf, 5, 13);
        ToFrom(buf[5..13]);
        Powers();
        window := FromLittleEndian(buf[5..13]);
        n := n + l;
      }
    }

    /** basePackager.UnPack. */
    method UnPackContent(r: Reader) returns (n: nat, err: Reading<()>)
      requires Valid() && HasContent(flag)
      modifies this`length, buf, content, r
      ensures Valid()
      ensures DecodeBody(flag, old(r.input)).Ok? ==>
                var (body, rest) := DecodeBody(flag, old(r.input)).value;
                err == Ok(()) && Content(content[..length]) == body && r.input == rest && n == |old(r.input)| - |rest|
      ensures DecodeBody(flag, old(r.input)).Err? ==> err == Err(DecodeBody(flag, old(r.input)).error)
    {
      ghost var s := r.input;
      length := 0;
      var l: nat;
      l, err := r.ReadFull(buf, 5, 7);
      if err.Err? {
        n := 0;
        return;
      }
      n := l;
      var declared := FromLittleEndian(buf[5..7]);
      assert buf[5..7] == s[..2];
      if declared > content.Length {
        err := Err(TooLarge);
        return;
      }
      length := declared;
      l, err := r.ReadFull(content, 0, length);
      assert content[0..length] == content[..length];
      n := n + l;
    }
  }
}
