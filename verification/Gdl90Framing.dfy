/** GDL90 byte stuffing and framing (tools/gdl90_send.py), and the receiver that undoes it. */
module Gdl90Framing {
  import opened Common
  import opened Gdl90Crc

  const FLAG: byte := 0x7E
  const ESCAPE: byte := 0x7D
  const ESCAPE_XOR: byte := 0x20

  datatype Message = Message(id: byte, payload: seq<byte>)

  predicate Special(b: byte) {
    b == FLAG || b == ESCAPE
  }

  function EscapeByte(b: byte): seq<byte> {
    if Special(b) then [ESCAPE, b ^ ESCAPE_XOR] else [b]
  }

  function Escape(body: seq<byte>): seq<byte> {
    if body == [] then [] else Escape(body[..|body| - 1]) + EscapeByte(body[|body| - 1])
  }

  /** gdl90_escape */
  method EscapeBody(body: seq<byte>) returns (out: seq<byte>)
    ensures out == Escape(body)
  {
    out := [];
    for i := 0 to |body|
      invariant out == Escape(body[..i])
    {
      assert body[..i + 1][..i] == body[..i];
      var b := body[i];
      if b == FLAG || b == ESCAPE {
        out := out + [ESCAPE];
        out := out + [b ^ ESCAPE_XOR];
      } else {
        out := out + [b];
      }
    }
    assert body[..|body|] == body;
  }

  /** struct.pack("<H", crc): low byte first. */
  function Pack(crc: bv16): (p: seq<byte>)
    ensures |p| == 2
  {
    [(crc & 0xFF) as byte, (crc >> 8) as byte]
  }

  lemma LowByteFirst(crc: bv16)
    ensures Pack(crc)[0] as bv16 == crc & 0xFF && (Pack(crc)[1] as bv16 << 8) | Pack(crc)[0] as bv16 == crc
  {
  }

  /** The two bytes that are escaped, and how. */
  lemma EscapeMeaning(b: byte)
    ensures EscapeByte(b) == if b == 0x7E then [0x7D, 0x5E] else if b == 0x7D then [0x7D, 0x5D] else [b]
    ensures Escape([]) == [] && Escape([b]) == EscapeByte(b)
  {
    assert 0x7E ^ 0x20 == 0x5E as byte && 0x7D ^ 0x20 == 0x5D as byte;
    assert [b][..0] == [];
  }

  /** The message body with its checksum. */
  function WithCrc(body: seq<byte>): seq<byte> {
    body + Pack(Crc(body))
  }

  function Body(m: Message): seq<byte> {
    [m.id & 0x7F] + m.payload
  }

  function Frame(m: Message): seq<byte> {
    [FLAG] + Escape(WithCrc(Body(m))) + [FLAG]
  }

  /** The datagram of one "concat" round. */
  function Stream(ms: seq<Message>): seq<byte> {
    if ms == [] then [] else Frame(ms[0]) + Stream(ms[1..])
  }

  // The receiver

  /** The pieces between flags, including the empty ones. */
  function Split(s: seq<byte>): (p: seq<seq<byte>>)
    ensures p != []
  {
    if s == [] then [[]]
    else
      var p := Split(s[1..]);
      if s[0] == FLAG then [[]] + p else [[s[0]] + p[0]] + p[1..]
  }

  function NonEmpty(p: seq<seq<byte>>): seq<seq<byte>> {
    if p == [] then [] else (if p[0] == [] then [] else [p[0]]) + NonEmpty(p[1..])
  }

  /** Undo the stuffing; an escape at the end of a piece is an error. */
  function Unescape(s: seq<byte>): Option<seq<byte>> {
    if s == [] then Some([])
    else if s[0] == ESCAPE then
      if |s| == 1 then None
      else
        var t := Unescape(s[2..]);
        if t.None? then None else Some([s[1] ^ ESCAPE_XOR] + t.value)
    else
      var t := Unescape(s[1..]);
      if t.None? then None else Some([s[0]] + t.value)
  }

  function UnescapeAll(p: seq<seq<byte>>): Option<seq<seq<byte>>> {
    if p == [] then Some([])
    else
      var t, u := Unescape(p[0]), UnescapeAll(p[1..]);
      if t.None? || u.None? then None else Some([t.value] + u.value)
  }

  function Receive(s: seq<byte>): Option<seq<seq<byte>>> {
    UnescapeAll(NonEmpty(Split(s)))
  }

  function Bodies(ms: seq<Message>): seq<seq<byte>> {
    if ms == [] then [] else [WithCrc(Body(ms[0]))] + Bodies(ms[1..])
  }

  // Stuffing

  lemma EscapedByte(b: byte)
    ensures Special(b) ==> !Special(b ^ ESCAPE_XOR) && (b ^ ESCAPE_XOR) ^ ESCAPE_XOR == b
  {
    assert (0x7E as byte) ^ 0x20 == 0x5E && (0x5E as byte) ^ 0x20 == 0x7E;
    assert (0x7D as byte) ^ 0x20 == 0x5D && (0x5D as byte) ^ 0x20 == 0x7D;
  }

  /** Stuffed data contains no flag. */
  lemma {:induction false} EscapeHidesFlags(body: seq<byte>)
    ensures FLAG !in Escape(body) && |Escape(body)| >= |body|
  {
    if body != [] {
      EscapeHidesFlags(body[..|body| - 1]);
      EscapedByte(body[|body| - 1]);
    }
  }

  lemma {:induction false} EscapeFromFront(body: seq<byte>)
    requires body != []
    ensures Escape(body) == EscapeByte(body[0]) + Escape(body[1..])
  {
    hide EscapeByte;
    var k := |body| - 1;
    if k == 0 {
      assert body[..0] == [] && body[1..] == [];
    } else {
      EscapeFromFront(body[..k]);
      assert body[..k][1..] == body[1..][..k - 1];
      assert Escape(body) == Escape(body[..k]) + EscapeByte(body[k]);
      assert Escape(body[1..]) == Escape(body[1..][..k - 1]) + EscapeByte(body[1..][k - 1]);
    }
  }

  /** Unstuffing inverts stuffing, for every byte string. */
  lemma {:induction false} UnescapeInverts(body: seq<byte>)
    ensures Unescape(Escape(body)) == Some(body)
  {
    if body != [] {
      EscapeFromFront(body);
      UnescapeInverts(body[1..]);
      var s, t := Escape(body), Escape(body[1..]);
      hide Escape;
      EscapedByte(body[0]);
      assert s[|EscapeByte(body[0])|..] == t;
      assert [body[0]] + body[1..] == body;
    }
  }

  // Framing

  lemma {:induction false} SplitAtFlag(a: seq<byte>, rest: seq<byte>)
    requires FLAG !in a
    ensures Split(a + [FLAG] + rest) == [a] + Split(rest)
  {
    var s := a + [FLAG] + rest;
    if a != [] {
      SplitAtFlag(a[1..], rest);
      assert s[1..] == a[1..] + [FLAG] + rest;
      var p := [a[1..]] + Split(rest);
      assert p[1..] == Split(rest) && [a[0]] + p[0] == a && s[0] == a[0];
    } else {
      assert s[1..] == rest;
    }
  }

  lemma FrameIsSplit(body: seq<byte>, rest: seq<byte>)
    requires body != []
    ensures NonEmpty(Split([FLAG] + Escape(body) + [FLAG] + rest)) == [Escape(body)] + NonEmpty(Split(rest))
  {
    var e := Escape(body);
    EscapeHidesFlags(body);
    var s := e + [FLAG] + rest;
    SplitAtFlag([], s);
    assert [] + [FLAG] + s == [FLAG] + e + [FLAG] + rest;
    SplitAtFlag(e, rest);
    NonEmptyFrame(e, Split(rest));
    hide Split, NonEmpty, Escape;
    assert Split([FLAG] + e + [FLAG] + rest) == [[]] + ([e] + Split(rest));
  }

  lemma NonEmptyFrame(e: seq<byte>, rest: seq<seq<byte>>)
    requires e != []
    ensures NonEmpty([[]] + ([e] + rest)) == [e] + NonEmpty(rest)
  {
    var p := [[]] + ([e] + rest);
    assert p[1..] == [e] + rest && p[1..][1..] == rest;
  }

  /** The receiver recovers exactly the bodies with their checksums, in order, from the
      concatenated frames of any messages. */
  lemma {:induction false} ReceiveInvertsStream(ms: seq<Message>)
    ensures Receive(Stream(ms)) == Some(Bodies(ms))
  {
    if ms == [] {
      assert Split([]) == [[]];
      assert NonEmpty([[]]) == [];
    } else {
      hide Escape, Unescape, Split;
      var body := WithCrc(Body(ms[0]));
      FrameIsSplit(body, Stream(ms[1..]));
      UnescapeInverts(body);
      ReceiveInvertsStream(ms[1..]);
      var p := [Escape(body)] + NonEmpty(Split(Stream(ms[1..])));
      assert p[1..] == NonEmpty(Split(Stream(ms[1..])));
      assert [FLAG] + Escape(body) + [FLAG] + Stream(ms[1..]) == Stream(ms);
    }
  }

  /** Nothing about a message is lost on the wire but the part of its id beyond seven bits. */
  lemma {:induction false} StreamsAreUnambiguous(ms: seq<Message>, ns: seq<Message>)
    requires Stream(ms) == Stream(ns)
    ensures |ms| == |ns|
    ensures forall i :: 0 <= i < |ms| ==> ms[i].payload == ns[i].payload && ms[i].id & 0x7F == ns[i].id & 0x7F
  {
    ReceiveInvertsStream(ms);
    ReceiveInvertsStream(ns);
    hide Receive, Stream;
    BodiesAreUnambiguous(ms, ns);
  }

  lemma {:induction false} BodiesAreUnambiguous(ms: seq<Message>, ns: seq<Message>)
    requires Bodies(ms) == Bodies(ns)
    ensures |ms| == |ns|
    ensures forall i :: 0 <= i < |ms| ==> ms[i].payload == ns[i].payload && ms[i].id & 0x7F == ns[i].id & 0x7F
  {
    if ms != [] && ns != [] {
      var p, q := Bodies(ms), Bodies(ns);
      assert p[1..] == Bodies(ms[1..]) && q[1..] == Bodies(ns[1..]);
      BodiesAreUnambiguous(ms[1..], ns[1..]);
      BodyIsUnambiguous(ms[0], ns[0]);
      forall i | 0 <= i < |ms|
        ensures ms[i].payload == ns[i].payload && ms[i].id & 0x7F == ns[i].id & 0x7F
      {
        if i > 0 {
          assert ms[i] == ms[1..][i - 1] && ns[i] == ns[1..][i - 1];
        }
      }
    }
  }

  lemma BodyIsUnambiguous(m: Message, n: Message)
    requires WithCrc(Body(m)) == WithCrc(Body(n))
    ensures m.payload == n.payload && m.id & 0x7F == n.id & 0x7F
  {
    hide Crc;
    var x, y := WithCrc(Body(m)), WithCrc(Body(n));
    assert |x| == |Body(m)| + 2 && |y| == |Body(n)| + 2;
    assert x[..|x| - 2] == Body(m) && y[..|y| - 2] == Body(n);
    assert Body(m)[1..] == m.payload && Body(n)[1..] == n.payload;
    assert Body(m)[0] == Body(n)[0];
  }

  /** The receiver's test: the last two bytes are the checksum of the rest. */
  predicate CrcOk(s: seq<byte>) {
    |s| >= 2 && s == WithCrc(s[..|s| - 2])
  }

  lemma SentBodiesPass(body: seq<byte>)
    ensures CrcOk(WithCrc(body))
  {
    hide Crc;
    var s := WithCrc(body);
    assert s[..|s| - 2] == body;
  }

  lemma PackIsInjective(r: bv16, s: bv16)
    requires Pack(r) == Pack(s)
    ensures r == s
  {
    assert Pack(r)[0] == Pack(s)[0] && Pack(r)[1] == Pack(s)[1];
    WordFromBytes(r, s);
  }

  lemma WordFromBytes(r: bv16, s: bv16)
    requires (r & 0xFF) as byte == (s & 0xFF) as byte && (r >> 8) as byte == (s >> 8) as byte
    ensures r == s
  {
  }

  /** A received body that was corrupted in one or two adjacent bytes fails the test. */
  lemma CorruptedBodyFails(body: seq<byte>, t: seq<byte>, k: nat)
    requires |t| == |body| && t != body
    requires forall i :: 0 <= i < |body| && i != k && i != k + 1 ==> t[i] == body[i]
    ensures !CrcOk(t + Pack(Crc(body)))
  {
    hide Crc, Pack;
    TwoByteCorruptionIsDetected(body, t, k);
    var s := t + Pack(Crc(body));
    assert s[..|s| - 2] == t && s[|s| - 2..] == Pack(Crc(body));
    if Pack(Crc(t)) == Pack(Crc(body)) {
      PackIsInjective(Crc(t), Crc(body));
    }
  }

  /** A frame from outside in: flags, stuffing, checksum, and seven bits of the identifier. */
  lemma FrameMeaning(m: Message)
    ensures var f, body := Frame(m), [m.id & 0x7F] + m.payload;
            && |f| >= 2 && f[0] == 0x7E == f[|f| - 1]
            && f[1..|f| - 1] == Escape(body + Pack(Crc(body)))
  {
    hide Crc, Escape, Pack;
  }

  /** gdl90_frame, given the checksum table. */
  method BuildFrame(table: seq<bv16>, m: Message) returns (frame: seq<byte>)
    requires IsTable(table)
    ensures frame == Frame(m)
  {
    hide Crc, Escape, IsTable, Pack;
    var body := [m.id & 0x7F] + m.payload;
    var crc := Crc16(table, body);
    body := body + Pack(crc);
    var escaped := EscapeBody(body);
    frame := [FLAG] + escaped + [FLAG];
  }
}
