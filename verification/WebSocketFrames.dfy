/** WebSocket framing: what SendInternal writes and what do_read makes of its input,
    against the base framing protocol of sections 5.2 and 5.3 of RFC 6455. */
module WebSocketFrames {
  import opened BitOps
  import opened Bytes
  import opened Options

  const TWO_31 := 0x8000_0000
  const TWO_32 := 0x1_0000_0000
  const TWO_63 := 0x8000_0000_0000_0000
  const TWO_64 := 0x1_0000_0000_0000_0000

  // ---------------------------------------------------------------- RFC 6455

  datatype Frame = Frame(fin: bool, rsv1: bool, rsv2: bool, rsv3: bool, opcode: nat,
                         masked: bool, key: seq<byte>, payload: seq<byte>)

  predicate WellFormed(f: Frame) {
    f.opcode < 16 && |f.key| == (if f.masked then 4 else 0) && |f.payload| < TWO_63
  }

  function Flag(b: bool): (v: nat) { if b then 1 else 0 }

  lemma Power2Of8()
    ensures Power2(8) == 0x100
  {
    assert Power2(4) == 16;
    assert Power2(6) == 64;
  }

  function XorOctets(a: byte, b: byte): (v: byte) {
    Power2Of8();
    BitsBound(Xor, a, b, 8);
    Bits(Xor, a, b)
  }

  /** Section 5.3: octet i is combined with octet i mod 4 of the key. */
  function Mask(data: seq<byte>, masked: bool, key: seq<byte>): (r: seq<byte>)
    requires masked ==> |key| == 4
    ensures |r| == |data|
  {
    if masked then seq(|data|, i requires 0 <= i < |data| => XorOctets(data[i], key[i % 4])) else data
  }

  lemma MaskTwice(data: seq<byte>, masked: bool, key: seq<byte>)
    requires masked ==> |key| == 4
    ensures Mask(Mask(data, masked, key), masked, key) == data
  {
    if masked {
      forall i | 0 <= i < |data| ensures Mask(Mask(data, masked, key), masked, key)[i] == data[i] {
        XorTwice(data[i], key[i % 4]);
      }
    }
  }

  /** Section 5.2: the minimal form of the length, with the mask bit. */
  function LengthField(masked: bool, n: nat): (r: seq<byte>)
    requires n < TWO_63
  {
    if n < 126 then [0x80 * Flag(masked) + n]
    else if n < 0x1_0000 then [0x80 * Flag(masked) + 126, n / 0x100, n % 0x100]
    else [0x80 * Flag(masked) + 127] + Word(n / TWO_32) + Word(n % TWO_32)
  }

  function FirstOctet(f: Frame): (b: byte)
    requires f.opcode < 16
  {
    0x80 * Flag(f.fin) + 0x40 * Flag(f.rsv1) + 0x20 * Flag(f.rsv2) + 0x10 * Flag(f.rsv3) + f.opcode
  }

  function RfcEncode(f: Frame): (r: seq<byte>)
    requires WellFormed(f)
  {
    [FirstOctet(f)] + LengthField(f.masked, |f.payload|) + f.key + Mask(f.payload, f.masked, f.key)
  }

  /** Octets that the second octet announces for the length. */
  function Extra(second: byte): (n: nat)
    ensures n <= 8
  {
    if second % 0x80 == 126 then 2 else if second % 0x80 == 127 then 8 else 0
  }

  /** The length a frame announces. */
  function Announced(bs: seq<byte>): (n: nat)
    requires |bs| >= 2 && |bs| >= 2 + Extra(bs[1])
  {
    if Extra(bs[1]) == 0 then bs[1] % 0x80
    else if Extra(bs[1]) == 2 then 0x100 * (bs[2] as int) + bs[3]
    else TWO_32 * (WordAt(bs, 2) as int) + WordAt(bs, 6)
  }

  /** The frame at the start of the stream, and what follows it; None if it is cut short
      or its 64-bit length has the top bit set. */
  function RfcDecode(bs: seq<byte>): (r: Option<(Frame, seq<byte>)>) {
    if |bs| < 2 || |bs| < 2 + Extra(bs[1]) || Announced(bs) >= TWO_63 then None
    else
      var masked, keyAt, n := bs[1] >= 0x80, 2 + Extra(bs[1]), Announced(bs);
      var dataAt := if masked then keyAt + 4 else keyAt;
      if |bs| < dataAt + n then None
      else
        var key := bs[keyAt..dataAt];
        Some((Frame(bs[0] / 0x80 == 1, bs[0] / 0x40 % 2 == 1, bs[0] / 0x20 % 2 == 1, bs[0] / 0x10 % 2 == 1,
                    bs[0] % 0x10, masked, key, Mask(bs[dataAt..dataAt + n], masked, key)),
              bs[dataAt + n..]))
  }

  lemma FirstOctetFields(f: Frame)
    requires f.opcode < 16
    ensures var b := FirstOctet(f);
            && f.fin == (b / 0x80 == 1) && f.rsv1 == (b / 0x40 % 2 == 1) && f.rsv2 == (b / 0x20 % 2 == 1)
            && f.rsv3 == (b / 0x10 % 2 == 1) && f.opcode == b % 0x10
  {
  }

  lemma LengthFieldAnnounces(first: byte, masked: bool, n: nat, tail: seq<byte>)
    requires n < TWO_63
    ensures var l := LengthField(masked, n);
            var bs := [first] + l + tail;
            && (l[0] >= 0x80 <==> masked) && |l| == 1 + Extra(l[0])
            && bs[1] == l[0] && Announced(bs) == n
  {
    var l := LengthField(masked, n);
    var bs := [first] + l + tail;
    if n >= 0x1_0000 {
      WordRoundTrip(n / TWO_32);
      WordRoundTrip(n % TWO_32);
      assert l[0] % 0x80 == 127;
      assert bs[2..6] == Word(n / TWO_32) && bs[6..10] == Word(n % TWO_32);
      assert WordAt(bs, 2) == WordAt(bs[2..6], 0) && WordAt(bs, 6) == WordAt(bs[6..10], 0);
    }
  }

  lemma Slices(a: seq<byte>, key: seq<byte>, data: seq<byte>, tail: seq<byte>)
    ensures var bs := a + (key + data + tail);
            var keyAt, dataAt := |a|, |a| + |key|;
            && bs[keyAt..dataAt] == key && bs[dataAt..dataAt + |data|] == data && bs[dataAt + |data|..] == tail
  {
  }

  lemma Regroup(a: seq<byte>, b: seq<byte>, c: seq<byte>, d: seq<byte>)
    ensures a + b + c + d == a + (b + c + d)
  {
  }

  /** The reference decoder undoes the reference encoder. */
  lemma RfcRoundTrip(f: Frame, tail: seq<byte>)
    requires WellFormed(f)
    ensures RfcDecode(RfcEncode(f) + tail) == Some((f, tail))
  {
    var data := Mask(f.payload, f.masked, f.key);
    var a := [FirstOctet(f)] + LengthField(f.masked, |f.payload|);
    Regroup(a, f.key, data, tail);
    LengthFieldAnnounces(FirstOctet(f), f.masked, |f.payload|, f.key + data + tail);
    Slices(a, f.key, data, tail);
    FirstOctetFields(f);
    MaskTwice(f.payload, f.masked, f.key);
    DecodeParts(f, a + (f.key + data + tail), tail);
  }

  lemma DecodeParts(f: Frame, bs: seq<byte>, tail: seq<byte>)
    requires WellFormed(f) && |bs| >= 2 && |bs| >= 2 + Extra(bs[1])
    requires bs[0] == FirstOctet(f) && (bs[1] >= 0x80 <==> f.masked) && Announced(bs) == |f.payload|
    requires var keyAt := 2 + Extra(bs[1]);
             var dataAt := keyAt + |f.key|;
             && dataAt + |f.payload| <= |bs| && bs[keyAt..dataAt] == f.key
             && Mask(bs[dataAt..dataAt + |f.payload|], f.masked, f.key) == f.payload && bs[dataAt + |f.payload|..] == tail
    ensures RfcDecode(bs) == Some((f, tail))
  {
    FirstOctetFields(f);
  }

  // ---------------------------------------------------------------- SendInternal

  function TextFrame(data: seq<byte>): (f: Frame) {
    Frame(true, false, false, false, 1, true, [0, 0, 0, 0], data)
  }

  /** The octets before the data. The 64-bit length is written with its upper half zero and
      its lower half truncated to 32 bits. */
  function Prefix(n: nat): (r: seq<byte>) {
    if n > 65535 then
      [0x81, 0x80 + 127, 0, 0, 0, 0,
       n / 0x100_0000 % 0x100, n / 0x1_0000 % 0x100, n / 0x100 % 0x100, n % 0x100, 0, 0, 0, 0]
    else if n > 125 then [0x81, 0x80 + 126, n / 0x100, n % 0x100, 0, 0, 0, 0]
    else [0x81, 0x80 + n, 0, 0, 0, 0]
  }

  lemma Remainder(n: nat, q: nat, w: uint32)
    requires n == TWO_32 * q + w
    ensures n % TWO_32 == w
  {
  }

  lemma LowOctets(n: nat)
    ensures Word(n % TWO_32) == [n / 0x100_0000 % 0x100, n / 0x1_0000 % 0x100, n / 0x100 % 0x100, n % 0x100]
  {
    ShiftTwice(n);
    var bs: seq<byte> := [n / 0x100_0000 % 0x100, n / 0x1_0000 % 0x100, n / 0x100 % 0x100, n % 0x100];
    Remainder(n, n / 0x100_0000 / 0x100, WordAt(bs, 0));
    WordIsOnlyEncoding(bs);
  }

  /** The octets handed to the socket. */
  function Sent(data: seq<byte>): (r: seq<byte>) { Prefix(|data|) + data }

  lemma ZeroKey(data: seq<byte>)
    ensures Mask(data, true, [0, 0, 0, 0]) == data
  {
    forall i | 0 <= i < |data| ensures Mask(data, true, [0, 0, 0, 0])[i] == data[i] {
      XorZero(data[i]);
    }
  }

  lemma SentIsRfcEncoding(data: seq<byte>)
    requires |data| < TWO_32
    ensures Sent(data) == RfcEncode(TextFrame(data))
  {
    var n := |data|;
    ZeroKey(data);
    if n > 65535 {
      LowOctets(n);
      assert Word(n / TWO_32) == [0, 0, 0, 0];
    }
    assert Prefix(n) == [0x81] + LengthField(true, n) + [0, 0, 0, 0];
  }

  lemma SentAnnounces(data: seq<byte>)
    requires |data| >= TWO_32
    ensures |Sent(data)| >= 10 && Extra(Sent(data)[1]) == 8 && Announced(Sent(data)) == |data| % TWO_32
  {
    var s, w := Sent(data), Word(|data| % TWO_32);
    WordRoundTrip(|data| % TWO_32);
    LowOctets(|data|);
    assert s[2..6] == [0, 0, 0, 0] && s[6..10] == w;
    assert WordAt(s, 2) == 0 && WordAt(s, 6) == WordAt(w, 0);
  }

  /** A standard peer reads one final, masked text frame with exactly the data, in the
      minimal length form, iff the data is shorter than 2^32 octets. */
  lemma SentDecodesIff(data: seq<byte>)
    ensures RfcDecode(Sent(data)) == Some((TextFrame(data), [])) <==> |data| < TWO_32
    ensures |data| < TWO_32 ==> Sent(data) == RfcEncode(TextFrame(data))
  {
    if |data| < TWO_32 {
      SentIsRfcEncoding(data);
      RfcRoundTrip(TextFrame(data), []);
      assert Sent(data) + [] == Sent(data);
    } else {
      SentAnnounces(data);
    }
  }

  /** Any number of sends back to back are read back one by one. */
  lemma SentThenRest(data: seq<byte>, tail: seq<byte>)
    requires |data| < TWO_32
    ensures RfcDecode(Sent(data) + tail) == Some((TextFrame(data), tail))
  {
    SentIsRfcEncoding(data);
    RfcRoundTrip(TextFrame(data), tail);
  }

  method WriteLength(prefix: array<byte>, payloadLen: nat) returns (prefixLen: nat)
    requires prefix.Length == 14
    modifies prefix
    ensures prefixLen + 4 == |Prefix(payloadLen)| && prefix[..prefixLen] == Prefix(payloadLen)[..prefixLen]
  {
    prefixLen := 2;
    prefix[0] := 1 + 0x80;
    if payloadLen > 65535 {
      prefix[1] := 127;
      prefix[2], prefix[3], prefix[4], prefix[5] := 0, 0, 0, 0;
      prefix[6] := payloadLen / 0x100_0000 % 0x100;
      prefix[7] := payloadLen / 0x1_0000 % 0x100;
      prefix[8] := payloadLen / 0x100 % 0x100;
      prefix[9] := payloadLen % 0x100;
      prefixLen := prefixLen + 8;
    } else if payloadLen > 125 {
      prefix[1] := 126;
      prefix[2] := payloadLen / 0x100 % 0x100;
      prefix[3] := payloadLen % 0x100;
      prefixLen := prefixLen + 2;
    } else {
      prefix[1] := payloadLen;
    }
    prefix[1] := prefix[1] + 0x80;
  }

  method WriteKey(prefix: array<byte>, prefixLen: nat)
    requires prefixLen + 4 <= prefix.Length
    modifies prefix
    ensures prefix[..prefixLen + 4] == old(prefix[..prefixLen]) + [0, 0, 0, 0]
  {
    prefix[prefixLen], prefix[prefixLen + 1], prefix[prefixLen + 2], prefix[prefixLen + 3] := 0, 0, 0, 0;
  }

  method SendInternal(data: seq<byte>) returns (out: seq<byte>)
    ensures out == Sent(data)
    ensures RfcDecode(out) == Some((TextFrame(data), [])) <==> |data| < TWO_32
  {
    var prefix := new byte[14](_ => 0);
    var prefixLen := WriteLength(prefix, |data|);
    WriteKey(prefix, prefixLen);
    prefixLen := prefixLen + 4;
    assert prefix[..prefixLen] == Prefix(|data|);
    out := prefix[..prefixLen] + data;
    SentDecodesIff(data);
  }

  // ---------------------------------------------------------------- do_read

  datatype ReadResult = Message(msg: seq<byte>) | Incomplete | NotFinal | Masked | Deflated | LengthError

  /** The length from its announced octets, as the C expression computes it: an int, made
      negative by its top bit, converted to a 64-bit size. */
  function SizeOf(second: byte, len: seq<byte>): (n: nat)
    requires |len| == Extra(second)
  {
    if |len| == 0 then second % 0x80
    else if |len| == 2 then 0x100 * (len[0] as int) + len[1]
    else if WordAt(len, 4) < TWO_31 then WordAt(len, 4) else TWO_64 - TWO_32 + WordAt(len, 4)
  }

  function Min(a: nat, b: nat): (m: nat) { if a < b then a else b }

  /** What recv gives: all it is asked for while the stream lasts. */
  function Taken(bs: seq<byte>, n: nat): (r: (seq<byte>, seq<byte>)) {
    var m := Min(n, |bs|);
    (bs[..m], bs[m..])
  }

  /** The result and the octets left unread, after the first two octets. The length octets
      are not checked for completeness: missing ones keep what the uninitialised buffer held. */
  function ReadBody(second: byte, bs: seq<byte>, junk: seq<byte>): (r: (ReadResult, seq<byte>))
    requires |junk| == 8
  {
    var (got, rest) := Taken(bs, Extra(second));
    var n := SizeOf(second, got + junk[|got|..Extra(second)]);
    if n >= TWO_63 then (LengthError, rest)
    else if |rest| < n then (Incomplete, [])
    else (Message(rest[..n]), rest[n..])
  }

  function Read(bs: seq<byte>, junk: seq<byte>): (r: (ReadResult, seq<byte>))
    requires |junk| == 8
  {
    if |bs| < 2 then (Incomplete, [])
    else if bs[0] < 0x80 then (NotFinal, bs[2..])
    else if bs[1] >= 0x80 then (Masked, bs[2..])
    else if bs[0] / 0x40 % 2 == 1 then (Deflated, bs[2..])
    else ReadBody(bs[1], bs[2..], junk)
  }

  /** A frame do_read supports. */
  predicate Supported(f: Frame) { f.fin && !f.rsv1 && !f.masked && |f.payload| < TWO_31 }

  lemma SizeIsAnnounced(bs: seq<byte>)
    requires |bs| >= 2 && |bs| >= 2 + Extra(bs[1]) && Announced(bs) < TWO_63
    ensures var n := SizeOf(bs[1], bs[2..2 + Extra(bs[1])]);
            n == Announced(bs) <==> Announced(bs) < TWO_31
  {
    var len := bs[2..2 + Extra(bs[1])];
    if |len| == 8 {
      assert WordAt(len, 4) == WordAt(bs, 6);
    }
  }

  /** On every stream that starts with a complete frame, do_read returns that frame's payload
      and stops right behind it iff the frame is supported. */
  lemma ReadIsRfcIff(bs: seq<byte>, junk: seq<byte>)
    requires |junk| == 8 && RfcDecode(bs).Some?
    ensures var (f, tail) := RfcDecode(bs).value;
            Read(bs, junk) == (Message(f.payload), tail) <==> Supported(f)
  {
    var (f, tail) := RfcDecode(bs).value;
    var e := Extra(bs[1]);
    SizeIsAnnounced(bs);
    if bs[0] >= 0x80 && bs[1] < 0x80 && bs[0] / 0x40 % 2 == 0 {
      var n, rest := SizeOf(bs[1], bs[2..2 + e]), bs[2 + e..];
      assert bs[2..][..e] == bs[2..2 + e] && bs[2..][e..] == rest;
      assert bs[2..2 + e] + junk[e..e] == bs[2..2 + e];
      if n == Announced(bs) {
        assert rest[..n] == bs[2 + e..2 + e + n] && rest[n..] == bs[2 + e + n..];
      }
    }
  }

  /** So every supported frame a standard peer can encode is recovered, whatever follows. */
  lemma ReadRecoversEncoded(f: Frame, tail: seq<byte>, junk: seq<byte>)
    requires WellFormed(f) && |junk| == 8
    ensures Read(RfcEncode(f) + tail, junk) == (Message(f.payload), tail) <==> Supported(f)
  {
    RfcRoundTrip(f, tail);
    ReadIsRfcIff(RfcEncode(f) + tail, junk);
  }

  /** Why a complete frame is refused, in this order: it is a fragment, it is masked, or its
      first reserved bit is set. */
  lemma ReadRefuses(f: Frame, tail: seq<byte>, junk: seq<byte>)
    requires WellFormed(f) && |junk| == 8
    ensures var r := Read(RfcEncode(f) + tail, junk).0;
            && (r == NotFinal <==> !f.fin)
            && (r == Masked <==> f.fin && f.masked)
            && (r == Deflated <==> f.fin && !f.masked && f.rsv1)
            && (r == Message(f.payload) <== Supported(f))
  {
    FirstOctetFields(f);
    var rest := f.key + Mask(f.payload, f.masked, f.key) + tail;
    LengthFieldAnnounces(FirstOctet(f), f.masked, |f.payload|, rest);
    Regroup([FirstOctet(f)] + LengthField(f.masked, |f.payload|), f.key, Mask(f.payload, f.masked, f.key), tail);
    ReadRecoversEncoded(f, tail, junk);
  }

  /** A supported frame that is cut short, but not inside its length, is incomplete. */
  lemma ReadIncomplete(f: Frame, n: nat, junk: seq<byte>)
    requires WellFormed(f) && Supported(f) && |junk| == 8 && n < |RfcEncode(f)|
    requires n < 2 || n >= 1 + |LengthField(f.masked, |f.payload|)|
    ensures Read(RfcEncode(f)[..n], junk).0 == Incomplete
  {
    var l := LengthField(f.masked, |f.payload|);
    var bs := RfcEncode(f)[..n];
    if n >= 2 {
      FirstOctetFields(f);
      var tail := f.payload[..n - 1 - |l|];
      assert RfcEncode(f) == [FirstOctet(f)] + l + f.payload;
      assert bs == [FirstOctet(f)] + l + tail;
      LengthFieldAnnounces(FirstOctet(f), f.masked, |f.payload|, tail);
      SizeIsAnnounced(bs);
      var e := Extra(bs[1]);
      assert bs[2..][..e] == bs[2..2 + e] && bs[2..][e..] == bs[2 + e..];
      assert bs[2..2 + e] + junk[e..e] == bs[2..2 + e];
    }
  }

  class Connection {
    var incoming: seq<byte>

    constructor (incoming: seq<byte>)
      ensures this.incoming == incoming
    {
      this.incoming := incoming;
    }

    method Recv(n: nat) returns (got: seq<byte>)
      modifies this
      ensures (got, incoming) == Taken(old(incoming), n)
    {
      var m := Min(n, |incoming|);
      got := incoming[..m];
      incoming := incoming[m..];
    }

    method ReadLength(second: byte, junk: seq<byte>) returns (payloadLen: nat)
      requires |junk| == 8
      modifies this
      ensures var (got, rest) := Taken(old(incoming), Extra(second));
              incoming == rest && payloadLen == SizeOf(second, got + junk[|got|..Extra(second)])
    {
      payloadLen := second % 0x80;
      if payloadLen == 126 {
        var got := Recv(2);
        var len := got + junk[|got|..2];
        payloadLen := 0x100 * (len[0] as int) + len[1];
      } else if payloadLen == 127 {
        var got := Recv(8);
        var len := got + junk[|got|..8];
        payloadLen := WordAt(len, 4);
        if payloadLen >= TWO_31 {
          payloadLen := TWO_64 - TWO_32 + payloadLen;
        }
      } else {
        assert Taken(incoming, 0) == ([], incoming);
      }
    }

    method DoRead(junk: seq<byte>) returns (r: ReadResult)
      requires |junk| == 8
      modifies this
      ensures (r, incoming) == Read(old(incoming), junk)
    {
      var head := Recv(2);
      if |head| != 2 {
        assert incoming == [];
        return Incomplete;
      }
      if head[0] < 0x80 {
        return NotFinal;
      }
      if head[1] >= 0x80 {
        return Masked;
      }
      if head[0] / 0x40 % 2 == 1 {
        return Deflated;
      }
      var payloadLen := ReadLength(head[1], junk);
      if payloadLen >= TWO_63 {
        return LengthError;
      }
      var msg := Recv(payloadLen);
      if |msg| != payloadLen {
        assert incoming == [];
        return Incomplete;
      }
      return Message(msg);
    }
  }
}
