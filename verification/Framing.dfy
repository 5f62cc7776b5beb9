/** The length-prefixed USB frame: what the TypeScript packer and the native writer put on
    the wire, and reference parsers for the two receivers, which treat the fourth header
    word differently. */
module Framing {
  import opened Bytes

  const VERSION: uint32 := 1         // kFrameProtocolVersion
  const TEXT_MESSAGE: uint32 := 101  // kPTFrameTypeTextMessage
  const DEFAULT_TAG: uint32 := 0     // kFrameDefaultTag
  const HEADER_LENGTH: nat := 16     // kFrameHeaderLen
  const PREFIX_LENGTH: nat := 20     // kFrameHeaderLen + kPayloadSizeLen

  function Frame(fourth: uint32, m: seq<byte>): (f: seq<byte>)
    requires |m| < 0x1_0000_0000
    ensures |f| == PREFIX_LENGTH + |m|
  {
    Word(VERSION) + Word(TEXT_MESSAGE) + Word(DEFAULT_TAG) + Word(fourth) + Word(|m|) + m
  }

  /** packMessage, on the already encoded text. */
  function Pack(m: seq<byte>): (f: seq<byte>)
    requires |m| + 4 < 0x1_0000_0000
    ensures |f| == PREFIX_LENGTH + |m|
  {
    Frame(|m| + 4, m)
  }

  /** The octets UsbClient::WrapHeader leaves in its result. */
  function Wrap(m: seq<byte>): (f: seq<byte>)
    requires |m| + 20 < 0x1_0000_0000
    ensures |f| == PREFIX_LENGTH + |m|
  {
    Frame(|m| + 20, m)
  }

  lemma FrameFields(fourth: uint32, m: seq<byte>, rest: seq<byte>)
    requires |m| < 0x1_0000_0000
    ensures var s := Frame(fourth, m) + rest;
            && ThreeWordsMatch(s)
            && WordAt(s, 12) == fourth
            && WordAt(s, 16) == |m|
            && s[20..20 + |m|] == m
            && s[20 + |m|..] == rest
            && s[20..] == m + rest
  {
    var s := Frame(fourth, m) + rest;
    assert s[..20] == Word(VERSION) + Word(TEXT_MESSAGE) + Word(DEFAULT_TAG) + Word(fourth) + Word(|m|);
    WordRoundTrip(VERSION);
    WordRoundTrip(TEXT_MESSAGE);
    WordRoundTrip(DEFAULT_TAG);
    WordRoundTrip(fourth);
    WordRoundTrip(|m|);
  }

  /** util::CheckHeaderThreeBytes */
  predicate ThreeWordsMatch(header: seq<byte>)
    requires |header| >= HEADER_LENGTH
  {
    WordAt(header, 0) == VERSION && WordAt(header, 4) == TEXT_MESSAGE && WordAt(header, 8) == DEFAULT_TAG
  }

  /** util::CheckHeaderFourthByte; the sum wraps at 32 bits. */
  predicate FourthWordMatches(header: seq<byte>, payloadSize: uint32)
    requires |header| >= HEADER_LENGTH
  {
    WordAt(header, 12) == (payloadSize + 4) % 0x1_0000_0000
  }

  // ---------------------------------------------------------------- the connector's decoder

  datatype Parsed = Parsed(messages: seq<seq<byte>>, rest: seq<byte>)

  /** Whether s starts with a complete frame. */
  predicate HasFrame(s: seq<byte>) {
    |s| >= PREFIX_LENGTH && PREFIX_LENGTH + WordAt(s, 16) <= |s|
  }

  /** Reference decoder: cut complete frames off the front of the whole stream. */
  function Parse(s: seq<byte>): (p: Parsed)
    decreases |s|
  {
    if !HasFrame(s) then Parsed([], s)
    else
      var n := PREFIX_LENGTH + WordAt(s, 16);
      var tail := Parse(s[n..]);
      Parsed([s[PREFIX_LENGTH..n]] + tail.messages, tail.rest)
  }

  /** f is exactly one frame. */
  predicate IsFrame(f: seq<byte>) { |f| >= PREFIX_LENGTH && |f| == PREFIX_LENGTH + WordAt(f, 16) }

  lemma ParseOne(f: seq<byte>, t: seq<byte>)
    requires IsFrame(f)
    ensures Parse(f + t) == Parsed([f[PREFIX_LENGTH..]] + Parse(t).messages, Parse(t).rest)
  {
    var s := f + t;
    assert WordAt(s, 16) == WordAt(f, 16);
    assert s[|f|..] == t && s[PREFIX_LENGTH..|f|] == f[PREFIX_LENGTH..];
  }

  lemma ParseFront(a: seq<byte>, b: seq<byte>)
    requires HasFrame(a)
    ensures var n := PREFIX_LENGTH + WordAt(a, 16);
            Parse(a + b) == Parsed([a[PREFIX_LENGTH..n]] + Parse(a[n..] + b).messages, Parse(a[n..] + b).rest)
  {
    var n := PREFIX_LENGTH + WordAt(a, 16);
    SplitConcat(a, n, b);
    ParseOne(a[..n], a[n..] + b);
    assert a[..n][PREFIX_LENGTH..] == a[PREFIX_LENGTH..n];
  }

  lemma ConsAssociates(x: seq<byte>, a: seq<seq<byte>>, b: seq<seq<byte>>)
    ensures [x] + (a + b) == [x] + a + b
  {
  }

  /** Parsing can be interrupted anywhere and resumed on the undecoded rest. */
  lemma {:induction false} ParseConcat(a: seq<byte>, b: seq<byte>)
    ensures Parse(a + b) ==
            Parsed(Parse(a).messages + Parse(Parse(a).rest + b).messages, Parse(Parse(a).rest + b).rest)
    decreases |a|
  {
    if HasFrame(a) {
      var n := PREFIX_LENGTH + WordAt(a, 16);
      var p := Parse(a[n..]);
      ParseFront(a, b);
      ParseConcat(a[n..], b);
      ConsAssociates(a[PREFIX_LENGTH..n], p.messages, Parse(p.rest + b).messages);
    } else {
      assert [] + Parse(a + b).messages == Parse(a + b).messages;
    }
  }

  /** The decoder fed one chunk at a time. */
  function ParseChunks(live: seq<byte>, chunks: seq<seq<byte>>): (p: Parsed)
    decreases |chunks|
  {
    if chunks == [] then Parsed([], live)
    else
      var first := Parse(live + chunks[0]);
      var tail := ParseChunks(first.rest, chunks[1..]);
      Parsed(first.messages + tail.messages, tail.rest)
  }

  lemma {:induction false} ChunkingIndependent(live: seq<byte>, chunks: seq<seq<byte>>)
    requires !HasFrame(live)
    ensures ParseChunks(live, chunks) == Parse(live + Flatten(chunks))
    decreases |chunks|
  {
    if chunks == [] {
      assert live + Flatten(chunks) == live;
    } else {
      var first := Parse(live + chunks[0]);
      RestHasNoFrame(live + chunks[0]);
      ChunkingIndependent(first.rest, chunks[1..]);
      ParseConcat(live + chunks[0], Flatten(chunks[1..]));
      assert live + Flatten(chunks) == live + chunks[0] + Flatten(chunks[1..]);
    }
  }

  lemma {:induction false} RestHasNoFrame(s: seq<byte>)
    ensures !HasFrame(Parse(s).rest)
    decreases |s|
  {
    if HasFrame(s) { RestHasNoFrame(s[PREFIX_LENGTH + WordAt(s, 16)..]); }
  }

  predicate Fit(ms: seq<seq<byte>>, overhead: nat) {
    forall i :: 0 <= i < |ms| ==> |ms[i]| + overhead < 0x1_0000_0000
  }

  function WrapAll(ms: seq<seq<byte>>): (s: seq<byte>)
    requires Fit(ms, 20)
  {
    Flatten(seq(|ms|, i requires 0 <= i < |ms| => Wrap(ms[i])))
  }

  function PackAll(ms: seq<seq<byte>>): (s: seq<byte>)
    requires Fit(ms, 4)
  {
    Flatten(seq(|ms|, i requires 0 <= i < |ms| => Pack(ms[i])))
  }

  lemma {:induction false} ParseFrames(frames: seq<seq<byte>>, ms: seq<seq<byte>>)
    requires |frames| == |ms|
    requires forall i :: 0 <= i < |ms| ==> IsFrame(frames[i]) && frames[i][PREFIX_LENGTH..] == ms[i]
    ensures Parse(Flatten(frames)) == Parsed(ms, [])
    decreases |ms|
  {
    if ms != [] {
      ParseOne(frames[0], Flatten(frames[1..]));
      ParseFrames(frames[1..], ms[1..]);
      assert ms == [ms[0]] + ms[1..];
    }
  }

  /** Native to connector: the stream of wrapped messages parses back to the messages. */
  lemma ParseWrapped(ms: seq<seq<byte>>)
    requires Fit(ms, 20)
    ensures Parse(WrapAll(ms)) == Parsed(ms, [])
  {
    var frames := seq(|ms|, i requires 0 <= i < |ms| => Wrap(ms[i]));
    forall i | 0 <= i < |ms| ensures IsFrame(frames[i]) && frames[i][PREFIX_LENGTH..] == ms[i] {
      FrameFields(|ms[i]| + 20, ms[i], []);
      assert Frame(|ms[i]| + 20, ms[i]) + [] == Wrap(ms[i]);
    }
    ParseFrames(frames, ms);
  }

  // ---------------------------------------------------------------- the native reader

  /** What UsbClient::ReadMessage has made of the octets it consumed: the payloads it
      accepted, how many frames it dropped, and whether it met a foreign header. */
  datatype Scanned = Scanned(payloads: seq<seq<byte>>, dropped: nat, foreign: bool, rest: seq<byte>)

  /** What the reader does with the front of s: wait for more, give up on a foreign header,
      or consume n octets, which hold a payload if `accept`. A frame whose fourth word is
      wrong loses its 20-octet prefix only. */
  datatype Move = Wait | Foreign | Consume(n: nat, accept: bool)

  function Next(s: seq<byte>): (r: Move)
    ensures r.Consume? ==> PREFIX_LENGTH <= r.n <= |s|
  {
    if |s| < HEADER_LENGTH then Wait
    else if !ThreeWordsMatch(s) then Foreign
    else if |s| < PREFIX_LENGTH then Wait
    else if !FourthWordMatches(s, WordAt(s, 16)) then Consume(PREFIX_LENGTH, false)
    else if |s| < PREFIX_LENGTH + WordAt(s, 16) then Wait
    else Consume(PREFIX_LENGTH + WordAt(s, 16), true)
  }

  /** Reference reader. */
  function Scan(s: seq<byte>): (r: Scanned)
    decreases |s|
  {
    match Next(s)
    case Wait => Scanned([], 0, false, s)
    case Foreign => Scanned([], 0, true, s)
    case Consume(n, accept) => Extend(s[..n], accept, Scan(s[n..]))
  }

  function Extend(f: seq<byte>, accept: bool, tail: Scanned): (r: Scanned)
    requires |f| >= PREFIX_LENGTH
  {
    if accept then tail.(payloads := [f[PREFIX_LENGTH..]] + tail.payloads)
    else tail.(dropped := tail.dropped + 1)
  }

  function Append(head: Scanned, tail: Scanned): (r: Scanned) {
    Scanned(head.payloads + tail.payloads, head.dropped + tail.dropped, tail.foreign, tail.rest)
  }

  lemma NextIsStable(a: seq<byte>, b: seq<byte>)
    requires Next(a).Consume?
    ensures Next(a + b) == Next(a)
  {
  }

  lemma NextOfPrefix(s: seq<byte>)
    requires Next(s).Consume?
    ensures Next(s[..Next(s).n]) == Next(s)
  {
  }

  lemma ScanOne(f: seq<byte>, t: seq<byte>)
    requires Next(f).Consume? && Next(f).n == |f|
    ensures Scan(f + t) == Extend(f, Next(f).accept, Scan(t))
  {
    NextIsStable(f, t);
    assert (f + t)[..|f|] == f && (f + t)[|f|..] == t;
  }

  lemma ExtendAppends(f: seq<byte>, accept: bool, head: Scanned, tail: Scanned)
    requires |f| >= PREFIX_LENGTH
    ensures Extend(f, accept, Append(head, tail)) == Append(Extend(f, accept, head), tail)
  {
    var m := f[PREFIX_LENGTH..];
    assert [m] + (head.payloads + tail.payloads) == [m] + head.payloads + tail.payloads;
  }

  /** Scanning, too, can be interrupted anywhere before a foreign header. */
  lemma {:induction false} ScanConcat(a: seq<byte>, b: seq<byte>)
    requires !Scan(a).foreign
    ensures Scan(a + b) == Append(Scan(a), Scan(Scan(a).rest + b))
    decreases |a|
  {
    if Next(a).Wait? {
      assert [] + Scan(a + b).payloads == Scan(a + b).payloads;
    } else {
      var n, accept := Next(a).n, Next(a).accept;
      var f, t := a[..n], a[n..];
      NextOfPrefix(a);
      ScanConcat(t, b);
      ExtendAppends(f, accept, Scan(t), Scan(Scan(t).rest + b));
      ScanOne(f, t + b);
      SplitConcat(a, n, b);
    }
  }

  /** f is a frame the native reader accepts, carrying m. */
  predicate Carries(f: seq<byte>, m: seq<byte>) {
    Next(f) == Consume(|f|, true) && f[PREFIX_LENGTH..] == m
  }

  lemma PackCarries(m: seq<byte>)
    requires |m| + 4 < 0x1_0000_0000
    ensures Carries(Pack(m), m)
  {
    FrameFields(|m| + 4, m, []);
    assert Frame(|m| + 4, m) + [] == Pack(m);
  }

  lemma PartOfFrameWaits(f: seq<byte>, m: seq<byte>, n: nat)
    requires Carries(f, m) && n < |f|
    ensures Next(f[..n]).Wait?
  {
  }

  lemma {:induction false} ScanFrames(frames: seq<seq<byte>>, ms: seq<seq<byte>>, n: nat)
    requires |frames| == |ms| && n <= |Flatten(frames)|
    requires forall i :: 0 <= i < |ms| ==> Carries(frames[i], ms[i])
    ensures var r := Scan(Flatten(frames)[..n]);
            && !r.foreign && r.dropped == 0 && r.payloads <= ms
            && (n == |Flatten(frames)| ==> r.payloads == ms && r.rest == [])
    decreases |ms|
  {
    if ms == [] {
      assert Flatten(frames)[..n] == [];
    } else {
      var f, tail := frames[0], Flatten(frames[1..]);
      assert ms == [ms[0]] + ms[1..];
      if n >= |f| {
        ScanFrames(frames[1..], ms[1..], n - |f|);
        PrefixOfConcat(f, tail, n);
        ScanOne(f, tail[..n - |f|]);
      } else {
        PartOfFrameWaits(f, ms[0], n);
        assert (f + tail)[..n] == f[..n];
      }
    }
  }

  /** Connector to native: after any number n of octets of a packed stream, no header was
      rejected and the payloads read so far are the first ones sent, in order; after all
      octets they are all of them. */
  lemma ScanPacked(ms: seq<seq<byte>>, n: nat)
    requires Fit(ms, 4) && n <= |PackAll(ms)|
    ensures var r := Scan(PackAll(ms)[..n]);
            && !r.foreign && r.dropped == 0 && r.payloads <= ms
            && (n == |PackAll(ms)| ==> r.payloads == ms && r.rest == [])
  {
    var frames := seq(|ms|, i requires 0 <= i < |ms| => Pack(ms[i]));
    forall i | 0 <= i < |ms| ensures Carries(frames[i], ms[i]) {
      PackCarries(ms[i]);
    }
    ScanFrames(frames, ms, n);
  }

  /** The reader drops the prefix of a wrapped frame and goes on inside its payload, so what
      it sees is exactly the payload as a stream. */
  lemma WrappedFramesAreDropped(m: seq<byte>, rest: seq<byte>)
    requires |m| + 20 < 0x1_0000_0000
    ensures Scan(Wrap(m) + rest) == Scan(m + rest).(dropped := Scan(m + rest).dropped + 1)
  {
    FrameFields(|m| + 20, m, []);
    assert Frame(|m| + 20, m) + [] == Wrap(m);
    var p := Wrap(m)[..PREFIX_LENGTH];
    NextOfPrefix(Wrap(m));
    ScanOne(p, m + rest);
    SplitConcat(Wrap(m), PREFIX_LENGTH, rest);
  }

  /** The octets that frames with these payloads take. */
  function FramedLength(payloads: seq<seq<byte>>): (n: nat) {
    if payloads == [] then 0 else PREFIX_LENGTH + |payloads[0]| + FramedLength(payloads[1..])
  }

  /** Every octet is in an accepted frame, in a dropped prefix, or left over. */
  lemma {:induction false} ScanConserves(s: seq<byte>)
    ensures var r := Scan(s);
            FramedLength(r.payloads) + PREFIX_LENGTH * r.dropped + |r.rest| == |s|
    decreases |s|
  {
    if Next(s).Consume? {
      var n := Next(s).n;
      ScanConserves(s[n..]);
      var tail := Scan(s[n..]).payloads;
      assert ([s[..n][PREFIX_LENGTH..]] + tail)[1..] == tail;
    }
  }

  lemma {:induction false} WrapAllLength(ms: seq<seq<byte>>)
    requires Fit(ms, 20)
    ensures |WrapAll(ms)| == FramedLength(ms)
    ensures ms != [] ==> WrapAll(ms) == Wrap(ms[0]) + WrapAll(ms[1..])
    decreases |ms|
  {
    if ms != [] {
      WrapAllLength(ms[1..]);
      var frames := seq(|ms|, i requires 0 <= i < |ms| => Wrap(ms[i]));
      assert frames[1..] == seq(|ms| - 1, i requires 0 <= i < |ms| - 1 => Wrap(ms[1..][i]));
    }
  }

  /** Native to native does not hold: of natively wrapped messages the native reader never
      recovers the list, unless there are none. */
  lemma NativeToNativeIff(ms: seq<seq<byte>>)
    requires Fit(ms, 20)
    ensures Scan(WrapAll(ms)).payloads == ms <==> ms == []
  {
    ScanConserves(WrapAll(ms));
    WrapAllLength(ms);
    if ms != [] {
      WrappedFramesAreDropped(ms[0], WrapAll(ms[1..]));
    }
  }
}
