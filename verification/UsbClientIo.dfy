/** UsbClient on the wire: the header writer, and the reader that survives short reads,
    receive timeouts, a closing peer and a concurrent Stop. */
module UsbClientIo {
  import opened Bytes
  import opened Framing
  import opened Options

  method PutWord(buffer: array<byte>, at: nat, value: uint32, charArray: array<byte>)
    requires at + 4 <= buffer.Length && charArray.Length == 4 && charArray != buffer
    modifies buffer, charArray
    ensures buffer[..at + 4] == old(buffer[..at]) + Word(value)
  {
    IntToCharArray(value, charArray);
    forall i | 0 <= i < 4 {
      buffer[at + i] := charArray[i];
    }
    assert buffer[..at + 4] == old(buffer[..at]) + charArray[..];
  }

  /** UsbClient::WrapHeader. The 32-bit total sizes the result; None stands for a total that
      has wrapped, so that the copies run past the end of the result. */
  method WrapHeader(message: seq<byte>) returns (result: Option<array<byte>>)
    ensures result.Some? <==> |message| + 20 < 0x1_0000_0000
    ensures result.Some? ==> fresh(result.value) && result.value[..] == Wrap(message)
  {
    var totalSize := (PREFIX_LENGTH + |message|) % 0x1_0000_0000;
    if totalSize < PREFIX_LENGTH + |message| {
      return None;
    }
    var octets := FillFrame(message);
    result := Some(octets);
  }

  method FillFrame(message: seq<byte>) returns (result: array<byte>)
    requires |message| + 20 < 0x1_0000_0000
    ensures fresh(result) && result[..] == Wrap(message)
  {
    result := new byte[PREFIX_LENGTH + |message|];
    var charArray := new byte[4];
    PutWord(result, 0, VERSION, charArray);
    PutWord(result, 4, TEXT_MESSAGE, charArray);
    PutWord(result, 8, DEFAULT_TAG, charArray);
    PutWord(result, 12, PREFIX_LENGTH + |message|, charArray);
    PutWord(result, 16, |message|, charArray);
    ghost var head := result[..20];
    assert head == Word(VERSION) + Word(TEXT_MESSAGE) + Word(DEFAULT_TAG) + Word(|message| + 20) + Word(|message|);
    forall i | 0 <= i < |message| {
      result[20 + i] := message[i];
    }
    assert result[..] == head + message;
  }

  const MAX_MESSAGE_LENGTH := 0x1_0000_0000 // kMaxMessageLength

  /** The length guard of UsbClient::Send. */
  predicate PassesGuard(message: seq<byte>) { |message| <= MAX_MESSAGE_LENGTH - HEADER_LENGTH - 4 }

  /** UsbClient::Send while not stopping, with the frame the writer makes of the message: an
      accepted message is framed iff it is not of exactly the largest accepted length. */
  method Send(message: seq<byte>) returns (accepted: bool, frame: Option<array<byte>>)
    ensures accepted == PassesGuard(message)
    ensures accepted ==> (frame.Some? <==> |message| != MAX_MESSAGE_LENGTH - PREFIX_LENGTH)
    ensures !accepted ==> frame.None? && |message| + 20 > MAX_MESSAGE_LENGTH
    ensures frame.Some? ==> fresh(frame.value) && frame.value[..] == Wrap(message)
  {
    if |message| > MAX_MESSAGE_LENGTH - HEADER_LENGTH - 4 {
      return false, None;
    }
    accepted := true;
    frame := WrapHeader(message);
  }

  method DecodeWord(header: seq<byte>, at: nat) returns (value: uint32)
    requires at + 4 <= |header|
    ensures value == WordAt(header, at)
  {
    value := DecodePayloadSize(header[at..at + 4]);
    WordAtIsBigEndian(header[at..at + 4]);
  }

  /** util::CheckHeaderThreeBytes */
  method CheckHeaderThreeBytes(header: seq<byte>) returns (ok: bool)
    requires |header| >= HEADER_LENGTH
    ensures ok == ThreeWordsMatch(header)
  {
    var value := DecodeWord(header, 0);
    if value != 1 {
      return false;
    }
    value := DecodeWord(header, 4);
    if value != 101 {
      return false;
    }
    value := DecodeWord(header, 8);
    return value == 0;
  }

  /** util::CheckHeaderFourthByte */
  method CheckHeaderFourthByte(header: seq<byte>, payloadSize: uint32) returns (ok: bool)
    requires |header| >= HEADER_LENGTH
    ensures ok == FourthWordMatches(header, payloadSize)
  {
    var value := DecodeWord(header, 12);
    ok := value == (payloadSize + 4) % 0x1_0000_0000;
  }

  /** What the n-th recv call meets: up to n octets, the receive timeout, the peer's end of
      stream, or a socket error. */
  datatype Recv = Data(n: nat) | TimedOut | Eof | Failed(code: int)

  datatype ReadResult = Ok | Closed | Stopped | Error

  // kMessageQuit, "quit"
  const QUIT: seq<byte> := [113, 117, 105, 116]

  /** The payloads the session filter lets through. */
  function Kept(payloads: seq<seq<byte>>, drop: seq<byte> -> bool): (r: seq<seq<byte>>) {
    if payloads == [] then []
    else (if drop(payloads[0]) then [] else [payloads[0]]) + Kept(payloads[1..], drop)
  }

  lemma {:induction false} KeptConcat(a: seq<seq<byte>>, b: seq<seq<byte>>, drop: seq<byte> -> bool)
    ensures Kept(a + b, drop) == Kept(a, drop) + Kept(b, drop)
    decreases |a|
  {
    if a == [] {
      assert a + b == b;
    } else {
      assert (a + b)[1..] == a[1..] + b;
      KeptConcat(a[1..], b, drop);
    }
  }

  /** The socket neither ends nor fails: short reads and timeouts only. */
  predicate Serves(script: seq<Recv>) { forall i :: 0 <= i < |script| ==> script[i].Data? || script[i].TimedOut? }

  class Reader {
    var script: seq<Recv>            // what recv calls meet; behind it, all that is asked for until the stream ends
    var stream: seq<byte>            // octets the peer has sent and recv has not returned yet
    ghost var consumed: seq<byte>    // octets recv has returned
    var calls: nat                   // recv calls made
    const stopAt: nat                // another thread sets stopping_ before recv call number stopAt
    var stopping: bool               // stopping_ as set by this thread
    var puts: seq<seq<byte>>         // what this thread has put into incoming_message_queue_
    var isOpen: bool                 // OnOpen has been reported
    const drop: seq<byte> -> bool    // ShouldDropIncomingBySessionFilter
    ghost var ended: bool            // recv has met the end of the stream or a socket error
    ghost const served: bool         // the socket serves the whole stream
    ghost const turns: nat           // recv calls that can come before the end

    constructor (script: seq<Recv>, stream: seq<byte>, stopAt: nat, drop: seq<byte> -> bool)
      ensures this.script == script && this.stream == stream && consumed == [] && puts == []
      ensures this.drop == drop && this.stopAt == stopAt && !isOpen && !stopping && !ended && calls == 0
      ensures Env() && served == Serves(script) && turns == |script| + |stream|
    {
      this.script, this.stream, this.stopAt, this.drop := script, stream, stopAt, drop;
      consumed, calls, stopping, puts, isOpen := [], 0, false, [], false;
      ended, served, turns := false, Serves(script), |script| + |stream|;
    }

    ghost function Left(): (n: nat)
      reads this
    {
      |script| + |stream|
    }

    /** A socket that serves the stream ends only behind it, and every call but the one that
        met the end used up an entry or an octet. */
    ghost predicate Env()
      reads this
    {
      && (served ==> Serves(script)) && (served && ended ==> stream == [])
      && calls + Left() <= turns + if ended then 1 else 0
    }

    predicate Stopping()
      reads this
    {
      stopping || calls >= stopAt
    }

    method RecvInto(buffer: array<byte>, start: nat, want: nat) returns (r: Recv)
      requires 0 < want && start + want <= buffer.Length && Env() && !ended
      modifies this`script, this`stream, this`consumed, this`calls, this`ended, buffer
      ensures Env() && ended == (r.Eof? || r.Failed?)
      ensures r.Data? ==> 0 < r.n <= want
      ensures (forall x :: x in script ==> x in old(script)) && (r.Failed? ==> r in old(script))
      ensures r.Eof? ==> Eof in old(script) || stream == []
      ensures if r.Data? || r.TimedOut? then Left() < old(Left()) else Left() <= old(Left())
      ensures var n := if r.Data? then r.n else 0;
              && n <= |old(stream)|
              && stream == old(stream)[n..]
              && consumed == old(consumed) + old(stream)[..n]
              && buffer[..start + n] == old(buffer[..start]) + old(stream)[..n]
      ensures consumed + stream == old(consumed) + old(stream)
    {
      calls := calls + 1;
      if script != [] {
        r, script := script[0], script[1..];
      } else {
        r := if stream == [] then Eof else Data(want);
      }
      if r.Data? {
        if stream == [] {
          return TimedOut;
        }
        var n := if r.n == 0 then 1 else r.n;
        n := if n > want then want else n;
        n := if n > |stream| then |stream| else n;
        forall i | 0 <= i < n {
          buffer[start + i] := stream[i];
        }
        assert buffer[..start + n] == old(buffer[..start]) + stream[..n];
        MoveOctets(consumed, stream, n);
        consumed, stream := consumed + stream[..n], stream[n..];
        r := Data(n);
      }
      ended := r.Eof? || r.Failed?;
    }

    /** UsbClient::Read: fills the buffer however the octets arrive, or says why it could not. */
    method Read(buffer: array<byte>, readSize: nat) returns (result: ReadResult, errorCode: int, got: nat)
      requires readSize <= buffer.Length && Env() && !ended
      modifies this`script, this`stream, this`consumed, this`calls, this`ended, buffer
      ensures Env() && (if result.Ok? then !ended else ended || Stopping())
      ensures got <= readSize && (result.Ok? <==> got == readSize)
      ensures consumed == old(consumed) + buffer[..got]
      ensures consumed + stream == old(consumed) + old(stream)
      ensures result.Stopped? ==> Stopping()
      ensures if result.Error? then Failed(errorCode) in old(script) else errorCode == 0
      ensures result.Closed? ==> Eof in old(script) || stream == []
      ensures Left() <= old(Left()) && (readSize > 0 ==> result.Ok? ==> Left() < old(Left()))
    {
      errorCode := 0;
      var start := 0;
      got := 0;
      while start < readSize
        invariant start == got <= readSize && Env() && !ended && errorCode == 0
        invariant forall x :: x in script ==> x in old(script)
        invariant consumed == old(consumed) + buffer[..start]
        invariant consumed + stream == old(consumed) + old(stream)
        invariant Left() <= old(Left()) && (start > 0 ==> Left() < old(Left()))
        decreases Left()
      {
        ghost var before, consumed0 := buffer[..start], consumed;
        var r := RecvInto(buffer, start, readSize - start);
        match r
        case Data(n) =>
          assert consumed == old(consumed) + before + buffer[start..start + n];
          start := start + n;
          got := start;
        case Eof =>
          return if Stopping() then Stopped else Closed, errorCode, got;
        case TimedOut =>
          if Stopping() {
            return Stopped, errorCode, got;
          }
        case Failed(code) =>
          if Stopping() {
            return Stopped, errorCode, got;
          }
          return Error, code, got;
      }
      result := Ok;
    }

    method BeginTransportShutdown()
      modifies this`stopping, this`puts
      ensures stopping && puts == old(puts) + [QUIT]
    {
      stopping := true;
      puts := puts + [QUIT];
    }

    /** Shuts the transport down unless the read ended because someone already had. */
    method GiveUp(result: ReadResult) returns (shutdown: bool)
      modifies this`stopping, this`puts
      ensures shutdown == !result.Stopped?
      ensures puts == old(puts) + if shutdown then [QUIT] else []
    {
      shutdown := !result.Stopped?;
      if shutdown {
        BeginTransportShutdown();
      }
    }

    method ReadOctets(n: nat) returns (result: ReadResult, octets: seq<byte>)
      requires Env() && !ended
      modifies this`script, this`stream, this`consumed, this`calls, this`ended
      ensures Env() && (if result.Ok? then !ended else ended || Stopping())
      ensures |octets| <= n && (result.Ok? <==> |octets| == n)
      ensures consumed == old(consumed) + octets && consumed + stream == old(consumed) + old(stream)
      ensures Left() <= old(Left()) && (n > 0 && result.Ok? ==> Left() < old(Left()))
    {
      var buffer := new byte[n];
      var errorCode, got;
      result, errorCode, got := Read(buffer, n);
      octets := buffer[..got];
    }

    /** Going on means nothing has ended, and giving up that something has. */
    ghost predicate Goes(more: bool)
      reads this
    {
      if more then !ended && !stopping else ended || calls >= stopAt
    }

    /** The payload of a frame whose prefix is in order. */
    method ReadPayload(prefix: seq<byte>) returns (more: bool, shutdown: bool, ghost taken: seq<byte>)
      requires |prefix| == PREFIX_LENGTH && ThreeWordsMatch(prefix) && FourthWordMatches(prefix, WordAt(prefix, 16))
      requires Env() && !ended && !stopping
      modifies this`script, this`stream, this`consumed, this`calls, this`ended, this`stopping, this`puts
      ensures Env() && Goes(more)
      ensures consumed == old(consumed) + taken && consumed + stream == old(consumed) + old(stream)
      ensures Left() <= old(Left()) && (more ==> !shutdown)
      ensures Next(prefix + taken) == if more then Consume(PREFIX_LENGTH + |taken|, true) else Wait
      ensures puts == old(puts) + if more then Kept([taken], drop) else if shutdown then [QUIT] else []
    {
      var result, text := ReadOctets(WordAt(prefix, 16));
      taken := text;
      FrameSoFar(prefix, text);
      more, shutdown := result.Ok?, false;
      if !more {
        shutdown := GiveUp(result);
      } else if !drop(text) {
        puts := puts + [text];
      }
    }

    /** The length and the payload, behind a header whose first three words match. */
    method ReadBody(header: seq<byte>) returns (more: bool, shutdown: bool, ghost taken: seq<byte>)
      requires |header| == HEADER_LENGTH && ThreeWordsMatch(header) && Env() && !ended && !stopping
      modifies this`script, this`stream, this`consumed, this`calls, this`ended, this`stopping, this`puts
      ensures Env() && Goes(more)
      ensures consumed == old(consumed) + taken && consumed + stream == old(consumed) + old(stream)
      ensures Left() <= old(Left()) && (more ==> !shutdown)
      ensures var all := header + taken;
              && (more ==> Next(all).Consume? && Next(all).n == |all|)
              && (more ==> puts == old(puts) + if Next(all).accept then Kept([all[PREFIX_LENGTH..]], drop) else [])
              && (!more ==> !Next(all).Consume? && puts == old(puts) + if shutdown then [QUIT] else [])
    {
      more, shutdown := false, false;
      var result, sizeOctets := ReadOctets(4);
      taken := sizeOctets;
      if !result.Ok? {
        shutdown := GiveUp(result);
        return;
      }
      var prefix := header + sizeOctets;
      var size := DecodeWord(sizeOctets, 0);
      assert WordAt(prefix, 16) == size;
      var fourth := CheckHeaderFourthByte(header, size);
      if !fourth {
        more := true;
        return;
      }
      ghost var payload;
      more, shutdown, payload := ReadPayload(prefix);
      taken := sizeOctets + payload;
      JoinFrame(header, sizeOctets, payload);
    }

    /** One turn of the ReadMessage loop, from the header read on. */
    method ReadFrame(isFirst: bool) returns (more: bool, shutdown: bool, ghost taken: seq<byte>)
      requires Env() && !ended && !stopping
      modifies this`script, this`stream, this`consumed, this`calls, this`ended, this`stopping, this`puts, this`isOpen
      ensures Env() && (Goes(more) || Next(taken).Foreign?)
      ensures consumed == old(consumed) + taken && consumed + stream == old(consumed) + old(stream)
      ensures Left() <= old(Left()) && (more ==> Left() < old(Left()) && !shutdown)
      ensures more ==> Next(taken).Consume? && Next(taken).n == |taken|
      ensures more ==> puts == old(puts) + if Next(taken).accept then Kept([taken[PREFIX_LENGTH..]], drop) else []
      ensures !more ==> !Next(taken).Consume? && puts == old(puts) + if shutdown then [QUIT] else []
      ensures isOpen == (old(isOpen) || (isFirst && Opens(taken)))
    {
      more, shutdown := false, false;
      var result, header := ReadOctets(HEADER_LENGTH);
      taken := header;
      if !result.Ok? {
        shutdown := GiveUp(result);
        return;
      }
      var matches := CheckHeaderThreeBytes(header);
      if !matches {
        BeginTransportShutdown();
        shutdown := true;
        return;
      }
      if isFirst {
        isOpen := true;
      }
      ghost var body;
      more, shutdown, body := ReadBody(header);
      taken := header + body;
      HeaderStays(header, body);
    }

    /** UsbClient::ReadMessage. Whatever the socket does, this thread puts exactly the
        payloads the reference reader finds in the octets consumed, minus those the session
        filter drops, and then the quit marker (twice if it shut the transport down itself);
        it ends only at the end of the stream, a socket error, another thread's stop or a
        foreign header; and OnOpen is reported iff a valid first header was read. */
    method ReadMessage() returns (shutdown: bool)
      requires consumed == [] && !isOpen && Env() && !ended && !stopping
      modifies this
      ensures Env() && (ended || calls >= stopAt || Scan(consumed).foreign)
      ensures consumed + stream == old(stream)
      ensures puts == old(puts) + Kept(Scan(consumed).payloads, drop) + if shutdown then [QUIT, QUIT] else [QUIT]
      ensures isOpen <==> Opens(consumed)
    {
      var isFirst := true;
      shutdown := false;
      var more := true;
      while more && !Stopping()
        invariant consumed + stream == old(stream) && Env()
        invariant if more then !ended && !stopping else ended || calls >= stopAt || Scan(consumed).foreign
        invariant more ==> !Scan(consumed).foreign && Scan(consumed).rest == [] && !shutdown
        invariant puts == old(puts) + Kept(Scan(consumed).payloads, drop) + if shutdown then [QUIT] else []
        invariant isOpen <==> Opens(consumed)
        invariant more ==> if isFirst then consumed == [] else isOpen
        decreases Left(), more
      {
        more, shutdown := Turn(isFirst, old(puts));
        isFirst := isFirst && !more;
      }
      puts := puts + [QUIT];
    }

    method Turn(isFirst: bool, ghost queue: seq<seq<byte>>) returns (more: bool, shutdown: bool)
      requires !Scan(consumed).foreign && Scan(consumed).rest == []
      requires puts == queue + Kept(Scan(consumed).payloads, drop)
      requires (isOpen <==> Opens(consumed)) && if isFirst then consumed == [] else isOpen
      requires Env() && !ended && !stopping
      modifies this`script, this`stream, this`consumed, this`calls, this`ended, this`stopping, this`puts, this`isOpen
      ensures Env() && (Goes(more) || (!more && Scan(consumed).foreign))
      ensures consumed + stream == old(consumed) + old(stream)
      ensures Left() <= old(Left()) && (more ==> Left() < old(Left()) && !shutdown)
      ensures more ==> !Scan(consumed).foreign && Scan(consumed).rest == [] && isOpen
      ensures puts == queue + Kept(Scan(consumed).payloads, drop) + if shutdown then [QUIT] else []
      ensures isOpen <==> Opens(consumed)
    {
      ghost var before, taken := consumed, [];
      more, shutdown, taken := ReadFrame(isFirst);
      ScanTurn(before, taken, drop);
      HeaderStays(before, taken);
      Regroup(queue, Kept(Scan(before).payloads, drop), if more && Next(taken).accept then Kept([taken[PREFIX_LENGTH..]], drop) else []);
    }
  }

  lemma Regroup(a: seq<seq<byte>>, b: seq<seq<byte>>, c: seq<seq<byte>>)
    ensures a + b + c == a + (b + c)
  {
  }

  lemma JoinFrame(header: seq<byte>, size: seq<byte>, payload: seq<byte>)
    requires |header| == HEADER_LENGTH && |size| == 4
    ensures header + (size + payload) == header + size + payload
    ensures (header + size + payload)[PREFIX_LENGTH..] == payload
  {
  }

  lemma MoveOctets(a: seq<byte>, b: seq<byte>, n: nat)
    requires n <= |b|
    ensures (a + b[..n]) + b[n..] == a + b
  {
  }

  /** The octets start with a header that opens the session. */
  predicate Opens(s: seq<byte>) { |s| >= HEADER_LENGTH && ThreeWordsMatch(s) }

  /** Whether a header matches is settled by its first octets. */
  lemma HeaderStays(a: seq<byte>, b: seq<byte>)
    ensures |a| >= HEADER_LENGTH ==> Opens(a + b) == Opens(a)
    ensures a == [] ==> a + b == b
  {
  }

  /** One turn adds what Next says about the octets it took. */
  lemma ScanTurn(before: seq<byte>, taken: seq<byte>, drop: seq<byte> -> bool)
    requires !Scan(before).foreign && Scan(before).rest == []
    ensures var r, next := Scan(before + taken), Next(taken);
            && (next.Consume? && next.n == |taken| ==>
                  && !r.foreign && r.rest == []
                  && Kept(r.payloads, drop) == Kept(Scan(before).payloads, drop)
                       + if next.accept then Kept([taken[PREFIX_LENGTH..]], drop) else [])
            && (!next.Consume? ==> r.payloads == Scan(before).payloads && r.foreign == next.Foreign?)
  {
    ScanConcat(before, taken);
    assert [] + taken == taken;
    var next := Next(taken);
    if next.Consume? && next.n == |taken| {
      ScanOne(taken, []);
      assert taken + [] == taken;
      KeptConcat(Scan(before).payloads, Scan(taken).payloads, drop);
    }
  }

  lemma FrameSoFar(prefix: seq<byte>, payload: seq<byte>)
    requires |prefix| == PREFIX_LENGTH && ThreeWordsMatch(prefix) && FourthWordMatches(prefix, WordAt(prefix, 16))
    requires |payload| <= WordAt(prefix, 16)
    ensures Next(prefix + payload) ==
            if |payload| < WordAt(prefix, 16) then Wait else Consume(PREFIX_LENGTH + |payload|, true)
  {
  }
}
