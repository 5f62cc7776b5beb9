/** ClientAdapter.handleUnpackMessage: a growable, compacting octet buffer decoded in place. */
module ClientAdapter {
  import opened Bytes
  import opened Framing

  const INITIAL_CAPACITY: nat := 1024 * 1024 * 2

  class Adapter {
    var buffer: array?<byte>
    var bufferCapacity: nat
    var offset: nat
    var end: nat
    var delivered: seq<seq<byte>>  // every message handed to handleMessage

    ghost predicate Valid()
      reads this, buffer
    {
      && offset <= end <= bufferCapacity
      && INITIAL_CAPACITY <= bufferCapacity
      && (buffer == null ==> end == 0 && bufferCapacity == INITIAL_CAPACITY)
      && (buffer != null ==> buffer.Length == bufferCapacity)
    }

    /** The octets received and not yet decoded. */
    ghost function Live(): (s: seq<byte>)
      requires Valid()
      reads this, buffer
    {
      if buffer == null then [] else buffer[offset..end]
    }

    constructor ()
      ensures Valid() && Live() == [] && delivered == [] && buffer == null
    {
      buffer, bufferCapacity, offset, end, delivered := null, INITIAL_CAPACITY, 0, 0, [];
    }

    /** One `data` event. Whatever the buffer was doing, the messages delivered and the
        live octets are those of the reference parse, and growth never overshoots. */
    method HandleUnpackMessage(data: seq<byte>)
      requires Valid()
      modifies this, buffer
      ensures Valid() && buffer != null && (buffer == old(buffer) || fresh(buffer))
      ensures delivered == old(delivered) + Parse(old(Live()) + data).messages
      ensures Live() == Parse(old(Live()) + data).rest
      ensures old(bufferCapacity) <= bufferCapacity
      ensures bufferCapacity != old(bufferCapacity) ==>
                |old(Live()) + data| <= bufferCapacity < 2 * |old(Live()) + data|
    {
      if buffer == null {
        buffer := new byte[INITIAL_CAPACITY];
      }
      assert Live() == old(Live());
      MakeRoom(|data|);
      Append(data);
      Drain();
    }

    /** Moves the live octets to the front, into a larger buffer if they need one. */
    method MakeRoom(length: nat)
      requires Valid() && buffer != null
      modifies this, buffer
      ensures Valid() && buffer != null && (buffer == old(buffer) || fresh(buffer))
      ensures Live() == old(Live()) && delivered == old(delivered)
      ensures end + length <= bufferCapacity
      ensures old(bufferCapacity) <= bufferCapacity
      ensures bufferCapacity != old(bufferCapacity) ==>
                |old(Live())| + length <= bufferCapacity < 2 * (|old(Live())| + length)
    {
      if bufferCapacity - end < length {
        ghost var live := Live();
        var count := end - offset;
        if bufferCapacity - count >= length {
          forall i | 0 <= i < count {
            buffer[i] := buffer[offset + i];
          }
        } else {
          var capacity := Grow(bufferCapacity, count + length);
          bufferCapacity := capacity;
          var newBuffer := new byte[bufferCapacity];
          forall i | 0 <= i < count {
            newBuffer[i] := buffer[offset + i];
          }
          buffer := newBuffer;
        }
        end, offset := count, 0;
        assert buffer[offset..end] == live;
      }
    }

    /** The doubling loop: the first doubling that holds what is needed. */
    static method Grow(capacity: nat, needed: nat) returns (grown: nat)
      requires 0 < capacity < needed
      ensures needed <= grown < 2 * needed
      ensures exists k: nat :: k > 0 && grown == Doubled(capacity, k)
    {
      grown := 2 * capacity;
      ghost var k: nat := 1;
      assert Doubled(capacity, 0) == capacity;
      while grown < needed
        invariant 0 < grown < 2 * needed
        invariant k > 0 && grown == Doubled(capacity, k)
        decreases needed - grown
      {
        grown := 2 * grown;
        k := k + 1;
      }
    }

    static ghost function Doubled(n: nat, k: nat): (r: nat) {
      if k == 0 then n else 2 * Doubled(n, k - 1)
    }

    method Append(data: seq<byte>)
      requires Valid() && buffer != null && end + |data| <= bufferCapacity
      modifies this, buffer
      ensures Valid() && buffer == old(buffer) && Live() == old(Live()) + data
      ensures delivered == old(delivered) && bufferCapacity == old(bufferCapacity)
    {
      ghost var live := Live();
      forall i | 0 <= i < |data| {
        buffer[end + i] := data[i];
      }
      end := end + |data|;
      assert buffer[offset..end] == live + data;
    }

    /** The decode loop. */
    method Drain()
      requires Valid() && buffer != null
      modifies this
      ensures Valid() && buffer == old(buffer) && bufferCapacity == old(bufferCapacity)
      ensures delivered == old(delivered) + Parse(old(Live())).messages
      ensures Live() == Parse(old(Live())).rest
    {
      ghost var all := Parse(Live());
      var more := true;
      while more
        invariant Valid() && buffer == old(buffer) && bufferCapacity == old(bufferCapacity)
        invariant Parse(Live()).rest == all.rest && delivered + Parse(Live()).messages == old(delivered) + all.messages
        invariant more || !HasFrame(Live())
        decreases end - offset, more
      {
        more := DrainTurn(old(delivered) + all.messages, all.rest);
      }
    }

    /** A turn keeps what has been delivered and what is still to be, taken together. */
    method DrainTurn(ghost messages: seq<seq<byte>>, ghost rest: seq<byte>) returns (more: bool)
      requires Valid() && buffer != null
      requires delivered + Parse(Live()).messages == messages && Parse(Live()).rest == rest
      modifies this`offset, this`end, this`delivered
      ensures Valid() && delivered + Parse(Live()).messages == messages && Parse(Live()).rest == rest
      ensures if more then end - offset < old(end - offset) else !HasFrame(Live()) && end - offset == old(end - offset)
    {
      ghost var live, before := Live(), delivered;
      more := DecodeOne();
      if more {
        Deliver(live, delivered[|before|], before);
      }
    }

    /** One turn of the decode loop: takes the first frame off the live octets if it is complete. */
    method DecodeOne() returns (more: bool)
      requires Valid() && buffer != null
      modifies this`offset, this`end, this`delivered
      ensures Valid() && more == HasFrame(old(Live()))
      ensures more ==> delivered == old(delivered) + [old(Live())[PREFIX_LENGTH..PREFIX_LENGTH + WordAt(old(Live()), 16)]]
      ensures more ==> Live() == old(Live())[PREFIX_LENGTH + WordAt(old(Live()), 16)..]
      ensures more ==> end - offset < old(end - offset)
      ensures !more ==> offset == old(offset) && end == old(end) && delivered == old(delivered)
    {
      var length := end - offset;
      if length < PREFIX_LENGTH {
        return false;
      }
      var size := WordAt(buffer[offset..end], 16);
      more := PREFIX_LENGTH + size <= length;
      if more {
        delivered := delivered + [buffer[offset..end][PREFIX_LENGTH..PREFIX_LENGTH + size]];
        offset := offset + PREFIX_LENGTH + size;
        if offset == end {
          offset, end := 0, 0;
        }
      }
    }

    static lemma Deliver(live: seq<byte>, message: seq<byte>, delivered: seq<seq<byte>>)
      requires HasFrame(live) && message == live[PREFIX_LENGTH..PREFIX_LENGTH + WordAt(live, 16)]
      ensures var left := Parse(live[PREFIX_LENGTH + WordAt(live, 16)..]);
              delivered + Parse(live).messages == delivered + [message] + left.messages &&
              Parse(live).rest == left.rest
    {
      var left := Parse(live[PREFIX_LENGTH + WordAt(live, 16)..]);
      assert Parse(live).messages == [message] + left.messages;
    }
  }

  /** Decoding is independent of how the stream was cut into chunks. */
  method FeedChunks(chunks: seq<seq<byte>>) returns (messages: seq<seq<byte>>, rest: seq<byte>)
    ensures messages == Parse(Flatten(chunks)).messages
    ensures rest == Parse(Flatten(chunks)).rest
  {
    var adapter := new Adapter();
    ghost var fed := [];
    for i := 0 to |chunks|
      invariant fresh(adapter) && (adapter.buffer != null ==> fresh(adapter.buffer))
      invariant adapter.Valid() && fed == Flatten(chunks[..i])
      invariant adapter.delivered == Parse(fed).messages && adapter.Live() == Parse(fed).rest
    {
      adapter.HandleUnpackMessage(chunks[i]);
      ParseConcat(fed, chunks[i]);
      FlattenSnoc(chunks[..i], chunks[i]);
      TakeSnoc(chunks, i);
      fed := fed + chunks[i];
    }
    assert chunks[..|chunks|] == chunks;
    messages := adapter.delivered;
    rest := if adapter.buffer == null then [] else adapter.buffer[adapter.offset..adapter.end];
  }

  /** Native writer to connector, end to end: any chunking of the wrapped messages delivers
      exactly the messages and leaves the buffer empty. */
  method ReceiveWrapped(ms: seq<seq<byte>>, chunks: seq<seq<byte>>)
    returns (messages: seq<seq<byte>>, rest: seq<byte>)
    requires Fit(ms, 20) && Flatten(chunks) == WrapAll(ms)
    ensures messages == ms && rest == []
  {
    messages, rest := FeedChunks(chunks);
    ParseWrapped(ms);
  }
}
