/** Percent-decoding: what decodeURIComponent returns, against section 2.1 of RFC 3986. */
module UrlCodec {
  import opened Bytes
  import opened Options

  const PERCENT: byte := 0x25

  predicate IsHex(c: byte) { 0x30 <= c <= 0x39 || 0x41 <= c <= 0x46 || 0x61 <= c <= 0x66 }

  function HexValue(c: byte): (v: nat)
    requires IsHex(c)
    ensures v < 16
  {
    if c <= 0x39 then c - 0x30 else if c <= 0x46 then c - 0x41 + 10 else c - 0x61 + 10
  }

  function HexDigit(v: nat, upper: bool): (c: byte)
    requires v < 16
    ensures IsHex(c) && HexValue(c) == v
  {
    if v < 10 then 0x30 + v else if upper then 0x41 + v - 10 else 0x61 + v - 10
  }

  function Prepend(a: seq<byte>, r: Option<seq<byte>>): (o: Option<seq<byte>>) {
    if r.Some? then Some(a + r.value) else None
  }

  /** None for an escape that is not hexadecimal. An escape cut short by the end of the
      text is dropped. */
  function Decode(s: seq<byte>): (r: Option<seq<byte>>) {
    if |s| == 0 then Some([])
    else if s[0] != PERCENT then Prepend([s[0]], Decode(s[1..]))
    else if |s| == 1 then Some([])
    else if !IsHex(s[1]) then None
    else if |s| == 2 then Some([])
    else if !IsHex(s[2]) then None
    else Prepend([16 * HexValue(s[1]) + HexValue(s[2])], Decode(s[3..]))
  }

  // ---------------------------------------------------------------- encoding

  /** How one octet is written: as itself, or as an escape with either case of digits. */
  datatype Form = Literal | Escaped(upper1: bool, upper2: bool)

  predicate Allowed(data: seq<byte>, forms: seq<Form>) {
    && |forms| == |data|
    && forall i :: 0 <= i < |data| ==> forms[i].Literal? ==> data[i] != PERCENT
  }

  function EncodeOctet(b: byte, f: Form): (r: seq<byte>) {
    if f.Literal? then [b] else [PERCENT, HexDigit(b / 16, f.upper1), HexDigit(b % 16, f.upper2)]
  }

  function Encode(data: seq<byte>, forms: seq<Form>): (r: seq<byte>)
    requires Allowed(data, forms)
  {
    if |data| == 0 then [] else EncodeOctet(data[0], forms[0]) + Encode(data[1..], forms[1..])
  }

  /** Whatever an encoder escapes, and in whatever case, decoding gives the data back. */
  lemma {:induction false} DecodeUndoesEncode(data: seq<byte>, forms: seq<Form>)
    requires Allowed(data, forms)
    ensures Decode(Encode(data, forms)) == Some(data)
    decreases |data|
  {
    if |data| > 0 {
      var head, rest := EncodeOctet(data[0], forms[0]), Encode(data[1..], forms[1..]);
      DecodeUndoesEncode(data[1..], forms[1..]);
      assert (head + rest)[|head|..] == rest;
      assert [data[0]] + data[1..] == data;
    }
  }

  /** The text ends inside an escape. */
  predicate CutShort(s: seq<byte>) {
    if |s| == 0 then false
    else if s[0] != PERCENT then CutShort(s[1..])
    else |s| < 3 || CutShort(s[3..])
  }

  /** The forms in which a text writes its octets. */
  function Forms(s: seq<byte>): (r: seq<Form>) {
    if |s| == 0 then []
    else if s[0] != PERCENT then [Literal] + Forms(s[1..])
    else if |s| < 3 then []
    else [Escaped(s[1] <= 0x46, s[2] <= 0x46)] + Forms(s[3..])
  }

  lemma HexOctet(a: byte, b: byte)
    requires IsHex(a) && IsHex(b)
    ensures var v := 16 * HexValue(a) + HexValue(b);
            v < 0x100 && HexDigit(v / 16, a <= 0x46) == a && HexDigit(v % 16, b <= 0x46) == b
  {
  }

  /** Conversely every text that decodes, and is not cut short, is an encoding of its result:
      the decoder accepts nothing else. */
  lemma {:induction false} DecodedIsEncoded(s: seq<byte>)
    requires Decode(s).Some? && !CutShort(s)
    ensures Allowed(Decode(s).value, Forms(s)) && Encode(Decode(s).value, Forms(s)) == s
    decreases |s|
  {
    if |s| > 0 {
      var d, f := Decode(s).value, Forms(s);
      var n := if s[0] != PERCENT then 1 else 3;
      DecodedIsEncoded(s[n..]);
      if n == 3 {
        HexOctet(s[1], s[2]);
      }
      assert d[1..] == Decode(s[n..]).value && f[1..] == Forms(s[n..]);
      assert EncodeOctet(d[0], f[0]) == s[..n];
      assert Encode(d, f) == s[..n] + s[n..];
    }
  }

  /** What follows an encoding decides: an escape cut short by the end is dropped, one that is
      not hexadecimal makes the whole text malformed. */
  lemma {:induction false} DecodeTail(data: seq<byte>, forms: seq<Form>, tail: seq<byte>)
    requires Allowed(data, forms)
    ensures Decode(Encode(data, forms) + tail) == Prepend(data, Decode(tail))
    decreases |data|
  {
    if |data| == 0 {
      assert Encode(data, forms) + tail == tail;
      assert Decode(tail).Some? ==> [] + Decode(tail).value == Decode(tail).value;
    } else {
      var head, rest := EncodeOctet(data[0], forms[0]), Encode(data[1..], forms[1..]);
      DecodeTail(data[1..], forms[1..], tail);
      assert head + rest + tail == head + (rest + tail);
      assert (head + (rest + tail))[|head|..] == rest + tail;
      PrependTwice([data[0]], data[1..], Decode(tail));
      assert [data[0]] + data[1..] == data;
    }
  }

  lemma BrokenEscape(data: seq<byte>, forms: seq<Form>, a: byte, b: byte, more: seq<byte>)
    requires Allowed(data, forms)
    ensures Decode(Encode(data, forms) + [PERCENT]) == Some(data)
    ensures IsHex(a) ==> Decode(Encode(data, forms) + [PERCENT, a]) == Some(data)
    ensures !IsHex(a) || !IsHex(b) ==> Decode(Encode(data, forms) + [PERCENT, a, b] + more).None?
  {
    DecodeTail(data, forms, [PERCENT]);
    DecodeTail(data, forms, [PERCENT, a]);
    DecodeTail(data, forms, [PERCENT, a, b] + more);
    assert Encode(data, forms) + [PERCENT, a, b] + more == Encode(data, forms) + ([PERCENT, a, b] + more);
    assert data + [] == data;
  }

  // ---------------------------------------------------------------- the loop

  lemma PrependTwice(a: seq<byte>, b: seq<byte>, r: Option<seq<byte>>)
    ensures Prepend(a, Prepend(b, r)) == Prepend(a + b, r)
  {
    if r.Some? {
      assert a + (b + r.value) == a + b + r.value;
    }
  }

  method DecodeURIComponent(url: seq<byte>) returns (result: seq<byte>)
    ensures result == if Decode(url).Some? then Decode(url).value else []
  {
    var flag, code, i := 0, 0, 0;
    result := [];
    assert url[0..] == url && (Decode(url).Some? ==> [] + Decode(url).value == Decode(url).value);
    while i < |url|
      invariant 0 <= flag <= 2 && flag <= i <= |url|
      invariant flag >= 1 ==> url[i - flag] == PERCENT
      invariant flag == 2 ==> IsHex(url[i - 1]) && code == HexValue(url[i - 1])
      invariant Decode(url) == Prepend(result, Decode(url[i - flag..]))
    {
      var c := url[i];
      ghost var rest := url[i - flag..];
      if flag == 0 && c == PERCENT {
        flag := 1;
      } else if flag == 1 {
        if !IsHex(c) {
          return [];
        }
        code := HexValue(c);
        flag := 2;
      } else if flag == 2 {
        if !IsHex(c) {
          return [];
        }
        code := 16 * code + HexValue(c);
        assert rest[3..] == url[i + 1..];
        PrependTwice(result, [code % 0x100], Decode(url[i + 1..]));
        result := result + [code % 0x100];
        code, flag := 0, 0;
      } else {
        assert rest[1..] == url[i + 1..];
        PrependTwice(result, [c], Decode(url[i + 1..]));
        result := result + [c];
      }
      i := i + 1;
    }
  }
}
