/** Octets and big-endian 32-bit words, as both ends of the USB link write and read them. */
module Bytes {

  type byte = x: int | 0 <= x < 0x100
  type uint32 = x: int | 0 <= x < 0x1_0000_0000

  /** The unsigned value of an octet string, most significant octet first. */
  function BigEndian(bs: seq<byte>): (v: nat) {
    if bs == [] then 0 else 0x100 * BigEndian(bs[..|bs| - 1]) + bs[|bs| - 1]
  }

  function Word(v: uint32): (bs: seq<byte>)
    ensures |bs| == 4
  {
    [v / 0x100_0000, v / 0x1_0000 % 0x100, v / 0x100 % 0x100, v % 0x100]
  }

  /** The four octets at s[i..i + 4] as a word. */
  function WordAt(s: seq<byte>, i: nat): (v: uint32)
    requires i + 4 <= |s|
  {
    0x100_0000 * (s[i] as int) + 0x1_0000 * (s[i + 1] as int) + 0x100 * (s[i + 2] as int) + s[i + 3]
  }

  lemma WordAtIsBigEndian(bs: seq<byte>)
    requires |bs| == 4
    ensures BigEndian(bs) == WordAt(bs, 0)
  {
    var b3, b2, b1 := bs[..3], bs[..2], bs[..1];
    assert b3[..2] == b2 && b2[..1] == b1 && b1[..0] == [];
    assert BigEndian(b1) == 0x100 * BigEndian([]) + bs[0];
    assert BigEndian(b2) == 0x100 * BigEndian(b1) + bs[1];
    assert BigEndian(b3) == 0x100 * BigEndian(b2) + bs[2];
  }

  lemma Peel(q: nat, r: byte)
    ensures (0x100 * q + r) / 0x100 == q && (0x100 * q + r) % 0x100 == r
  {
  }

  lemma ShiftTwice(v: nat)
    ensures v / 0x100 / 0x100 == v / 0x1_0000 && v / 0x1_0000 / 0x100 == v / 0x100_0000
  {
  }

  /** Encoding and decoding are inverse on every 32-bit value, and on every four octets. */
  lemma WordRoundTrip(v: uint32)
    ensures WordAt(Word(v), 0) == v
  {
    ShiftTwice(v);
    assert v == v / 0x100 * 0x100 + v % 0x100;
  }

  lemma WordIsOnlyEncoding(bs: seq<byte>)
    requires |bs| == 4
    ensures Word(WordAt(bs, 0)) == bs
  {
    var b0, b1, b2, b3 := bs[0], bs[1], bs[2], bs[3];
    Peel(b0, b1);
    Peel(0x100 * (b0 as int) + b1, b2);
    Peel(0x100 * (0x100 * (b0 as int) + b1) + b2, b3);
    ShiftTwice(WordAt(bs, 0));
  }

  /** util::IntToCharArray */
  method IntToCharArray(value: uint32, charArray: array<byte>)
    requires charArray.Length == 4
    modifies charArray
    ensures charArray[..] == Word(value)
    ensures WordAt(charArray[..], 0) == value
  {
    charArray[0] := value / 0x100_0000 % 0x100;
    charArray[1] := value / 0x1_0000 % 0x100;
    charArray[2] := value / 0x100 % 0x100;
    charArray[3] := value % 0x100;
    assert charArray[..] == Word(value);
    WordRoundTrip(value);
  }

  function Power256(n: nat): (p: nat)
    ensures p > 0
  {
    if n == 0 then 1 else 0x100 * Power256(n - 1)
  }

  lemma {:induction false} BigEndianBound(bs: seq<byte>)
    ensures BigEndian(bs) < Power256(|bs|)
    decreases |bs|
  {
    if bs != [] { BigEndianBound(bs[..|bs| - 1]); }
  }

  /** util::DecodePayloadSize: the 32-bit sum of the shifted octets is the big-endian value. */
  method DecodePayloadSize(payload: seq<byte>) returns (size: uint32)
    requires |payload| <= 4
    ensures size == BigEndian(payload)
  {
    size := 0;
    var n := |payload|;
    for i := 0 to n
      invariant size == BigEndian(payload[..i]) * Power256(n - i)
    {
      var b: int := payload[i];
      var shifted := b * Power256(n - 1 - i);
      NextOctet(payload, i);
      size := (size + shifted) % 0x1_0000_0000;
    }
    assert payload[..n] == payload;
  }

  lemma NextOctet(bs: seq<byte>, i: nat)
    requires i < |bs| <= 4
    ensures BigEndian(bs[..i]) * Power256(|bs| - i) + (bs[i] as int) * Power256(|bs| - 1 - i)
         == BigEndian(bs[..i + 1]) * Power256(|bs| - 1 - i)
    ensures BigEndian(bs[..i + 1]) * Power256(|bs| - 1 - i) < 0x1_0000_0000
  {
    var p, hi, b: int := Power256(|bs| - 1 - i), BigEndian(bs[..i]), bs[i];
    assert bs[..i + 1][..i] == bs[..i];
    assert hi * (0x100 * p) + b * p == (0x100 * hi + b) * p;
    BigEndianBound(bs[..i + 1]);
    PowerFits(i + 1, |bs| - 1 - i);
    Below(BigEndian(bs[..i + 1]), Power256(i + 1), p);
  }

  lemma Below(x: nat, y: nat, p: nat)
    requires x < y && p > 0
    ensures x * p < y * p
  {
  }

  lemma {:induction false} PowerFits(i: nat, j: nat)
    requires i + j <= 4
    ensures Power256(i) * Power256(j) <= 0x1_0000_0000
  {
    if i == 0 {
      assert Power256(1) == 0x100 && Power256(2) == 0x1_0000 && Power256(3) == 0x100_0000;
      assert Power256(4) == 0x1_0000_0000;
    } else {
      PowerFits(i - 1, j + 1);
      assert Power256(i - 1) * (0x100 * Power256(j)) == (0x100 * Power256(i - 1)) * Power256(j);
    }
  }

  lemma SplitConcat(a: seq<byte>, n: nat, b: seq<byte>)
    requires n <= |a|
    ensures a + b == a[..n] + (a[n..] + b)
  {
  }

  lemma PrefixOfConcat(f: seq<byte>, t: seq<byte>, n: nat)
    requires |f| <= n <= |f| + |t|
    ensures (f + t)[..n] == f + t[..n - |f|]
  {
  }

  /** The concatenation of a list of octet strings. */
  function Flatten(parts: seq<seq<byte>>): (r: seq<byte>) {
    if parts == [] then [] else parts[0] + Flatten(parts[1..])
  }

  lemma TakeSnoc(parts: seq<seq<byte>>, i: nat)
    requires i < |parts|
    ensures parts[..i + 1] == parts[..i] + [parts[i]]
  {
  }

  lemma {:induction false} FlattenSnoc(parts: seq<seq<byte>>, last: seq<byte>)
    ensures Flatten(parts + [last]) == Flatten(parts) + last
    decreases |parts|
  {
    if parts == [] {
      assert [last][1..] == [] && Flatten([last]) == last + Flatten([]);
    } else {
      assert (parts + [last])[1..] == parts[1..] + [last];
      FlattenSnoc(parts[1..], last);
    }
  }
}
