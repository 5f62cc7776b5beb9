/** MD5 over a stream: partial blocks, the two-word length counter and the padding. */
module Md5 {
  import opened BitOps
  import opened Bytes
  import opened Md5Block

  const INIT: Regs := Regs(0x67452301, 0xefcdab89, 0x98badcfe, 0x10325476)
  const BLOCK: nat := 64

  // ---------------------------------------------------------------- RFC 1321 on a whole message

  function LeWord(s: seq<byte>, i: nat): (w: word)
    requires i + 4 <= |s|
  {
    (s[i] as int) + 0x100 * (s[i + 1] as int) + 0x1_0000 * (s[i + 2] as int) + 0x100_0000 * (s[i + 3] as int)
  }

  function LeBytes(w: word): (s: seq<byte>)
    ensures |s| == 4
  {
    [w % 0x100, w / 0x100 % 0x100, w / 0x1_0000 % 0x100, w / 0x100_0000]
  }

  lemma LeRoundTrip(w: word)
    ensures LeWord(LeBytes(w), 0) == w
  {
    ShiftTwice(w);
    assert w == w / 0x100 * 0x100 + w % 0x100;
  }

  function BlockWords(block: seq<byte>): (x: seq<word>)
    requires |block| == BLOCK
    ensures |x| == 16
  {
    seq(16, k requires 0 <= k < 16 => LeWord(block, 4 * k))
  }

  /** What one 64-octet block does to the registers; RfcCompress is what MD5 does. */
  type Compress = (Regs, seq<byte>) -> Regs

  function RfcCompress(r: Regs, block: seq<byte>): (r': Regs) {
    if |block| == BLOCK then RfcBlock(r, BlockWords(block)) else r
  }

  predicate Agrees(f: Compress, r: Regs, block: seq<byte>) { f(r, block) == RfcCompress(r, block) }

  /** f is the compression function of RFC 1321. */
  ghost predicate IsRfc(f: Compress) { forall r, block :: Agrees(f, r, block) }

  /** The registers after the first k blocks of s. */
  function Absorb(f: Compress, s: seq<byte>, k: nat): (r: Regs)
    requires BLOCK * k <= |s|
    decreases k
  {
    if k == 0 then INIT else f(Absorb(f, s, k - 1), s[BLOCK * k - BLOCK..BLOCK * k])
  }

  /** The registers start as section 3.3 of RFC 1321 lists them, low-order octets first. */
  lemma InitialRegisters(f: Compress)
    ensures Output(Absorb(f, [], 0)) ==
            [0x01, 0x23, 0x45, 0x67, 0x89, 0xab, 0xcd, 0xef, 0xfe, 0xdc, 0xba, 0x98, 0x76, 0x54, 0x32, 0x10]
  {
    assert LeBytes(0x67452301) == [0x01, 0x23, 0x45, 0x67] && LeBytes(0xefcdab89) == [0x89, 0xab, 0xcd, 0xef];
    assert LeBytes(0x98badcfe) == [0xfe, 0xdc, 0xba, 0x98] && LeBytes(0x10325476) == [0x76, 0x54, 0x32, 0x10];
  }

  lemma {:induction false} AbsorbPrefix(f: Compress, s: seq<byte>, t: seq<byte>, k: nat)
    requires BLOCK * k <= |s|
    ensures Absorb(f, s + t, k) == Absorb(f, s, k)
    decreases k
  {
    if k > 0 {
      AbsorbPrefix(f, s, t, k - 1);
      assert (s + t)[BLOCK * k - BLOCK..BLOCK * k] == s[BLOCK * k - BLOCK..BLOCK * k];
    }
  }

  function Zeros(k: nat): (s: seq<byte>)
    ensures |s| == k && forall i :: 0 <= i < k ==> s[i] == 0
  {
    seq(k, i => 0)
  }

  /** Section 3.1: the zero octets after the 0x80 that bring the length to 56 modulo 64. */
  function ZeroCount(n: nat): (k: nat)
    ensures k < BLOCK && (n + 1 + k) % BLOCK == 56
  {
    if n % BLOCK < 56 then 55 - n % BLOCK else 119 - n % BLOCK
  }

  /** Section 3.2: the low 64 bits of the length in bits, low word first. */
  function LengthOctets(n: nat): (s: seq<byte>)
    ensures |s| == 8
  {
    LeBytes(8 * n % 0x1_0000_0000) + LeBytes(8 * n / 0x1_0000_0000 % 0x1_0000_0000)
  }

  lemma PadFills(n: nat)
    ensures (n + 1 + ZeroCount(n) + 8) % BLOCK == 0
  {
    assert n == BLOCK * (n / BLOCK) + n % BLOCK;
  }

  function Pad(m: seq<byte>): (s: seq<byte>)
    ensures |s| % BLOCK == 0
  {
    PadWith(m, LengthOctets(|m|))
  }

  function PadWith(m: seq<byte>, length: seq<byte>): (s: seq<byte>)
    requires |length| == 8
    ensures |s| % BLOCK == 0
  {
    PadFills(|m|);
    m + [0x80] + Zeros(ZeroCount(|m|)) + length
  }

  function Output(r: Regs): (s: seq<byte>)
    ensures |s| == 16
  {
    LeBytes(r.a) + LeBytes(r.b) + LeBytes(r.c) + LeBytes(r.d)
  }

  function DigestWith(f: Compress, m: seq<byte>): (d: seq<byte>)
    ensures |d| == 16
  {
    var s := Pad(m);
    Output(Absorb(f, s, |s| / BLOCK))
  }

  /** The MD5 digest of RFC 1321. */
  function Digest(m: seq<byte>): (d: seq<byte>)
    ensures |d| == 16
  {
    DigestWith(RfcCompress, m)
  }

  // ---------------------------------------------------------------- the two-word counter

  /** Adding len to the low word and carrying when it wraps keeps the 64-bit count exact. */
  lemma Carry(n: nat, lo: word, hi: word, len: word)
    requires lo == n % 0x1_0000_0000 && hi == n / 0x1_0000_0000 % 0x1_0000_0000
    ensures Add(lo, len) == (n + len) % 0x1_0000_0000
    ensures (if Add(lo, len) < lo then Add(hi, 1) else hi) == (n + len) / 0x1_0000_0000 % 0x1_0000_0000
  {
    var q := n / 0x1_0000_0000;
    assert n == q * 0x1_0000_0000 + lo;
    if lo + len < 0x1_0000_0000 {
      assert (n + len) / 0x1_0000_0000 == q;
    } else {
      assert (n + len) / 0x1_0000_0000 == q + 1;
    }
  }

  lemma OffsetOfLow(n: nat)
    ensures n % 0x1_0000_0000 % BLOCK == n % BLOCK
  {
    var q, lo := n / 0x1_0000_0000, n % 0x1_0000_0000;
    assert n == BLOCK * (0x400_0000 * q) + lo;
  }

  lemma OffsetIs(n: nat, k: nat)
    requires BLOCK * k <= n < BLOCK * k + BLOCK
    ensures n % BLOCK == n - BLOCK * k && n / BLOCK == k
  {
  }

  lemma SliceOf(s: seq<byte>, n: nat, t: seq<byte>, i: nat, j: nat)
    requires n <= |s| && s[n..] == t && i <= j <= |t|
    ensures s[n + i..n + j] == t[i..j]
  {
    forall x | i <= x < j ensures s[n + x] == t[x] {
      assert s[n..][x] == t[x];
    }
    assert s[n..][i..j] == s[n + i..n + j];
  }

  lemma {:induction false} OrZero(a: nat)
    ensures Bits(Or, a, 0) == a
    decreases a
  {
    if a > 0 { OrZero(a / 2); }
  }

  /** A multiple of eight or'ed with a three-bit value is their sum. */
  lemma OrLowBits(a: nat, b: nat)
    requires b < 8
    ensures Bits(Or, 8 * a, b) == 8 * a + b
  {
    OrZero(a);
    Halve(Or, 2 * a, b / 4);
    Halve(Or, 4 * a, b / 2);
    Halve(Or, 8 * a, b);
    assert b / 2 / 2 == b / 4 && b / 4 / 2 == 0;
  }

  lemma ShiftAmounts()
    ensures Power2(3) == 8 && Power2(29) == 0x2000_0000
  {
    assert Power2(8) == 0x100 && Power2(16) == 0x1_0000 && Power2(24) == 0x100_0000;
  }

  lemma OrTop(x: word, top: word)
    requires top < 8
    ensures BitOr(8 * x % 0x1_0000_0000, top) == 8 * (x % 0x2000_0000) + top
  {
    assert 8 * x % 0x1_0000_0000 == 8 * (x % 0x2000_0000);
    OrLowBits(x % 0x2000_0000, top);
  }

  /** in[14] and in[15] as finalize computes them are the 64-bit length in bits. */
  lemma LengthWords(n: nat, lo: word, hi: word)
    requires lo == n % 0x1_0000_0000 && hi == n / 0x1_0000_0000 % 0x1_0000_0000
    ensures ShiftLeft(lo, 3) == 8 * n % 0x1_0000_0000
    ensures BitOr(ShiftLeft(hi, 3), ShiftRight(lo, 29)) == 8 * n / 0x1_0000_0000 % 0x1_0000_0000
  {
    LengthHigh(n, lo, hi);
    ShiftsAre(lo);
    ShiftsAre(hi);
    OrTop(hi, ShiftRight(lo, 29));
  }

  lemma ShiftsAre(x: word)
    ensures ShiftLeft(x, 3) == 8 * x % 0x1_0000_0000
    ensures ShiftRight(x, 29) == x / 0x2000_0000 && x / 0x2000_0000 < 8
  {
    ShiftAmounts();
  }

  lemma LengthHigh(n: nat, lo: word, hi: word)
    requires lo == n % 0x1_0000_0000 && hi == n / 0x1_0000_0000 % 0x1_0000_0000
    ensures 8 * n % 0x1_0000_0000 == 8 * lo % 0x1_0000_0000
    ensures 8 * n / 0x1_0000_0000 % 0x1_0000_0000 == 8 * (hi % 0x2000_0000) + lo / 0x2000_0000
  {
    var q := n / 0x1_0000_0000;
    assert n == q * 0x1_0000_0000 + lo;
    assert 8 * n / 0x1_0000_0000 == 8 * q + 8 * lo / 0x1_0000_0000;
    assert 8 * lo / 0x1_0000_0000 == lo / 0x2000_0000;
  }

  // ---------------------------------------------------------------- the streaming state

  class Hasher {
    ghost const compress: Compress
    var buf: Regs
    var lo: word              // bytes[0]
    var hi: word              // bytes[1]
    const input: array<byte>  // in, as octets
    var digest: seq<byte>
    var finalized: bool
    ghost var message: seq<byte>
    ghost var blocks: nat     // whole blocks absorbed

    ghost predicate CountValid()
      reads this
    {
      lo == |message| % 0x1_0000_0000 && hi == |message| / 0x1_0000_0000 % 0x1_0000_0000
    }

    /** The state between updates, in terms of the message so far. */
    ghost predicate Valid()
      reads this, input
    {
      CountValid() && Holds(message) && IsRfc(compress)
    }

    /** All whole blocks of s have been absorbed and the rest waits in `input`. */
    ghost predicate Holds(s: seq<byte>)
      reads this, input
    {
      && input.Length == BLOCK
      && BLOCK * blocks <= |s| < BLOCK * blocks + BLOCK
      && buf == Absorb(compress, s, blocks)
      && input[..|s| - BLOCK * blocks] == s[BLOCK * blocks..]
    }

    constructor (ghost compress: Compress)
      requires IsRfc(compress)
      ensures Valid() && message == [] && !finalized && fresh(input) && this.compress == compress
    {
      this.compress := compress;
      buf, lo, hi, finalized, message, blocks, digest := INIT, 0, 0, false, [], 0, [];
      input := new byte[BLOCK];
    }

    /** transform on the block in `input`. */
    method TransformInput()
      requires input.Length == BLOCK && IsRfc(compress)
      modifies this`buf
      ensures buf == compress(old(buf), input[..])
    {
      assert Agrees(compress, buf, input[..]);
      buf := TransformOctets(buf, input[..]);
    }

    /** memcpy into in at octet `at`. */
    method Fill(at: nat, data: seq<byte>)
      requires input.Length == BLOCK && at + |data| <= BLOCK
      modifies input
      ensures input[..at + |data|] == old(input[..at]) + data
      ensures at + |data| == BLOCK ==> input[..] == old(input[..at]) + data
    {
      forall i | 0 <= i < |data| {
        input[at + i] := data[i];
      }
      assert input[..at + |data|] == old(input[..at]) + data;
    }

    method Count(len: word, ghost n: nat)
      requires lo == n % 0x1_0000_0000 && hi == n / 0x1_0000_0000 % 0x1_0000_0000
      modifies this`lo, this`hi
      ensures lo == (n + len) % 0x1_0000_0000 && hi == (n + len) / 0x1_0000_0000 % 0x1_0000_0000
    {
      Carry(n, lo, hi, len);
      var t := lo;
      lo := Add(t, len);
      if lo < t {
        hi := Add(hi, 1);
      }
    }

    /** The 64-octet loop of update; n octets of s came before inbuf. */
    method WholeBlocks(ghost s: seq<byte>, ghost n: nat, inbuf: seq<byte>, start: nat) returns (pos: nat)
      requires IsRfc(compress)
      requires input.Length == BLOCK && start <= |inbuf| && n + start == BLOCK * blocks
      requires n + |inbuf| == |s| && s[n..] == inbuf
      requires buf == Absorb(compress, s, blocks)
      modifies this`buf, this`blocks, input
      ensures start <= pos <= |inbuf| < pos + BLOCK && n + pos == BLOCK * blocks
      ensures buf == Absorb(compress, s, blocks)
    {
      pos := start;
      while |inbuf| - pos >= BLOCK
        invariant start <= pos <= |inbuf| && n + pos == BLOCK * blocks
        invariant buf == Absorb(compress, s, blocks)
      {
        SliceOf(s, n, inbuf, pos, pos + BLOCK);
        OneBlock(s, inbuf[pos..pos + BLOCK]);
        pos := pos + BLOCK;
      }
    }

    method OneBlock(ghost s: seq<byte>, block: seq<byte>)
      requires IsRfc(compress)
      requires input.Length == BLOCK && BLOCK * blocks + BLOCK <= |s|
      requires block == s[BLOCK * blocks..BLOCK * blocks + BLOCK] && buf == Absorb(compress, s, blocks)
      modifies this`buf, this`blocks, input
      ensures blocks == old(blocks) + 1 && BLOCK * blocks <= |s| && buf == Absorb(compress, s, blocks)
    {
      Fill(0, block);
      assert input[..0] + block == block;
      TransformInput();
      blocks := blocks + 1;
    }

    /** update when inbuf completes the partial block of `used` octets. */
    method FillAndGo(ghost s: seq<byte>, used: nat, inbuf: seq<byte>)
      requires IsRfc(compress)
      requires input.Length == BLOCK && used < BLOCK <= used + |inbuf|
      requires |s| == BLOCK * blocks + used + |inbuf| && buf == Absorb(compress, s, blocks)
      requires s[BLOCK * blocks..] == input[..used] + inbuf
      modifies this`buf, this`blocks, input
      ensures Holds(s)
    {
      ghost var n, k, tail := BLOCK * blocks + used, BLOCK * blocks, s[BLOCK * blocks..];
      var pos := BLOCK - used;
      Fill(used, inbuf[..pos]);
      SliceOf(s, k, tail, 0, BLOCK);
      assert input[..] == tail[0..BLOCK];
      TransformInput();
      blocks := blocks + 1;
      SliceOf(s, k, tail, used, |tail|);
      assert s[n..] == inbuf;
      pos := WholeBlocks(s, n, inbuf, pos);
      Fill(0, inbuf[pos..]);
      SliceOf(s, n, inbuf, pos, |inbuf|);
      assert s[n + pos..] == inbuf[pos..];
      assert input[..|inbuf| - pos] == [] + inbuf[pos..];
    }

    method FillPart(ghost s: seq<byte>, used: nat, inbuf: seq<byte>)
      requires input.Length == BLOCK && used + |inbuf| < BLOCK
      requires |s| == BLOCK * blocks + used + |inbuf| && buf == Absorb(compress, s, blocks)
      requires s[BLOCK * blocks..] == input[..used] + inbuf
      modifies input
      ensures Holds(s)
    {
      Fill(used, inbuf);
    }

    /** MD5::update: any split of the message into updates is the same as one. */
    method Update(inbuf: seq<byte>)
      requires Valid() && |inbuf| < 0x1_0000_0000
      modifies this`buf, this`lo, this`hi, this`message, this`blocks, input
      ensures Valid() && message == old(message) + inbuf
    {
      ghost var s := message + inbuf;
      var used := Used();
      assert s[BLOCK * blocks..] == message[BLOCK * blocks..] + inbuf;
      AbsorbPrefix(compress, message, inbuf, blocks);
      Count(|inbuf|, |message|);
      if BLOCK - used > |inbuf| {
        FillPart(s, used, inbuf);
      } else {
        FillAndGo(s, used, inbuf);
      }
      message := s;
    }

    /** bytes[0] & 0x3f: the octets waiting in the partial block. */
    method Used() returns (used: nat)
      requires Valid()
      ensures used == |message| - BLOCK * blocks
    {
      OffsetOfLow(|message|);
      OffsetIs(|message|, blocks);
      used := lo % BLOCK;
    }

    /** Stores one word of in. */
    method PutWord(k: nat, w: word)
      requires input.Length == BLOCK && k < 16
      modifies input
      ensures input[..4 * k + 4] == old(input[..4 * k]) + LeBytes(w)
      ensures LeWord(input[..], 4 * k) == w
    {
      Fill(4 * k, LeBytes(w));
      LeRoundTrip(w);
      assert input[..][4 * k..4 * k + 4] == LeBytes(w);
    }

    /** The 0x80 octet and the zeros after it; a block too full for the length words goes
        through on its own. */
    method PadBlock(used: nat) returns (extra: bool)
      requires IsRfc(compress)
      requires input.Length == BLOCK && used < BLOCK
      modifies this`buf, input
      ensures extra == (used >= 56)
      ensures !extra ==> buf == old(buf) && input[..56] == old(input[..used]) + [0x80] + Zeros(55 - used)
      ensures extra ==> buf == compress(old(buf), old(input[..used]) + [0x80] + Zeros(63 - used)) && input[..56] == Zeros(56)
    {
      Fill(used, [0x80]);
      extra := used >= 56;
      if extra {
        Fill(used + 1, Zeros(63 - used));
        TransformInput();
        Fill(0, Zeros(56));
      } else {
        Fill(used + 1, Zeros(55 - used));
      }
    }

    method PutLength(ghost n: nat)
      requires input.Length == BLOCK
      requires lo == n % 0x1_0000_0000 && hi == n / 0x1_0000_0000 % 0x1_0000_0000
      modifies input
      ensures input[..] == old(input[..56]) + LengthOctets(n)
      ensures var x := BlockWords(input[..]);
              x[14] == 8 * n % 0x1_0000_0000 && x[15] == 8 * n / 0x1_0000_0000 % 0x1_0000_0000
    {
      LengthWords(n, lo, hi);
      PutTwo(ShiftLeft(lo, 3), BitOr(ShiftLeft(hi, 3), ShiftRight(lo, 29)));
    }

    /** in[14] and in[15]. */
    method PutTwo(low: word, high: word)
      requires input.Length == BLOCK
      modifies input
      ensures input[..] == old(input[..56]) + (LeBytes(low) + LeBytes(high))
      ensures LeWord(input[..], 56) == low && LeWord(input[..], 60) == high
    {
      PutWord(14, low);
      ghost var first := input[..60];
      PutWord(15, high);
      assert input[..] == input[..64];
      assert LeWord(input[..], 56) == LeWord(first, 56);
    }

    /** Pads and absorbs the last one or two blocks. */
    method Close(used: nat, ghost length: seq<byte>)
      requires Valid() && used == |message| - BLOCK * blocks && length == LengthOctets(|message|)
      modifies this`buf, input
      ensures buf == Last(compress, old(buf), old(input[..used]), length)
    {
      var extra := PadBlock(used);
      PutLength(|message|);
      TransformInput();
    }

    /** MD5::finalize: the digest of everything passed to update. */
    method Finalize()
      requires Valid()
      modifies this`buf, this`digest, this`finalized, input
      ensures finalized && digest == DigestWith(compress, message)
    {
      var used := Used();
      PaddedTail(compress, message, blocks, LengthOctets(|message|));
      Close(used, LengthOctets(|message|));
      digest := LeBytes(buf.a) + LeBytes(buf.b) + LeBytes(buf.c) + LeBytes(buf.d);
      finalized := true;
    }
  }

  /** What the padding adds to the registers r when `live` waits in the partial block. */
  function Last(f: Compress, r: Regs, live: seq<byte>, length: seq<byte>): (r': Regs)
    requires |live| < BLOCK
  {
    if |live| < 56 then f(r, live + [0x80] + Zeros(55 - |live|) + length)
    else f(f(r, live + [0x80] + Zeros(63 - |live|)), Zeros(56) + length)
  }

  lemma AbsorbBlock(f: Compress, p: seq<byte>, k: nat, b: seq<byte>, t: seq<byte>)
    requires |p| == BLOCK * k && |b| == BLOCK
    ensures Absorb(f, p + b + t, k + 1) == f(Absorb(f, p, k), b)
  {
    var s := p + b + t;
    assert s == p + (b + t);
    AbsorbPrefix(f, p, b + t, k);
    assert s[BLOCK * k..BLOCK * k + BLOCK] == b;
  }

  lemma PaddedShort(f: Compress, p: seq<byte>, k: nat, live: seq<byte>, length: seq<byte>)
    requires |p| == BLOCK * k && |live| < 56 && |length| == 8
    ensures var s := PadWith(p + live, length);
            |s| == BLOCK * (k + 1) && Absorb(f, s, k + 1) == Last(f, Absorb(f, p, k), live, length)
  {
    var s := PadWith(p + live, length);
    var b := live + [0x80] + Zeros(55 - |live|) + length;
    OffsetIs(|p + live|, k);
    assert s == p + b + [];
    AbsorbBlock(f, p, k, b, []);
  }

  lemma PaddedLong(f: Compress, p: seq<byte>, k: nat, live: seq<byte>, length: seq<byte>)
    requires |p| == BLOCK * k && 56 <= |live| < BLOCK && |length| == 8
    ensures var s := PadWith(p + live, length);
            |s| == BLOCK * (k + 2) && Absorb(f, s, k + 2) == Last(f, Absorb(f, p, k), live, length)
  {
    var s := PadWith(p + live, length);
    var b, c := live + [0x80] + Zeros(63 - |live|), Zeros(56) + length;
    OffsetIs(|p + live|, k);
    assert s == p + b + c;
    AbsorbBlock(f, p, k, b, []);
    AbsorbBlock(f, p + b, k + 1, c, []);
    assert p + b + [] == p + b && (p + b) + c + [] == s;
  }

  /** The padded message is the whole blocks followed by what Last absorbs. */
  lemma PaddedTail(f: Compress, m: seq<byte>, k: nat, length: seq<byte>)
    requires BLOCK * k <= |m| < BLOCK * k + BLOCK && |length| == 8
    ensures var s := PadWith(m, length);
            Absorb(f, s, |s| / BLOCK) == Last(f, Absorb(f, m, k), m[BLOCK * k..], length)
  {
    var p, live := m[..BLOCK * k], m[BLOCK * k..];
    assert m == p + live;
    AbsorbPrefix(f, p, live, k);
    if |live| < 56 {
      PaddedShort(f, p, k, live, length);
    } else {
      PaddedLong(f, p, k, live, length);
    }
  }

  /** The whole use of the class: any list of updates, then finalize, gives the MD5 digest
      of the concatenation. */
  method HashChunks(chunks: seq<seq<byte>>) returns (digest: seq<byte>)
    requires forall i :: 0 <= i < |chunks| ==> |chunks[i]| < 0x1_0000_0000
    ensures digest == Digest(Flatten(chunks))
  {
    RfcIsRfc();
    digest := HashWith(RfcCompress, chunks);
  }

  lemma RfcIsRfc()
    ensures IsRfc(RfcCompress)
  {
    forall r, block ensures Agrees(RfcCompress, r, block) {
    }
  }

  method HashWith(ghost f: Compress, chunks: seq<seq<byte>>) returns (digest: seq<byte>)
    requires IsRfc(f) && forall i :: 0 <= i < |chunks| ==> |chunks[i]| < 0x1_0000_0000
    ensures digest == DigestWith(f, Flatten(chunks))
  {
    var h := new Hasher(f);
    for i := 0 to |chunks|
      invariant fresh(h) && fresh(h.input) && h.compress == f
      invariant h.Valid() && h.message == Flatten(chunks[..i])
    {
      h.Update(chunks[i]);
      FlattenSnoc(chunks[..i], chunks[i]);
      TakeSnoc(chunks, i);
    }
    assert chunks[..|chunks|] == chunks;
    h.Finalize();
    digest := h.digest;
  }

  /** RfcCompress is what MD5::transform computes on the octets of in. */
  method TransformOctets(buf: Regs, block: seq<byte>) returns (buf': Regs)
    requires |block| == BLOCK
    ensures buf' == RfcCompress(buf, block)
  {
    buf' := Transform(buf, BlockWords(block));
  }
}
