/** One MD5 block: the round structure of section 3.4 of RFC 1321, and MD5::transform with
    its optimised auxiliary functions, unrolled register renaming and literal tables. */
module Md5Block {
  import opened BitOps

  type word = x: int | 0 <= x < 0x1_0000_0000

  datatype Regs = Regs(a: word, b: word, c: word, d: word)

  // ---------------------------------------------------------------- 32-bit operators

  lemma WordBound()
    ensures Power2(32) == 0x1_0000_0000
  {
    assert Power2(8) == 0x100 && Power2(16) == 0x1_0000 && Power2(24) == 0x100_0000;
  }

  function Bitwise(op: Op, x: word, y: word): (r: word) {
    WordBound();
    BitsBound(op, x, y, 32);
    Bits(op, x, y)
  }

  function BitAnd(x: word, y: word): (r: word) { Bitwise(And, x, y) }
  function BitOr(x: word, y: word): (r: word) { Bitwise(Or, x, y) }
  function BitXor(x: word, y: word): (r: word) { Bitwise(Xor, x, y) }
  function BitNot(x: word): (r: word) { 0xffff_ffff - x }
  function Add(x: word, y: word): (r: word) { (x + y) % 0x1_0000_0000 }
  function ShiftLeft(x: word, s: nat): (r: word) { x * Power2(s) % 0x1_0000_0000 }
  function ShiftRight(x: word, s: nat): (r: word) { QuotientBound(x, Power2(s)); x / Power2(s) }

  lemma Scale(a: nat, b: nat, p: nat)
    requires a <= b
    ensures a * p <= b * p
  {
  }

  lemma QuotientBound(x: nat, p: nat)
    requires p > 0
    ensures 0 <= x / p <= x
  {
    Scale(1, p, x / p);
  }

  lemma AddAssociates(x: word, y: word, z: word)
    ensures Add(Add(x, y), z) == Add(x, Add(y, z))
  {
  }

  function Rotate(w: word, s: nat): (r: word)
    requires 0 < s < 32
  {
    BitOr(ShiftLeft(w, s), ShiftRight(w, 32 - s))
  }

  // ---------------------------------------------------------------- RFC 1321, section 3.4

  function F(x: word, y: word, z: word): (r: word) { BitOr(BitAnd(x, y), BitAnd(BitNot(x), z)) }
  function G(x: word, y: word, z: word): (r: word) { BitOr(BitAnd(x, z), BitAnd(y, BitNot(z))) }
  function H(x: word, y: word, z: word): (r: word) { BitXor(BitXor(x, y), z) }
  function I(x: word, y: word, z: word): (r: word) { BitXor(y, BitOr(x, BitNot(z))) }

  function Auxiliary(round: nat, x: word, y: word, z: word): (r: word) {
    if round == 0 then F(x, y, z) else if round == 1 then G(x, y, z)
    else if round == 2 then H(x, y, z) else I(x, y, z)
  }

  function Shift(round: nat, j: nat): (s: nat)
    ensures 0 < s < 32
  {
    if round == 0 then (if j == 0 then 7 else if j == 1 then 12 else if j == 2 then 17 else 22)
    else if round == 1 then (if j == 0 then 5 else if j == 1 then 9 else if j == 2 then 14 else 20)
    else if round == 2 then (if j == 0 then 4 else if j == 1 then 11 else if j == 2 then 16 else 23)
    else (if j == 0 then 6 else if j == 1 then 10 else if j == 2 then 15 else 21)
  }

  /** Which message word operation i uses. */
  function WordIndex(i: nat): (k: nat)
    ensures k < 16
  {
    if i < 16 then i
    else if i < 32 then (1 + 5 * i) % 16
    else if i < 48 then (5 + 3 * i) % 16
    else 7 * i % 16
  }

  datatype Four = Four(w0: word, w1: word, w2: word, w3: word)

  /** Row q of the table: T[4q + 1] to T[4q + 4], the integer parts of 4294967296 * abs(sin(i)). */
  function Sines(q: nat): (t: Four) {
    match q
    case 0 => Four(0xd76aa478, 0xe8c7b756, 0x242070db, 0xc1bdceee)
    case 1 => Four(0xf57c0faf, 0x4787c62a, 0xa8304613, 0xfd469501)
    case 2 => Four(0x698098d8, 0x8b44f7af, 0xffff5bb1, 0x895cd7be)
    case 3 => Four(0x6b901122, 0xfd987193, 0xa679438e, 0x49b40821)
    case 4 => Four(0xf61e2562, 0xc040b340, 0x265e5a51, 0xe9b6c7aa)
    case 5 => Four(0xd62f105d, 0x02441453, 0xd8a1e681, 0xe7d3fbc8)
    case 6 => Four(0x21e1cde6, 0xc33707d6, 0xf4d50d87, 0x455a14ed)
    case 7 => Four(0xa9e3e905, 0xfcefa3f8, 0x676f02d9, 0x8d2a4c8a)
    case 8 => Four(0xfffa3942, 0x8771f681, 0x6d9d6122, 0xfde5380c)
    case 9 => Four(0xa4beea44, 0x4bdecfa9, 0xf6bb4b60, 0xbebfbc70)
    case 10 => Four(0x289b7ec6, 0xeaa127fa, 0xd4ef3085, 0x04881d05)
    case 11 => Four(0xd9d4d039, 0xe6db99e5, 0x1fa27cf8, 0xc4ac5665)
    case 12 => Four(0xf4292244, 0x432aff97, 0xab9423a7, 0xfc93a039)
    case 13 => Four(0x655b59c3, 0x8f0ccc92, 0xffeff47d, 0x85845dd1)
    case 14 => Four(0x6fa87e4f, 0xfe2ce6e0, 0xa3014314, 0x4e0811a1)
    case _ => Four(0xf7537e82, 0xbd3af235, 0x2ad7d2bb, 0xeb86d391)
  }

  function WordsFor(x: seq<word>, q: nat): (w: Four)
    requires |x| == 16
  {
    Four(x[WordIndex(4 * q)], x[WordIndex(4 * q + 1)], x[WordIndex(4 * q + 2)], x[WordIndex(4 * q + 3)])
  }

  /** [abcd k s i]: a = b + ((a + f(b,c,d) + X[k] + T[i]) <<< s), the registers then
      renamed so that the next operation again updates the first one. */
  function Operation(r: Regs, round: nat, j: nat, w: word, sine: word): (r': Regs) {
    var sum := Add(Add(Add(r.a, Auxiliary(round, r.b, r.c, r.d)), w), sine);
    Regs(r.d, Add(r.b, Rotate(sum, Shift(round, j))), r.b, r.c)
  }

  /** Four operations, after which the registers have their own names again. */
  function Row(r: Regs, round: nat, w: Four, t: Four): (r': Regs) {
    var r1 := Operation(r, round, 0, w.w0, t.w0);
    var r2 := Operation(r1, round, 1, w.w1, t.w1);
    var r3 := Operation(r2, round, 2, w.w2, t.w2);
    Operation(r3, round, 3, w.w3, t.w3)
  }

  function Rows(r: Regs, x: seq<word>, q: nat): (r': Regs)
    requires |x| == 16 && q <= 16
  {
    if q == 0 then r else Row(Rows(r, x, q - 1), (q - 1) / 4, WordsFor(x, q - 1), Sines(q - 1))
  }

  function Sum(r: Regs, o: Regs): (r': Regs) {
    Regs(Add(r.a, o.a), Add(r.b, o.b), Add(r.c, o.c), Add(r.d, o.d))
  }

  /** All 64 operations, then each register added to its value before the block. */
  function RfcBlock(r: Regs, x: seq<word>): (r': Regs)
    requires |x| == 16
  {
    Sum(r, Rows(r, x, 16))
  }

  // ---------------------------------------------------------------- MD5::transform

  function F1(x: word, y: word, z: word): (r: word) { BitXor(z, BitAnd(x, BitXor(y, z))) }
  function F2(x: word, y: word, z: word): (r: word) { F1(z, x, y) }
  function F3(x: word, y: word, z: word): (r: word) { BitXor(BitXor(x, y), z) }
  function F4(x: word, y: word, z: word): (r: word) { BitXor(y, BitOr(x, BitNot(z))) }

  function Core(round: nat, x: word, y: word, z: word): (r: word) {
    if round == 0 then F1(x, y, z) else if round == 1 then F2(x, y, z)
    else if round == 2 then F3(x, y, z) else F4(x, y, z)
  }

  /** MD5STEP: w += f + in, then w = rotate(w, s) + x. */
  function Md5Step(f: word, w: word, x: word, input: word, s: nat): (r: word)
    requires 0 < s < 32
  {
    Add(Rotate(Add(w, Add(f, input)), s), x)
  }

  lemma HalveComplement(x: nat, n: nat)
    requires n > 0 && x < Power2(n)
    ensures (Power2(n) - 1 - x) / 2 == Power2(n - 1) - 1 - x / 2
    ensures (Power2(n) - 1 - x) % 2 == 1 - x % 2
  {
  }

  function Select(x: nat, y: nat, z: nat): (r: nat) { Bits(Xor, z, Bits(And, x, Bits(Xor, y, z))) }

  lemma HalveSelect(x: nat, y: nat, z: nat)
    ensures Select(x, y, z) / 2 == Select(x / 2, y / 2, z / 2)
    ensures Select(x, y, z) % 2 == if x % 2 == 1 then y % 2 else z % 2
  {
    Halve(Xor, y, z);
    Halve(And, x, Bits(Xor, y, z));
    Halve(Xor, z, Bits(And, x, Bits(Xor, y, z)));
  }

  function Merge(x: nat, x': nat, y: nat, z: nat): (r: nat) { Bits(Or, Bits(And, x, y), Bits(And, x', z)) }

  lemma HalveMerge(x: nat, x': nat, y: nat, z: nat)
    requires x' % 2 == 1 - x % 2
    ensures Merge(x, x', y, z) / 2 == Merge(x / 2, x' / 2, y / 2, z / 2)
    ensures Merge(x, x', y, z) % 2 == if x % 2 == 1 then y % 2 else z % 2
  {
    Halve(And, x, y);
    Halve(And, x', z);
    Halve(Or, Bits(And, x, y), Bits(And, x', z));
  }

  /** z ^ (x & (y ^ z)) picks y where x is set and z elsewhere, as (x & y) | (~x & z) does. */
  lemma {:induction false} SelectIsMerge(x: nat, y: nat, z: nat, n: nat)
    requires x < Power2(n) && y < Power2(n) && z < Power2(n)
    ensures Select(x, y, z) == Merge(x, Power2(n) - 1 - x, y, z)
    decreases n
  {
    if n > 0 {
      SelectIsMerge(x / 2, y / 2, z / 2, n - 1);
      HalveComplement(x, n);
      HalveSelect(x, y, z);
      HalveMerge(x, Power2(n) - 1 - x, y, z);
    }
  }

  lemma {:induction false} BitsCommute(op: Op, x: nat, y: nat)
    ensures Bits(op, x, y) == Bits(op, y, x)
    decreases x + y
  {
    if x + y > 0 { BitsCommute(op, x / 2, y / 2); }
  }

  /** The optimised functions are the RFC's F, G, H and I. */
  lemma CoreIsAuxiliary(round: nat, x: word, y: word, z: word)
    ensures Core(round, x, y, z) == Auxiliary(round, x, y, z)
  {
    WordBound();
    SelectIsMerge(x, y, z, 32);
    SelectIsMerge(z, x, y, 32);
    BitsCommute(And, z, x);
    BitsCommute(And, BitNot(z), y);
  }

  lemma StepIsOperation(r: Regs, round: nat, j: nat, w: word, sine: word)
    ensures Operation(r, round, j, w, sine) ==
            Regs(r.d, Md5Step(Core(round, r.b, r.c, r.d), r.a, r.b, Add(w, sine), Shift(round, j)), r.b, r.c)
  {
    var f := Auxiliary(round, r.b, r.c, r.d);
    CoreIsAuxiliary(round, r.b, r.c, r.d);
    AddAssociates(Add(r.a, f), w, sine);
    AddAssociates(r.a, f, Add(w, sine));
  }

  /** The literals of one MD5STEP line: in[k] + t, rotated by s. */
  datatype Line = Line(k: nat, t: word, s: nat)

  /** Four consecutive lines, whose destinations are a, d, c and b, using function F<f>. */
  datatype Lines = Lines(f: nat, a: Line, d: Line, c: Line, b: Line)

  /** The 64 lines of MD5::transform, four at a time. */
  function TransformLines(q: nat): (l: Lines) {
    match q
    case 0 => Lines(1, Line(0, 0xd76aa478, 7), Line(1, 0xe8c7b756, 12), Line(2, 0x242070db, 17), Line(3, 0xc1bdceee, 22))
    case 1 => Lines(1, Line(4, 0xf57c0faf, 7), Line(5, 0x4787c62a, 12), Line(6, 0xa8304613, 17), Line(7, 0xfd469501, 22))
    case 2 => Lines(1, Line(8, 0x698098d8, 7), Line(9, 0x8b44f7af, 12), Line(10, 0xffff5bb1, 17), Line(11, 0x895cd7be, 22))
    case 3 => Lines(1, Line(12, 0x6b901122, 7), Line(13, 0xfd987193, 12), Line(14, 0xa679438e, 17), Line(15, 0x49b40821, 22))
    case 4 => Lines(2, Line(1, 0xf61e2562, 5), Line(6, 0xc040b340, 9), Line(11, 0x265e5a51, 14), Line(0, 0xe9b6c7aa, 20))
    case 5 => Lines(2, Line(5, 0xd62f105d, 5), Line(10, 0x02441453, 9), Line(15, 0xd8a1e681, 14), Line(4, 0xe7d3fbc8, 20))
    case 6 => Lines(2, Line(9, 0x21e1cde6, 5), Line(14, 0xc33707d6, 9), Line(3, 0xf4d50d87, 14), Line(8, 0x455a14ed, 20))
    case 7 => Lines(2, Line(13, 0xa9e3e905, 5), Line(2, 0xfcefa3f8, 9), Line(7, 0x676f02d9, 14), Line(12, 0x8d2a4c8a, 20))
    case 8 => Lines(3, Line(5, 0xfffa3942, 4), Line(8, 0x8771f681, 11), Line(11, 0x6d9d6122, 16), Line(14, 0xfde5380c, 23))
    case 9 => Lines(3, Line(1, 0xa4beea44, 4), Line(4, 0x4bdecfa9, 11), Line(7, 0xf6bb4b60, 16), Line(10, 0xbebfbc70, 23))
    case 10 => Lines(3, Line(13, 0x289b7ec6, 4), Line(0, 0xeaa127fa, 11), Line(3, 0xd4ef3085, 16), Line(6, 0x04881d05, 23))
    case 11 => Lines(3, Line(9, 0xd9d4d039, 4), Line(12, 0xe6db99e5, 11), Line(15, 0x1fa27cf8, 16), Line(2, 0xc4ac5665, 23))
    case 12 => Lines(4, Line(0, 0xf4292244, 6), Line(7, 0x432aff97, 10), Line(14, 0xab9423a7, 15), Line(5, 0xfc93a039, 21))
    case 13 => Lines(4, Line(12, 0x655b59c3, 6), Line(3, 0x8f0ccc92, 10), Line(10, 0xffeff47d, 15), Line(1, 0x85845dd1, 21))
    case 14 => Lines(4, Line(8, 0x6fa87e4f, 6), Line(15, 0xfe2ce6e0, 10), Line(6, 0xa3014314, 15), Line(13, 0x4e0811a1, 21))
    case _ => Lines(4, Line(4, 0xf7537e82, 6), Line(11, 0xbd3af235, 10), Line(2, 0x2ad7d2bb, 15), Line(9, 0xeb86d391, 21))
  }

  /** The literals are those of the RFC: message word, table entry, shift and function. */
  lemma LinesMatchRfc(q: nat)
    requires q < 16
    ensures var l, t := TransformLines(q), Sines(q);
            && l.f - 1 == q / 4
            && l.a == Line(WordIndex(4 * q), t.w0, Shift(q / 4, 0))
            && l.d == Line(WordIndex(4 * q + 1), t.w1, Shift(q / 4, 1))
            && l.c == Line(WordIndex(4 * q + 2), t.w2, Shift(q / 4, 2))
            && l.b == Line(WordIndex(4 * q + 3), t.w3, Shift(q / 4, 3))
  {
    if q < 4 {
    } else if q < 8 {
    } else if q < 12 {
    }
  }

  /** Four MD5STEP lines: a, d, c and b are updated in turn. */
  method FourSteps(r: Regs, x: seq<word>, q: nat) returns (r': Regs)
    requires |x| == 16 && q < 16
    ensures r' == Row(r, q / 4, WordsFor(x, q), Sines(q))
  {
    LinesMatchRfc(q);
    var l := TransformLines(q);
    r' := Execute(r, l.f - 1, x[l.a.k], l.a.t, l.a.s, x[l.d.k], l.d.t, l.d.s,
                  x[l.c.k], l.c.t, l.c.s, x[l.b.k], l.b.t, l.b.s);
  }

  method Execute(r: Regs, round: nat, w0: word, t0: word, s0: nat, w1: word, t1: word, s1: nat,
                 w2: word, t2: word, s2: nat, w3: word, t3: word, s3: nat) returns (r': Regs)
    requires s0 == Shift(round, 0) && s1 == Shift(round, 1) && s2 == Shift(round, 2) && s3 == Shift(round, 3)
    ensures r' == Row(r, round, Four(w0, w1, w2, w3), Four(t0, t1, t2, t3))
  {
    var a, b, c, d := r.a, r.b, r.c, r.d;
    StepIsOperation(Regs(a, b, c, d), round, 0, w0, t0);
    a := Md5Step(Core(round, b, c, d), a, b, Add(w0, t0), s0);
    StepIsOperation(Regs(d, a, b, c), round, 1, w1, t1);
    d := Md5Step(Core(round, a, b, c), d, a, Add(w1, t1), s1);
    StepIsOperation(Regs(c, d, a, b), round, 2, w2, t2);
    c := Md5Step(Core(round, d, a, b), c, d, Add(w2, t2), s2);
    StepIsOperation(Regs(b, c, d, a), round, 3, w3, t3);
    b := Md5Step(Core(round, c, d, a), b, c, Add(w3, t3), s3);
    r' := Regs(a, b, c, d);
  }

  /** MD5::transform on the words of one block. */
  method Transform(buf: Regs, x: seq<word>) returns (buf': Regs)
    requires |x| == 16
    ensures buf' == RfcBlock(buf, x)
  {
    var r := buf;
    for q := 0 to 16
      invariant r == Rows(buf, x, q)
    {
      r := FourSteps(r, x, q);
    }
    buf' := Regs(Add(buf.a, r.a), Add(buf.b, r.b), Add(buf.c, r.c), Add(buf.d, r.d));
  }
}
