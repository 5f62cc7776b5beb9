/** And, or and exclusive or of naturals, bit by bit. */
module BitOps {

  datatype Op = And | Or | Xor

  predicate Bit(op: Op, x: int, y: int) {
    match op
    case And => x % 2 == 1 && y % 2 == 1
    case Or => x % 2 == 1 || y % 2 == 1
    case Xor => x % 2 != y % 2
  }

  /** x op y, bit by bit. */
  function Bits(op: Op, x: nat, y: nat): (r: nat)
    decreases x + y
  {
    if x + y == 0 then 0 else 2 * Bits(op, x / 2, y / 2) + if Bit(op, x, y) then 1 else 0
  }

  function Power2(n: nat): (p: nat)
    ensures p > 0
  {
    if n == 0 then 1 else 2 * Power2(n - 1)
  }

  lemma {:induction false} BitsBound(op: Op, x: nat, y: nat, n: nat)
    requires x < Power2(n) && y < Power2(n)
    ensures Bits(op, x, y) < Power2(n)
    decreases n
  {
    if x + y > 0 { BitsBound(op, x / 2, y / 2, n - 1); }
  }

  lemma Halve(op: Op, x: nat, y: nat)
    ensures Bits(op, x, y) / 2 == Bits(op, x / 2, y / 2)
    ensures (Bits(op, x, y) % 2 == 1) == Bit(op, x, y)
  {
  }

  /** Exclusive or with the same operand twice gives the first one back. */
  lemma {:induction false} XorTwice(x: nat, y: nat)
    ensures Bits(Xor, Bits(Xor, x, y), y) == x
    decreases x + y
  {
    if x + y > 0 {
      XorTwice(x / 2, y / 2);
      Halve(Xor, x, y);
      Halve(Xor, Bits(Xor, x, y), y);
    }
  }

  lemma {:induction false} XorZero(x: nat)
    ensures Bits(Xor, x, 0) == x
  {
    if x > 0 {
      XorZero(x / 2);
    }
  }
}
