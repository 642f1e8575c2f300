/** Bitwise operators on integers, bit by bit. */
module Words {

  datatype AtomicOp = Add | Sub | And | Or | Xor | Nand

  /** One bit of a bitwise operator, on the low bits of two words. */
  function BitOf(op: AtomicOp, a: nat, b: nat): (bit: nat)
    ensures bit < 2
  {
    match op
    case And => if a % 2 == 1 && b % 2 == 1 then 1 else 0
    case Or => if a % 2 == 1 || b % 2 == 1 then 1 else 0
    case Nand => if a % 2 == 1 && b % 2 == 1 then 0 else 1
    case _ => if a % 2 != b % 2 then 1 else 0
  }

  /** A bitwise operator on the low `bits` bits. */
  function Bitwise(op: AtomicOp, a: nat, b: nat, bits: nat): nat
    decreases bits
  {
    if bits == 0 then 0 else BitOf(op, a, b) + 2 * Bitwise(op, a / 2, b / 2, bits - 1)
  }

  /** A value moved up by a number of bits. */
  function Raised(v: nat, bits: nat): nat {
    if bits == 0 then v else 2 * Raised(v, bits - 1)
  }

  lemma {:induction false} OrWithZero(v: nat, bits: nat)
    requires v < Raised(1, bits)
    ensures Bitwise(Or, 0, v, bits) == v
    decreases bits
  {
    if bits > 0 {
      OrWithZero(v / 2, bits - 1);
    }
  }

  /** OR-ing a value in above the bits that are there adds it. */
  lemma {:induction false} OrAboveIsSum(low: nat, v: nat, at: nat, bits: nat)
    requires low < Raised(1, at) && low + Raised(v, at) < Raised(1, bits)
    ensures Bitwise(Or, low, Raised(v, at), bits) == low + Raised(v, at)
    decreases bits
  {
    if at == 0 {
      OrWithZero(v, bits);
    } else if bits > 0 {
      var up := Raised(v, at - 1);
      assert Raised(v, at) / 2 == up && Raised(v, at) % 2 == 0;
      OrAboveIsSum(low / 2, v, at - 1, bits - 1);
    }
  }
}
