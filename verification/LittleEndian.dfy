/** Little-endian words, as the memory templates and the value pool read and write them. */
module LittleEndian {
  import opened Wrappers
  import opened Words

  /** The value of a little-endian byte string. */
  function Compose(bytes: seq<byte>): nat {
    if |bytes| == 0 then 0 else bytes[0] + 256 * Compose(bytes[1..])
  }

  function LowByte(v: int): byte {
    v % 256
  }

  /** The low `size` bytes of an integer of either sign, in two's complement. */
  function Decompose(v: int, size: nat): (bytes: seq<byte>)
    ensures |bytes| == size
    decreases size
  {
    if size == 0 then [] else [LowByte(v)] + Decompose(v / 256, size - 1)
  }

  function ShiftLeft(v: int, bytes: nat): int {
    if bytes == 0 then v else 256 * ShiftLeft(v, bytes - 1)
  }

  function ShiftRight(v: int, bytes: nat): int {
    if bytes == 0 then v else ShiftRight(v, bytes - 1) / 256
  }

  lemma {:induction false} ComposeNext(bytes: seq<byte>, i: nat)
    requires i < |bytes|
    ensures Compose(bytes[..i + 1]) == Compose(bytes[..i]) + ShiftLeft(bytes[i], i)
  {
    var rest := bytes[1..];
    assert bytes[..i + 1][1..] == rest[..i];
    if i > 0 {
      ComposeNext(rest, i - 1);
      assert bytes[..i][1..] == rest[..i - 1];
    }
  }

  lemma {:induction false} ShiftNonNegative(v: nat, i: nat)
    ensures ShiftLeft(v, i) >= 0
  {
    if i > 0 {
      ShiftNonNegative(v, i - 1);
    }
  }

  function ShiftedByte(b: byte, i: nat): nat {
    ShiftNonNegative(b, i);
    ShiftLeft(b, i)
  }

  lemma {:induction false} RaisedByBytes(v: nat, bytes: nat)
    ensures Raised(v, 8 * bytes) == ShiftLeft(v, bytes)
    decreases bytes
  {
    if bytes > 0 {
      RaisedByBytes(v, bytes - 1);
      var n := 8 * bytes;
      assert Raised(v, n) == 2 * Raised(v, n - 1);
      assert Raised(v, n - 1) == 2 * Raised(v, n - 2);
      assert Raised(v, n - 2) == 2 * Raised(v, n - 3);
      assert Raised(v, n - 3) == 2 * Raised(v, n - 4);
      assert Raised(v, n - 4) == 2 * Raised(v, n - 5);
      assert Raised(v, n - 5) == 2 * Raised(v, n - 6);
      assert Raised(v, n - 6) == 2 * Raised(v, n - 7);
      assert Raised(v, n - 7) == 2 * Raised(v, n - 8);
    }
  }

  lemma {:induction false} ShiftsGrow(i: nat, n: nat)
    requires i <= n
    ensures ShiftLeft(1, i) <= ShiftLeft(1, n)
    decreases n - i
  {
    if i < n {
      ShiftsGrow(i, n - 1);
      ShiftNonNegative(1, n - 1);
    }
  }

  /** The shifted bytes of a word do not overlap, so OR-ing the next one in adds it. */
  lemma OrNextByte(bytes: seq<byte>, i: nat)
    requires i < |bytes|
    ensures Bitwise(Or, Compose(bytes[..i]), ShiftedByte(bytes[i], i), 8 * |bytes|) == Compose(bytes[..i + 1])
  {
    hide Compose, Raised, ShiftLeft, Bitwise;
    ComposeNext(bytes, i);
    ComposeFits(bytes[..i]);
    ComposeFits(bytes[..i + 1]);
    ShiftsGrow(i + 1, |bytes|);
    RaisedByBytes(1, i);
    RaisedByBytes(bytes[i], i);
    RaisedByBytes(1, |bytes|);
    OrAboveIsSum(Compose(bytes[..i]), bytes[i], 8 * i, 8 * |bytes|);
  }

  /** The read loop, which ORs in one shifted byte at a time. */
  method ComposeBytes(bytes: seq<byte>) returns (value: nat)
    ensures value == Compose(bytes)
  {
    hide Compose, Bitwise;
    value := 0;
    NothingComposed();
    for i := 0 to |bytes|
      invariant value == Compose(bytes[..i])
    {
      OrNextByte(bytes, i);
      value := Bitwise(Or, value, ShiftedByte(bytes[i], i), 8 * |bytes|);
    }
    assert bytes[..|bytes|] == bytes;
  }

  lemma NothingComposed()
    ensures forall bytes: seq<byte> :: Compose(bytes[..0]) == 0
  {
  }

  lemma {:induction false} ShiftRightFirst(v: int, i: nat)
    ensures ShiftRight(v / 256, i) == ShiftRight(v, i + 1)
  {
    if i > 0 {
      ShiftRightFirst(v, i - 1);
    } else {
      assert ShiftRight(v, 1) == ShiftRight(v, 0) / 256;
    }
  }

  lemma {:induction false} DecomposeAt(v: int, size: nat, i: nat)
    requires i < size
    ensures Decompose(v, size)[i] == LowByte(ShiftRight(v, i))
    decreases size
  {
    hide LowByte;
    if i > 0 {
      DecomposeAt(v / 256, size - 1, i - 1);
      ShiftRightFirst(v, i - 1);
    }
  }

  /** The write loop, one shifted byte at a time. */
  method DecomposeValue(v: int, size: nat) returns (bytes: array<byte>)
    ensures fresh(bytes) && bytes[..] == Decompose(v, size)
  {
    hide LowByte;
    bytes := new byte[size];
    for i := 0 to size
      invariant bytes[..i] == Decompose(v, size)[..i]
    {
      DecomposeAt(v, size, i);
      bytes[i] := LowByte(ShiftRight(v, i));
    }
    assert bytes[..size] == bytes[..];
  }

  /** Writing keeps the low bytes of a value; what is dropped is a multiple of 256 to the power `size`. */
  lemma {:induction false} ComposeDecompose(v: int, size: nat)
    ensures v == Compose(Decompose(v, size)) + ShiftLeft(ShiftRight(v, size), size)
    decreases size
  {
    if size > 0 {
      ComposeDecompose(v / 256, size - 1);
      ShiftRightFirst(v, size - 1);
      assert Decompose(v, size)[1..] == Decompose(v / 256, size - 1);
    }
  }

  lemma {:induction false} ComposeFits(bytes: seq<byte>)
    ensures Compose(bytes) < ShiftLeft(1, |bytes|)
  {
    if |bytes| > 0 {
      ComposeFits(bytes[1..]);
    }
  }

  /** Reading and writing back restores every byte. */
  lemma {:induction false} DecomposeCompose(bytes: seq<byte>)
    ensures Decompose(Compose(bytes), |bytes|) == bytes
  {
    if |bytes| > 0 {
      var rest := Compose(bytes[1..]);
      DecomposeCompose(bytes[1..]);
      LowByteOfSum(bytes[0], rest);
    }
  }

  lemma LowByteOfSum(b: byte, rest: nat)
    ensures LowByte(b + 256 * rest) == b
    ensures (b + 256 * rest) / 256 == rest
  {
    assert (b + 256 * rest) % 256 == b;
  }

  /** The powers of 256 that the word widths use. */
  lemma ShiftLeftValues(k: int)
    ensures ShiftLeft(k, 1) == 0x100 * k
    ensures ShiftLeft(k, 2) == 0x1_0000 * k
    ensures ShiftLeft(k, 4) == 0x1_0000_0000 * k
    ensures ShiftLeft(k, 8) == 0x1_0000_0000_0000_0000 * k
  {
    assert ShiftLeft(k, 1) == 0x100 * k;
    assert ShiftLeft(k, 2) == 0x1_0000 * k;
    assert ShiftLeft(k, 3) == 0x100_0000 * k;
    assert ShiftLeft(k, 4) == 0x1_0000_0000 * k;
    assert ShiftLeft(k, 5) == 0x100_0000_0000 * k;
    assert ShiftLeft(k, 6) == 0x1_0000_0000_0000 * k;
    assert ShiftLeft(k, 7) == 0x100_0000_0000_0000 * k;
  }

  // ---- Powers of two ----

  function Pow2(bits: nat): nat {
    Raised(1, bits)
  }

  lemma Pow2IsShift(bytes: nat)
    ensures Pow2(8 * bytes) == ShiftLeft(1, bytes)
  {
    RaisedByBytes(1, bytes);
  }

  lemma {:induction false} Pow2AtLeast(bits: nat)
    ensures bits >= 8 ==> Pow2(bits) == 256 * Pow2(bits - 8)
    ensures bits < 8 ==> 1 <= Pow2(bits) <= 128
  {
    if bits >= 8 {
      var p := Pow2(bits - 8);
      assert Pow2(bits - 7) == 2 * p;
      assert Pow2(bits - 6) == 4 * p;
      assert Pow2(bits - 5) == 8 * p;
      assert Pow2(bits - 4) == 16 * p;
      assert Pow2(bits - 3) == 32 * p;
      assert Pow2(bits - 2) == 64 * p;
      assert Pow2(bits - 1) == 128 * p;
    } else {
      SmallPowers();
    }
  }

  lemma SmallPowers()
    ensures Pow2(0) == 1 && Pow2(1) == 2 && Pow2(2) == 4 && Pow2(3) == 8
    ensures Pow2(4) == 16 && Pow2(5) == 32 && Pow2(6) == 64 && Pow2(7) == 128
  {
    assert Pow2(2) == 4 && Pow2(3) == 8 && Pow2(4) == 16 && Pow2(5) == 32 && Pow2(6) == 64;
  }
}
