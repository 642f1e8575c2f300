/** Shift and rotate counts, `src/comparator.cpp`, against bit-by-bit rotation. */
module RotateCounts {
  import opened Wrappers
  import opened Numbers
  import opened Expectation
  import opened XedMetadata
  import opened Remainders
  import Text

  // ---- The counts the comparator works with ----

  function LastComma(text: string): (r: Option<nat>)
    ensures r.Some? ==> r.value < |text| && text[r.value] == ','
  {
    if text == "" then None
    else if text[|text| - 1] == ',' then Some(|text| - 1)
    else LastComma(text[..|text| - 1])
  }

  function ParseCountOperand(row: ExpectationRow): Option<u64> {
    var instruction := Text.ToLower(row.instruction);
    match LastComma(instruction)
    case None => None
    case Some(comma) => CountOf(Text.Trim(instruction[comma + 1..]), row)
  }

  function CountOf(countText: string, row: ExpectationRow): Option<u64> {
    if countText == "cl" then if "rcx" in row.initialState then Some(row.initialState["rcx"] % 0x100) else None
    else match ParsePrefix(countText, 0)
      case Some(p) => Some(p.value)
      case None => None
  }

  /** How many counts the hardware tells apart: 6 bits of the count at width 64, else 5. */
  function CountModulus(width: nat): (m: nat)
    ensures m == 0x20 || m == 0x40
  {
    if width == 64 then 0x40 else 0x20
  }

  function MaskedCount(row: ExpectationRow, metadata: Metadata): (r: Option<nat>)
    ensures r.Some? ==> r.value < CountModulus(metadata.operandWidth) && metadata.operandWidth != 0
  {
    if metadata.operandWidth == 0 then None
    else match ParseCountOperand(row)
      case None => None
      case Some(raw) => Some(if metadata.operandWidth == 64 then raw % 0x40 else raw % 0x20)
  }

  predicate IsRotate(iclass: string) { iclass == "ROL" || iclass == "ROR" }

  predicate IsRotateThroughCarry(iclass: string) { iclass == "RCL" || iclass == "RCR" }

  predicate IsShift(iclass: string) { iclass == "SHL" || iclass == "SAL" || iclass == "SHR" || iclass == "SAR" }

  function RotateEffectiveCount(row: ExpectationRow, metadata: Metadata): Option<nat> {
    match MaskedCount(row, metadata)
    case None => None
    case Some(masked) =>
      if IsRotate(metadata.iclass) then Some(masked % metadata.operandWidth)
      else if IsRotateThroughCarry(metadata.iclass) then
        if metadata.operandWidth < 32 then Some(masked % (metadata.operandWidth + 1)) else Some(masked)
      else None
  }

  predicate InitialFlagsProvided(row: ExpectationRow) { "flag" in row.initialState }

  const CARRY: bv32 := 1

  function DynamicUndefinedFlagMask(row: ExpectationRow, metadata: Metadata): bv32 {
    if metadata.operandWidth == 0 then 0
    else if IsShift(metadata.iclass) then ShiftMask(MaskedCount(row, metadata), row, metadata)
    else if IsRotate(metadata.iclass) || IsRotateThroughCarry(metadata.iclass) then
      if RotateEffectiveCount(row, metadata) == Some(0) && !InitialFlagsProvided(row)
      then metadata.comparableWrittenFlags else 0
    else 0
  }

  function ShiftMask(count: Option<nat>, row: ExpectationRow, metadata: Metadata): bv32 {
    match count
    case None => 0
    case Some(n) =>
      if n == 0 && !InitialFlagsProvided(row) then metadata.comparableWrittenFlags
      else if n >= metadata.operandWidth then CARRY
      else 0
  }

  // ---- One-bit rotations ----

  /** A machine word, least significant bit first. */
  type Bits = seq<bool>

  datatype Direction = Left | Right

  function RotateOnce(d: Direction, w: Bits): (r: Bits)
    ensures |r| == |w|
  {
    var n := |w|;
    if n == 0 then w
    else if d == Left then [w[n - 1]] + w[..n - 1]
    else w[1..] + [w[0]]
  }

  datatype WithCarry = WithCarry(word: Bits, carry: bool)

  /** Through the carry flag: it comes in at one end as the bit at the other end goes out into it. */
  function RotateCarryOnce(d: Direction, s: WithCarry): (r: WithCarry)
    ensures |r.word| == |s.word|
  {
    var n := |s.word|;
    if n == 0 then s
    else if d == Left then WithCarry([s.carry] + s.word[..n - 1], s.word[n - 1])
    else WithCarry(s.word[1..] + [s.carry], s.word[0])
  }

  function RotateTimes(d: Direction, w: Bits, count: nat): (r: Bits)
    ensures |r| == |w|
  {
    if count == 0 then w else RotateOnce(d, RotateTimes(d, w, count - 1))
  }

  function RotateCarryTimes(d: Direction, s: WithCarry, count: nat): (r: WithCarry)
    ensures |r.word| == |s.word|
  {
    if count == 0 then s else RotateCarryOnce(d, RotateCarryTimes(d, s, count - 1))
  }

  // ---- Rotation is periodic ----

  /** Where the bit that `count` rotations bring to position `i` comes from. */
  function Source(d: Direction, n: nat, i: int, count: int): int
    requires n > 0
  {
    if d == Left then (i - count) % n else (i + count) % n
  }

  lemma SourceInRange(d: Direction, n: nat, i: int, count: int)
    requires n > 0
    ensures 0 <= Source(d, n, i, count) < n
  {
  }

  /** One more rotation reads from the neighbour. */
  lemma SourceStep(d: Direction, n: nat, i: nat, count: nat)
    requires i < n && count > 0
    ensures Source(d, n, i, count) ==
      if d == Left then Source(d, n, if i == 0 then n - 1 else i - 1, count - 1)
      else Source(d, n, if i == n - 1 then 0 else i + 1, count - 1)
  {
    if d == Left && i == 0 {
      RemainderShift(0 - count, 1, n);
    } else if d == Right && i == n - 1 {
      RemainderShift(count - 1, 1, n);
    }
  }

  lemma RotateOnceAt(d: Direction, w: Bits, i: nat)
    requires i < |w|
    ensures var n := |w|;
      RotateOnce(d, w)[i] ==
        if d == Left then w[if i == 0 then n - 1 else i - 1] else w[if i == n - 1 then 0 else i + 1]
  {
  }

  lemma {:induction false} RotatedBit(d: Direction, w: Bits, count: nat, i: nat)
    requires i < |w|
    ensures 0 <= Source(d, |w|, i, count) < |w|
    ensures RotateTimes(d, w, count)[i] == w[Source(d, |w|, i, count)]
    decreases count
  {
    hide RotateOnce;
    SourceInRange(d, |w|, i, count);
    if count == 0 {
      RemainderSmall(i, |w|);
    } else {
      hide Source;
      var n := |w|;
      var j := if d == Left then if i == 0 then n - 1 else i - 1 else if i == n - 1 then 0 else i + 1;
      SourceStep(d, n, i, count);
      RotatedBit(d, w, count - 1, j);
      RotateOnceAt(d, RotateTimes(d, w, count - 1), i);
    }
  }

  lemma SourceOfReduced(d: Direction, n: nat, i: int, count: nat)
    requires n > 0
    ensures Source(d, n, i, count % n) == Source(d, n, i, count)
  {
    QuotientAndRemainder(count, n);
    var q := count / n;
    if d == Left {
      RemainderShift(i - count, q, n);
    } else {
      RemainderShift(i + count % n, q, n);
    }
  }

  /** Only the count modulo the number of bits matters. */
  lemma RotationIsPeriodic(d: Direction, w: Bits, count: nat)
    requires w != []
    ensures RotateTimes(d, w, count) == RotateTimes(d, w, count % |w|)
  {
    hide RotateTimes, Source;
    forall i | 0 <= i < |w| ensures RotateTimes(d, w, count)[i] == RotateTimes(d, w, count % |w|)[i] {
      RotatedBit(d, w, count, i);
      RotatedBit(d, w, count % |w|, i);
      SourceOfReduced(d, |w|, i, count);
    }
  }

  function OneHot(n: nat, at: nat): (w: Bits)
    ensures |w| == n
  {
    seq(n, i => i == at)
  }

  /** A count moves some bit unless it is a multiple of the number of bits. */
  lemma RotationMoves(d: Direction, n: nat, count: nat)
    requires n > 0 && count % n != 0
    ensures RotateTimes(d, OneHot(n, 0), count) != OneHot(n, 0)
  {
    hide RotateTimes;
    RotatedBit(d, OneHot(n, 0), count, 0);
    if d == Left {
      NegativeModulo(count, n);
    }
  }

  lemma NegativeModulo(count: nat, n: nat)
    requires n > 0 && count % n != 0
    ensures (0 - count) % n != 0
  {
    var q := (0 - count) / n;
    if (0 - count) % n == 0 {
      QuotientAndRemainder(0 - count, n);
      Distribute(0, q, n);
      RemainderIs(count, 0 - q, 0, n);
    }
  }

  // ---- The carry as one more bit ----

  /** The ring of a word and the carry above it. */
  function Ring(s: WithCarry): Bits {
    s.word + [s.carry]
  }

  lemma RingOnce(d: Direction, s: WithCarry)
    requires s.word != []
    ensures Ring(RotateCarryOnce(d, s)) == RotateOnce(d, Ring(s))
  {
    var n := |s.word|;
    var ring := s.word + [s.carry];
    if d == Left {
      assert s.word[..n - 1] + [s.word[n - 1]] == s.word == ring[..n];
      assert [s.carry] + s.word[..n - 1] + [s.word[n - 1]] == [s.carry] + s.word;
    } else {
      assert ring[1..] == s.word[1..] + [s.carry];
    }
  }

  lemma {:induction false} RingTimes(d: Direction, s: WithCarry, count: nat)
    requires s.word != []
    ensures Ring(RotateCarryTimes(d, s, count)) == RotateTimes(d, Ring(s), count)
  {
    if count > 0 {
      RingTimes(d, s, count - 1);
      RingOnce(d, RotateCarryTimes(d, s, count - 1));
    }
  }

  lemma RingDetermines(s: WithCarry, t: WithCarry)
    requires Ring(s) == Ring(t)
    ensures s == t
  {
    assert |s.word| == |t.word|;
    assert Ring(s)[..|s.word|] == s.word && Ring(t)[..|t.word|] == t.word;
    assert Ring(s)[|s.word|] == s.carry && Ring(t)[|t.word|] == t.carry;
  }

  lemma CarryRotationIsPeriodic(d: Direction, s: WithCarry, count: nat)
    requires s.word != []
    ensures RotateCarryTimes(d, s, count) == RotateCarryTimes(d, s, count % (|s.word| + 1))
  {
    hide RotateCarryTimes, RotateTimes;
    RingTimes(d, s, count);
    RingTimes(d, s, count % (|s.word| + 1));
    RotationIsPeriodic(d, Ring(s), count);
    RingDetermines(RotateCarryTimes(d, s, count), RotateCarryTimes(d, s, count % (|s.word| + 1)));
  }

  lemma CarryRotationMoves(d: Direction, n: nat, count: nat)
    requires n > 0 && count % (n + 1) != 0
    ensures RotateCarryTimes(d, WithCarry(OneHot(n, 0), false), count) != WithCarry(OneHot(n, 0), false)
  {
    hide RotateCarryTimes, RotateTimes;
    var s := WithCarry(OneHot(n, 0), false);
    assert Ring(s) == OneHot(n + 1, 0);
    RingTimes(d, s, count);
    RotationMoves(d, n + 1, count);
  }

  // ---- The effective count is the right one ----

  lemma NoRotation(d: Direction)
    ensures forall w: Bits :: RotateTimes(d, w, 0) == w
    ensures forall s: WithCarry :: RotateCarryTimes(d, s, 0) == s
  {
  }

  predicate IsWidth(n: nat) { n == 8 || n == 16 || n == 32 || n == 64 }

  /** The effective count is the masked count modulo the ring, also where the code leaves it unreduced. */
  lemma EffectiveIsReduced(row: ExpectationRow, metadata: Metadata)
    requires IsWidth(metadata.operandWidth)
    requires IsRotate(metadata.iclass) || IsRotateThroughCarry(metadata.iclass)
    ensures var ring := if IsRotate(metadata.iclass) then metadata.operandWidth else metadata.operandWidth + 1;
      MaskedCount(row, metadata).Some? ==>
        RotateEffectiveCount(row, metadata) == Some(MaskedCount(row, metadata).value % ring)
  {
    hide MaskedCount, IsRotate, IsRotateThroughCarry;
    if MaskedCount(row, metadata).Some? && metadata.operandWidth >= 32 {
      RemainderSmall(MaskedCount(row, metadata).value, metadata.operandWidth + 1);
    }
  }

  /**
   * Rotating every word `masked` times is rotating it `effective` times, and that is no change at all
   * iff `effective` is zero.
   */
  ghost predicate SameRotation(d: Direction, n: nat, masked: nat, effective: nat) {
    && (forall w: Bits :: |w| == n ==> RotateTimes(d, w, masked) == RotateTimes(d, w, effective))
    && (effective == 0 <==> forall w: Bits :: |w| == n ==> RotateTimes(d, w, masked) == w)
  }

  ghost predicate SameCarryRotation(d: Direction, n: nat, masked: nat, effective: nat) {
    && (forall s: WithCarry :: |s.word| == n ==> RotateCarryTimes(d, s, masked) == RotateCarryTimes(d, s, effective))
    && (effective == 0 <==> forall s: WithCarry :: |s.word| == n ==> RotateCarryTimes(d, s, masked) == s)
  }

  lemma ReducedRotation(d: Direction, n: nat, masked: nat)
    requires n > 0
    ensures SameRotation(d, n, masked, masked % n)
  {
    hide RotateTimes;
    forall w: Bits | |w| == n ensures RotateTimes(d, w, masked) == RotateTimes(d, w, masked % n) {
      RotationIsPeriodic(d, w, masked);
    }
    if masked % n == 0 {
      NoRotation(d);
    } else {
      RotationMoves(d, n, masked);
      assert |OneHot(n, 0)| == n;
    }
  }

  lemma ReducedCarryRotation(d: Direction, n: nat, masked: nat)
    requires n > 0
    ensures SameCarryRotation(d, n, masked, masked % (n + 1))
  {
    hide RotateCarryTimes;
    forall s: WithCarry | |s.word| == n
      ensures RotateCarryTimes(d, s, masked) == RotateCarryTimes(d, s, masked % (n + 1))
    {
      CarryRotationIsPeriodic(d, s, masked);
    }
    if masked % (n + 1) == 0 {
      NoRotation(d);
    } else {
      CarryRotationMoves(d, n, masked);
      assert |WithCarry(OneHot(n, 0), false).word| == n;
    }
  }

  /** ROL and ROR: the effective count rotates every word as the masked count does, and is zero iff no word changes. */
  lemma RotateCountIsSound(row: ExpectationRow, metadata: Metadata, d: Direction)
    requires IsWidth(metadata.operandWidth) && IsRotate(metadata.iclass)
    ensures MaskedCount(row, metadata).Some? ==>
      && RotateEffectiveCount(row, metadata).Some?
      && SameRotation(d, metadata.operandWidth, MaskedCount(row, metadata).value,
         RotateEffectiveCount(row, metadata).value)
  {
    hide MaskedCount, RotateEffectiveCount, IsRotate, IsRotateThroughCarry, SameRotation;
    if MaskedCount(row, metadata).Some? {
      EffectiveIsReduced(row, metadata);
      ReducedRotation(d, metadata.operandWidth, MaskedCount(row, metadata).value);
    }
  }

  /** RCL and RCR: the same for the word and the carry together. */
  lemma RotateCarryCountIsSound(row: ExpectationRow, metadata: Metadata, d: Direction)
    requires IsWidth(metadata.operandWidth) && IsRotateThroughCarry(metadata.iclass)
    ensures MaskedCount(row, metadata).Some? ==>
      && RotateEffectiveCount(row, metadata).Some?
      && SameCarryRotation(d, metadata.operandWidth, MaskedCount(row, metadata).value,
         RotateEffectiveCount(row, metadata).value)
  {
    hide MaskedCount, RotateEffectiveCount, SameCarryRotation;
    NotBoth(metadata.iclass);
    hide IsRotate, IsRotateThroughCarry;
    if MaskedCount(row, metadata).Some? {
      EffectiveIsReduced(row, metadata);
      ReducedCarryRotation(d, metadata.operandWidth, MaskedCount(row, metadata).value);
    }
  }

  lemma NotBoth(iclass: string)
    ensures !(IsRotate(iclass) && IsRotateThroughCarry(iclass))
    ensures IsShift(iclass) ==> !IsRotate(iclass) && !IsRotateThroughCarry(iclass)
  {
    assert "ROL"[1] == 'O' && "ROR"[1] == 'O' && "RCL"[1] == 'C' && "RCR"[1] == 'C';
    assert "SHL"[0] == 'S' && "SAL"[0] == 'S' && "SHR"[0] == 'S' && "SAR"[0] == 'S' && "ROL"[0] == 'R'
      && "ROR"[0] == 'R';
    assert "RCL"[0] == 'R' && "RCR"[0] == 'R';
  }
}
