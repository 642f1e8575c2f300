/** Judging an execution result against its row: `CompareExecutionResult` of `src/comparator.cpp`. */
module Comparator {
  import opened Wrappers
  import opened Expectation
  import opened OrderedKeys
  import opened XedMetadata
  import opened RotateCounts
  import StateBridge
  import X86TesterParser

  /** What a mismatch is about; its text is only for printing. */
  datatype Detail =
    | WrongOutcome(found: OutcomeClass)
    | WrongException(wanted: string, got: string)
    | StateMissing
    | FlagMismatch
    | ScalarMismatch
    | ByteStateMissing
    | ByteMismatch
    | MemoryMissing
    | MemoryShape
    | MemoryMismatch

  datatype FieldMismatch = FieldMismatch(field: string, expected: u64, actual: u64, mask: bv64, detail: Detail)

  datatype ComparisonResult = ComparisonResult(passed: bool, mismatches: seq<FieldMismatch>)

  const ALL_BITS: bv64 := 0xFFFF_FFFF_FFFF_FFFF

  /** `kUserRFlagsMask`: CF PF AF ZF SF TF IF DF OF IOPL NT RF AC ID. */
  const USER_FLAGS: bv32 := 0x257FD5

  function CareMask(row: ExpectationRow, metadata: Metadata): bv32 {
    metadata.comparableWrittenFlags & USER_FLAGS & !DynamicUndefinedFlagMask(row, metadata)
  }

  function Widen(mask: bv32): bv64 { mask as bv64 }

  predicate SameFlags(a: u64, b: u64, mask: bv32) {
    (a as bv64) & Widen(mask) == (b as bv64) & Widen(mask)
  }

  function FirstBytes(bytes: seq<byte>, n: nat): nat
    requires n <= |bytes|
    decreases n
  {
    if n == 0 then 0 else bytes[0] + 0x100 * FirstBytes(bytes[1..], n - 1)
  }

  lemma {:induction false} FirstBytesFit(bytes: seq<byte>, n: nat, limit: nat)
    requires n <= |bytes| && n <= 8
    requires limit == LIMITS[n]
    ensures FirstBytes(bytes, n) < limit
    decreases n
  {
    if n > 0 {
      FirstBytesFit(bytes[1..], n - 1, LIMITS[n - 1]);
    }
  }

  const LIMITS: seq<nat> := [1, 0x100, 0x1_0000, 0x100_0000, 0x1_0000_0000, 0x100_0000_0000, 0x1_0000_0000_0000,
                             0x100_0000_0000_0000, 0x1_0000_0000_0000_0000]

  /** The value shown for a byte mismatch. */
  function FirstBytesAsLittleEndian(bytes: seq<byte>): u64 {
    var n := if |bytes| < 8 then |bytes| else 8;
    FirstBytesFit(bytes, n, LIMITS[n]);
    assert LIMITS[n] <= TWO64;
    FirstBytes(bytes, n)
  }

  function MaskAt(mask: seq<byte>, i: nat): byte { if i < |mask| then mask[i] else 0xff }

  predicate SameMasked(a: byte, b: byte, mask: byte) {
    (a as bv8) & (mask as bv8) == (b as bv8) & (mask as bv8)
  }

  // ---- Every mismatch, in order ----

  function One(condition: bool, mismatch: FieldMismatch): seq<FieldMismatch> {
    if condition then [] else [mismatch]
  }

  function ScalarMismatches(row: ExpectationRow, metadata: Metadata, rawKey: string, expected: u64,
      actual: Scalars): seq<FieldMismatch> {
    var key := X86TesterParser.CanonicalStateKey(rawKey);
    if StateBridge.IsByteRegister(key) then []
    else if key !in actual then [FieldMismatch(key, expected, 0, 0, StateMissing)]
    else if key == "flag" then
      var care := CareMask(row, metadata);
      One(SameFlags(expected, actual[key], care), FieldMismatch(key, expected, actual[key], Widen(care), FlagMismatch))
    else One(expected == actual[key], FieldMismatch(key, expected, actual[key], ALL_BITS, ScalarMismatch))
  }

  function StateMismatches(row: ExpectationRow, metadata: Metadata, expected: Scalars, keys: seq<string>,
      actual: Scalars): seq<FieldMismatch>
    requires forall k :: k in keys ==> k in expected
  {
    if keys == [] then []
    else
      var key := keys[|keys| - 1];
      StateMismatches(row, metadata, expected, keys[..|keys| - 1], actual)
      + ScalarMismatches(row, metadata, key, expected[key], actual)
  }

  function ByteMismatches(rawKey: string, expected: seq<byte>, actual: ByteStates): seq<FieldMismatch> {
    var key := X86TesterParser.CanonicalStateKey(rawKey);
    if !StateBridge.IsByteRegister(key) then []
    else if key !in actual then [FieldMismatch(key, FirstBytesAsLittleEndian(expected), 0, 0, ByteStateMissing)]
    else One(actual[key] == expected,
             FieldMismatch(key, FirstBytesAsLittleEndian(expected), FirstBytesAsLittleEndian(actual[key]), 0,
               ByteMismatch))
  }

  function AllByteMismatches(expected: ByteStates, keys: seq<string>, actual: ByteStates): seq<FieldMismatch>
    requires forall k :: k in keys ==> k in expected
  {
    if keys == [] then []
    else
      var key := keys[|keys| - 1];
      AllByteMismatches(expected, keys[..|keys| - 1], actual) + ByteMismatches(key, expected[key], actual)
  }

  predicate SameShape(e: MemoryExpectation, a: MemoryExpectation) {
    a.address == e.address && |a.bytes| == |e.bytes|
  }

  predicate SameBytes(e: MemoryExpectation, a: MemoryExpectation)
    requires SameShape(e, a)
  {
    forall i :: 0 <= i < |e.bytes| ==> SameMasked(e.bytes[i], a.bytes[i], MaskAt(e.mask, i))
  }

  function CellMismatches(e: MemoryExpectation, actual: seq<MemoryExpectation>, i: nat): seq<FieldMismatch> {
    if i >= |actual| then [FieldMismatch("mem", 0, 0, 0, MemoryMissing)]
    else if !SameShape(e, actual[i]) then [FieldMismatch("mem", e.address, actual[i].address, 0, MemoryShape)]
    else
      One(SameBytes(e, actual[i]),
          FieldMismatch("mem", FirstBytesAsLittleEndian(e.bytes), FirstBytesAsLittleEndian(actual[i].bytes), 0,
            MemoryMismatch))
  }

  function MemoryMismatches(expected: seq<MemoryExpectation>, actual: seq<MemoryExpectation>): seq<FieldMismatch> {
    if expected == [] then []
    else
      var n := |expected| - 1;
      MemoryMismatches(expected[..n], actual) + CellMismatches(expected[n], actual, n)
  }

  function NormalMismatches(row: ExpectationRow, metadata: Metadata, result: ExecutionResult): seq<FieldMismatch> {
    (match row.expectedFinalState
     case None => []
     case Some(expected) => StateMismatches(row, metadata, expected, Sorted(expected.Keys), result.finalState))
    + AllByteMismatches(row.expectedFinalBytes, Sorted(row.expectedFinalBytes.Keys), result.finalBytes)
    + MemoryMismatches(row.expectedMemory, result.finalMemory)
  }

  function Mismatches(row: ExpectationRow, metadata: Metadata, result: ExecutionResult): seq<FieldMismatch> {
    match row.expectedExceptionKind
    case Some(kind) =>
      if result.outcomeClass != Exception then [FieldMismatch("exception", 0, 0, 0, WrongOutcome(result.outcomeClass))]
      else if result.exceptionDetail.Some? && result.exceptionDetail.value != kind
      then [FieldMismatch("exception", 0, 0, 0, WrongException(kind, result.exceptionDetail.value))]
      else []
    case None =>
      if result.outcomeClass != Normal then [FieldMismatch("outcome", 0, 0, 0, WrongOutcome(result.outcomeClass))]
      else NormalMismatches(row, metadata, result)
  }

  // ---- The relation that passing stands for ----

  predicate StateAgrees(row: ExpectationRow, metadata: Metadata, key: string, expected: u64, actual: Scalars) {
    && key in actual
    && (if key == "flag" then SameFlags(expected, actual[key], CareMask(row, metadata)) else expected == actual[key])
  }

  predicate Agrees(row: ExpectationRow, metadata: Metadata, result: ExecutionResult) {
    if row.expectedExceptionKind.Some? then
      && result.outcomeClass == Exception
      && (result.exceptionDetail.Some? ==> result.exceptionDetail == row.expectedExceptionKind)
    else
      && result.outcomeClass == Normal
      && (row.expectedFinalState.Some? ==> StatesAgree(row, metadata, row.expectedFinalState.value, result.finalState))
      && ByteStatesAgree(row.expectedFinalBytes, result.finalBytes)
      && MemoryAgrees(row.expectedMemory, result.finalMemory)
  }

  predicate StatesAgree(row: ExpectationRow, metadata: Metadata, expected: Scalars, actual: Scalars) {
    forall raw :: raw in expected ==>
      StateBridge.IsByteRegister(X86TesterParser.CanonicalStateKey(raw))
      || StateAgrees(row, metadata, X86TesterParser.CanonicalStateKey(raw), expected[raw], actual)
  }

  predicate ByteStatesAgree(expected: ByteStates, actual: ByteStates) {
    forall raw :: raw in expected && StateBridge.IsByteRegister(X86TesterParser.CanonicalStateKey(raw)) ==>
      X86TesterParser.CanonicalStateKey(raw) in actual
        && actual[X86TesterParser.CanonicalStateKey(raw)] == expected[raw]
  }

  predicate MemoryAgrees(expected: seq<MemoryExpectation>, actual: seq<MemoryExpectation>) {
    forall i :: 0 <= i < |expected| ==>
      i < |actual| && SameShape(expected[i], actual[i]) && SameBytes(expected[i], actual[i])
  }

  lemma {:induction false} StateMismatchesExact(row: ExpectationRow, metadata: Metadata, expected: Scalars,
      keys: seq<string>, actual: Scalars)
    requires forall k :: k in keys ==> k in expected
    ensures StateMismatches(row, metadata, expected, keys, actual) == [] <==>
      forall raw :: raw in keys ==> ScalarMismatches(row, metadata, raw, expected[raw], actual) == []
  {
    hide ScalarMismatches;
    if keys != [] {
      var init := keys[..|keys| - 1];
      StateMismatchesExact(row, metadata, expected, init, actual);
      assert forall raw :: raw in keys <==> raw in init || raw == keys[|keys| - 1];
    }
  }

  lemma {:induction false} ByteMismatchesExact(expected: ByteStates, keys: seq<string>, actual: ByteStates)
    requires forall k :: k in keys ==> k in expected
    ensures AllByteMismatches(expected, keys, actual) == [] <==>
      forall raw :: raw in keys ==> ByteMismatches(raw, expected[raw], actual) == []
  {
    hide ByteMismatches;
    if keys != [] {
      var init := keys[..|keys| - 1];
      ByteMismatchesExact(expected, init, actual);
      assert forall raw :: raw in keys <==> raw in init || raw == keys[|keys| - 1];
    }
  }

  lemma {:induction false} MemoryMismatchesExact(expected: seq<MemoryExpectation>, actual: seq<MemoryExpectation>)
    ensures MemoryMismatches(expected, actual) == [] <==> MemoryAgrees(expected, actual)
  {
    hide SameShape, SameBytes;
    if expected != [] {
      var n := |expected| - 1;
      MemoryMismatchesExact(expected[..n], actual);
      assert forall i :: 0 <= i < n ==> expected[..n][i] == expected[i];
    }
  }

  lemma StatesExact(row: ExpectationRow, metadata: Metadata, expected: Scalars, actual: Scalars)
    ensures StateMismatches(row, metadata, expected, Sorted(expected.Keys), actual) == []
      <==> StatesAgree(row, metadata, expected, actual)
  {
    hide StateBridge.IsByteRegister, X86TesterParser.CanonicalStateKey, CareMask, SameFlags, Ascending;
    StateMismatchesExact(row, metadata, expected, Sorted(expected.Keys), actual);
  }

  lemma ByteStatesExact(expected: ByteStates, actual: ByteStates)
    ensures AllByteMismatches(expected, Sorted(expected.Keys), actual) == [] <==> ByteStatesAgree(expected, actual)
  {
    hide StateBridge.IsByteRegister, X86TesterParser.CanonicalStateKey, FirstBytesAsLittleEndian, Ascending;
    ByteMismatchesExact(expected, Sorted(expected.Keys), actual);
  }

  /** Nothing is recorded exactly when the declarative relation holds. */
  lemma MismatchesExact(row: ExpectationRow, metadata: Metadata, result: ExecutionResult)
    ensures Mismatches(row, metadata, result) == [] <==> Agrees(row, metadata, result)
  {
    hide StatesAgree, ByteStatesAgree, MemoryAgrees, StateMismatches, AllByteMismatches, MemoryMismatches, Ascending;
    ByteStatesExact(row.expectedFinalBytes, result.finalBytes);
    MemoryMismatchesExact(row.expectedMemory, result.finalMemory);
    if row.expectedFinalState.Some? {
      StatesExact(row, metadata, row.expectedFinalState.value, result.finalState);
    }
  }

  /** A rotation that moves nothing leaves the flags alone: none is compared unless initial flags were given. */
  lemma IdleRotateComparesNothing(row: ExpectationRow, metadata: Metadata)
    requires metadata.operandWidth != 0
    ensures RotateEffectiveCount(row, metadata).Some? ==>
      CareMask(row, metadata) ==
        if RotateEffectiveCount(row, metadata).value == 0 && !InitialFlagsProvided(row) then 0
        else metadata.comparableWrittenFlags & USER_FLAGS
  {
    hide *;
    RotateMask(row, metadata);
    CareUnderMask(row, metadata);
  }

  lemma RotateMask(row: ExpectationRow, metadata: Metadata)
    requires metadata.operandWidth != 0
    ensures RotateEffectiveCount(row, metadata).Some? ==>
      DynamicUndefinedFlagMask(row, metadata) ==
        if RotateEffectiveCount(row, metadata).value == 0 && !InitialFlagsProvided(row)
        then metadata.comparableWrittenFlags
        else 0
  {
    NotBoth(metadata.iclass);
    hide IsRotate, IsRotateThroughCarry, IsShift, MaskedCount, InitialFlagsProvided;
  }

  lemma CareUnderMask(row: ExpectationRow, metadata: Metadata)
    ensures DynamicUndefinedFlagMask(row, metadata) == metadata.comparableWrittenFlags ==> CareMask(row, metadata) == 0
    ensures DynamicUndefinedFlagMask(row, metadata) == 0 ==>
      CareMask(row, metadata) == metadata.comparableWrittenFlags & USER_FLAGS
  {
    hide DynamicUndefinedFlagMask;
    MaskedOut(metadata.comparableWrittenFlags, USER_FLAGS);
  }

  lemma MaskedOut(flags: bv32, user: bv32)
    ensures flags & user & !flags == 0
    ensures flags & user & !0 == flags & user
  {
  }

  lemma NoFlagsAlwaysSame(a: u64, b: u64)
    ensures SameFlags(a, b, 0)
  {
  }

  // ---- The loops ----

  method BytesMatch(e: MemoryExpectation, a: MemoryExpectation) returns (matches: bool)
    requires SameShape(e, a)
    ensures matches == SameBytes(e, a)
  {
    hide SameMasked, MaskAt;
    for i := 0 to |e.bytes|
      invariant forall j :: 0 <= j < i ==> SameMasked(e.bytes[j], a.bytes[j], MaskAt(e.mask, j))
    {
      if !SameMasked(e.bytes[i], a.bytes[i], MaskAt(e.mask, i)) {
        return false;
      }
    }
    return true;
  }

  method CompareScalar(row: ExpectationRow, metadata: Metadata, rawKey: string, expected: u64,
      actual: Scalars) returns (found: seq<FieldMismatch>)
    ensures found == ScalarMismatches(row, metadata, rawKey, expected, actual)
  {
    hide StateBridge.IsByteRegister, X86TesterParser.CanonicalStateKey, CareMask, SameFlags, Widen;
    var key := X86TesterParser.CanonicalStateKey(rawKey);
    if StateBridge.IsByteRegister(key) {
      return [];
    }
    if key !in actual {
      return [FieldMismatch(key, expected, 0, 0, StateMissing)];
    }
    if key == "flag" {
      var care := CareMask(row, metadata);
      if care == 0 {
        NoFlagsAlwaysSame(expected, actual[key]);
        return [];
      }
      return if SameFlags(expected, actual[key], care) then []
             else [FieldMismatch(key, expected, actual[key], Widen(care), FlagMismatch)];
    }
    return
      if expected == actual[key] then []
      else [FieldMismatch(key, expected, actual[key], ALL_BITS, ScalarMismatch)];
  }

  method CompareState(row: ExpectationRow, metadata: Metadata, expected: Scalars,
      actual: Scalars) returns (found: seq<FieldMismatch>)
    ensures found == StateMismatches(row, metadata, expected, Sorted(expected.Keys), actual)
  {
    hide ScalarMismatches, Ascending;
    found := [];
    var keys := Sorted(expected.Keys);
    for i := 0 to |keys|
      invariant found == StateMismatches(row, metadata, expected, keys[..i], actual)
    {
      assert keys[..i + 1][..i] == keys[..i];
      var more := CompareScalar(row, metadata, keys[i], expected[keys[i]], actual);
      found := found + more;
    }
    assert keys[..|keys|] == keys;
  }

  method CompareBytes(expected: ByteStates, actual: ByteStates) returns (found: seq<FieldMismatch>)
    ensures found == AllByteMismatches(expected, Sorted(expected.Keys), actual)
  {
    hide StateBridge.IsByteRegister, X86TesterParser.CanonicalStateKey, Ascending, FirstBytesAsLittleEndian;
    found := [];
    var keys := Sorted(expected.Keys);
    for i := 0 to |keys|
      invariant found == AllByteMismatches(expected, keys[..i], actual)
    {
      assert keys[..i + 1][..i] == keys[..i];
      var key := X86TesterParser.CanonicalStateKey(keys[i]);
      var bytes := expected[keys[i]];
      if StateBridge.IsByteRegister(key) {
        if key !in actual {
          found := found + [FieldMismatch(key, FirstBytesAsLittleEndian(bytes), 0, 0, ByteStateMissing)];
        } else if actual[key] != bytes {
          found := found + [FieldMismatch(key, FirstBytesAsLittleEndian(bytes), FirstBytesAsLittleEndian(actual[key]),
            0, ByteMismatch)];
        }
      }
    }
    assert keys[..|keys|] == keys;
  }

  method CompareMemory(expected: seq<MemoryExpectation>,
      actual: seq<MemoryExpectation>) returns (found: seq<FieldMismatch>)
    ensures found == MemoryMismatches(expected, actual)
  {
    hide FirstBytesAsLittleEndian, SameBytes;
    found := [];
    for i := 0 to |expected|
      invariant found == MemoryMismatches(expected[..i], actual)
    {
      assert expected[..i + 1][..i] == expected[..i];
      var e := expected[i];
      if i >= |actual| {
        found := found + [FieldMismatch("mem", 0, 0, 0, MemoryMissing)];
        continue;
      }
      var a := actual[i];
      if a.address != e.address || |a.bytes| != |e.bytes| {
        found := found + [FieldMismatch("mem", e.address, a.address, 0, MemoryShape)];
        continue;
      }
      var matches := BytesMatch(e, a);
      if !matches {
        found := found
          + [FieldMismatch("mem", FirstBytesAsLittleEndian(e.bytes), FirstBytesAsLittleEndian(a.bytes), 0,
            MemoryMismatch)];
      }
    }
    assert expected[..|expected|] == expected;
  }

  method CompareExecutionResult(row: ExpectationRow, metadata: Metadata,
      result: ExecutionResult) returns (comparison: ComparisonResult)
    ensures comparison.mismatches == Mismatches(row, metadata, result)
    ensures comparison.passed <==> comparison.mismatches == []
    ensures comparison.passed <==> Agrees(row, metadata, result)
  {
    hide StateMismatches, AllByteMismatches, MemoryMismatches, Agrees, Ascending;
    MismatchesExact(row, metadata, result);
    var found: seq<FieldMismatch> := [];
    if row.expectedExceptionKind.Some? {
      var kind := row.expectedExceptionKind.value;
      if result.outcomeClass != Exception {
        found := [FieldMismatch("exception", 0, 0, 0, WrongOutcome(result.outcomeClass))];
      } else if result.exceptionDetail.Some? && result.exceptionDetail.value != kind {
        found := [FieldMismatch("exception", 0, 0, 0, WrongException(kind, result.exceptionDetail.value))];
      }
    } else if result.outcomeClass != Normal {
      found := [FieldMismatch("outcome", 0, 0, 0, WrongOutcome(result.outcomeClass))];
    } else {
      if row.expectedFinalState.Some? {
        found := CompareState(row, metadata, row.expectedFinalState.value, result.finalState);
      }
      var bytes := CompareBytes(row.expectedFinalBytes, result.finalBytes);
      var memory := CompareMemory(row.expectedMemory, result.finalMemory);
      found := found + bytes + memory;
    }
    comparison := ComparisonResult(|found| == 0, found);
  }
}
