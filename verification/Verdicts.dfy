/** What a pass and a mismatch can mean, across the backend, the intrinsics and the comparator. */
module Verdicts {
  import opened Wrappers
  import opened Numbers
  import opened Expectation
  import opened FlatMemory
  import opened StateBridge
  import opened OrderedKeys
  import opened CaseRun
  import opened Comparator
  import opened XedMetadata
  import Backend
  import I = Intrinsics
  import X86TesterParser

  // ---- Exception rows ----

  /** The first fault since the memory was created: of the set-up, else of the run. */
  function FirstFault(code: Code, s: MachineState, row: ExpectationRow, opcode: seq<byte>): Option<MemoryFault>
    requires Representable(row) && |opcode| < TWO64
  {
    var m := SetUp(row.address, opcode, row.initialMemory);
    I.First(m.fault, I.RunAttempts(code, StartState(s, row.address), m, []))
  }

  lemma FirstFaultIsRecorded(code: Code, s: MachineState, row: ExpectationRow, opcode: seq<byte>)
    requires Representable(row) && |opcode| < TWO64
    ensures var m := SetUp(row.address, opcode, row.initialMemory);
      Launch(code, StartState(s, row.address), m).memory.fault == FirstFault(code, s, row, opcode)
  {
    hide SetUp, StartState, I.Run, I.RunAttempts, I.First;
    var m := SetUp(row.address, opcode, row.initialMemory);
    I.RunKeepsFirstFault(code, StartState(s, row.address), m, []);
  }

  lemma AccessFaultIsNotUnsupported(cells: Cells, address: u64, size: u64, required: bv8, operation: Operation)
    ensures var f := AccessFault(cells, address, size, required, operation);
      f.Some? ==> f.value.kind != FaultKind.Unsupported
  {
  }

  /** With a kind that holds no blank, the run passes exactly when its first fault is the error intrinsic. */
  lemma JudgeException(after: I.Finished<MachineState>, row: ExpectationRow, metadata: Metadata, keys: seq<string>)
    requires Representable(row) && row.expectedExceptionKind.Some? && ' ' !in row.expectedExceptionKind.value
    ensures Agrees(row, metadata, Judge(after, row, keys)) <==>
      after.memory.fault.Some? && IsRemillError(after.memory.fault.value)
  {
    hide ReadBack, Snapshot, SnapshotBytes, FaultText, Sorted, IsRemillError;
    var m := after.memory;
    if m.fault.Some? {
      FaultTextHasBlank(m.fault.value);
    } else {
      ReadBackFault(m, row.expectedMemory);
      var fault := ReadBack(m, row.expectedMemory).memory.fault;
      if fault.Some? {
        FaultTextHasBlank(fault.value);
        ReadFaultIsNoError(m, row.expectedMemory, fault.value);
      }
    }
  }

  lemma ReadFaultIsNoError(m: Memory, expected: seq<MemoryExpectation>, fault: MemoryFault)
    requires forall e :: e in expected ==> |e.bytes| < TWO64
    requires IsReadFault(m, expected, fault)
    ensures !IsRemillError(fault)
  {
    hide AccessFault;
    var e :| e in expected && AccessFault(m.cells, e.address, |e.bytes|, READ, ReadOp) == Some(fault);
    AccessFaultIsNotUnsupported(m.cells, e.address, |e.bytes|, READ, ReadOp);
  }

  /** Compiling and the initial state succeed and the first fault is `__remill_error`. */
  predicate RaisesRemillError(lift: Backend.Lifter, row: ExpectationRow)
    requires Representable(row)
  {
    Backend.HexBytesShort(row.opcode);
    var compiled := Backend.Meaning(lift, row.address, row.opcode);
    var applied := Apply(Reset(), row.initialState, row.initialBytes);
    && row.opcode != ""
    && compiled.Resolved?
    && applied.Ok?
    && var fault := FirstFault(compiled.code, applied.value, row, HexBytes(row.opcode).value);
       fault.Some? && IsRemillError(fault.value)
  }

  /** An exception row passes for one reason only, whatever lifted code does after its first fault. */
  lemma ExceptionRowsPassForOneReason(lift: Backend.Lifter, row: ExpectationRow, metadata: Metadata, keys: seq<string>)
    requires Representable(row) && row.expectedExceptionKind.Some? && ' ' !in row.expectedExceptionKind.value
    ensures var r := Backend.CaseResult(lift, row, keys);
      (r.Ok? && Agrees(row, metadata, r.value)) <==> RaisesRemillError(lift, row)
  {
    hide HexBytes, Judge, Launch, FirstFault, IsRemillError, Apply, Reset, SetUp, StartState;
    Backend.HexBytesShort(row.opcode);
    var compiled := Backend.Meaning(lift, row.address, row.opcode);
    var applied := Apply(Reset(), row.initialState, row.initialBytes);
    if row.opcode != "" && compiled.Resolved? && applied.Ok? {
      var opcode := HexBytes(row.opcode).value;
      var m := SetUp(row.address, opcode, row.initialMemory);
      FirstFaultIsRecorded(compiled.code, applied.value, row, opcode);
      JudgeException(Launch(compiled.code, StartState(applied.value, row.address), m), row, metadata, keys);
    }
  }

  // ---- Mismatches that cannot happen ----

  predicate Shaped(expected: seq<MemoryExpectation>, actual: seq<MemoryExpectation>) {
    |actual| >= |expected| && forall i :: 0 <= i < |expected| ==> SameShape(expected[i], actual[i])
  }

  lemma {:induction false} MemoryIsNeverMissing(expected: seq<MemoryExpectation>, actual: seq<MemoryExpectation>)
    requires Shaped(expected, actual)
    ensures forall m :: m in MemoryMismatches(expected, actual) ==> m.detail == MemoryMismatch
  {
    hide SameShape, SameBytes, FirstBytesAsLittleEndian;
    if expected != [] {
      var n := |expected| - 1;
      assert forall i :: 0 <= i < n ==> expected[..n][i] == expected[i];
      MemoryIsNeverMissing(expected[..n], actual);
    }
  }

  lemma {:induction false} ByteStateIsNeverMissing(expected: ByteStates, keys: seq<string>, actual: ByteStates)
    requires forall k :: k in keys ==> k in expected
    requires forall k :: k in keys && IsByteRegister(X86TesterParser.CanonicalStateKey(k)) ==>
      X86TesterParser.CanonicalStateKey(k) in actual
    ensures forall m :: m in AllByteMismatches(expected, keys, actual) ==> m.detail == ByteMismatch
  {
    hide IsByteRegister, X86TesterParser.CanonicalStateKey, FirstBytesAsLittleEndian;
    if keys != [] {
      ByteStateIsNeverMissing(expected, keys[..|keys| - 1], actual);
    }
  }

  lemma {:induction false} StateIsMissingOnlyIfUnknown(row: ExpectationRow, metadata: Metadata, expected: Scalars,
      keys: seq<string>, s: MachineState, all: seq<string>)
    requires forall k :: k in keys ==> k in expected && k in all
    ensures forall m :: m in StateMismatches(row, metadata, expected, keys, Snapshot(s, all)) ==>
      m.detail == FlagMismatch || m.detail == ScalarMismatch
        || (m.detail == StateMissing && SnapshotOne(s, m.field) == None)
  {
    hide IsByteRegister, X86TesterParser.CanonicalStateKey, SnapshotOne, Snapshot, SameFlags, CareMask, Widen;
    if keys != [] {
      StateIsMissingOnlyIfUnknown(row, metadata, expected, keys[..|keys| - 1], s, all);
      SnapshotIs(s, all);
      var last := keys[|keys| - 1];
      assert last in all;
    }
  }

  lemma ReadBackIsShaped(m: Memory, expected: seq<MemoryExpectation>)
    requires forall e :: e in expected ==> |e.bytes| < TWO64
    ensures Shaped(expected, ReadBack(m, expected).found)
  {
    hide ReadBack, Read;
    ReadBackIs(m, expected);
  }

  /** A normal run answers every expected cell and byte register, and every scalar the state has. */
  lemma NothingIsMissing(after: I.Finished<MachineState>, row: ExpectationRow, metadata: Metadata, keys: seq<string>)
    requires Representable(row) && row.expectedExceptionKind.None? && Judge(after, row, keys).outcomeClass == Normal
    requires row.expectedFinalState.Some? ==> forall k :: k in row.expectedFinalState.value ==> k in keys
    ensures forall m :: m in Mismatches(row, metadata, Judge(after, row, keys)) ==>
      m.detail in {FlagMismatch, ScalarMismatch, ByteMismatch, MemoryMismatch}
      || (m.detail == StateMissing && SnapshotOne(after.state, m.field) == None)
  {
    NormalJudgement(after, row, keys);
    hide StateMismatches, AllByteMismatches, MemoryMismatches, Judge, ReadBack, Snapshot, SnapshotBytes, SnapshotOne,
         IsByteRegister, X86TesterParser.CanonicalStateKey, Shaped, GetByteRegister;
    ReadBackIsShaped(after.memory, row.expectedMemory);
    MemoryIsNeverMissing(row.expectedMemory, ReadBack(after.memory, row.expectedMemory).found);
    BytesAnswered(after.state, row.expectedFinalBytes);
    ByteStateIsNeverMissing(row.expectedFinalBytes, Sorted(row.expectedFinalBytes.Keys),
      Judge(after, row, keys).finalBytes);
    if row.expectedFinalState.Some? {
      var expected := row.expectedFinalState.value;
      StateIsMissingOnlyIfUnknown(row, metadata, expected, Sorted(expected.Keys), after.state, keys);
    }
  }

  lemma NormalJudgement(after: I.Finished<MachineState>, row: ExpectationRow, keys: seq<string>)
    requires Representable(row) && Judge(after, row, keys).outcomeClass == Normal
    ensures Judge(after, row, keys) == ExecutionResult(
        Normal, Snapshot(after.state, keys), SnapshotBytes(after.state, Sorted(row.expectedFinalBytes.Keys)),
        ReadBack(after.memory, row.expectedMemory).found, None, None)
  {
    hide ReadBack, Snapshot, SnapshotBytes, Sorted, IsRemillError, FaultText;
  }

  lemma BytesAnswered(s: MachineState, expected: ByteStates)
    ensures forall k :: k in expected && IsByteRegister(X86TesterParser.CanonicalStateKey(k)) ==>
      X86TesterParser.CanonicalStateKey(k) in SnapshotBytes(s, Sorted(expected.Keys))
  {
    hide X86TesterParser.CanonicalStateKey, ParseByteRegisterName, Slot, SnapshotBytes, Ascending;
    SnapshotBytesIs(s, Sorted(expected.Keys));
  }

  // ---- What passing means for a row without an exception ----

  predicate RegistersAgree(row: ExpectationRow, metadata: Metadata, expected: Scalars, s: MachineState) {
    forall raw :: raw in expected ==>
      RegisterAgrees(row, metadata, X86TesterParser.CanonicalStateKey(raw), expected[raw], s)
  }

  /** The final state has the register and it holds the expected value; flags only where they are compared. */
  predicate RegisterAgrees(row: ExpectationRow, metadata: Metadata, key: string, expected: u64, s: MachineState) {
    IsByteRegister(key)
    || (SnapshotOne(s, key).Some?
        && if key == "flag" then SameFlags(expected, SnapshotOne(s, key).value, CareMask(row, metadata))
           else expected == SnapshotOne(s, key).value)
  }

  predicate ByteRegistersAgree(expected: ByteStates, s: MachineState) {
    forall raw :: raw in expected && IsByteRegister(X86TesterParser.CanonicalStateKey(raw)) ==>
      GetByteRegister(s, X86TesterParser.CanonicalStateKey(raw)) == Some(expected[raw])
  }

  /** Every expected cell can be read and holds the expected bytes under its mask. */
  predicate CellsAgree(expected: seq<MemoryExpectation>, m: Memory)
    requires forall e :: e in expected ==> |e.bytes| < TWO64
  {
    forall i :: 0 <= i < |expected| ==> CellAgrees(expected[i], m)
  }

  predicate CellAgrees(e: MemoryExpectation, m: Memory)
    requires |e.bytes| < TWO64
  {
    var read := Read(m, e.address, |e.bytes|);
    read.ok && forall j :: 0 <= j < |e.bytes| ==> SameMasked(e.bytes[j], read.bytes[j], MaskAt(e.mask, j))
  }

  lemma SnapshotAgrees(row: ExpectationRow, metadata: Metadata, expected: Scalars, s: MachineState, keys: seq<string>)
    requires forall k :: k in expected ==> k in keys
    ensures StatesAgree(row, metadata, expected, Snapshot(s, keys)) <==> RegistersAgree(row, metadata, expected, s)
  {
    hide IsByteRegister, X86TesterParser.CanonicalStateKey, SnapshotOne, Snapshot, SameFlags, CareMask;
    SnapshotIs(s, keys);
    forall raw | raw in expected
      ensures (IsByteRegister(X86TesterParser.CanonicalStateKey(raw))
               || StateAgrees(row, metadata, X86TesterParser.CanonicalStateKey(raw), expected[raw], Snapshot(s, keys)))
          <==> RegisterAgrees(row, metadata, X86TesterParser.CanonicalStateKey(raw), expected[raw], s)
    {
      assert raw in keys;
    }
  }

  lemma ByteSnapshotAgrees(expected: ByteStates, s: MachineState)
    ensures ByteStatesAgree(expected, SnapshotBytes(s, Sorted(expected.Keys))) <==> ByteRegistersAgree(expected, s)
  {
    hide ParseByteRegisterName, X86TesterParser.CanonicalStateKey, Slot, SnapshotBytes, Ascending;
    SnapshotBytesIs(s, Sorted(expected.Keys));
    BytesAnswered(s, expected);
  }

  lemma ReadBackAgrees(m: Memory, expected: seq<MemoryExpectation>)
    requires m.fault.None? && forall e :: e in expected ==> |e.bytes| < TWO64
    ensures (ReadBack(m, expected).memory.fault.None? && MemoryAgrees(expected, ReadBack(m, expected).found))
      <==> CellsAgree(expected, m)
  {
    hide ReadBack, Read, SameMasked, MaskAt;
    ReadBackIs(m, expected);
    ReadBackClear(m, expected);
    forall i | 0 <= i < |expected| && Read(m, expected[i].address, |expected[i].bytes|).ok
      ensures CellAgrees(expected[i], m)
         <==> SameShape(expected[i], ReadBack(m, expected).found[i])
              && SameBytes(expected[i], ReadBack(m, expected).found[i])
    {
    }
  }

  /** The read-back is clear exactly when every cell can be read. */
  lemma {:induction false} ReadBackClear(m: Memory, expected: seq<MemoryExpectation>)
    requires m.fault.None? && forall e :: e in expected ==> |e.bytes| < TWO64
    ensures ReadBack(m, expected).memory.fault.None? <==>
      forall i :: 0 <= i < |expected| ==> Read(m, expected[i].address, |expected[i].bytes|).ok
    decreases |expected|
  {
    hide AccessFault, Peek, Observation;
    if expected != [] {
      var init := expected[..|expected| - 1];
      var e := expected[|expected| - 1];
      ReadBackClear(m, init);
      ReadBackIs(m, init);
      ReadKeepsCells(ReadBack(m, init).memory, e);
      ReadOkIs(m, e);
      assert forall i :: 0 <= i < |init| ==> init[i] == expected[i];
    }
  }

  lemma ReadOkIs(m: Memory, e: MemoryExpectation)
    requires |e.bytes| < TWO64
    ensures Read(m, e.address, |e.bytes|).ok <==> AccessFault(m.cells, e.address, |e.bytes|, READ, ReadOp).None?
  {
  }

  /**
   * A run without a set-up or run fault, every expected cell readable, and registers, flags, byte
   * registers and memory of the final state as expected: that and nothing else is a pass.
   */
  lemma NormalRunsPassExactly(after: I.Finished<MachineState>, row: ExpectationRow, metadata: Metadata,
      keys: seq<string>)
    requires Representable(row) && row.expectedExceptionKind.None?
    requires row.expectedFinalState.Some? ==> forall k :: k in row.expectedFinalState.value ==> k in keys
    ensures Agrees(row, metadata, Judge(after, row, keys)) <==> EndsAsExpected(after, row, metadata)
  {
    if after.memory.fault.Some? || ReadBack(after.memory, row.expectedMemory).memory.fault.Some? {
      FaultedIsNotNormal(after, row, keys);
    }
    if after.memory.fault.None? {
      ReadBackAgrees(after.memory, row.expectedMemory);
      if ReadBack(after.memory, row.expectedMemory).memory.fault.None? {
        ClearIsNormal(after, row, keys);
        NormalJudgement(after, row, keys);
        hide Judge, ReadBack, Snapshot, SnapshotBytes, StatesAgree, ByteStatesAgree, MemoryAgrees, RegistersAgree,
             ByteRegistersAgree, CellsAgree, Ascending;
        ByteSnapshotAgrees(row.expectedFinalBytes, after.state);
        if row.expectedFinalState.Some? {
          SnapshotAgrees(row, metadata, row.expectedFinalState.value, after.state, keys);
        }
      }
    }
  }

  lemma FaultedIsNotNormal(after: I.Finished<MachineState>, row: ExpectationRow, keys: seq<string>)
    requires Representable(row)
    requires after.memory.fault.Some? || ReadBack(after.memory, row.expectedMemory).memory.fault.Some?
    ensures Judge(after, row, keys).outcomeClass != Normal
  {
    hide ReadBack, FaultText, IsRemillError;
  }

  lemma ClearIsNormal(after: I.Finished<MachineState>, row: ExpectationRow, keys: seq<string>)
    requires Representable(row)
    requires after.memory.fault.None? && ReadBack(after.memory, row.expectedMemory).memory.fault.None?
    ensures Judge(after, row, keys).outcomeClass == Normal
  {
    hide ReadBack, Snapshot, SnapshotBytes, Sorted;
  }

  /** Compiling and the initial state succeed, nothing faults, and the final state and memory are as expected. */
  predicate RunsAsExpected(lift: Backend.Lifter, row: ExpectationRow, metadata: Metadata)
    requires Representable(row)
  {
    Backend.HexBytesShort(row.opcode);
    var compiled := Backend.Meaning(lift, row.address, row.opcode);
    var applied := Apply(Reset(), row.initialState, row.initialBytes);
    && row.opcode != ""
    && compiled.Resolved?
    && applied.Ok?
    && EndsAsExpected(
         Launch(compiled.code, StartState(applied.value, row.address),
                SetUp(row.address, HexBytes(row.opcode).value, row.initialMemory)),
         row, metadata)
  }

  /**
   * No set-up or run fault, every expected cell readable, and registers, flags, byte registers and
   * memory as expected.
   */
  predicate EndsAsExpected(after: I.Finished<MachineState>, row: ExpectationRow, metadata: Metadata)
    requires Representable(row)
  {
    && after.memory.fault.None?
    && CellsAgree(row.expectedMemory, after.memory)
    && ByteRegistersAgree(row.expectedFinalBytes, after.state)
    && (row.expectedFinalState.Some? ==> RegistersAgree(row, metadata, row.expectedFinalState.value, after.state))
  }

  /** What a pass means for a row without an exception, from its own fields to the end of its run. */
  lemma NormalRowsPassExactly(lift: Backend.Lifter, row: ExpectationRow, metadata: Metadata, keys: seq<string>)
    requires Representable(row) && row.expectedExceptionKind.None?
    requires row.expectedFinalState.Some? ==> forall k :: k in row.expectedFinalState.value ==> k in keys
    ensures var r := Backend.CaseResult(lift, row, keys);
      (r.Ok? && Agrees(row, metadata, r.value)) <==> RunsAsExpected(lift, row, metadata)
  {
    hide HexBytes, Judge, Launch, Apply, Reset, SetUp, StartState, EndsAsExpected, NormalMismatches, StatesAgree,
         ByteStatesAgree, MemoryAgrees;
    Backend.HexBytesShort(row.opcode);
    var compiled := Backend.Meaning(lift, row.address, row.opcode);
    var applied := Apply(Reset(), row.initialState, row.initialBytes);
    if row.opcode != "" && compiled.Resolved? && applied.Ok? {
      var opcode := HexBytes(row.opcode).value;
      var m := SetUp(row.address, opcode, row.initialMemory);
      NormalRunsPassExactly(Launch(compiled.code, StartState(applied.value, row.address), m), row, metadata, keys);
    }
  }
}
