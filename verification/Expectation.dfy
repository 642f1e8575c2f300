/** The records that travel between the reader, the backend and the comparator. */
module Expectation {
  import opened Wrappers

  datatype MemoryCell = MemoryCell(address: u64, bytes: seq<byte>, permissions: bv8)

  datatype MemoryExpectation = MemoryExpectation(address: u64, bytes: seq<byte>, mask: seq<byte>)

  datatype OutcomeClass = Normal | Exception | Unsupported | BackendError

  type Scalars = map<string, u64>

  type ByteStates = map<string, seq<byte>>

  datatype ExecutionResult = ExecutionResult(
    outcomeClass: OutcomeClass,
    finalState: Scalars,
    finalBytes: ByteStates,
    finalMemory: seq<MemoryExpectation>,
    exceptionDetail: Option<string>,
    backendError: Option<string>)

  datatype ExpectationRow = ExpectationRow(
    testCaseId: nat,
    instructionId: nat,
    address: u64,
    instruction: string,
    opcode: string,
    stateIndex: nat,
    initialState: Scalars,
    expectedFinalState: Option<Scalars>,
    initialBytes: ByteStates,
    expectedFinalBytes: ByteStates,
    expectedExceptionKind: Option<string>,
    initialMemory: seq<MemoryCell>,
    expectedMemory: seq<MemoryExpectation>,
    totalStates: u64,
    selectedStates: u64,
    selectedStateIndex: nat)
}
