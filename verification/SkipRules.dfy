/** Which rows are not run: `PreExecutionSkip` and its predicates in `src/tester_main.cpp`. */
module SkipRules {
  import opened Wrappers
  import opened Text
  import opened Numbers
  import opened Expectation
  import opened XedMetadata
  import LE = LittleEndian
  import StateBridge
  import X86TesterParser

  predicate RequiresMemoryOracle(metadata: Metadata) {
    exists i :: 0 <= i < |metadata.memoryOperands|
      && (metadata.memoryOperands[i].isRead || metadata.memoryOperands[i].isWritten)
  }

  predicate EndsInLowDigit(key: string)
    requires |key| == 3
  {
    '0' <= key[2] <= '7'
  }

  predicate IsX87StackRegister(key: string) {
    |key| == 3 && key[0] == 's' && key[1] == 't' && EndsInLowDigit(key)
  }

  /** Denormals, pseudo-denormals and unnormals of the 80-bit format. */
  predicate IsUnsupportedX87StackValue(bytes: seq<byte>) {
    |bytes| == 10
    && var significand := LE.Compose(bytes[..8]);
       var low: int, high: int := bytes[8], bytes[9];
       var exponent := (low + 0x100 * high) % 0x8000;
       if exponent == 0 then significand != 0 else exponent != 0x7fff && bytes[7] < 0x80
  }

  predicate HasUnsupportedX87StackValue(row: ExpectationRow) {
    exists raw :: raw in row.initialBytes && IsX87StackRegister(X86TesterParser.CanonicalStateKey(raw))
                  && IsUnsupportedX87StackValue(row.initialBytes[raw])
  }

  predicate IsFpuUnsupported(metadata: Metadata, row: ExpectationRow) {
    if metadata.iclass in {"FXCH", "FABS", "FCHS", "FST"} || StartsWith(metadata.iclass, "FCMOV")
    then HasUnsupportedX87StackValue(row)
    else if metadata.iclass in {"FXAM", "FNSTSW", "FNINIT", "FNCLEX", "FDECSTP", "FINCSTP", "FFREE", "FFREEP"}
    then false
    else metadata.extension == "X87" || StartsWith(metadata.category, "X87")
  }

  predicate IsMmxStateKey(rawKey: string) {
    var key := ToLower(X86TesterParser.CanonicalStateKey(rawKey));
    |key| == 3 && StartsWith(key, "mm") && EndsInLowDigit(key)
  }

  predicate UsesMmxState(row: ExpectationRow) {
    || (exists key :: key in row.initialState && IsMmxStateKey(key))
    || (exists key :: key in row.initialBytes && IsMmxStateKey(key))
    || (row.expectedFinalState.Some? && exists key :: key in row.expectedFinalState.value && IsMmxStateKey(key))
    || (exists key :: key in row.expectedFinalBytes && IsMmxStateKey(key))
  }

  predicate IsPrivilegedOrIoUnsupported(metadata: Metadata) {
    metadata.category == "IO"
    || metadata.iclass in {
         "CLI", "STI", "HLT", "IN", "OUT", "INSB", "INSW", "INSD", "OUTSB", "OUTSW", "OUTSD", "LGDT", "LIDT",
         "LLDT", "LTR",
         "LMSW", "CLTS", "INVLPG", "WBINVD", "RDMSR", "WRMSR", "SWAPGS", "XSETBV", "CLAC", "STAC"}
  }

  predicate IsEnvironmentReadUnsupported(metadata: Metadata) {
    metadata.iclass in {"RDTSC", "RDTSCP", "RDPMC", "RDPRU", "RDRAND", "RDSEED", "RDPID", "RDGSBASE"}
  }

  function ScalarAliases(): map<string, string> {
    map["rax" := "rax", "eax" := "rax", "ax" := "rax", "rbx" := "rbx", "ebx" := "rbx", "bx" := "rbx",
        "rcx" := "rcx", "ecx" := "rcx", "cx" := "rcx", "rdx" := "rdx", "edx" := "rdx", "dx" := "rdx",
        "rsi" := "rsi", "esi" := "rsi", "si" := "rsi", "rdi" := "rdi", "edi" := "rdi", "di" := "rdi",
        "rsp" := "rsp", "esp" := "rsp", "sp" := "rsp", "rbp" := "rbp", "ebp" := "rbp", "bp" := "rbp"]
  }

  function CanonicalScalarOperand(operand: string): Option<string> {
    var name := ToLower(Trim(operand));
    if name == "" || '[' in name then None
    else if name in ScalarAliases() then Some(ScalarAliases()[name])
    else if name[0] == 'r' then
      var pos := DigitRun(name, 1, 10);
      if pos == 1 || pos > 3 then None
      else if name[pos..] == "" || name[pos..] == "d" || name[pos..] == "w" then Some(name[..pos])
      else None
    else None
  }

  function DestinationWidthBits(instruction: string): nat {
    var mnemonicEnd := Find(instruction, ' ', 0);
    if mnemonicEnd == |instruction| then 0
    else
      var operands := instruction[mnemonicEnd + 1..];
      var dest := ToLower(Trim(operands[..Find(operands, ',', 0)]));
      if dest in {"ax", "bx", "cx", "dx", "si", "di", "sp", "bp"}
         || (|dest| >= 3 && dest[0] == 'r' && dest[|dest| - 1] == 'w')
      then 16
      else if (|dest| == 3 && dest[0] == 'e') || (|dest| >= 3 && dest[0] == 'r' && dest[|dest| - 1] == 'd') then 32
      else 64
  }

  function DescriptorSourceSelector(row: ExpectationRow): Option<nat> {
    var comma := Find(row.instruction, ',', 0);
    if comma == |row.instruction| then None
    else
      var rest := Trim(row.instruction[comma + 1..]);
      var next := Find(rest, ',', 0);
      match CanonicalScalarOperand(if next < |rest| then Trim(rest[..next]) else rest)
      case None => None
      case Some(key) => if key in row.initialState then Some(row.initialState[key] % 0x1_0000) else None
  }

  predicate IsVariableSelector(selector: nat) { selector == 0x50 || selector == 0x51 }

  predicate HasVariableDescriptorSelector(row: ExpectationRow) {
    match DescriptorSourceSelector(row)
    case Some(selector) => IsVariableSelector(selector)
    case None =>
      exists raw :: raw in row.initialState && StateBridge.IsScalarRegister(X86TesterParser.CanonicalStateKey(raw))
                    && IsVariableSelector(row.initialState[raw] % 0x1_0000)
  }

  predicate IsDescriptorStateUnsupported(metadata: Metadata, row: ExpectationRow) {
    (metadata.iclass == "LAR" || metadata.iclass == "LSL")
    && !(metadata.iclass == "LAR" && DescriptorSourceSelector(row) == Some(0x50)
         && DestinationWidthBits(row.instruction) == 16)
    && HasVariableDescriptorSelector(row)
  }

  predicate IsExpectedExceptionUnsupported(metadata: Metadata, row: ExpectationRow) {
    row.expectedExceptionKind.Some? && metadata.iclass != "DIV" && metadata.iclass != "IDIV"
  }

  predicate IsAtomic128Unsupported(metadata: Metadata) { metadata.iclass == "CMPXCHG16B" }

  predicate IsPopfqUnsupported(metadata: Metadata) { metadata.iclass == "POPFQ" }

  datatype SkipReason =
    | XedDecodeFailed | XedLengthMismatch | MemoryStateMissing | FpuState | MmxState | PrivilegedOrIo | EnvironmentRead
    | DescriptorState | ExpectedException | Atomic128 | PopfqFlagState
    | RemillLift | RemillDecode | StateKeyUnsupported | StateBytesInvalid
    | BackendUnsupported | ExceptionUnsupported | OtherUnsupported
  {
    function Text(): string {
      match this
      case XedDecodeFailed => "xed_decode_failed"
      case XedLengthMismatch => "xed_length_mismatch"
      case MemoryStateMissing => "memory_state_missing"
      case FpuState => "fpu_state_unsupported"
      case MmxState => "mmx_state_unsupported"
      case PrivilegedOrIo => "privileged_or_io_unsupported"
      case EnvironmentRead => "environment_read_unsupported"
      case DescriptorState => "descriptor_state_unsupported"
      case ExpectedException => "expected_exception_unsupported"
      case Atomic128 => "atomic128_unsupported"
      case PopfqFlagState => "popfq_flag_state_unsupported"
      case RemillLift => "unsupported:remill_lift"
      case RemillDecode => "unsupported:remill_decode"
      case StateKeyUnsupported => "unsupported:state_key"
      case StateBytesInvalid => "unsupported:state_bytes"
      case BackendUnsupported => "unsupported:backend"
      case ExceptionUnsupported => "unsupported:exception"
      case OtherUnsupported => "unsupported"
    }
  }

  /** The reason a row is skipped before it runs, or none. */
  function PreExecutionSkip(metadata: Metadata, row: ExpectationRow, length: nat,
      memoryStateMissing: bool): Option<SkipReason> {
    if !metadata.ok then Some(XedDecodeFailed)
    else if metadata.length != length then Some(XedLengthMismatch)
    else if memoryStateMissing then Some(MemoryStateMissing)
    else if IsFpuUnsupported(metadata, row) then Some(FpuState)
    else if UsesMmxState(row) then Some(MmxState)
    else if IsPrivilegedOrIoUnsupported(metadata) then Some(PrivilegedOrIo)
    else if IsEnvironmentReadUnsupported(metadata) then Some(EnvironmentRead)
    else if IsDescriptorStateUnsupported(metadata, row) then Some(DescriptorState)
    else if IsExpectedExceptionUnsupported(metadata, row) then Some(ExpectedException)
    else if IsAtomic128Unsupported(metadata) then Some(Atomic128)
    else if IsPopfqUnsupported(metadata) then Some(PopfqFlagState)
    else None
  }

  /** The row the prepare pass makes of a header: nothing but its encoding. */
  function BareRow(header: X86TesterParser.ParsedInstructionHeader): ExpectationRow {
    ExpectationRow(0, header.instructionId, header.address, header.instruction, header.opcode, 0,
                   map[], None, map[], map[], None, [], [], 0, 0, 0)
  }

  /** Nothing about state can skip a bare row. */
  lemma BareRowHasNoState(metadata: Metadata, header: X86TesterParser.ParsedInstructionHeader)
    ensures !HasUnsupportedX87StackValue(BareRow(header)) && !UsesMmxState(BareRow(header))
    ensures !IsDescriptorStateUnsupported(metadata, BareRow(header))
    ensures !IsExpectedExceptionUnsupported(metadata, BareRow(header))
  {
    hide CanonicalScalarOperand, Find, Trim, DestinationWidthBits;
  }

  lemma FpuWithoutState(metadata: Metadata, bare: ExpectationRow, row: ExpectationRow)
    requires !HasUnsupportedX87StackValue(bare)
    ensures IsFpuUnsupported(metadata, bare) ==> IsFpuUnsupported(metadata, row)
  {
    hide HasUnsupportedX87StackValue, StartsWith;
  }

  /** A header that is skipped bare is skipped with every state: what the prepare pass leaves out never runs. */
  lemma BareSkipImpliesSkip(metadata: Metadata, header: X86TesterParser.ParsedInstructionHeader, row: ExpectationRow,
      length: nat, memoryStateMissing: bool)
    requires PreExecutionSkip(metadata, BareRow(header), length, false).Some?
    ensures PreExecutionSkip(metadata, row, length, memoryStateMissing).Some?
  {
    BareRowHasNoState(metadata, header);
    FpuWithoutState(metadata, BareRow(header), row);
    hide IsFpuUnsupported, UsesMmxState, IsDescriptorStateUnsupported, IsExpectedExceptionUnsupported,
         IsPrivilegedOrIoUnsupported, IsEnvironmentReadUnsupported, IsAtomic128Unsupported, IsPopfqUnsupported, BareRow,
         HasUnsupportedX87StackValue;
  }
}
