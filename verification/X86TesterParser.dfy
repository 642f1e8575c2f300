/** The reader of the pooled text format, `src/x86tester_parser.cpp`. */
module X86TesterParser {
  import opened Wrappers
  import opened Text
  import opened Numbers
  import opened Expectation
  import LE = LittleEndian

  datatype ParseError =
    | NotAnInteger
    | SchemaPrefixMissing
    | EmptyStateName
    | NotAHeader
    | WrongFieldCount
    | OpcodeWithoutHash
    | BadHex(error: HexError)
    | NotADataHeader
    | PoolValueWithoutHash
    | EmptyMemoryAddress
    | ValuesWithoutSchema
    | MissingValues
    | WrongValueCount
    | EmptyIndex
    | IndexOutOfRange
    | NoSeparator
    | ManySeparators
    | MissingExceptionKind
    | DuplicateDataHeader
    | RowBeforeHeader
    | MissingDataHeader
    | MissingPoolValues

  datatype InstructionHeader = InstructionHeader(
    address: u64,
    opcode: string,
    instruction: string,
    rowCount: u64,
    inputSchema: seq<string>,
    outputSchema: seq<string>)

  // ---- Keys and values ----

  function CanonicalStateKey(key: string): string {
    var k := ToLower(Trim(key));
    if k == "flags" || k == "eflags" || k == "rflags" then "flag" else k
  }

  /** The address of a memory key, nothing for another key, an error for a memory key without an address. */
  function ParseMemoryAddressKey(rawKey: string): Result<Option<u64>, ParseError> {
    var key := ToLower(Trim(rawKey));
    var bracketed := StartsWith(key, "mem[") && key[|key| - 1] == ']';
    if !bracketed && !StartsWith(key, "mem@") then Ok(None)
    else
      var text := if bracketed then key[4..|key| - 1] else key[4..];
      if text == "" then Err(EmptyMemoryAddress)
      else match ParseUnsigned(text, 0)
        case Some(address) => Ok(Some(address))
        case None => Err(NotAnInteger)
  }

  predicate HasNumericSuffix(key: string, prefix: string) {
    |key| > |prefix| && StartsWith(key, prefix) && IsDigit(key[|prefix|], 10)
  }

  predicate IsByteStateKey(key: string) {
    HasNumericSuffix(key, "xmm") || HasNumericSuffix(key, "ymm") || HasNumericSuffix(key, "zmm")
    || HasNumericSuffix(key, "mm") || HasNumericSuffix(key, "st")
  }

  datatype PooledCell = PooledCell(address: u64, bytes: seq<byte>)

  /** What the values of one side of a row add up to. */
  datatype Side = Side(scalars: Scalars, bytesMap: ByteStates, memory: seq<PooledCell>)

  const NOTHING := Side(map[], map[], [])

  function ScalarOf(bytes: seq<byte>): u64
    requires |bytes| <= 8
  {
    ScalarFits(bytes);
    LE.Compose(bytes)
  }

  lemma ScalarFits(bytes: seq<byte>)
    requires |bytes| <= 8
    ensures LE.Compose(bytes) < TWO64
  {
    LE.ComposeFits(bytes);
    ShiftMonotone(|bytes|);
    LE.ShiftLeftValues(1);
  }

  lemma {:induction false} ShiftMonotone(n: nat)
    requires n <= 8
    ensures LE.ShiftLeft(1, n) <= LE.ShiftLeft(1, 8)
    decreases 8 - n
  {
    if n < 8 {
      ShiftMonotone(n + 1);
      ShiftPositive(n);
    }
  }

  lemma {:induction false} ShiftPositive(n: nat)
    ensures LE.ShiftLeft(1, n) > 0
  {
    if n > 0 {
      ShiftPositive(n - 1);
    }
  }

  function AddStateBytes(side: Side, rawKey: string, bytes: seq<byte>): Side {
    var key := CanonicalStateKey(rawKey);
    var scalars := if 0 < |bytes| <= 8 then side.scalars[key := ScalarOf(bytes)] else side.scalars;
    var bytesMap := if IsByteStateKey(key) || |bytes| > 8 then side.bytesMap[key := bytes] else side.bytesMap;
    Side(scalars, bytesMap, side.memory)
  }

  function AddPooledValue(side: Side, rawKey: string, bytes: seq<byte>): Result<Side, ParseError> {
    match ParseMemoryAddressKey(rawKey)
    case Err(e) => Err(e)
    case Ok(Some(address)) => Ok(side.(memory := side.memory + [PooledCell(address, bytes)]))
    case Ok(None) => Ok(AddStateBytes(side, rawKey, bytes))
  }

  datatype Pair = Pair(key: string, bytes: seq<byte>)

  /** The values of a schema added in schema order. */
  function ApplyPairs(side: Side, pairs: seq<Pair>): Result<Side, ParseError>
    decreases |pairs|
  {
    if pairs == [] then Ok(side)
    else match AddPooledValue(side, pairs[0].key, pairs[0].bytes)
      case Err(e) => Err(e)
      case Ok(next) => ApplyPairs(next, pairs[1..])
  }

  type Pool = seq<seq<byte>>

  predicate InPool(indices: seq<nat>, pool: Pool) {
    Below(indices, |pool|)
  }

  function PairsOf(schema: seq<string>, indices: seq<nat>, pool: Pool): (pairs: seq<Pair>)
    requires |schema| == |indices| && InPool(indices, pool)
    ensures |pairs| == |schema|
  {
    seq(|schema|, i requires 0 <= i < |schema| => Pair(schema[i], pool[indices[i]]))
  }

  method ApplySchemaValues(schema: seq<string>, indices: seq<nat>, pool: Pool) returns (r: Result<Side, ParseError>)
    requires |schema| == |indices| && InPool(indices, pool)
    ensures r == ApplyPairs(NOTHING, PairsOf(schema, indices, pool))
  {
    hide AddPooledValue;
    var side := NOTHING;
    ghost var pairs := PairsOf(schema, indices, pool);
    for i := 0 to |schema|
      invariant ApplyPairs(side, pairs[i..]) == ApplyPairs(NOTHING, pairs)
    {
      assert pairs[i..][0] == Pair(schema[i], pool[indices[i]]) && pairs[i..][1..] == pairs[i + 1..];
      match AddPooledValue(side, schema[i], pool[indices[i]]) {
        case Err(e) => return Err(e);
        case Ok(next) => side := next;
      }
    }
    return Ok(side);
  }

  // ---- Lines ----

  function TrimAll(parts: seq<string>): (r: seq<string>)
    ensures |r| == |parts|
  {
    seq(|parts|, i requires 0 <= i < |parts| => Trim(parts[i]))
  }

  function ParseSchemaField(field: string, name: string): Result<seq<string>, ParseError> {
    var trimmed := Trim(field);
    if !StartsWith(trimmed, name + "=") then Err(SchemaPrefixMissing)
    else
      var body := Trim(trimmed[|name| + 1..]);
      if body == "" then Ok([])
      else
        var keys := TrimAll(SplitSpec(body, ','));
        if "" in keys then Err(EmptyStateName) else Ok(keys)
  }

  function ParseHeader(line: string): Result<InstructionHeader, ParseError> {
    if !StartsWith(line, "instr:") then Err(NotAHeader)
    else
      var parts := SplitSpec(line[6..], ';');
      if |parts| != 6 then Err(WrongFieldCount)
      else match ParseUnsigned(Trim(parts[0]), 0)
        case None => Err(NotAnInteger)
        case Some(address) =>
          var opcodeField := Trim(parts[1]);
          if !StartsWith(opcodeField, "#") then Err(OpcodeWithoutHash)
          else
            var opcode := ToUpper(opcodeField[1..]);
            match HexBytes(opcode)
            case Err(e) => Err(BadHex(e))
            case Ok(_) => ParseHeaderTail(address, opcode, Trim(parts[2]), parts[3], parts[4], parts[5])
  }

  function ParseHeaderTail(address: u64, opcode: string, instruction: string, count: string, inField: string,
      outField: string)
    : Result<InstructionHeader, ParseError>
  {
    match ParseUnsigned(Trim(count), 10)
    case None => Err(NotAnInteger)
    case Some(rowCount) =>
      match ParseSchemaField(inField, "in")
      case Err(e) => Err(e)
      case Ok(inputSchema) =>
        match ParseSchemaField(outField, "out")
        case Err(e) => Err(e)
        case Ok(outputSchema) =>
          Ok(InstructionHeader(address, opcode, instruction, rowCount, inputSchema, outputSchema))
  }

  function ParseDataHeader(line: string): Result<u64, ParseError> {
    if !StartsWith(line, "data:") then Err(NotADataHeader)
    else match ParseUnsigned(Trim(line[5..]), 10)
      case None => Err(NotAnInteger)
      case Some(n) => Ok(n)
  }

  function ParseDataPoolValue(line: string): Result<seq<byte>, ParseError> {
    var trimmed := Trim(line);
    if !StartsWith(trimmed, "#") then Err(PoolValueWithoutHash)
    else match HexBytes(trimmed[1..])
      case Err(e) => Err(BadHex(e))
      case Ok(bytes) => Ok(bytes)
  }

  function ParseIndex(part: string, poolSize: nat): Result<nat, ParseError> {
    var text := Trim(part);
    if text == "" then Err(EmptyIndex)
    else match ParseUnsigned(text, 10)
      case None => Err(NotAnInteger)
      case Some(index) => if index >= poolSize then Err(IndexOutOfRange) else Ok(index)
  }

  predicate Below(indices: seq<nat>, limit: nat) {
    forall i :: 0 <= i < |indices| ==> indices[i] < limit
  }

  function ParseIndices(found: seq<nat>, parts: seq<string>, poolSize: nat): (r: Result<seq<nat>, ParseError>)
    ensures r.Ok? ==> |r.value| == |found| + |parts|
    ensures r.Ok? && Below(found, poolSize) ==> Below(r.value, poolSize)
    decreases |parts|
  {
    if parts == [] then Ok(found)
    else match ParseIndex(parts[0], poolSize)
      case Err(e) => Err(e)
      case Ok(index) => ParseIndices(found + [index], parts[1..], poolSize)
  }

  function IndexList(text: string, expectedCount: nat, poolSize: nat): (r: Result<seq<nat>, ParseError>)
    ensures r.Ok? ==> |r.value| == expectedCount && Below(r.value, poolSize)
  {
    var trimmed := Trim(text);
    if expectedCount == 0 then if trimmed != "" then Err(ValuesWithoutSchema) else Ok([])
    else if trimmed == "" then Err(MissingValues)
    else
      var parts := SplitSpec(trimmed, ',');
      if |parts| != expectedCount then Err(WrongValueCount) else ParseIndices([], parts, poolSize)
  }

  method ParseIndexList(text: string, expectedCount: nat, poolSize: nat) returns (r: Result<seq<nat>, ParseError>)
    ensures r == IndexList(text, expectedCount, poolSize)
  {
    hide ParseIndex;
    var trimmed := Trim(text);
    if expectedCount == 0 {
      if trimmed != "" {
        return Err(ValuesWithoutSchema);
      }
      return Ok([]);
    }
    if trimmed == "" {
      return Err(MissingValues);
    }
    var parts := Split(trimmed, ',');
    if |parts| != expectedCount {
      return Err(WrongValueCount);
    }
    var indices: seq<nat> := [];
    for i := 0 to |parts|
      invariant ParseIndices(indices, parts[i..], poolSize) == ParseIndices([], parts, poolSize)
    {
      assert parts[i..][0] == parts[i] && parts[i..][1..] == parts[i + 1..];
      match ParseIndex(parts[i], poolSize) {
        case Err(e) => return Err(e);
        case Ok(index) =>
          indices := indices + [index];
      }
    }
    return Ok(indices);
  }

  function InputCells(memory: seq<PooledCell>): (cells: seq<MemoryCell>)
    ensures |cells| == |memory|
  {
    seq(|memory|, i requires 0 <= i < |memory| => MemoryCell(memory[i].address, memory[i].bytes, 0))
  }

  function OutputCells(memory: seq<PooledCell>): (cells: seq<MemoryExpectation>)
    ensures |cells| == |memory|
  {
    seq(|memory|, i requires 0 <= i < |memory| => MemoryExpectation(memory[i].address, memory[i].bytes, []))
  }

  /** The row that a header, its place and its two sides make. */
  function BuildRow(header: InstructionHeader, instructionId: nat, testCaseId: nat, stateIndex: nat,
                    input: Side, output: Side, exception: Option<string>): ExpectationRow
  {
    ExpectationRow(
      testCaseId, instructionId, header.address, header.instruction, header.opcode, stateIndex,
      input.scalars, Some(output.scalars), input.bytesMap, output.bytesMap, exception,
      InputCells(input.memory), OutputCells(output.memory), header.rowCount, header.rowCount, stateIndex)
  }

  function ParseOutput(text: string, schema: seq<string>, pool: Pool): Result<(Side, Option<string>), ParseError> {
    if StartsWith(text, "!") then
      var kind := Trim(text[1..]);
      if kind == "" then Err(MissingExceptionKind) else Ok((NOTHING, Some(kind)))
    else match IndexList(text, |schema|, |pool|)
      case Err(e) => Err(e)
      case Ok(indices) =>
        match ApplyPairs(NOTHING, PairsOf(schema, indices, pool))
        case Err(e) => Err(e)
        case Ok(side) => Ok((side, None))
  }

  function ParseInput(text: string, schema: seq<string>, pool: Pool): Result<Side, ParseError> {
    match IndexList(text, |schema|, |pool|)
    case Err(e) => Err(e)
    case Ok(indices) => ApplyPairs(NOTHING, PairsOf(schema, indices, pool))
  }

  function ParseStateRow(line: string, header: InstructionHeader, instructionId: nat, testCaseId: nat, stateIndex: nat,
      pool: Pool)
    : Result<ExpectationRow, ParseError>
  {
    var trimmed := Trim(line);
    var separator := Find(trimmed, '|', 0);
    if separator == |trimmed| then Err(NoSeparator)
    else if Find(trimmed, '|', separator + 1) != |trimmed| then Err(ManySeparators)
    else match ParseInput(trimmed[..separator], header.inputSchema, pool)
      case Err(e) => Err(e)
      case Ok(input) =>
        match ParseOutput(Trim(trimmed[separator + 1..]), header.outputSchema, pool)
        case Err(e) => Err(e)
        case Ok((output, exception)) =>
          Ok(BuildRow(header, instructionId, testCaseId, stateIndex, input, output, exception))
  }

  // ---- Files ----

  datatype ParsedCorpus = ParsedCorpus(rows: seq<ExpectationRow>, instructionGroups: nat, parseWarnings: nat)

  datatype ParsedInstructionHeader = ParsedInstructionHeader(
    instructionId: nat, address: u64, opcode: string, instruction: string, rowCount: u64)

  /** The local variables of the line loop. */
  datatype State = State(
    dataValuesRemaining: nat,
    pool: Pool,
    header: Option<InstructionHeader>,
    instructionId: nat,
    nextTestCaseId: nat,
    stateIndex: nat,
    rowsInGroup: nat,
    corpus: ParsedCorpus)

  datatype Phase = BeforeData | InBody(state: State)

  function FinishGroup(s: State): ParsedCorpus {
    if s.header.Some? && s.rowsInGroup != s.header.value.rowCount
    then s.corpus.(parseWarnings := s.corpus.parseWarnings + 1)
    else s.corpus
  }

  function StartGroup(s: State, header: InstructionHeader): State {
    var corpus := FinishGroup(s);
    s.(header := Some(header), stateIndex := 0, rowsInGroup := 0, instructionId := s.instructionId + 1,
       corpus := corpus.(instructionGroups := corpus.instructionGroups + 1))
  }

  function AddRow(s: State, row: ExpectationRow): State {
    s.(nextTestCaseId := s.nextTestCaseId + 1, stateIndex := s.stateIndex + 1, rowsInGroup := s.rowsInGroup + 1,
       corpus := s.corpus.(rows := s.corpus.rows + [row]))
  }

  function BodyLine(s: State, line: string): Result<State, ParseError> {
    if s.dataValuesRemaining != 0 then
      match ParseDataPoolValue(line)
      case Err(e) => Err(e)
      case Ok(bytes) => Ok(s.(pool := s.pool + [bytes], dataValuesRemaining := s.dataValuesRemaining - 1))
    else if StartsWith(line, "data:") then Err(DuplicateDataHeader)
    else if StartsWith(line, "instr:") then
      match ParseHeader(line)
      case Err(e) => Err(e)
      case Ok(header) => Ok(StartGroup(s, header))
    else if s.header.None? then Err(RowBeforeHeader)
    else match ParseStateRow(line, s.header.value, s.instructionId, s.nextTestCaseId, s.stateIndex, s.pool)
      case Err(e) => Err(e)
      case Ok(row) => Ok(AddRow(s, row))
  }

  const START := ParsedCorpus([], 0, 0)

  function Line(p: Phase, line: string): Result<Phase, ParseError> {
    var trimmed := Trim(line);
    if trimmed == "" then Ok(p)
    else match p
      case BeforeData =>
        (match ParseDataHeader(trimmed)
         case Err(e) => Err(e)
         case Ok(n) => Ok(InBody(State(n, [], None, 0, 0, 0, 0, START))))
      case InBody(s) =>
        match BodyLine(s, trimmed)
        case Err(e) => Err(e)
        case Ok(s') => Ok(InBody(s'))
  }

  function Feed(p: Phase, lines: seq<string>): Result<Phase, ParseError>
    decreases |lines|
  {
    if lines == [] then Ok(p)
    else match Line(p, lines[0])
      case Err(e) => Err(e)
      case Ok(next) => Feed(next, lines[1..])
  }

  function Finish(p: Phase): Result<ParsedCorpus, ParseError> {
    match p
    case BeforeData => Err(MissingDataHeader)
    case InBody(s) => if s.dataValuesRemaining != 0 then Err(MissingPoolValues) else Ok(FinishGroup(s))
  }

  function Parsed(lines: seq<string>): Result<ParsedCorpus, ParseError> {
    match Feed(BeforeData, lines)
    case Err(e) => Err(e)
    case Ok(p) => Finish(p)
  }

  method ParseFile(lines: seq<string>) returns (r: Result<ParsedCorpus, ParseError>)
    ensures r == Parsed(lines)
  {
    hide ParseDataHeader, ParseDataPoolValue, ParseHeader, ParseStateRow, Trim, StartsWith;
    var haveDataHeader := false;
    var s := State(0, [], None, 0, 0, 0, 0, START);
    for i := 0 to |lines|
      invariant Feed(if haveDataHeader then InBody(s) else BeforeData, lines[i..]) == Feed(BeforeData, lines)
      invariant !haveDataHeader ==> s == State(0, [], None, 0, 0, 0, 0, START)
    {
      assert lines[i..][0] == lines[i] && lines[i..][1..] == lines[i + 1..];
      var trimmed := Trim(lines[i]);
      if trimmed == "" {
        continue;
      }
      if !haveDataHeader {
        match ParseDataHeader(trimmed) {
          case Err(e) => return Err(e);
          case Ok(n) => s := s.(dataValuesRemaining := n);
        }
        haveDataHeader := true;
        continue;
      }
      if s.dataValuesRemaining != 0 {
        match ParseDataPoolValue(trimmed) {
          case Err(e) => return Err(e);
          case Ok(bytes) => s := s.(pool := s.pool + [bytes], dataValuesRemaining := s.dataValuesRemaining - 1);
        }
        continue;
      }
      if StartsWith(trimmed, "data:") {
        return Err(DuplicateDataHeader);
      }
      if StartsWith(trimmed, "instr:") {
        match ParseHeader(trimmed) {
          case Err(e) => return Err(e);
          case Ok(header) => s := StartGroup(s, header);
        }
      } else {
        if s.header.None? {
          return Err(RowBeforeHeader);
        }
        match ParseStateRow(trimmed, s.header.value, s.instructionId, s.nextTestCaseId, s.stateIndex, s.pool) {
          case Err(e) => return Err(e);
          case Ok(row) => s := AddRow(s, row);
        }
      }
    }
    if !haveDataHeader {
      return Err(MissingDataHeader);
    }
    if s.dataValuesRemaining != 0 {
      return Err(MissingPoolValues);
    }
    return Ok(FinishGroup(s));
  }

  // ---- The header-only scan ----

  function Short(header: InstructionHeader, instructionId: nat): ParsedInstructionHeader {
    ParsedInstructionHeader(instructionId, header.address, header.opcode, header.instruction, header.rowCount)
  }

  function ScanFrom(found: seq<ParsedInstructionHeader>, lines: seq<string>): Result<seq<ParsedInstructionHeader>,
      ParseError>
    decreases |lines|
  {
    if lines == [] then Ok(found)
    else
      var trimmed := Trim(lines[0]);
      if !StartsWith(trimmed, "instr:") then ScanFrom(found, lines[1..])
      else match ParseHeader(trimmed)
        case Err(e) => Err(e)
        case Ok(header) => ScanFrom(found + [Short(header, |found| + 1)], lines[1..])
  }

  method ParseInstructionHeaders(lines: seq<string>) returns (r: Result<seq<ParsedInstructionHeader>, ParseError>)
    ensures r == ScanFrom([], lines)
  {
    hide ParseHeader, Trim;
    var headers: seq<ParsedInstructionHeader> := [];
    var instructionId := 0;
    for i := 0 to |lines|
      invariant instructionId == |headers|
      invariant ScanFrom(headers, lines[i..]) == ScanFrom([], lines)
    {
      assert lines[i..][0] == lines[i] && lines[i..][1..] == lines[i + 1..];
      var trimmed := Trim(lines[i]);
      if trimmed == "" {
        continue;
      }
      if !StartsWith(trimmed, "instr:") {
        continue;
      }
      match ParseHeader(trimmed) {
        case Err(e) => return Err(e);
        case Ok(header) =>
          instructionId := instructionId + 1;
          headers := headers + [Short(header, instructionId)];
      }
    }
    return Ok(headers);
  }
}
