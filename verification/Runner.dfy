/** The two passes of `Run` in `src/tester_main.cpp`: prepare, then execute, with filters, limits and counters. */
module Runner {
  import opened Wrappers
  import opened Text
  import opened Numbers
  import opened Expectation
  import opened XedMetadata
  import opened SkipRules
  import opened OrderedKeys
  import P = X86TesterParser
  import B = Backend
  import CaseRun
  import Comparator

  datatype Options = Options(
    mnemonics: set<string>, opcodes: set<string>, limitStates: nat, limitInstructions: nat,
    execute: bool, stopOnFirstFail: bool)

  /** The options, XED's decoder and Remill's lifter. */
  datatype Context = Context(options: Options, decode: (u64, seq<byte>) -> Metadata, lift: B.Lifter)

  datatype Summary = Summary(
    files: nat, instructionGroups: nat, rows: nat, selectedRows: nat, selectedInstructionGroups: nat,
    parseWarnings: nat,
    uniqueDecodes: nat, xedDecodeFailures: nat, xedLengthMismatches: nat, memoryRowsWithoutOracle: nat,
    executionPassed: nat, executionFailed: nat, executionSkipped: nat,
    skipReasons: map<SkipReason, nat>, rowsByMnemonic: map<string, nat>, groupsByMnemonic: map<string, nat>)

  const NO_COUNTS := Summary(0, 0, 0, 0, 0, 0, 0, 0, 0, 0, 0, 0, 0, map[], map[], map[])

  /** The variables of the execute pass, and the rows it has handed to `RunCase`. */
  datatype State = State(
    summary: Summary, decodeCache: map<string, Metadata>, selectedGroups: set<string>, stop: bool,
    ran: seq<ExpectationRow>)

  const INITIAL := State(NO_COUNTS, map[], {}, false, [])

  // ---- Filters ----

  function FirstBlank(text: string): (pos: nat)
    ensures pos <= |text|
  {
    if text == "" || text[0] == ' ' || text[0] == '\t' then 0 else 1 + FirstBlank(text[1..])
  }

  function FirstToken(text: string): string {
    var trimmed := Trim(text);
    ToLower(trimmed[..FirstBlank(trimmed)])
  }

  predicate Matches(o: Options, instruction: string, opcode: string) {
    (o.mnemonics == {} || FirstToken(instruction) in o.mnemonics) && (o.opcodes == {} || opcode in o.opcodes)
  }

  function GroupKey(path: string, instructionId: nat): string {
    path + (['#'] + Decimal(instructionId))
  }

  // ---- One row of the execute pass ----

  function Bump<K>(counts: map<K, nat>, key: K): map<K, nat> {
    counts[key := if key in counts then counts[key] + 1 else 1]
  }

  function OpcodeBytes(opcode: string): seq<byte> {
    if HexBytes(opcode).Ok? then HexBytes(opcode).value else []
  }

  /** What the reader guarantees and what memory can hold. */
  predicate Runnable(row: ExpectationRow) {
    HexBytes(row.opcode).Ok? && CaseRun.Representable(row)
  }

  function EnterGroup(o: Options, s: State, key: string, mnemonic: string): State {
    if key in s.selectedGroups then s
    else if o.limitInstructions != 0 && |s.selectedGroups| >= o.limitInstructions then s.(stop := true)
    else
      s.(selectedGroups := s.selectedGroups + {key},
         summary := s.summary.(selectedInstructionGroups := s.summary.selectedInstructionGroups + 1,
                               groupsByMnemonic := Bump(s.summary.groupsByMnemonic, mnemonic)))
  }

  function CountDecode(summary: Summary, metadata: Metadata, length: nat): Summary {
    summary.(uniqueDecodes := summary.uniqueDecodes + 1,
             xedDecodeFailures := summary.xedDecodeFailures + if metadata.ok then 0 else 1,
             xedLengthMismatches := summary.xedLengthMismatches
                                    + if metadata.ok && metadata.length != length then 1 else 0)
  }

  /** The decode cache after looking up a row. */
  function LookUp(c: Context, s: State, row: ExpectationRow): (t: State)
    ensures B.DecodeKey(row.address, row.opcode) in t.decodeCache
  {
    var key := B.DecodeKey(row.address, row.opcode);
    if key in s.decodeCache then s
    else
      var bytes := OpcodeBytes(row.opcode);
      var metadata := c.decode(row.address, bytes);
      s.(decodeCache := s.decodeCache[key := metadata], summary := CountDecode(s.summary, metadata, |bytes|))
  }

  predicate MemoryMissing(metadata: Metadata, row: ExpectationRow) {
    metadata.ok && RequiresMemoryOracle(metadata) && row.initialMemory == []
  }

  function CountRow(s: State, mnemonic: string, missing: bool): State {
    s.(summary := s.summary.(
         selectedRows := s.summary.selectedRows + 1,
         rowsByMnemonic := Bump(s.summary.rowsByMnemonic, mnemonic),
         memoryRowsWithoutOracle := s.summary.memoryRowsWithoutOracle + if missing then 1 else 0))
  }

  function RecordSkip(s: State, reason: SkipReason): State {
    s.(summary := s.summary.(executionSkipped := s.summary.executionSkipped + 1,
                             skipReasons := Bump(s.summary.skipReasons, reason)))
  }

  function UnsupportedReason(result: ExecutionResult): SkipReason {
    if result.backendError.Some? && result.backendError.value != "" then ErrorReason(result.backendError.value)
    else if result.exceptionDetail.Some? && result.exceptionDetail.value != "" then ExceptionUnsupported
    else OtherUnsupported
  }

  function ErrorReason(error: string): SkipReason {
    if StartsWith(error, "Remill failed to lift opcode") then RemillLift
    else if StartsWith(error, "Remill failed to decode opcode") then RemillDecode
    else if StartsWith(error, "unsupported scalar state key:") || StartsWith(error, "unsupported byte state key:")
    then StateKeyUnsupported
    else if StartsWith(error, "invalid byte state for register:") then StateBytesInvalid
    else BackendUnsupported
  }

  function FinalStateKeys(row: ExpectationRow): seq<string> {
    if row.expectedFinalState.Some? then Sorted(row.expectedFinalState.value.Keys) else []
  }

  function ResultOf(c: Context, row: ExpectationRow): ExecutionResult
    requires Runnable(row)
  {
    RunnableGivesResult(c.lift, row, FinalStateKeys(row));
    B.CaseResult(c.lift, row, FinalStateKeys(row)).value
  }

  lemma RunnableGivesResult(lift: B.Lifter, row: ExpectationRow, keys: seq<string>)
    requires Runnable(row)
    ensures B.CaseResult(lift, row, keys).Ok?
  {
    hide CaseRun.RunCode, HexBytes, CaseRun.Representable;
  }

  function JudgeResult(o: Options, s: State, row: ExpectationRow, metadata: Metadata, result: ExecutionResult): State {
    if result.outcomeClass == OutcomeClass.Unsupported then RecordSkip(s, UnsupportedReason(result))
    else if Comparator.Agrees(row, metadata, result) then
      s.(summary := s.summary.(executionPassed := s.summary.executionPassed + 1))
    else
      s.(summary := s.summary.(executionFailed := s.summary.executionFailed + 1), stop := s.stop || o.stopOnFirstFail)
  }

  /** Skipping, running and judging one selected row. */
  function RunRow(c: Context, s: State, row: ExpectationRow, metadata: Metadata, missing: bool): State
    requires Runnable(row)
  {
    match PreExecutionSkip(metadata, row, |OpcodeBytes(row.opcode)|, missing)
    case Some(reason) => RecordSkip(s, reason)
    case None => JudgeResult(c.options, s.(ran := s.ran + [row]), row, metadata, ResultOf(c, row))
  }

  /** A row that passed the filters and the limits. */
  function SelectedRow(c: Context, s: State, row: ExpectationRow): State
    requires Runnable(row)
  {
    var looked := LookUp(c, s, row);
    var metadata := looked.decodeCache[B.DecodeKey(row.address, row.opcode)];
    var missing := MemoryMissing(metadata, row);
    var counted := CountRow(looked, FirstToken(row.instruction), missing);
    if c.options.execute then RunRow(c, counted, row, metadata, missing) else counted
  }

  function ExecuteRow(c: Context, s: State, path: string, row: ExpectationRow): State
    requires Runnable(row)
  {
    if !Matches(c.options, row.instruction, row.opcode) then s
    else if c.options.limitStates != 0 && s.summary.selectedRows >= c.options.limitStates then s.(stop := true)
    else
      var entered := EnterGroup(c.options, s, GroupKey(path, row.instructionId), FirstToken(row.instruction));
      if entered.stop then entered else SelectedRow(c, entered, row)
  }

  predicate AllRunnable(rows: seq<ExpectationRow>) {
    forall i :: 0 <= i < |rows| ==> Runnable(rows[i])
  }

  function ExecuteRows(c: Context, s: State, path: string, rows: seq<ExpectationRow>): State
    requires AllRunnable(rows)
    decreases |rows|
  {
    if rows == [] || s.stop then s else ExecuteRows(c, ExecuteRow(c, s, path, rows[0]), path, rows[1..])
  }

  function CountFile(s: State, corpus: P.ParsedCorpus): State {
    s.(summary := s.summary.(
         files := s.summary.files + 1, instructionGroups := s.summary.instructionGroups + corpus.instructionGroups,
         rows := s.summary.rows + |corpus.rows|, parseWarnings := s.summary.parseWarnings + corpus.parseWarnings))
  }

  datatype Input = Input(path: string, lines: seq<string>)

  predicate InputRunnable(input: Input) {
    var parsed := P.Parsed(input.lines);
    parsed.Ok? ==> AllRunnable(parsed.value.rows)
  }

  predicate InputsRunnable(inputs: seq<Input>) {
    forall i :: 0 <= i < |inputs| ==> InputRunnable(inputs[i])
  }

  function ExecuteInputs(c: Context, s: State, inputs: seq<Input>): Result<State, P.ParseError>
    requires InputsRunnable(inputs)
    decreases |inputs|
  {
    if inputs == [] || s.stop then Ok(s)
    else
      assert InputRunnable(inputs[0]);
      var parsed := P.Parsed(inputs[0].lines);
      if parsed.Err? then Err(parsed.error)
      else ExecuteInputs(c, ExecuteRows(c, CountFile(s, parsed.value), inputs[0].path, parsed.value.rows), inputs[1..])
  }

  // ---- The prepare pass ----

  datatype Prepared = Prepared(groups: nat, rows: nat, keys: set<string>, toPrepare: seq<ExpectationRow>, stop: bool)

  const NOT_PREPARED := Prepared(0, 0, {}, [], false)

  predicate IsExcluded(iclass: string) {
    iclass in {"INT", "INT3", "UD2", "SYSCALL", "SYSENTER", "SYSEXIT"}
  }

  function Remaining(o: Options, p: Prepared, rowCount: nat): nat
    requires o.limitStates != 0 ==> p.rows <= o.limitStates
  {
    if o.limitStates == 0 || rowCount <= o.limitStates - p.rows then rowCount else o.limitStates - p.rows
  }

  function AddPrepared(c: Context, p: Prepared, row: ExpectationRow): Prepared {
    var bytes := OpcodeBytes(row.opcode);
    var metadata := c.decode(row.address, bytes);
    var key := B.DecodeKey(row.address, row.opcode);
    if PreExecutionSkip(metadata, row, |bytes|, false).Some? || IsExcluded(metadata.iclass) || key in p.keys then p
    else p.(keys := p.keys + {key}, toPrepare := p.toPrepare + [row])
  }

  function PrepareHeader(c: Context, p: Prepared, header: P.ParsedInstructionHeader): Prepared {
    var o := c.options;
    if !Matches(o, header.instruction, header.opcode) then p
    else if o.limitStates != 0 && p.rows >= o.limitStates then p.(stop := true)
    else if o.limitInstructions != 0 && p.groups >= o.limitInstructions then p.(stop := true)
    else AddPrepared(c, p.(groups := p.groups + 1, rows := p.rows + Remaining(o, p, header.rowCount)), BareRow(header))
  }

  function PrepareHeaders(c: Context, p: Prepared, headers: seq<P.ParsedInstructionHeader>): Prepared
    decreases |headers|
  {
    if headers == [] || p.stop then p else PrepareHeaders(c, PrepareHeader(c, p, headers[0]), headers[1..])
  }

  function PrepareInputs(c: Context, p: Prepared, inputs: seq<Input>): Result<Prepared, P.ParseError>
    decreases |inputs|
  {
    if inputs == [] || p.stop then Ok(p)
    else match P.ScanFrom([], inputs[0].lines)
      case Err(e) => Err(e)
      case Ok(headers) => PrepareInputs(c, PrepareHeaders(c, p, headers), inputs[1..])
  }

  /** The whole run: the prepare pass only when executing, and its outcome only through the set of prepared rows. */
  function RunAll(c: Context, inputs: seq<Input>): Result<State, P.ParseError>
    requires InputsRunnable(inputs)
  {
    var prepared := if c.options.execute then PrepareInputs(c, NOT_PREPARED, inputs) else Ok(NOT_PREPARED);
    if prepared.Err? then Err(prepared.error) else ExecuteInputs(c, INITIAL, inputs)
  }

  // ---- The books ----

  ghost function SumOf<K(!new)>(counts: map<K, nat>): nat
    decreases |counts|
  {
    if counts == map[] then 0
    else
      var k :| k in counts;
      counts[k] + SumOf(counts - {k})
  }

  lemma {:induction false} SumWithout<K(!new)>(counts: map<K, nat>, key: K)
    requires key in counts
    ensures SumOf(counts) == counts[key] + SumOf(counts - {key})
    decreases |counts|
  {
    var k :| k in counts && SumOf(counts) == counts[k] + SumOf(counts - {k});
    if k != key {
      SumWithout(counts - {k}, key);
      SumWithout(counts - {key}, k);
      assert counts - {k} - {key} == counts - {key} - {k};
    }
  }

  lemma BumpAddsOne<K(!new)>(counts: map<K, nat>, key: K)
    ensures SumOf(Bump(counts, key)) == SumOf(counts) + 1
  {
    hide SumOf;
    SumWithout(Bump(counts, key), key);
    if key in counts {
      SumWithout(counts, key);
      assert Bump(counts, key) - {key} == counts - {key};
    } else {
      assert Bump(counts, key) - {key} == counts;
    }
  }

  /** Every cached record is a fresh decode of each row that finds it. */
  ghost predicate CacheFresh(c: Context, cache: map<string, Metadata>) {
    forall a: u64, o: string :: B.DecodeKey(a, o) in cache ==> cache[B.DecodeKey(a, o)] == c.decode(a, OpcodeBytes(o))
  }

  ghost predicate Balanced(c: Context, s: State) {
    var b := s.summary;
    && SumOf(b.rowsByMnemonic) == b.selectedRows
    && SumOf(b.groupsByMnemonic) == b.selectedInstructionGroups == |s.selectedGroups|
    && SumOf(b.skipReasons) == b.executionSkipped
    && b.executionPassed + b.executionFailed + b.executionSkipped == (if c.options.execute then b.selectedRows else 0)
    && (c.options.limitStates != 0 ==> b.selectedRows <= c.options.limitStates)
    && (c.options.limitInstructions != 0 ==> b.selectedInstructionGroups <= c.options.limitInstructions)
    && b.uniqueDecodes == |s.decodeCache|
    && CacheFresh(c, s.decodeCache)
  }

  lemma LookUpBalanced(c: Context, s: State, row: ExpectationRow)
    requires Balanced(c, s)
    ensures Balanced(c, LookUp(c, s, row))
    ensures LookUp(c, s, row).decodeCache[B.DecodeKey(row.address, row.opcode)]
      == c.decode(row.address, OpcodeBytes(row.opcode))
    ensures LookUp(c, s, row).selectedGroups == s.selectedGroups && LookUp(c, s, row).stop == s.stop
    ensures LookUp(c, s, row).ran == s.ran
    ensures LookUp(c, s, row).summary.selectedRows == s.summary.selectedRows
  {
    hide B.DecodeKey, OpcodeBytes, SumOf;
    forall a: u64, o: string | B.DecodeKey(a, o) == B.DecodeKey(row.address, row.opcode)
      ensures a == row.address && o == row.opcode
    {
      B.DecodeKeyInjective(a, o, row.address, row.opcode);
    }
  }

  lemma EnterBalanced(c: Context, s: State, key: string, mnemonic: string)
    requires Balanced(c, s)
    ensures Balanced(c, EnterGroup(c.options, s, key, mnemonic))
  {
    hide SumOf, CacheFresh;
    BumpAddsOne(s.summary.groupsByMnemonic, mnemonic);
  }

  /** Counted but not yet judged. */
  lemma CountedBalanced(c: Context, s: State, mnemonic: string, missing: bool, judged: State)
    requires Balanced(c, s) && (c.options.limitStates != 0 ==> s.summary.selectedRows < c.options.limitStates)
    requires var counted := CountRow(s, mnemonic, missing);
      && judged.selectedGroups == counted.selectedGroups && judged.decodeCache == counted.decodeCache
      && judged.summary.rowsByMnemonic == counted.summary.rowsByMnemonic
         && judged.summary.groupsByMnemonic == counted.summary.groupsByMnemonic
      && judged.summary.selectedRows == counted.summary.selectedRows
      && judged.summary.selectedInstructionGroups == counted.summary.selectedInstructionGroups
      && judged.summary.uniqueDecodes == counted.summary.uniqueDecodes
      && SumOf(judged.summary.skipReasons) - judged.summary.executionSkipped
         == SumOf(counted.summary.skipReasons) - counted.summary.executionSkipped
      && judged.summary.executionPassed + judged.summary.executionFailed + judged.summary.executionSkipped
         == counted.summary.executionPassed + counted.summary.executionFailed + counted.summary.executionSkipped
            + if c.options.execute then 1 else 0
    ensures Balanced(c, judged)
  {
    hide SumOf, CacheFresh;
    BumpAddsOne(s.summary.rowsByMnemonic, mnemonic);
  }

  lemma RunRowCounts(c: Context, s: State, row: ExpectationRow, metadata: Metadata, missing: bool)
    requires Runnable(row)
    ensures var t := RunRow(c, s, row, metadata, missing);
      && t.selectedGroups == s.selectedGroups && t.decodeCache == s.decodeCache
      && t.summary.rowsByMnemonic == s.summary.rowsByMnemonic
         && t.summary.groupsByMnemonic == s.summary.groupsByMnemonic
      && t.summary.selectedRows == s.summary.selectedRows
      && t.summary.selectedInstructionGroups == s.summary.selectedInstructionGroups
      && t.summary.uniqueDecodes == s.summary.uniqueDecodes
      && SumOf(t.summary.skipReasons) - t.summary.executionSkipped
         == SumOf(s.summary.skipReasons) - s.summary.executionSkipped
      && t.summary.executionPassed + t.summary.executionFailed + t.summary.executionSkipped
         == s.summary.executionPassed + s.summary.executionFailed + s.summary.executionSkipped + 1
      && (t.ran == s.ran
         || (t.ran == s.ran + [row] && PreExecutionSkip(metadata, row, |OpcodeBytes(row.opcode)|, missing).None?))
  {
    hide SumOf, PreExecutionSkip, OpcodeBytes, ResultOf, Comparator.Agrees, UnsupportedReason, Bump, Runnable;
    forall reason ensures SumOf(Bump(s.summary.skipReasons, reason)) == SumOf(s.summary.skipReasons) + 1 {
      BumpAddsOne(s.summary.skipReasons, reason);
    }
  }

  lemma RowBalanced(c: Context, s: State, path: string, row: ExpectationRow)
    requires Balanced(c, s) && Runnable(row)
    ensures Balanced(c, ExecuteRow(c, s, path, row))
  {
    hide Balanced, Matches, GroupKey, FirstToken, Runnable, RunRow, LookUp, CountRow, B.DecodeKey, MemoryMissing;
    EnterBalanced(c, s, GroupKey(path, row.instructionId), FirstToken(row.instruction));
    StopIsBalanced(c, s);
    var entered := EnterGroup(c.options, s, GroupKey(path, row.instructionId), FirstToken(row.instruction));
    if Matches(c.options, row.instruction, row.opcode) && !entered.stop
      && !(c.options.limitStates != 0 && s.summary.selectedRows >= c.options.limitStates)
    {
      SelectedBalanced(c, entered, row);
    }
  }

  lemma StopIsBalanced(c: Context, s: State)
    requires Balanced(c, s)
    ensures Balanced(c, s.(stop := true))
  {
    hide SumOf, CacheFresh;
  }

  lemma SelectedBalanced(c: Context, s: State, row: ExpectationRow)
    requires Balanced(c, s) && Runnable(row)
    requires c.options.limitStates != 0 ==> s.summary.selectedRows < c.options.limitStates
    ensures Balanced(c, SelectedRow(c, s, row))
  {
    hide Balanced, Matches, FirstToken, Runnable, RunRow, B.DecodeKey, MemoryMissing, SumOf, Bump, LookUp, CountRow;
    LookUpBalanced(c, s, row);
    var looked := LookUp(c, s, row);
    var metadata := looked.decodeCache[B.DecodeKey(row.address, row.opcode)];
    var missing := MemoryMissing(metadata, row);
    var counted := CountRow(looked, FirstToken(row.instruction), missing);
    RunRowCounts(c, counted, row, metadata, missing);
    CountedBalanced(c, looked, FirstToken(row.instruction), missing, SelectedRow(c, s, row));
  }

  lemma {:induction false} RowsBalanced(c: Context, s: State, path: string, rows: seq<ExpectationRow>)
    requires Balanced(c, s) && AllRunnable(rows)
    ensures Balanced(c, ExecuteRows(c, s, path, rows))
    decreases |rows|
  {
    hide Balanced, ExecuteRow, Runnable;
    if rows != [] && !s.stop {
      RowBalanced(c, s, path, rows[0]);
      RowsBalanced(c, ExecuteRow(c, s, path, rows[0]), path, rows[1..]);
    }
  }

  lemma FileBalanced(c: Context, s: State, corpus: P.ParsedCorpus)
    requires Balanced(c, s)
    ensures Balanced(c, CountFile(s, corpus))
  {
    hide SumOf, CacheFresh;
  }

  /** Whatever the inputs, filters, limits and results, and also when the run stops early, the books balance. */
  lemma {:induction false} BooksBalance(c: Context, s: State, inputs: seq<Input>)
    requires Balanced(c, s) && InputsRunnable(inputs)
    ensures ExecuteInputs(c, s, inputs).Ok? ==> Balanced(c, ExecuteInputs(c, s, inputs).value)
    decreases |inputs|
  {
    hide Balanced, ExecuteRows, AllRunnable, P.Parsed, CountFile;
    if inputs != [] && !s.stop {
      assert InputRunnable(inputs[0]);
      var parsed := P.Parsed(inputs[0].lines);
      if parsed.Ok? {
        FileBalanced(c, s, parsed.value);
        RowsBalanced(c, CountFile(s, parsed.value), inputs[0].path, parsed.value.rows);
        BooksBalance(c, ExecuteRows(c, CountFile(s, parsed.value), inputs[0].path, parsed.value.rows), inputs[1..]);
      }
    }
  }

  lemma StartBalanced(c: Context)
    ensures Balanced(c, INITIAL)
  {
  }

  /** After any run the books balance. */
  lemma RunBalances(c: Context, inputs: seq<Input>)
    requires InputsRunnable(inputs)
    ensures RunAll(c, inputs).Ok? ==> Balanced(c, RunAll(c, inputs).value)
  {
    hide Balanced, ExecuteInputs, PrepareInputs, InputsRunnable;
    StartBalanced(c);
    BooksBalance(c, INITIAL, inputs);
  }
}
