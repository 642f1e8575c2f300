/** A file of two groups, the first one empty, that runs a row the prepare pass has left out. */
module RunnerExamples {
  import opened Wrappers
  import opened Text
  import opened Numbers
  import opened Expectation
  import opened XedMetadata
  import opened SkipRules
  import opened PooledFormat
  import opened Runner
  import opened RunnerCounts
  import opened RunnerCover
  import opened RunnerExact
  import H = HeaderScan
  import P = X86TesterParser
  import B = Backend

  // ---- The file ----

  const OPCODE := "90"

  function Nop(address: u64, rows: seq<Row>): Group {
    Group(address, OPCODE, "nop", [], [], rows)
  }

  const EMPTY_ROW := Row([], Values([]))

  /** Two instructions, of which only the second has a row. */
  function TwoNops(): File {
    File([], [Nop(0x1000, []), Nop(0x2000, [EMPTY_ROW])])
  }

  function TwoNopsInput(): Input {
    Input("nops.txt", FileLines(TwoNops()))
  }

  lemma NopIsGood(address: u64, rows: seq<Row>)
    requires rows == [] || rows == [EMPTY_ROW]
    ensures GoodGroup(Nop(address, rows), 0)
  {
  }

  lemma TwoNopsAreGood()
    ensures GoodFile(TwoNops())
  {
    hide GoodGroup;
    NopIsGood(0x1000, []);
    NopIsGood(0x2000, [EMPTY_ROW]);
  }

  // ---- What the reader finds ----

  function NopRow(): ExpectationRow {
    P.BuildRow(P.InstructionHeader(0x2000, OPCODE, "nop", 1, [], []), 2, 0, 0, P.NOTHING, P.NOTHING, None)
  }

  lemma TwoNopsParsed()
    ensures P.Parsed(TwoNopsInput().lines) == Ok(P.ParsedCorpus([NopRow()], 2, 0))
  {
    hide P.Parsed, FileLines, GoodGroup, GroupsMean, Nop;
    TwoNopsAreGood();
    RoundTrip(TwoNops());
    assert PoolBytes([]) == [];
    TwoNopsMean([]);
  }

  lemma TwoNopsMean(pool: P.Pool)
    requires pool == []
    ensures GoodGroups(TwoNops().groups, |pool|)
    ensures GroupsMean(TwoNops().groups, 1, 0, pool) == [NopRow()]
  {
    hide GoodGroup, GroupMeans;
    var a, b := Nop(0x1000, []), Nop(0x2000, [EMPTY_ROW]);
    NopIsGood(0x1000, []);
    NopMeans(pool);
    assert [a, b][1..] == [b] && [b][1..] == [];
    assert GroupsMean([], 3, 1, pool) == [];
    assert GroupsMean([b], 2, 0, pool) == GroupMeans(b, 2, 0, pool) + [];
    assert GroupMeans(a, 1, 0, pool) == [];
    assert GroupsMean([a, b], 1, 0, pool) == [] + GroupsMean([b], 2, 0, pool);
  }

  lemma NopMeans(pool: P.Pool)
    requires pool == []
    ensures GoodGroup(Nop(0x2000, [EMPTY_ROW]), |pool|)
    ensures GroupMeans(Nop(0x2000, [EMPTY_ROW]), 2, 0, pool) == [NopRow()]
  {
    NopIsGood(0x2000, [EMPTY_ROW]);
    hide GoodGroup, P.BuildRow;
    assert P.PairsOf([], [], pool) == [];
    assert GoodRow(EMPTY_ROW, Nop(0x2000, [EMPTY_ROW]), |pool|);
  }

  lemma ScanHeader(found: H.Headers, g: Group, rest: seq<string>)
    requires PlainHeader(g)
    ensures P.ScanFrom(found, [HeaderText(g)] + rest) == P.ScanFrom(found + [P.Short(HeaderOf(g), |found| + 1)], rest)
  {
    hide PlainHeader, HeaderText, P.ParseHeader, Trim, HeaderOf;
    HeaderRoundTrip(g);
    TrimOfTrimmed(HeaderText(g));
    assert ([HeaderText(g)] + rest)[1..] == rest;
  }

  lemma ScanOther(found: H.Headers, line: string, rest: seq<string>)
    requires Trimmed(line) && !StartsWith(line, "instr:")
    ensures P.ScanFrom(found, [line] + rest) == P.ScanFrom(found, rest)
  {
    hide P.ParseHeader, Trim, StartsWith;
    TrimOfTrimmed(line);
    assert ([line] + rest)[1..] == rest;
  }

  function NopHeader(address: u64, count: u64, id: nat): P.ParsedInstructionHeader {
    P.ParsedInstructionHeader(id, address, OPCODE, "nop", count)
  }

  lemma TwoNopsScanned()
    ensures P.ScanFrom([], TwoNopsInput().lines) == Ok([NopHeader(0x1000, 0, 1), NopHeader(0x2000, 1, 2)])
  {
    hide HeaderText, Trim, P.ScanFrom, RowText, GoodGroup, PlainHeader, Digits;
    var a, b := Nop(0x1000, []), Nop(0x2000, [EMPTY_ROW]);
    var first, second := NopHeader(0x1000, 0, 1), NopHeader(0x2000, 1, 2);
    NopIsPlain(0x1000, []);
    NopIsPlain(0x2000, [EMPTY_ROW]);
    LinesAre();
    ScanData([HeaderText(a), HeaderText(b), RowText(EMPTY_ROW)]);
    ScanHeader([], a, [HeaderText(b), RowText(EMPTY_ROW)]);
    assert [HeaderText(a)] + [HeaderText(b), RowText(EMPTY_ROW)] == [HeaderText(a), HeaderText(b), RowText(EMPTY_ROW)];
    ScanHeader([first], b, [RowText(EMPTY_ROW)]);
    assert [HeaderText(b)] + [RowText(EMPTY_ROW)] == [HeaderText(b), RowText(EMPTY_ROW)];
    assert [] + [first] == [first] && [first] + [second] == [first, second];
    ScanRow([first, second]);
  }

  lemma NopIsPlain(address: u64, rows: seq<Row>)
    requires rows == [] || rows == [EMPTY_ROW]
    ensures PlainHeader(Nop(address, rows))
  {
  }

  lemma LinesAre()
    ensures var a, b := Nop(0x1000, []), Nop(0x2000, [EMPTY_ROW]);
      FileLines(TwoNops()) == ["data:" + Decimal(0)] + [HeaderText(a), HeaderText(b), RowText(EMPTY_ROW)]
  {
    hide HeaderText, RowText, Digits;
    var a, b := Nop(0x1000, []), Nop(0x2000, [EMPTY_ROW]);
    assert [a, b][1..] == [b] && [b][1..] == [];
    assert GroupsLines([]) == [];
    assert GroupsLines([b]) == [HeaderText(b), RowText(EMPTY_ROW)] + [];
    assert GroupsLines([a, b]) == [HeaderText(a)] + [HeaderText(b), RowText(EMPTY_ROW)];
  }

  lemma ScanData(rest: seq<string>)
    ensures P.ScanFrom([], ["data:" + Decimal(0)] + rest) == P.ScanFrom([], rest)
  {
    hide Trim, P.ScanFrom, Digits;
    ParseDecimal(0);
    PrefixedText("data:", Decimal(0));
    assert "data:"[0] == 'd' && "instr:"[0] == 'i';
    ScanOther([], "data:" + Decimal(0), rest);
  }

  lemma ScanRow(found: H.Headers)
    ensures P.ScanFrom(found, [RowText(EMPTY_ROW)]) == Ok(found)
  {
    hide Trim, P.ParseHeader, RowText, StartsWith, Trimmed, P.ScanFrom;
    RowTextIs();
    ScanOther(found, "|", []);
    assert ["|"] + [] == ["|"];
    NothingToScan(found);
  }

  lemma RowTextIs()
    ensures RowText(EMPTY_ROW) == "|" && Trimmed("|") && !StartsWith("|", "instr:")
  {
    assert "instr:"[0] == 'i';
  }

  lemma NothingToScan(found: H.Headers)
    ensures P.ScanFrom(found, []) == Ok(found)
  {
  }

  // ---- What the passes make of it ----

  const NOP := Metadata(true, 1, 64, "NOP", "NOP", "BASE", 0, [])

  /** A decoder that finds the instruction, one group as the limit, and any lifter. */
  function OneGroupAllowed(lift: B.Lifter): Context {
    Context(Options({}, {}, 0, 1, true, false), (address: u64, bytes: seq<byte>) => NOP, lift)
  }

  lemma OpcodeIs()
    ensures HexBytes(OPCODE).Ok? && |OpcodeBytes(OPCODE)| == 1
  {
    HexDigitsOfDigits(OPCODE);
  }

  lemma NopRowRuns(lift: B.Lifter)
    ensures Runs(OneGroupAllowed(lift), NopRow()) && Runnable(NopRow())
  {
    hide HexBytes;
    OpcodeIs();
    NopIsNotSkipped(NopRow());
  }

  lemma NopIsNotSkipped(row: ExpectationRow)
    requires row.initialState == map[] && row.initialBytes == map[] && row.expectedFinalBytes == map[]
    requires row.expectedFinalState == Some(map[]) && row.expectedExceptionKind == None
    ensures PreExecutionSkip(NOP, row, 1, MemoryMissing(NOP, row)).None? && !IsExcluded(NOP.iclass)
  {
    NopIsInteger(row);
    NopIsPlainClass();
    NoMmxState(row);
    NopIsNoDescriptor(row);
    hide IsFpuUnsupported, UsesMmxState, IsPrivilegedOrIoUnsupported, IsEnvironmentReadUnsupported, IsExcluded,
         IsDescriptorStateUnsupported;
  }

  lemma NopIsInteger(row: ExpectationRow)
    ensures !IsFpuUnsupported(NOP, row)
  {
    hide HasUnsupportedX87StackValue;
    assert NOP.iclass[0] == 'N' && "FCMOV"[0] == 'F' && "X87"[0] == 'X';
  }

  lemma NopIsPlainClass()
    ensures !IsPrivilegedOrIoUnsupported(NOP) && !IsEnvironmentReadUnsupported(NOP) && !IsExcluded(NOP.iclass)
  {
    assert NOP.iclass[0] == 'N';
  }

  lemma NoMmxState(row: ExpectationRow)
    requires row.initialState == map[] && row.initialBytes == map[] && row.expectedFinalBytes == map[]
    requires row.expectedFinalState == Some(map[])
    ensures !UsesMmxState(row)
  {
    hide IsMmxStateKey;
  }

  lemma NopIsNoDescriptor(row: ExpectationRow)
    ensures !IsDescriptorStateUnsupported(NOP, row)
  {
    hide DescriptorSourceSelector, DestinationWidthBits, HasVariableDescriptorSelector;
  }

  lemma TwoNopsCounts()
    ensures AllCounts([TwoNopsInput()])
         == [GroupCount(NopHeader(0x1000, 0, 1), 0), GroupCount(NopHeader(0x2000, 1, 2), 1)]
  {
    hide P.Parsed, P.ScanFrom, FileLines;
    TwoNopsParsed();
    TwoNopsScanned();
    var rows := [NopRow()];
    assert rows[..0] == [];
    assert H.CountOf(rows, 1) == 0 && H.CountOf(rows, 2) == 1;
    assert [TwoNopsInput()][1..] == [];
  }

  lemma SecondIsLeftOut(lift: B.Lifter)
    ensures !NoneLeftOut(OneGroupAllowed(lift), NO_TALLY, {}, AllCounts([TwoNopsInput()]))
  {
    hide P.Parsed, P.ScanFrom, FileLines, B.DecodeKey, PreExecutionSkip, OpcodeBytes, AllCounts, FirstToken;
    var c := OneGroupAllowed(lift);
    var a, b := GroupCount(NopHeader(0x1000, 0, 1), 0), GroupCount(NopHeader(0x2000, 1, 2), 1);
    TwoNopsCounts();
    if KeyOfGroup(a) == KeyOfGroup(b) {
      B.DecodeKeyInjective(0x1000, OPCODE, 0x2000, OPCODE);
    }
    assert [a, b][1..] == [b];
    var taken := TakenNext(c, NO_TALLY, {}, a);
    var t := Count(c.options, NO_TALLY, a);
    assert taken <= {KeyOfGroup(a)} && t == Tally(0, 1, 0, 0);
    assert LeftOut(c.options, t, taken, b);
  }

  /**
   * With a limit of one instruction, the empty group uses the limit up in the prepare pass: the only row
   * of the file runs, and is not prepared.
   */
  lemma EmptyGroupFile(lift: B.Lifter)
    ensures var c, inputs := OneGroupAllowed(lift), [TwoNopsInput()];
      && InputsRunnable(inputs) && PrepareInputs(c, NOT_PREPARED, inputs).Ok? && ExecuteInputs(c, INITIAL, inputs).Ok?
      && !Covered(c, ExecuteInputs(c, INITIAL, inputs).value.ran, PrepareInputs(c, NOT_PREPARED, inputs).value.keys)
  {
    hide P.Parsed, P.ScanFrom, FileLines, B.DecodeKey, Runs, Runnable, ExecuteRows, PrepareHeaders, NoneLeftOut,
         Covered, AllCounts;
    var c, inputs := OneGroupAllowed(lift), [TwoNopsInput()];
    TwoNopsParsed();
    TwoNopsScanned();
    NopRowRuns(lift);
    SecondIsLeftOut(lift);
    assert inputs[1..] == [];
    CoversExactly(c, inputs);
  }
}
