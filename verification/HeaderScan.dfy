/**
 * What holds of every file the reader accepts, whoever wrote it: the header-only scan finds the same
 * groups, ids count up, state indices restart in each group, and warnings count the groups whose
 * declared and actual row counts differ.
 */
module HeaderScan {
  import opened Wrappers
  import opened Text
  import opened Expectation
  import opened X86TesterParser

  type Headers = seq<ParsedInstructionHeader>

  /** How many rows carry an instruction id. */
  function CountOf(rows: seq<ExpectationRow>, instructionId: nat): nat {
    if rows == [] then 0
    else CountOf(rows[..|rows| - 1], instructionId) + if rows[|rows| - 1].instructionId == instructionId then 1 else 0
  }

  /** How many of the first `groups` groups do not have as many rows as their header says. */
  function Miscounted(rows: seq<ExpectationRow>, headers: Headers, groups: nat): nat
    requires groups <= |headers|
  {
    if groups == 0 then 0
    else Miscounted(rows, headers, groups - 1) + if CountOf(rows, groups) != headers[groups - 1].rowCount then 1 else 0
  }

  predicate FromHeader(row: ExpectationRow, header: ParsedInstructionHeader) {
    && row.address == header.address && row.opcode == header.opcode && row.instruction == header.instruction
    && row.totalStates == header.rowCount
  }

  predicate RowInPlace(rows: seq<ExpectationRow>, headers: Headers, i: nat)
    requires i < |rows|
  {
    var row := rows[i];
    && row.testCaseId == i
    && 1 <= row.instructionId <= |headers|
    && FromHeader(row, headers[row.instructionId - 1])
    && row.stateIndex == CountOf(rows[..i], row.instructionId)
    && (i > 0 ==> rows[i - 1].instructionId <= row.instructionId)
  }

  predicate RowsInPlace(rows: seq<ExpectationRow>, headers: Headers) {
    forall i :: 0 <= i < |rows| ==> RowInPlace(rows, headers, i)
  }

  predicate NumberedFromOne(headers: Headers) {
    forall i :: 0 <= i < |headers| ==> headers[i].instructionId == i + 1
  }

  /** What a parsed corpus says about the headers of its file. */
  predicate Faithful(corpus: ParsedCorpus, headers: Headers) {
    && NumberedFromOne(headers)
    && corpus.instructionGroups == |headers|
    && RowsInPlace(corpus.rows, headers)
    && corpus.parseWarnings == Miscounted(corpus.rows, headers, |headers|)
  }

  /** The invariant of the line loop, against the headers the scan has found so far. */
  predicate Tracked(p: Phase, headers: Headers) {
    match p
    case BeforeData => headers == []
    case InBody(s) =>
      && NumberedFromOne(headers)
      && s.instructionId == |headers| && s.corpus.instructionGroups == |headers|
      && s.nextTestCaseId == |s.corpus.rows|
      && RowsInPlace(s.corpus.rows, headers)
      && (s.dataValuesRemaining != 0 ==> headers == [])
      && (s.header.None? <==> headers == [])
      && (headers == [] ==> s.corpus.rows == [] && s.corpus.parseWarnings == 0)
      && (headers != [] ==>
            && Short(s.header.value, |headers|) == headers[|headers| - 1]
            && s.stateIndex == s.rowsInGroup == CountOf(s.corpus.rows, |headers|)
            && s.corpus.parseWarnings == Miscounted(s.corpus.rows, headers, |headers| - 1))
  }

  lemma {:induction false} MiscountedPrefix(rows: seq<ExpectationRow>, headers: Headers, more: ParsedInstructionHeader,
      groups: nat)
    requires groups <= |headers|
    ensures Miscounted(rows, headers + [more], groups) == Miscounted(rows, headers, groups)
  {
    if groups > 0 {
      MiscountedPrefix(rows, headers, more, groups - 1);
    }
  }

  lemma CountAppend(rows: seq<ExpectationRow>, row: ExpectationRow, instructionId: nat)
    ensures CountOf(rows + [row], instructionId)
         == CountOf(rows, instructionId) + if row.instructionId == instructionId then 1 else 0
  {
    assert (rows + [row])[..|rows|] == rows;
  }

  lemma {:induction false} MiscountedLater(rows: seq<ExpectationRow>, row: ExpectationRow, headers: Headers,
      groups: nat)
    requires groups <= |headers| && groups < row.instructionId
    ensures Miscounted(rows + [row], headers, groups) == Miscounted(rows, headers, groups)
  {
    if groups > 0 {
      CountAppend(rows, row, groups);
      MiscountedLater(rows, row, headers, groups - 1);
    }
  }

  lemma RowsKeepPlace(rows: seq<ExpectationRow>, headers: Headers, more: ParsedInstructionHeader)
    requires RowsInPlace(rows, headers)
    ensures RowsInPlace(rows, headers + [more])
  {
    hide CountOf;
    forall i | 0 <= i < |rows| ensures RowInPlace(rows, headers + [more], i) {
      assert RowInPlace(rows, headers, i);
    }
  }

  lemma {:induction false} CountBeyond(rows: seq<ExpectationRow>, headers: Headers, instructionId: nat)
    requires RowsInPlace(rows, headers) && instructionId > |headers|
    ensures CountOf(rows, instructionId) == 0
    decreases |rows|
  {
    if rows != [] {
      var fewer := rows[..|rows| - 1];
      assert RowInPlace(rows, headers, |rows| - 1);
      forall i | 0 <= i < |fewer| ensures RowInPlace(fewer, headers, i) {
        assert RowInPlace(rows, headers, i) && fewer[..i] == rows[..i];
      }
      CountBeyond(fewer, headers, instructionId);
    }
  }

  lemma NewGroupTracked(s: State, headers: Headers, header: InstructionHeader)
    requires Tracked(InBody(s), headers) && s.dataValuesRemaining == 0
    ensures Tracked(InBody(StartGroup(s, header)), headers + [Short(header, |headers| + 1)])
  {
    hide CountOf, RowsInPlace;
    var more := Short(header, |headers| + 1);
    RowsKeepPlace(s.corpus.rows, headers, more);
    MiscountedPrefix(s.corpus.rows, headers, more, |headers|);
    CountBeyond(s.corpus.rows, headers, |headers| + 1);
  }

  lemma AppendInPlace(rows: seq<ExpectationRow>, headers: Headers, row: ExpectationRow)
    requires RowsInPlace(rows, headers) && headers != []
    requires row.testCaseId == |rows| && row.instructionId == |headers| && FromHeader(row, headers[|headers| - 1])
    requires row.stateIndex == CountOf(rows, |headers|)
    ensures RowsInPlace(rows + [row], headers)
  {
    hide RowInPlace, CountOf;
    forall i | 0 <= i < |rows| + 1 ensures RowInPlace(rows + [row], headers, i) {
      if i < |rows| {
        OldRowInPlace(rows, headers, row, i);
      } else {
        NewRowInPlace(rows, headers, row);
      }
    }
  }

  lemma OldRowInPlace(rows: seq<ExpectationRow>, headers: Headers, row: ExpectationRow, i: nat)
    requires i < |rows| && RowInPlace(rows, headers, i)
    ensures RowInPlace(rows + [row], headers, i)
  {
    hide CountOf, FromHeader;
    assert (rows + [row])[..i] == rows[..i];
  }

  lemma NewRowInPlace(rows: seq<ExpectationRow>, headers: Headers, row: ExpectationRow)
    requires RowsInPlace(rows, headers) && headers != []
    requires row.testCaseId == |rows| && row.instructionId == |headers| && FromHeader(row, headers[|headers| - 1])
    requires row.stateIndex == CountOf(rows, |headers|)
    ensures RowInPlace(rows + [row], headers, |rows|)
  {
    hide CountOf, FromHeader;
    assert (rows + [row])[..|rows|] == rows;
    if rows != [] {
      assert RowInPlace(rows, headers, |rows| - 1);
    }
  }

  lemma NewRowTracked(s: State, headers: Headers, line: string)
    requires Tracked(InBody(s), headers) && s.header.Some?
    requires ParseStateRow(line, s.header.value, s.instructionId, s.nextTestCaseId, s.stateIndex, s.pool).Ok?
    ensures var row :=
      ParseStateRow(line, s.header.value, s.instructionId, s.nextTestCaseId, s.stateIndex, s.pool).value;
      Tracked(InBody(AddRow(s, row)), headers)
  {
    hide ParseStateRow, Tracked, AddRow;
    RowOfHeader(line, s.header.value, s.instructionId, s.nextTestCaseId, s.stateIndex, s.pool);
    RowTracked(s, headers,
      ParseStateRow(line, s.header.value, s.instructionId, s.nextTestCaseId, s.stateIndex, s.pool).value);
  }

  lemma RowTracked(s: State, headers: Headers, row: ExpectationRow)
    requires Tracked(InBody(s), headers) && s.header.Some?
    requires row.testCaseId == s.nextTestCaseId && row.instructionId == s.instructionId
    requires row.stateIndex == s.stateIndex
    requires FromHeader(row, Short(s.header.value, s.instructionId))
    ensures Tracked(InBody(AddRow(s, row)), headers)
  {
    hide CountOf, RowsInPlace, FromHeader;
    AppendInPlace(s.corpus.rows, headers, row);
    CountAppend(s.corpus.rows, row, |headers|);
    MiscountedLater(s.corpus.rows, row, headers, |headers| - 1);
  }

  lemma RowOfHeader(line: string, header: InstructionHeader, instructionId: nat, testCaseId: nat, stateIndex: nat,
      pool: Pool)
    requires ParseStateRow(line, header, instructionId, testCaseId, stateIndex, pool).Ok?
    ensures var row := ParseStateRow(line, header, instructionId, testCaseId, stateIndex, pool).value;
      && row.testCaseId == testCaseId && row.instructionId == instructionId && row.stateIndex == stateIndex
      && FromHeader(row, Short(header, instructionId))
  {
    hide ParseInput, ParseOutput, Trim;
  }

  lemma LineTracked(p: Phase, headers: Headers, line: string)
    requires Tracked(p, headers) && Line(p, line).Ok?
    ensures ScanFrom(headers, [line]).Ok? && Tracked(Line(p, line).value, ScanFrom(headers, [line]).value)
  {
    hide Tracked, Trim, ParseHeader, ParseDataHeader, ParseDataPoolValue, ParseStateRow, StartGroup, AddRow;
    var trimmed := Trim(line);
    assert [line][1..] == [];
    if trimmed == "" {
      assert !StartsWith(trimmed, "instr:");
    } else {
      match p
      case BeforeData =>
        DataLineIsNoHeader(trimmed);
        StartTracked(ParseDataHeader(trimmed).value);
        EmptyBefore(headers);
      case InBody(s) =>
        if s.dataValuesRemaining != 0 {
          PoolLineIsNoHeader(line);
          PoolTracked(s, headers, ParseDataPoolValue(trimmed).value);
        } else if StartsWith(trimmed, "instr:") {
          NewGroupTracked(s, headers, ParseHeader(trimmed).value);
        } else {
          NewRowTracked(s, headers, trimmed);
        }
    }
  }

  lemma DataLineIsNoHeader(line: string)
    requires ParseDataHeader(line).Ok?
    ensures !StartsWith(line, "instr:")
  {
    assert "data:"[0] == 'd' && "instr:"[0] == 'i';
  }

  lemma PoolLineIsNoHeader(line: string)
    requires ParseDataPoolValue(Trim(line)).Ok?
    ensures !StartsWith(Trim(line), "instr:")
  {
    hide Trim;
    assert "#"[0] == '#' && "instr:"[0] == 'i';
    assert Trim(Trim(line)) == Trim(line);
  }

  lemma EmptyBefore(headers: Headers)
    requires Tracked(BeforeData, headers)
    ensures headers == []
  {
  }

  lemma StartTracked(n: nat)
    ensures Tracked(InBody(State(n, [], None, 0, 0, 0, 0, START)), [])
  {
  }

  lemma PoolTracked(s: State, headers: Headers, bytes: seq<byte>)
    requires Tracked(InBody(s), headers) && s.dataValuesRemaining != 0
    ensures Tracked(InBody(s.(pool := s.pool + [bytes], dataValuesRemaining := s.dataValuesRemaining - 1)), headers)
  {
    hide RowsInPlace;
  }

  lemma ScanOne(headers: Headers, line: string, lines: seq<string>)
    ensures ScanFrom(headers, [line] + lines) ==
      if ScanFrom(headers, [line]).Ok? then ScanFrom(ScanFrom(headers, [line]).value, lines)
      else ScanFrom(headers, [line])
  {
    hide Trim, ParseHeader;
    assert ([line] + lines)[1..] == lines && [line][1..] == [];
  }

  lemma {:induction false} FeedTracked(p: Phase, headers: Headers, lines: seq<string>)
    requires Tracked(p, headers) && Feed(p, lines).Ok?
    ensures ScanFrom(headers, lines).Ok? && Tracked(Feed(p, lines).value, ScanFrom(headers, lines).value)
    decreases |lines|
  {
    hide Tracked, Line;
    if lines != [] {
      LineTracked(p, headers, lines[0]);
      ScanOne(headers, lines[0], lines[1..]);
      assert lines == [lines[0]] + lines[1..];
      FeedTracked(Line(p, lines[0]).value, ScanFrom(headers, [lines[0]]).value, lines[1..]);
    }
  }

  /** On every file the full parse accepts, the scan succeeds and the corpus is faithful to its headers. */
  lemma ScanAgreesWithParse(lines: seq<string>)
    requires Parsed(lines).Ok?
    ensures ScanFrom([], lines).Ok? && Faithful(Parsed(lines).value, ScanFrom([], lines).value)
  {
    hide Feed, ScanFrom, RowsInPlace, CountOf;
    FeedTracked(BeforeData, [], lines);
  }
}
