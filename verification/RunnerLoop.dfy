/** The loops of `Run` in `src/tester_main.cpp`, on the real backend and comparator. */
module RunnerLoop {
  import opened Wrappers
  import opened Numbers
  import opened Expectation
  import opened XedMetadata
  import opened SkipRules
  import opened Runner
  import P = X86TesterParser
  import B = Backend
  import CaseRun
  import Comparator
  import RunnerCover

  class Tester {
    const context: Context
    const backend: B.RemillBackend
    var summary: Summary
    var decodeCache: map<string, Metadata>
    var selectedGroups: set<string>
    var stop: bool
    ghost var ran: seq<ExpectationRow>

    ghost function View(): State
      reads this
    {
      State(summary, decodeCache, selectedGroups, stop, ran)
    }

    ghost predicate Valid()
      reads this, backend, backend.Entries()
    {
      backend.Valid() && backend.lift == context.lift
    }

    constructor (context: Context)
      ensures Valid() && View() == INITIAL && this.context == context && fresh(backend) && fresh(backend.Entries())
    {
      this.context := context;
      backend := new B.RemillBackend(context.lift);
      summary, decodeCache, selectedGroups, stop, ran := NO_COUNTS, map[], {}, false, [];
    }

    method RecordSkipOf(reason: SkipReason)
      modifies `summary
      ensures View() == RecordSkip(old(View()), reason)
    {
      summary := summary.(executionSkipped := summary.executionSkipped + 1,
                          skipReasons := Bump(summary.skipReasons, reason));
    }

    method LookUpMetadata(row: ExpectationRow) returns (metadata: Metadata)
      requires Runnable(row)
      modifies `summary, `decodeCache
      ensures View() == LookUp(context, old(View()), row)
      ensures metadata == LookUp(context, old(View()), row).decodeCache[B.DecodeKey(row.address, row.opcode)]
    {
      hide B.DecodeKey, CaseRun.Representable;
      var key := B.DecodeKey(row.address, row.opcode);
      if key !in decodeCache {
        var bytes := ParseHexBytes(row.opcode);
        metadata := context.decode(row.address, bytes.value);
        decodeCache := decodeCache[key := metadata];
        summary := summary.(uniqueDecodes := summary.uniqueDecodes + 1);
        if !metadata.ok {
          summary := summary.(xedDecodeFailures := summary.xedDecodeFailures + 1);
        } else if metadata.length != |bytes.value| {
          summary := summary.(xedLengthMismatches := summary.xedLengthMismatches + 1);
        }
      }
      metadata := decodeCache[key];
    }

    method JudgeOne(row: ExpectationRow, metadata: Metadata, result: ExecutionResult)
      modifies `summary, `stop
      ensures View() == JudgeResult(context.options, old(View()), row, metadata, result)
    {
      hide Comparator.Agrees, Comparator.Mismatches, UnsupportedReason, Bump;
      if result.outcomeClass == OutcomeClass.Unsupported {
        RecordSkipOf(UnsupportedReason(result));
        return;
      }
      var comparison := Comparator.CompareExecutionResult(row, metadata, result);
      if comparison.passed {
        summary := summary.(executionPassed := summary.executionPassed + 1);
      } else {
        summary := summary.(executionFailed := summary.executionFailed + 1);
        if context.options.stopOnFirstFail {
          stop := true;
        }
      }
    }

    method RunSelected(row: ExpectationRow, metadata: Metadata, missing: bool)
      requires Valid() && Runnable(row)
      modifies this, backend, backend.Entries()
      ensures Valid() && fresh(backend.Entries() - old(backend.Entries()))
      ensures View() == RunRow(context, old(View()), row, metadata, missing)
    {
      hide B.Truthful, B.NamesDistinct, B.JitIsOlder, B.PendingListed, PreExecutionSkip, B.CaseResult,
           CaseRun.Representable, HexBytes, FinalStateKeys, RecordSkip, JudgeResult;
      var bytes := ParseHexBytes(row.opcode);
      var skip := PreExecutionSkip(metadata, row, |bytes.value|, missing);
      if skip.Some? {
        RecordSkipOf(skip.value);
        return;
      }
      ran := ran + [row];
      RunnableGivesResult(context.lift, row, FinalStateKeys(row));
      var run := backend.RunCase(row, FinalStateKeys(row));
      JudgeOne(row, metadata, run.value);
    }

    method Select(row: ExpectationRow, mnemonic: string)
      requires Valid() && Runnable(row) && mnemonic == FirstToken(row.instruction)
      modifies this, backend, backend.Entries()
      ensures Valid() && fresh(backend.Entries() - old(backend.Entries()))
      ensures View() == SelectedRow(context, old(View()), row)
    {
      hide B.Truthful, B.NamesDistinct, B.JitIsOlder, B.PendingListed, Runnable, LookUp, RunRow, MemoryMissing, Bump,
           B.DecodeKey, FirstToken;
      var metadata := LookUpMetadata(row);
      var missing := MemoryMissing(metadata, row);
      summary := summary.(
        selectedRows := summary.selectedRows + 1,
        rowsByMnemonic := Bump(summary.rowsByMnemonic, mnemonic),
        memoryRowsWithoutOracle := summary.memoryRowsWithoutOracle + if missing then 1 else 0);
      if context.options.execute {
        RunSelected(row, metadata, missing);
      }
    }

    method EnterGroupOf(key: string, mnemonic: string)
      modifies `summary, `selectedGroups, `stop
      ensures View() == EnterGroup(context.options, old(View()), key, mnemonic)
    {
      hide Bump;
      if key !in selectedGroups {
        if context.options.limitInstructions != 0 && |selectedGroups| >= context.options.limitInstructions {
          stop := true;
          return;
        }
        selectedGroups := selectedGroups + {key};
        summary := summary.(selectedInstructionGroups := summary.selectedInstructionGroups + 1,
                            groupsByMnemonic := Bump(summary.groupsByMnemonic, mnemonic));
      }
    }

    method ExecuteOne(path: string, row: ExpectationRow)
      requires Valid() && Runnable(row) && !stop
      modifies this, backend, backend.Entries()
      ensures Valid() && fresh(backend.Entries() - old(backend.Entries()))
      ensures View() == ExecuteRow(context, old(View()), path, row)
    {
      hide B.Truthful, B.NamesDistinct, B.JitIsOlder, B.PendingListed, Runnable, GroupKey, FirstToken, EnterGroup,
           SelectedRow;
      var o := context.options;
      var mnemonic := FirstToken(row.instruction);
      if o.mnemonics != {} && mnemonic !in o.mnemonics {
        return;
      }
      if o.opcodes != {} && row.opcode !in o.opcodes {
        return;
      }
      if o.limitStates != 0 && summary.selectedRows >= o.limitStates {
        stop := true;
        return;
      }
      EnterGroupOf(GroupKey(path, row.instructionId), mnemonic);
      if !stop {
        Select(row, mnemonic);
      }
    }

    method ExecuteFile(path: string, rows: seq<ExpectationRow>)
      requires Valid() && AllRunnable(rows) && !stop
      modifies this, backend, backend.Entries()
      ensures Valid() && fresh(backend.Entries() - old(backend.Entries()))
      ensures View() == ExecuteRows(context, old(View()), path, rows)
    {
      hide B.Truthful, B.NamesDistinct, B.JitIsOlder, B.PendingListed, Runnable, ExecuteRow;
      for i := 0 to |rows|
        invariant Valid() && fresh(backend.Entries() - old(backend.Entries())) && !stop
        invariant ExecuteRows(context, View(), path, rows[i..]) == ExecuteRows(context, old(View()), path, rows)
      {
        assert rows[i..][0] == rows[i] && rows[i..][1..] == rows[i + 1..];
        ExecuteOne(path, rows[i]);
        if stop {
          break;
        }
      }
    }

    method CountFileOf(corpus: P.ParsedCorpus)
      modifies `summary
      ensures View() == CountFile(old(View()), corpus)
    {
      summary := summary.(
        files := summary.files + 1, instructionGroups := summary.instructionGroups + corpus.instructionGroups,
        rows := summary.rows + |corpus.rows|, parseWarnings := summary.parseWarnings + corpus.parseWarnings);
    }

    method ExecutePass(inputs: seq<Input>) returns (error: Option<P.ParseError>)
      requires Valid() && InputsRunnable(inputs) && !stop
      modifies this, backend, backend.Entries()
      ensures Valid() && fresh(backend.Entries() - old(backend.Entries()))
      ensures match ExecuteInputs(context, old(View()), inputs)
              case Err(e) => error == Some(e)
              case Ok(s) => error == None && View() == s
    {
      hide B.Truthful, B.NamesDistinct, B.JitIsOlder, B.PendingListed, AllRunnable, ExecuteRows, P.Parsed, CountFile;
      for i := 0 to |inputs|
        invariant Valid() && fresh(backend.Entries() - old(backend.Entries()))
        invariant ExecuteInputs(context, View(), inputs[i..]) == ExecuteInputs(context, old(View()), inputs)
      {
        assert inputs[i..][0] == inputs[i] && inputs[i..][1..] == inputs[i + 1..];
        assert InputRunnable(inputs[i]);
        if stop {
          break;
        }
        var corpus := P.ParseFile(inputs[i].lines);
        if corpus.Err? {
          return Some(corpus.error);
        }
        CountFileOf(corpus.value);
        ExecuteFile(inputs[i].path, corpus.value.rows);
      }
      return None;
    }
  }

  // ---- The prepare pass ----

  method PrepareFile(c: Context, start: Prepared, headers: seq<P.ParsedInstructionHeader>) returns (p: Prepared)
    requires !start.stop && (c.options.limitStates != 0 ==> start.rows <= c.options.limitStates)
    ensures p == PrepareHeaders(c, start, headers)
    ensures c.options.limitStates != 0 ==> p.rows <= c.options.limitStates
  {
    hide AddPrepared, FirstToken;
    var o := c.options;
    p := start;
    for i := 0 to |headers|
      invariant !p.stop && (o.limitStates != 0 ==> p.rows <= o.limitStates)
      invariant PrepareHeaders(c, p, headers[i..]) == PrepareHeaders(c, start, headers)
    {
      assert headers[i..][0] == headers[i] && headers[i..][1..] == headers[i + 1..];
      var header := headers[i];
      var mnemonic := FirstToken(header.instruction);
      if o.mnemonics != {} && mnemonic !in o.mnemonics {
        continue;
      }
      if o.opcodes != {} && header.opcode !in o.opcodes {
        continue;
      }
      if (o.limitStates != 0 && p.rows >= o.limitStates)
        || (o.limitInstructions != 0 && p.groups >= o.limitInstructions)
      {
        p := p.(stop := true);
        break;
      }
      p := p.(groups := p.groups + 1, rows := p.rows + Remaining(o, p, header.rowCount));
      AddPreparedKeeps(c, p, BareRow(header));
      p := AddPrepared(c, p, BareRow(header));
    }
  }

  lemma AddPreparedKeeps(c: Context, p: Prepared, row: ExpectationRow)
    ensures var q := AddPrepared(c, p, row); q.groups == p.groups && q.rows == p.rows && q.stop == p.stop
  {
    hide PreExecutionSkip, IsExcluded, OpcodeBytes, B.DecodeKey;
  }

  method PreparePass(c: Context, inputs: seq<Input>) returns (r: Result<Prepared, P.ParseError>)
    ensures r == PrepareInputs(c, NOT_PREPARED, inputs)
  {
    hide PrepareHeaders, P.ScanFrom;
    var p := NOT_PREPARED;
    for i := 0 to |inputs|
      invariant c.options.limitStates != 0 ==> p.rows <= c.options.limitStates
      invariant PrepareInputs(c, p, inputs[i..]) == PrepareInputs(c, NOT_PREPARED, inputs)
    {
      assert inputs[i..][0] == inputs[i] && inputs[i..][1..] == inputs[i + 1..];
      if p.stop {
        break;
      }
      var headers := P.ParseInstructionHeaders(inputs[i].lines);
      if headers.Err? {
        return Err(headers.error);
      }
      p := PrepareFile(c, p, headers.value);
    }
    return Ok(p);
  }

  lemma NoneThrows(c: Context, inputs: seq<Input>, rows: seq<ExpectationRow>)
    requires PrepareInputs(c, NOT_PREPARED, inputs).Ok?
    requires rows == PrepareInputs(c, NOT_PREPARED, inputs).value.toPrepare
    ensures forall row :: row in rows ==> !B.Meaning(c.lift, row.address, row.opcode).Threw?
  {
    hide PrepareInputs, HexBytes;
    RunnerCover.NoOpcodes();
    RunnerCover.PreparedRowsAreHex(c, NOT_PREPARED, inputs);
  }

  /** The whole run: preparing in a batch first changes nothing in the summary, and the books balance. */
  method Run(c: Context, inputs: seq<Input>) returns (r: Result<Summary, P.ParseError>)
    requires InputsRunnable(inputs)
    ensures match RunAll(c, inputs)
            case Err(e) => r == Err(e)
            case Ok(s) => r == Ok(s.summary) && Balanced(c, s)
  {
    hide InputsRunnable, PrepareInputs, ExecuteInputs, Balanced;
    RunBalances(c, inputs);
    var tester := new Tester(c);
    if c.options.execute {
      var prepared := PreparePass(c, inputs);
      if prepared.Err? {
        return Err(prepared.error);
      }
      NoneThrows(c, inputs, prepared.value.toPrepare);
      var ok := tester.backend.PrepareCases(prepared.value.toPrepare);
      assert ok == Ok(true);
    }
    var error := tester.ExecutePass(inputs);
    if error.Some? {
      return Err(error.value);
    }
    return Ok(tester.summary);
  }
}
