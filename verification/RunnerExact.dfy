/**
 * Exactly when the prepare pass covers the execute pass, where every row runs: wherever it is ahead at a
 * group, it must have taken the key of that group before, or the group's first row is left unprepared.
 */
module RunnerExact {
  import opened Wrappers
  import opened Expectation
  import opened Runner
  import opened RunnerCounts
  import opened RunnerCover
  import opened SkipRules
  import H = HeaderScan
  import P = X86TesterParser
  import B = Backend

  // ---- Which keys the prepare pass takes, and which groups it leaves out ----

  function KeyOfGroup(g: GroupCount): string {
    B.DecodeKey(g.header.address, g.header.opcode)
  }

  /** Would the header's instruction be prepared: neither skipped without a state nor of an excluded class? */
  predicate Prepares(c: Context, header: P.ParsedInstructionHeader) {
    var bytes := OpcodeBytes(header.opcode);
    var metadata := c.decode(header.address, bytes);
    PreExecutionSkip(metadata, BareRow(header), |bytes|, false).None? && !IsExcluded(metadata.iclass)
  }

  function TakenNext(c: Context, t: Tally, taken: set<string>, g: GroupCount): set<string> {
    if Selects(c.options, g) && !PrepareOver(c.options, t) && Prepares(c, g.header) then taken + {KeyOfGroup(g)}
    else taken
  }

  function TakenAfter(c: Context, t: Tally, taken: set<string>, gs: seq<GroupCount>): set<string>
    decreases |gs|
  {
    if gs == [] then taken else TakenAfter(c, Count(c.options, t, gs[0]), TakenNext(c, t, taken, gs[0]), gs[1..])
  }

  /** The prepare pass is ahead at a group and has not met its instruction before. */
  predicate LeftOut(o: Options, t: Tally, taken: set<string>, g: GroupCount) {
    !Behind(o, t, g) && KeyOfGroup(g) !in taken
  }

  predicate NoneLeftOut(c: Context, t: Tally, taken: set<string>, gs: seq<GroupCount>)
    decreases |gs|
  {
    gs == []
    || (!LeftOut(c.options, t, taken, gs[0])
        && NoneLeftOut(c, Count(c.options, t, gs[0]), TakenNext(c, t, taken, gs[0]), gs[1..]))
  }

  lemma {:induction false} LeftOutAppend(c: Context, t: Tally, taken: set<string>, a: seq<GroupCount>,
      b: seq<GroupCount>)
    ensures TakenAfter(c, t, taken, a + b) == TakenAfter(c, CountAll(c.options, t, a), TakenAfter(c, t, taken, a), b)
    ensures NoneLeftOut(c, t, taken, a + b)
       <==> NoneLeftOut(c, t, taken, a) && NoneLeftOut(c, CountAll(c.options, t, a), TakenAfter(c, t, taken, a), b)
    decreases |a|
  {
    hide TakenNext, LeftOut, Count;
    if a == [] {
      assert a + b == b;
    } else {
      assert (a + b)[0] == a[0] && (a + b)[1..] == a[1..] + b;
      LeftOutAppend(c, Count(c.options, t, a[0]), TakenNext(c, t, taken, a[0]), a[1..], b);
    }
  }

  lemma {:induction false} OverLeavesNoneOut(c: Context, t: Tally, taken: set<string>, gs: seq<GroupCount>)
    requires ExecuteOver(c.options, t)
    ensures NoneLeftOut(c, t, taken, gs)
    decreases |gs|
  {
    hide ExecuteOver, PrepareOver, Count, Selects, TakenNext, KeyOfGroup;
    if gs != [] {
      OverStays(c.options, t, gs[0]);
      OverLeavesNoneOut(c, Count(c.options, t, gs[0]), TakenNext(c, t, taken, gs[0]), gs[1..]);
    }
  }

  // ---- Groups with keys of their own ----

  /** No two headers that the filters let through share a decode key. */
  predicate KeysApart(o: Options, seen: set<string>, gs: seq<GroupCount>)
    decreases |gs|
  {
    gs == []
    || ((Selects(o, gs[0]) ==> KeyOfGroup(gs[0]) !in seen) && KeysApart(o, SeenNext(o, seen, gs[0]), gs[1..]))
  }

  function SeenNext(o: Options, seen: set<string>, g: GroupCount): set<string> {
    if Selects(o, g) then seen + {KeyOfGroup(g)} else seen
  }

  /** Then none is left out exactly when the prepare pass is never ahead. */
  lemma {:induction false} ApartLeavesNoneOut(c: Context, t: Tally, taken: set<string>, seen: set<string>,
      gs: seq<GroupCount>)
    requires KeysApart(c.options, seen, gs) && taken <= seen
    ensures NoneLeftOut(c, t, taken, gs) <==> NeverAhead(c.options, t, gs)
    decreases |gs|
  {
    hide ExecuteOver, PrepareOver, Count, Selects, KeyOfGroup, Prepares;
    if gs != [] {
      var seenNext := SeenNext(c.options, seen, gs[0]);
      ApartLeavesNoneOut(c, Count(c.options, t, gs[0]), TakenNext(c, t, taken, gs[0]), seenNext, gs[1..]);
    }
  }

  // ---- Rows that run ----

  predicate RowsRun(c: Context, rows: seq<ExpectationRow>) {
    forall i :: 0 <= i < |rows| && Matches(c.options, rows[i].instruction, rows[i].opcode) ==> Runs(c, rows[i])
  }

  predicate InputsRun(c: Context, inputs: seq<Input>) {
    forall i :: 0 <= i < |inputs| && P.Parsed(inputs[i].lines).Ok? ==> RowsRun(c, P.Parsed(inputs[i].lines).value.rows)
  }

  lemma RowsRunSplit(c: Context, a: seq<ExpectationRow>, b: seq<ExpectationRow>)
    requires RowsRun(c, a + b)
    ensures RowsRun(c, a) && RowsRun(c, b)
  {
    hide Runs, Matches;
    assert forall i :: 0 <= i < |a| ==> (a + b)[i] == a[i];
    assert forall i :: 0 <= i < |b| ==> (a + b)[|a| + i] == b[i];
  }

  // ---- Below the limits nothing stops ----

  lemma SelectedGoesOn(c: Context, s: State, row: ExpectationRow)
    requires Runnable(row) && !c.options.stopOnFirstFail
    ensures var t := SelectedRow(c, s, row);
      && t.stop == s.stop && t.selectedGroups == s.selectedGroups
      && t.summary.selectedRows == s.summary.selectedRows + 1
      && s.ran <= t.ran
  {
    hide Runnable, PreExecutionSkip, OpcodeBytes, B.DecodeKey, MemoryMissing, FirstToken, Bump, ResultOf,
         UnsupportedReason, SumOf;
    var looked := LookUp(c, s, row);
    var metadata := looked.decodeCache[B.DecodeKey(row.address, row.opcode)];
    var missing := MemoryMissing(metadata, row);
    RunRowCounts(c, CountRow(looked, FirstToken(row.instruction), missing), row, metadata, missing);
  }

  lemma {:induction false} RowsGoOn(c: Context, s: State, path: string, header: P.ParsedInstructionHeader,
      rows: seq<ExpectationRow>)
    requires AllFromGroup(rows, header) && Matches(c.options, header.instruction, header.opcode)
    requires !s.stop && !c.options.stopOnFirstFail
    requires c.options.limitStates != 0 ==> s.summary.selectedRows + |rows| <= c.options.limitStates
    requires GroupKey(path, header.instructionId) in s.selectedGroups
          || c.options.limitInstructions == 0 || |s.selectedGroups| < c.options.limitInstructions
    ensures AllRunnable(rows) && !ExecuteRows(c, s, path, rows).stop
    decreases |rows|
  {
    hide Runnable, Matches, GroupKey, FirstToken, SelectedRow, H.FromHeader, Bump;
    RunnableRows(rows, header);
    if rows != [] {
      assert FromGroup(rows[0], header);
      HeaderOfRow(rows[0], header);
      var key := GroupKey(path, header.instructionId);
      var entered := EnterGroup(c.options, s, key, FirstToken(rows[0].instruction));
      assert !entered.stop && key in entered.selectedGroups;
      SelectedGoesOn(c, entered, rows[0]);
      assert ExecuteRow(c, s, path, rows[0]) == SelectedRow(c, entered, rows[0]);
      RowsGoOn(c, ExecuteRow(c, s, path, rows[0]), path, header, rows[1..]);
    }
  }

  lemma GroupGoesOn(c: Context, p: Prepared, s: State, t: Tally, paths: set<string>, path: string,
      header: P.ParsedInstructionHeader, rows: seq<ExpectationRow>)
    requires Lockstep(c, p, s, t, paths, path, header.instructionId) && AllFromGroup(rows, header)
    requires !c.options.stopOnFirstFail && !ExecuteOver(c.options, Count(c.options, t, GroupCount(header, |rows|)))
    ensures AllRunnable(rows) && !ExecuteRows(c, s, path, rows).stop
  {
    hide Runnable, CacheFresh, Matches, GroupKey, H.FromHeader, KeysBelow, PreparedTo, ExecuteRow;
    RunnableRows(rows, header);
    if !Matches(c.options, header.instruction, header.opcode) {
      UnmatchedRows(c, s, path, header, rows);
    } else if rows != [] {
      RowsGoOn(c, s, path, header, rows);
    }
  }

  // ---- What has run stays ----

  lemma RowRanGrows(c: Context, s: State, path: string, row: ExpectationRow)
    requires Runnable(row)
    ensures s.ran <= ExecuteRow(c, s, path, row).ran
  {
    hide Runnable, PreExecutionSkip, OpcodeBytes, B.DecodeKey, MemoryMissing, FirstToken, Bump, ResultOf,
         UnsupportedReason, CountDecode, Matches, GroupKey;
  }

  lemma {:induction false} RanGrows(c: Context, s: State, path: string, rows: seq<ExpectationRow>)
    requires AllRunnable(rows)
    ensures s.ran <= ExecuteRows(c, s, path, rows).ran
    decreases |rows|
  {
    hide Runnable, ExecuteRow;
    if rows != [] && !s.stop {
      RowRanGrows(c, s, path, rows[0]);
      RanGrows(c, ExecuteRow(c, s, path, rows[0]), path, rows[1..]);
    }
  }

  lemma {:induction false} InputsRanGrow(c: Context, s: State, inputs: seq<Input>)
    requires InputsRunnable(inputs) && ExecuteInputs(c, s, inputs).Ok?
    ensures s.ran <= ExecuteInputs(c, s, inputs).value.ran
    decreases |inputs|
  {
    hide ExecuteRows, AllRunnable, P.Parsed;
    if inputs != [] && !s.stop {
      assert InputRunnable(inputs[0]);
      var corpus := P.Parsed(inputs[0].lines).value;
      RanGrows(c, CountFile(s, corpus), inputs[0].path, corpus.rows);
      InputsRanGrow(c, ExecuteRows(c, CountFile(s, corpus), inputs[0].path, corpus.rows), inputs[1..]);
    }
  }

  lemma UncoveredStays(c: Context, ran: seq<ExpectationRow>, more: seq<ExpectationRow>, keys: set<string>)
    requires !Covered(c, ran, keys) && ran <= more
    ensures !Covered(c, more, keys)
  {
    hide RowCovered;
    var i :| 0 <= i < |ran| && !RowCovered(c, ran[i], keys);
    assert more[i] == ran[i];
  }

  // ---- Being ahead at one group ----

  lemma FirstRowRuns(c: Context, p: Prepared, s: State, t: Tally, paths: set<string>, path: string,
      header: P.ParsedInstructionHeader, row: ExpectationRow)
    requires Lockstep(c, p, s, t, paths, path, header.instructionId) && FromGroup(row, header)
    requires Matches(c.options, header.instruction, header.opcode) && !ExecuteOver(c.options, t)
    requires c.options.execute && Runs(c, row)
    ensures ExecuteRow(c, s, path, row).ran == s.ran + [row]
  {
    hide Runnable, PreExecutionSkip, OpcodeBytes, B.DecodeKey, MemoryMissing, FirstToken, Bump, ResultOf,
         UnsupportedReason, CountDecode, Matches, GroupKey, KeysBelow, PreparedTo, CacheFresh, LookUp;
    HeaderOfRow(row, header);
    var entered := EnterGroup(c.options, s, GroupKey(path, row.instructionId), FirstToken(row.instruction));
    LookUpFresh(c, entered, row);
  }

  lemma GroupBreaks(c: Context, p: Prepared, s: State, t: Tally, paths: set<string>, path: string,
      header: P.ParsedInstructionHeader, rows: seq<ExpectationRow>)
    requires Lockstep(c, p, s, t, paths, path, header.instructionId) && AllFromGroup(rows, header)
    requires !Behind(c.options, t, GroupCount(header, |rows|)) && B.DecodeKey(header.address, header.opcode) !in p.keys
    requires c.options.execute && RowsRun(c, rows)
    ensures AllRunnable(rows) && PrepareNext(c, p, header).stop
    ensures !Covered(c, ExecuteRows(c, s, path, rows).ran, PrepareNext(c, p, header).keys)
  {
    hide Runnable, Matches, B.DecodeKey, Runs, Lockstep, PrepareNext, ExecuteRow, PrepareOver, ExecuteOver;
    RunnableRows(rows, header);
    var row := rows[0];
    assert FromGroup(row, header);
    HeaderOfRow(row, header);
    LockstepParts(c, p, s, t, paths, path, header.instructionId);
    HeaderTaken(c, p, t, header, |rows|);
    FirstRowRuns(c, p, s, t, paths, path, header, row);
    var next := ExecuteRow(c, s, path, row);
    RanGrows(c, next, path, rows[1..]);
    assert next.ran[|s.ran|] == row;
    RowIsUncovered(c, row, header, p.keys);
    UncoveredStays(c, next.ran, ExecuteRows(c, s, path, rows).ran, p.keys);
  }

  lemma LockstepParts(c: Context, p: Prepared, s: State, t: Tally, paths: set<string>, path: string, id: nat)
    requires Lockstep(c, p, s, t, paths, path, id)
    ensures PreparedTo(c.options, p, t) && !s.stop
  {
    hide PreparedTo;
  }

  lemma RowIsUncovered(c: Context, row: ExpectationRow, header: P.ParsedInstructionHeader, keys: set<string>)
    requires FromGroup(row, header) && Runs(c, row) && B.DecodeKey(header.address, header.opcode) !in keys
    ensures !RowCovered(c, row, keys)
  {
    hide B.DecodeKey, Runnable, PreExecutionSkip, IsExcluded, OpcodeBytes, MemoryMissing;
  }

  // ---- One group, exactly ----

  /** The keys of the prepare pass are those it takes. */
  lemma NextKeys(c: Context, p: Prepared, t: Tally, g: GroupCount)
    requires PreparedTo(c.options, p, t)
    ensures var q := PrepareNext(c, p, g.header);
      q.keys == TakenNext(c, t, p.keys, g) && PreparedTo(c.options, q, Count(c.options, t, g))
  {
    hide Matches, PreExecutionSkip, IsExcluded, OpcodeBytes, B.DecodeKey;
    if Selects(c.options, g) {
      HeaderTaken(c, p, t, g.header, g.count);
    }
  }

  lemma {:induction false} FileKeys(c: Context, p: Prepared, t: Tally, headers: seq<P.ParsedInstructionHeader>,
      gs: seq<GroupCount>)
    requires PreparedTo(c.options, p, t)
    requires |gs| == |headers| && forall h :: 0 <= h < |gs| ==> gs[h].header == headers[h]
    ensures PrepareHeaders(c, p, headers).keys == TakenAfter(c, t, p.keys, gs)
    decreases |headers|
  {
    hide PrepareHeader, TakenNext, PreparedTo, Count;
    if headers != [] {
      NextKeys(c, p, t, gs[0]);
      FileKeys(c, PrepareNext(c, p, headers[0]), Count(c.options, t, gs[0]), headers[1..], gs[1..]);
    }
  }

  lemma KeyIsDone(c: Context, header: P.ParsedInstructionHeader, keys: set<string>)
    requires B.DecodeKey(header.address, header.opcode) in keys
    ensures HeaderDone(c, header, keys)
  {
    hide B.DecodeKey, PreExecutionSkip, IsExcluded, OpcodeBytes;
  }

  /** A group that is not left out runs covered, in step. */
  lemma GroupNotLeftOut(c: Context, p: Prepared, s: State, t: Tally, paths: set<string>, path: string,
      header: P.ParsedInstructionHeader, rows: seq<ExpectationRow>)
    requires Lockstep(c, p, s, t, paths, path, header.instructionId) && Covered(c, s.ran, p.keys)
    requires PathApart(c.options, path, paths) && AllFromGroup(rows, header)
    requires !LeftOut(c.options, t, p.keys, GroupCount(header, |rows|))
    ensures AllRunnable(rows)
    ensures Safe(c, PrepareNext(c, p, header), ExecuteRows(c, s, path, rows),
                 Count(c.options, t, GroupCount(header, |rows|)), paths, path, header.instructionId + 1)
  {
    hide Matches, B.DecodeKey, Lockstep, PrepareNext, ExecuteRows, PrepareOver, ExecuteOver, Covered, HeaderDone, Count,
         AllFromGroup, Safe;
    var g := GroupCount(header, |rows|);
    if Behind(c.options, t, g) {
      GroupInStep(c, p, s, t, paths, path, header, rows);
    } else {
      LockstepParts(c, p, s, t, paths, path, header.instructionId);
      HeaderTaken(c, p, t, header, |rows|);
      KeyIsDone(c, header, PrepareNext(c, p, header).keys);
      BothContinue(c, p, s, t, paths, path, header, rows);
    }
  }

  // ---- One file, exactly ----

  /** Both passes after some groups of which none was left out. */
  ghost predicate GoesOn(c: Context, p: Prepared, s: State, t: Tally, paths: set<string>, path: string, id: nat) {
    Safe(c, p, s, t, paths, path, id) && (s.stop ==> ExecuteOver(c.options, t))
  }

  /** The prepare pass has stopped, and a row that ran is not covered. */
  predicate Broken(c: Context, p: Prepared, s: State) {
    p.stop && !Covered(c, s.ran, p.keys)
  }

  lemma {:induction false} FileExact(c: Context, p: Prepared, s: State, t: Tally, paths: set<string>, path: string,
                                     headers: seq<P.ParsedInstructionHeader>, lists: seq<seq<ExpectationRow>>, id: nat)
    requires Lockstep(c, p, s, t, paths, path, id) && Covered(c, s.ran, p.keys) && PathApart(c.options, path, paths)
    requires GroupsOf(lists, headers) && NumberedFrom(headers, id)
    requires c.options.execute && !c.options.stopOnFirstFail && RowsRun(c, Concat(lists))
    ensures AllRunnable(Concat(lists))
    ensures var p' := PrepareHeaders(c, p, headers);
      var s' := ExecuteRows(c, s, path, Concat(lists));
      var gs := CountsOf(lists, headers);
      if NoneLeftOut(c, t, p.keys, gs) then GoesOn(c, p', s', CountAll(c.options, t, gs), paths, path, id + |headers|)
      else Broken(c, p', s')
    decreases |headers|
  {
    hide Covered, AllFromGroup, PrepareHeader, ExecuteRow, LeftOut, Count, ExecuteOver, Lockstep, RowsRun, TakenNext,
         Selects, AllRunnable, PathApart;
    ListsRunnable(lists, headers);
    LockstepParts(c, p, s, t, paths, path, id);
    if headers != [] {
      var gs := CountsOf(lists, headers);
      assert AllFromGroup(lists[0], headers[0]) && headers[0].instructionId == id;
      assert gs[0] == GroupCount(headers[0], |lists[0]|) && gs[1..] == CountsOf(lists[1..], headers[1..]);
      RunnableRows(lists[0], headers[0]);
      RowsRunSplit(c, lists[0], Concat(lists[1..]));
      ListsRunnable(lists[1..], headers[1..]);
      ExecuteRowsAppend(c, s, path, lists[0], Concat(lists[1..]));
      NextKeys(c, p, t, gs[0]);
      var p1 := PrepareNext(c, p, headers[0]);
      var s1 := ExecuteRows(c, s, path, lists[0]);
      var t1 := Count(c.options, t, gs[0]);
      assert PrepareHeaders(c, p, headers) == PrepareHeaders(c, p1, headers[1..]);
      if LeftOut(c.options, t, p.keys, gs[0]) {
        FirstLeftOut(c, p, s, t, paths, path, headers, lists, id);
      } else {
        GroupNotLeftOut(c, p, s, t, paths, path, headers[0], lists[0]);
        if s1.stop {
          StopsOver(c, p, s, t, paths, path, headers[0], lists[0]);
          OverStaysAll(c.options, t1, gs[1..]);
          OverLeavesNoneOut(c, t1, p1.keys, gs[1..]);
          PreparedKeysGrow(c, p1, headers[1..]);
          CoveredGrows(c, s1.ran, p1.keys, PrepareHeaders(c, p1, headers[1..]).keys);
        } else {
          FileExact(c, p1, s1, t1, paths, path, headers[1..], lists[1..], id + 1);
        }
      }
    }
  }

  /** Below a limit of failures, only the limits stop the execute pass. */
  lemma StopsOver(c: Context, p: Prepared, s: State, t: Tally, paths: set<string>, path: string,
      header: P.ParsedInstructionHeader, rows: seq<ExpectationRow>)
    requires Lockstep(c, p, s, t, paths, path, header.instructionId) && AllFromGroup(rows, header)
    requires !c.options.stopOnFirstFail && AllRunnable(rows) && ExecuteRows(c, s, path, rows).stop
    ensures ExecuteOver(c.options, Count(c.options, t, GroupCount(header, |rows|)))
  {
    hide Lockstep, AllFromGroup, AllRunnable, ExecuteRows, ExecuteOver, Count;
    if !ExecuteOver(c.options, Count(c.options, t, GroupCount(header, |rows|))) {
      GroupGoesOn(c, p, s, t, paths, path, header, rows);
    }
  }

  lemma FirstLeftOut(c: Context, p: Prepared, s: State, t: Tally, paths: set<string>, path: string,
      headers: seq<P.ParsedInstructionHeader>, lists: seq<seq<ExpectationRow>>, id: nat)
    requires Lockstep(c, p, s, t, paths, path, id) && headers != []
    requires GroupsOf(lists, headers) && NumberedFrom(headers, id)
    requires LeftOut(c.options, t, p.keys, GroupCount(headers[0], |lists[0]|))
    requires c.options.execute && RowsRun(c, Concat(lists))
    ensures AllRunnable(Concat(lists))
    ensures Broken(c, PrepareHeaders(c, p, headers), ExecuteRows(c, s, path, Concat(lists)))
  {
    hide Covered, AllFromGroup, PrepareHeader, ExecuteRow, Behind, Lockstep, RowsRun, AllRunnable, B.DecodeKey;
    assert AllFromGroup(lists[0], headers[0]) && headers[0].instructionId == id;
    RunnableRows(lists[0], headers[0]);
    RowsRunSplit(c, lists[0], Concat(lists[1..]));
    ListsRunnable(lists[1..], headers[1..]);
    ExecuteRowsAppend(c, s, path, lists[0], Concat(lists[1..]));
    LockstepParts(c, p, s, t, paths, path, id);
    GroupBreaks(c, p, s, t, paths, path, headers[0], lists[0]);
    var p1 := PrepareNext(c, p, headers[0]);
    var s1 := ExecuteRows(c, s, path, lists[0]);
    assert PrepareHeaders(c, p, headers) == PrepareHeaders(c, p1, headers[1..]);
    StoppedStays(c, p1, headers[1..]);
    RanGrows(c, s1, path, Concat(lists[1..]));
    UncoveredStays(c, s1.ran, ExecuteRows(c, s1, path, Concat(lists[1..])).ran, p1.keys);
  }

  lemma OneFileExact(c: Context, p: Prepared, s: State, t: Tally, input: Input, paths: set<string>)
    requires Lockstep(c, p, s, t, paths, input.path, 1) && Covered(c, s.ran, p.keys)
    requires PathApart(c.options, input.path, paths) && P.Parsed(input.lines).Ok? && InputRunnable(input)
    requires c.options.execute && !c.options.stopOnFirstFail && RowsRun(c, P.Parsed(input.lines).value.rows)
    ensures P.ScanFrom([], input.lines).Ok? && AllRunnable(P.Parsed(input.lines).value.rows)
    ensures var corpus, headers := P.Parsed(input.lines).value, P.ScanFrom([], input.lines).value;
      var p' := PrepareHeaders(c, p, headers);
      var s' := ExecuteRows(c, CountFile(s, corpus), input.path, corpus.rows);
      var gs := FileCounts(input);
      && p'.keys == TakenAfter(c, t, p.keys, gs)
      && (if NoneLeftOut(c, t, p.keys, gs)
          then GoesOn(c, p', s', CountAll(c.options, t, gs), paths, input.path, 1 + |headers|)
          else Broken(c, p', s'))
  {
    hide Lockstep, PrepareHeaders, ExecuteRows, P.Parsed, P.ScanFrom, H.Faithful, AllRunnable, Covered, GroupsOf,
         NumberedFrom, Concat, GroupCounts, CountsOf, RowsRun, TakenAfter, NoneLeftOut, GoesOn, Broken, CountAll;
    H.ScanAgreesWithParse(input.lines);
    var corpus, headers := P.Parsed(input.lines).value, P.ScanFrom([], input.lines).value;
    CorpusIsGroups(corpus, headers);
    CountFileInStep(c, p, s, t, corpus, paths, input.path, 1);
    LockstepParts(c, p, s, t, paths, input.path, 1);
    HeadersOfCounts(corpus.rows, headers);
    FileKeys(c, p, t, headers, GroupCounts(corpus.rows, headers));
    FileExact(c, p, CountFile(s, corpus), t, paths, input.path, headers, GroupsFrom(corpus.rows, 0, |headers|), 1);
  }

  lemma HeadersOfCounts(rows: seq<ExpectationRow>, headers: H.Headers)
    ensures forall h :: 0 <= h < |headers| ==> GroupCounts(rows, headers)[h].header == headers[h]
  {
    hide H.CountOf;
  }

  // ---- All files, exactly ----

  lemma {:induction false} InputsExact(c: Context, p: Prepared, s: State, t: Tally, inputs: seq<Input>,
      paths: set<string>)
    requires InputsRunnable(inputs) && DistinctPaths(c.options, inputs) && PathsApart(c.options, inputs, paths)
    requires Covered(c, s.ran, p.keys) && (inputs != [] ==> Lockstep(c, p, s, t, paths, inputs[0].path, 1))
    requires c.options.execute && !c.options.stopOnFirstFail && InputsRun(c, inputs)
    requires PrepareInputs(c, p, inputs).Ok? && ExecuteInputs(c, s, inputs).Ok?
    ensures Covered(c, ExecuteInputs(c, s, inputs).value.ran, PrepareInputs(c, p, inputs).value.keys)
       <==> NoneLeftOut(c, t, p.keys, AllCounts(inputs))
    decreases |inputs|
  {
    hide Covered, PrepareHeaders, ExecuteRows, P.Parsed, P.ScanFrom, InputRunnable, AllRunnable, CountFile, FileCounts,
         NoneLeftOut, CacheFresh, KeysBelow, WithinStates, Executed, PreparedTo, CountAll, TakenAfter, RowsRun,
         ExecuteOver;
    if inputs == [] {
      NothingLeftOut(c, t, p.keys);
    } else {
      var input, rest := inputs[0], inputs[1..];
      assert InputRunnable(input);
      OneFileExact(c, p, s, t, input, paths);
      LeftOutAppend(c, t, p.keys, FileCounts(input), AllCounts(rest));
      var corpus, headers := P.Parsed(input.lines).value, P.ScanFrom([], input.lines).value;
      var p1 := PrepareHeaders(c, p, headers);
      var s1 := ExecuteRows(c, CountFile(s, corpus), input.path, corpus.rows);
      var t1 := CountAll(c.options, t, FileCounts(input));
      StoppedStays(c, p, headers);
      assert PrepareInputs(c, p, inputs) == PrepareInputs(c, p1, rest);
      if !NoneLeftOut(c, t, p.keys, FileCounts(input)) {
        assert PrepareInputs(c, p1, rest) == Ok(p1);
        InputsRanGrow(c, s1, rest);
        UncoveredStays(c, s1.ran, ExecuteInputs(c, s1, rest).value.ran, p1.keys);
      } else if s1.stop {
        OverLeavesNoneOut(c, t1, p1.keys, AllCounts(rest));
        InputKeysGrow(c, p1, rest);
        CoveredGrows(c, s1.ran, p1.keys, PrepareInputs(c, p1, rest).value.keys);
      } else {
        if rest != [] {
          NextFile(c, p1, s1, t1, paths, input.path, 1 + |headers|, rest[0].path);
        }
        InputsExact(c, p1, s1, t1, rest, paths + {input.path});
      }
    }
  }

  lemma NothingLeftOut(c: Context, t: Tally, taken: set<string>)
    ensures NoneLeftOut(c, t, taken, AllCounts([]))
  {
  }

  /**
   * Where every row runs and no failure stops the run, the prepare pass covers the execute pass exactly
   * when, at every group where it alone is over a limit, it took that group's instruction before.
   */
  lemma CoversExactly(c: Context, inputs: seq<Input>)
    requires InputsRunnable(inputs) && DistinctPaths(c.options, inputs)
    requires c.options.execute && !c.options.stopOnFirstFail && InputsRun(c, inputs)
    requires PrepareInputs(c, NOT_PREPARED, inputs).Ok? && ExecuteInputs(c, INITIAL, inputs).Ok?
    ensures Covered(c, ExecuteInputs(c, INITIAL, inputs).value.ran, PrepareInputs(c, NOT_PREPARED, inputs).value.keys)
       <==> NoneLeftOut(c, NO_TALLY, {}, AllCounts(inputs))
  {
    hide PrepareInputs, ExecuteInputs, InputsRunnable, NoneLeftOut, AllCounts, InputsRun, DistinctPaths;
    InputsExact(c, NOT_PREPARED, INITIAL, NO_TALLY, inputs, {});
  }

  /** Where moreover no two headers share a decode key, exactly when the prepare pass is never ahead. */
  lemma CoversApartExactly(c: Context, inputs: seq<Input>)
    requires InputsRunnable(inputs) && DistinctPaths(c.options, inputs)
    requires c.options.execute && !c.options.stopOnFirstFail && InputsRun(c, inputs)
    requires KeysApart(c.options, {}, AllCounts(inputs))
    requires PrepareInputs(c, NOT_PREPARED, inputs).Ok? && ExecuteInputs(c, INITIAL, inputs).Ok?
    ensures Covered(c, ExecuteInputs(c, INITIAL, inputs).value.ran, PrepareInputs(c, NOT_PREPARED, inputs).value.keys)
       <==> NeverAhead(c.options, NO_TALLY, AllCounts(inputs))
  {
    hide PrepareInputs, ExecuteInputs, InputsRunnable, NeverAhead, NoneLeftOut, AllCounts, InputsRun, KeysApart,
         DistinctPaths, Covered;
    CoversExactly(c, inputs);
    ApartLeavesNoneOut(c, NO_TALLY, {}, {}, AllCounts(inputs));
  }
}
