/** The prepare pass covers the execute pass: two walks with filters and limits that must stay in lockstep. */
module RunnerCover {
  import opened Wrappers
  import opened Numbers
  import opened Expectation
  import opened SkipRules
  import opened Runner
  import opened RunnerCounts
  import H = HeaderScan
  import P = X86TesterParser
  import B = Backend
  import CaseRun
  import Text

  // ---- Group keys ----

  /** The last hash of a group key ends its path. */
  lemma OneHashAfterPath(path: string, id: nat)
    ensures |GroupKey(path, id)| > |path| && GroupKey(path, id)[|path|] == '#'
    ensures forall i :: |path| < i < |GroupKey(path, id)| ==> GroupKey(path, id)[i] != '#'
  {
    var tail := Decimal(id);
    forall i | |path| < i < |GroupKey(path, id)| ensures GroupKey(path, id)[i] != '#' {
      assert GroupKey(path, id)[i] == tail[i - |path| - 1] && IsDigit(tail[i - |path| - 1], 10);
    }
  }

  lemma GroupKeyInjective(p: string, m: nat, q: string, n: nat)
    requires GroupKey(p, m) == GroupKey(q, n)
    ensures p == q && m == n
  {
    OneHashAfterPath(p, m);
    OneHashAfterPath(q, n);
    assert |p| == |q|;
    var s := GroupKey(p, m);
    assert p == s[..|p|] == q;
    assert Decimal(m) == s[|p| + 1..] == Decimal(n);
    DigitsRoundTrip(m, 10);
    DigitsRoundTrip(n, 10);
  }

  // ---- The rows of one group ----

  predicate FromGroup(row: ExpectationRow, header: P.ParsedInstructionHeader) {
    H.FromHeader(row, header) && row.instructionId == header.instructionId && Runnable(row)
  }

  predicate AllFromGroup(rows: seq<ExpectationRow>, header: P.ParsedInstructionHeader) {
    forall i :: 0 <= i < |rows| ==> FromGroup(rows[i], header)
  }

  /** A row handed to `RunCase` was prepared, unless its class is one of the six the prepare pass leaves out. */
  predicate RowCovered(c: Context, row: ExpectationRow, keys: set<string>) {
    B.DecodeKey(row.address, row.opcode) in keys || IsExcluded(c.decode(row.address, OpcodeBytes(row.opcode)).iclass)
  }

  predicate Covered(c: Context, ran: seq<ExpectationRow>, keys: set<string>) {
    forall i :: 0 <= i < |ran| ==> RowCovered(c, ran[i], keys)
  }

  /** What the prepare pass leaves behind for a header it did not stop at. */
  predicate HeaderDone(c: Context, header: P.ParsedInstructionHeader, keys: set<string>) {
    var bytes := OpcodeBytes(header.opcode);
    var metadata := c.decode(header.address, bytes);
    PreExecutionSkip(metadata, BareRow(header), |bytes|, false).Some? || IsExcluded(metadata.iclass)
    || B.DecodeKey(header.address, header.opcode) in keys
  }

  lemma CoveredGrows(c: Context, ran: seq<ExpectationRow>, keys: set<string>, more: set<string>)
    requires Covered(c, ran, keys) && keys <= more
    ensures Covered(c, ran, more)
  {
    hide IsExcluded, B.DecodeKey, OpcodeBytes;
    forall i | 0 <= i < |ran| ensures RowCovered(c, ran[i], more) {
      assert RowCovered(c, ran[i], keys);
    }
  }

  lemma NotSkippedIsCovered(c: Context, header: P.ParsedInstructionHeader, row: ExpectationRow, missing: bool,
      keys: set<string>)
    requires H.FromHeader(row, header) && HeaderDone(c, header, keys)
    requires PreExecutionSkip(c.decode(row.address, OpcodeBytes(row.opcode)), row, |OpcodeBytes(row.opcode)|,
      missing).None?
    ensures RowCovered(c, row, keys)
  {
    hide PreExecutionSkip, IsExcluded, B.DecodeKey, OpcodeBytes, BareRow;
    var bytes := OpcodeBytes(header.opcode);
    if PreExecutionSkip(c.decode(header.address, bytes), BareRow(header), |bytes|, false).Some? {
      BareSkipImpliesSkip(c.decode(header.address, bytes), header, row, |bytes|, missing);
    }
  }

  /** What selecting a row does to the variables the limits look at. */
  predicate Advanced(c: Context, s: State, t: State, keys: set<string>) {
    && t.summary.selectedRows == s.summary.selectedRows + 1
    && t.selectedGroups == s.selectedGroups
    && Covered(c, t.ran, keys)
  }

  lemma SelectedAdvances(c: Context, s: State, row: ExpectationRow, header: P.ParsedInstructionHeader,
      keys: set<string>)
    requires FromGroup(row, header) && HeaderDone(c, header, keys)
    requires CacheFresh(c, s.decodeCache) && Covered(c, s.ran, keys)
    ensures Advanced(c, s, SelectedRow(c, s, row), keys)
    ensures CacheFresh(c, SelectedRow(c, s, row).decodeCache)
  {
    hide HeaderDone, Runnable, RunRow, B.DecodeKey, MemoryMissing, SumOf, Bump, RowCovered, CacheFresh, FirstToken,
         OpcodeBytes, PreExecutionSkip, LookUp;
    LookUpFresh(c, s, row);
    var looked := LookUp(c, s, row);
    var metadata := looked.decodeCache[B.DecodeKey(row.address, row.opcode)];
    var missing := MemoryMissing(metadata, row);
    var counted := CountRow(looked, FirstToken(row.instruction), missing);
    RunRowCounts(c, counted, row, metadata, missing);
    if c.options.execute && RunRow(c, counted, row, metadata, missing).ran == s.ran + [row]
       && PreExecutionSkip(metadata, row, |OpcodeBytes(row.opcode)|, missing).None? {
      NotSkippedIsCovered(c, header, row, missing, keys);
    }
  }

  lemma LookUpFresh(c: Context, s: State, row: ExpectationRow)
    requires CacheFresh(c, s.decodeCache)
    ensures var t := LookUp(c, s, row);
      && CacheFresh(c, t.decodeCache)
      && t.decodeCache[B.DecodeKey(row.address, row.opcode)] == c.decode(row.address, OpcodeBytes(row.opcode))
      && t.selectedGroups == s.selectedGroups && t.stop == s.stop && t.ran == s.ran
      && t.summary.selectedRows == s.summary.selectedRows
  {
    hide B.DecodeKey, OpcodeBytes;
    forall a: u64, o: string | B.DecodeKey(a, o) == B.DecodeKey(row.address, row.opcode)
      ensures a == row.address && o == row.opcode
    {
      B.DecodeKeyInjective(a, o, row.address, row.opcode);
    }
  }

  /** The state limits and the freshness of the cache between rows. */
  predicate WithinStates(c: Context, s: State) {
    c.options.limitStates != 0 ==> s.summary.selectedRows <= c.options.limitStates
  }

  /** The rows of a group already entered: all are selected, or the pass stops. */
  lemma {:induction false} EnteredRows(c: Context, s: State, path: string, header: P.ParsedInstructionHeader,
      rows: seq<ExpectationRow>, keys: set<string>)
    requires AllFromGroup(rows, header) && HeaderDone(c, header, keys)
    requires CacheFresh(c, s.decodeCache) && Covered(c, s.ran, keys)
    requires Matches(c.options, header.instruction, header.opcode) && WithinStates(c, s)
    requires GroupKey(path, header.instructionId) in s.selectedGroups
    ensures AllRunnable(rows)
    ensures var t := ExecuteRows(c, s, path, rows);
      && CacheFresh(c, t.decodeCache) && Covered(c, t.ran, keys) && t.selectedGroups == s.selectedGroups
      && (t.stop || (t.summary.selectedRows == s.summary.selectedRows + |rows| && WithinStates(c, t)))
    decreases |rows|
  {
    hide HeaderDone, Runnable, CacheFresh, Covered, Matches, GroupKey, FirstToken, SelectedRow, H.FromHeader;
    RunnableRows(rows, header);
    if rows != [] && !s.stop {
      assert FromGroup(rows[0], header);
      HeaderOfRow(rows[0], header);
      SelectedAdvances(c, s, rows[0], header, keys);
      EnteredRows(c, ExecuteRow(c, s, path, rows[0]), path, header, rows[1..], keys);
    }
  }

  lemma RunnableRows(rows: seq<ExpectationRow>, header: P.ParsedInstructionHeader)
    requires AllFromGroup(rows, header)
    ensures AllRunnable(rows)
  {
    hide Runnable, H.FromHeader;
    forall i | 0 <= i < |rows| ensures Runnable(rows[i]) {
      assert FromGroup(rows[i], header);
    }
  }

  lemma HeaderOfRow(row: ExpectationRow, header: P.ParsedInstructionHeader)
    requires FromGroup(row, header)
    ensures row.instruction == header.instruction && row.opcode == header.opcode
    ensures row.instructionId == header.instructionId
  {
  }

  lemma {:induction false} UnmatchedRows(c: Context, s: State, path: string, header: P.ParsedInstructionHeader,
      rows: seq<ExpectationRow>)
    requires AllFromGroup(rows, header) && !Matches(c.options, header.instruction, header.opcode)
    ensures AllRunnable(rows) && ExecuteRows(c, s, path, rows) == s
    decreases |rows|
  {
    hide Runnable, Matches, H.FromHeader;
    RunnableRows(rows, header);
    if rows != [] && !s.stop {
      assert FromGroup(rows[0], header);
      HeaderOfRow(rows[0], header);
      UnmatchedRows(c, s, path, header, rows[1..]);
    }
  }

  // ---- Lockstep ----

  /** Every group entered so far is of an earlier file, or of this one with a smaller id. */
  ghost predicate KeysBelow(groups: set<string>, paths: set<string>, path: string, id: nat) {
    forall k :: k in groups ==> IsKeyBelow(k, paths, path, id)
  }

  ghost predicate IsKeyBelow(key: string, paths: set<string>, path: string, id: nat) {
    exists q: string, n: nat :: key == GroupKey(q, n) && (q in paths || (q == path && n < id))
  }

  /** The execute pass after the groups of a tally. */
  ghost predicate Executed(o: Options, s: State, t: Tally, paths: set<string>, path: string, id: nat) {
    && s.summary.selectedRows == t.rows
    && (o.limitInstructions != 0 ==> |s.selectedGroups| == t.groups && KeysBelow(s.selectedGroups, paths, path, id))
  }

  /** The prepare pass after the groups of a tally: it stops only over a limit, and counts states up to the limit. */
  predicate PreparedTo(o: Options, p: Prepared, t: Tally) {
    if p.stop then PrepareOver(o, t)
    else
      && p.groups == t.headers
      && (o.limitStates != 0 ==> p.rows == if t.declared < o.limitStates then t.declared else o.limitStates)
  }

  /** Both passes have gone through the groups of one tally. */
  ghost predicate Lockstep(c: Context, p: Prepared, s: State, t: Tally, paths: set<string>, path: string, id: nat) {
    && !s.stop && CacheFresh(c, s.decodeCache) && WithinStates(c, s)
    && Executed(c.options, s, t, paths, path, id) && PreparedTo(c.options, p, t)
  }

  /** All that ran is covered, and the execute pass has stopped or both passes are in step. */
  ghost predicate Safe(c: Context, p: Prepared, s: State, t: Tally, paths: set<string>, path: string, id: nat) {
    Covered(c, s.ran, p.keys) && (s.stop || Lockstep(c, p, s, t, paths, path, id))
  }

  predicate PathApart(o: Options, path: string, paths: set<string>) {
    o.limitInstructions != 0 ==> path !in paths
  }

  lemma AddPreparedIs(c: Context, p: Prepared, header: P.ParsedInstructionHeader)
    ensures var q := AddPrepared(c, p, BareRow(header));
      q.groups == p.groups && q.rows == p.rows && q.stop == p.stop && p.keys <= q.keys && HeaderDone(c, header, q.keys)
  {
    hide PreExecutionSkip, IsExcluded, OpcodeBytes, B.DecodeKey;
  }

  lemma FreshGroup(groups: set<string>, paths: set<string>, path: string, id: nat)
    requires KeysBelow(groups, paths, path, id) && path !in paths
    ensures GroupKey(path, id) !in groups
    ensures KeysBelow(groups + {GroupKey(path, id)}, paths, path, id + 1)
  {
    hide GroupKey;
    if GroupKey(path, id) in groups {
      var q: string, n: nat :| GroupKey(path, id) == GroupKey(q, n) && (q in paths || (q == path && n < id));
      GroupKeyInjective(path, id, q, n);
    }
    KeysBelowNext(groups, paths, path, id);
    assert IsKeyBelow(GroupKey(path, id), paths, path, id + 1);
  }

  lemma KeysBelowNext(groups: set<string>, paths: set<string>, path: string, id: nat)
    requires KeysBelow(groups, paths, path, id)
    ensures KeysBelow(groups, paths, path, id + 1)
  {
    hide GroupKey;
    forall k | k in groups ensures IsKeyBelow(k, paths, path, id + 1) {
      var q: string, n: nat :| k == GroupKey(q, n) && (q in paths || (q == path && n < id));
      assert k == GroupKey(q, n) && (q in paths || (q == path && n < id + 1));
    }
  }

  /** Over a limit, the first row of a group stops the execute pass. */
  lemma OverStopsExecute(c: Context, p: Prepared, s: State, t: Tally, paths: set<string>, path: string,
      header: P.ParsedInstructionHeader, rows: seq<ExpectationRow>)
    requires Lockstep(c, p, s, t, paths, path, header.instructionId) && PathApart(c.options, path, paths)
    requires AllFromGroup(rows, header) && rows != [] && Matches(c.options, header.instruction, header.opcode)
    requires ExecuteOver(c.options, t)
    ensures AllRunnable(rows) && ExecuteRows(c, s, path, rows) == s.(stop := true)
  {
    hide Runnable, CacheFresh, Covered, Matches, GroupKey, FirstToken, SelectedRow, H.FromHeader, KeysBelow, PreparedTo;
    RunnableRows(rows, header);
    assert FromGroup(rows[0], header);
    HeaderOfRow(rows[0], header);
    if c.options.limitInstructions != 0 {
      FreshGroup(s.selectedGroups, paths, path, header.instructionId);
    }
    assert ExecuteRow(c, s, path, rows[0]) == s.(stop := true);
  }

  /** A header the prepare pass has done: its rows run in step. */
  lemma BothContinue(c: Context, p: Prepared, s: State, t: Tally, paths: set<string>, path: string,
      header: P.ParsedInstructionHeader, rows: seq<ExpectationRow>)
    requires Lockstep(c, p, s, t, paths, path, header.instructionId) && Covered(c, s.ran, p.keys)
    requires PathApart(c.options, path, paths) && AllFromGroup(rows, header) && rows != []
    requires Matches(c.options, header.instruction, header.opcode)
    requires HeaderDone(c, header, PrepareNext(c, p, header).keys)
    ensures AllRunnable(rows)
    ensures Safe(c, PrepareNext(c, p, header), ExecuteRows(c, s, path, rows),
                 Count(c.options, t, GroupCount(header, |rows|)), paths, path, header.instructionId + 1)
  {
    hide Runnable, CacheFresh, Covered, Matches, GroupKey, FirstToken, SelectedRow, H.FromHeader, KeysBelow,
         AddPrepared, HeaderDone;
    RunnableRows(rows, header);
    HeaderTaken(c, p, t, header, |rows|);
    var p' := PrepareNext(c, p, header);
    CoveredGrows(c, s.ran, p.keys, p'.keys);
    if c.options.limitInstructions != 0 {
      FreshGroup(s.selectedGroups, paths, path, header.instructionId);
    }
    GroupRuns(c, s, path, header, rows, p'.keys);
  }

  /** The prepare pass on a header it lets through. */
  lemma HeaderTaken(c: Context, p: Prepared, t: Tally, header: P.ParsedInstructionHeader, count: nat)
    requires PreparedTo(c.options, p, t) && Matches(c.options, header.instruction, header.opcode)
    ensures var q := PrepareNext(c, p, header);
      && p.keys <= q.keys
      && PreparedTo(c.options, q, Count(c.options, t, GroupCount(header, count)))
      && (!PrepareOver(c.options, t) ==> HeaderDone(c, header, q.keys))
      && (PrepareOver(c.options, t) ==> q.stop && q.keys == p.keys)
  {
    hide Matches, AddPrepared, HeaderDone;
    if !PrepareOver(c.options, t) {
      AddPreparedIs(c, p.(groups := p.groups + 1, rows := p.rows + Remaining(c.options, p, header.rowCount)), header);
    }
  }

  /** A group that the prepare pass has done: its rows run covered, or a limit stops the execute pass. */
  lemma GroupRuns(c: Context, s: State, path: string, header: P.ParsedInstructionHeader, rows: seq<ExpectationRow>,
      keys: set<string>)
    requires rows != [] && AllFromGroup(rows, header) && HeaderDone(c, header, keys) && !s.stop
    requires CacheFresh(c, s.decodeCache) && Covered(c, s.ran, keys) && WithinStates(c, s)
    requires Matches(c.options, header.instruction, header.opcode)
    ensures AllRunnable(rows)
    ensures var t := ExecuteRows(c, s, path, rows);
      && CacheFresh(c, t.decodeCache) && Covered(c, t.ran, keys)
      && (t.stop
          || (&& t.selectedGroups == s.selectedGroups + {GroupKey(path, header.instructionId)}
              && t.summary.selectedRows == s.summary.selectedRows + |rows| && WithinStates(c, t)))
  {
    hide Runnable, CacheFresh, Covered, Matches, GroupKey, FirstToken, SelectedRow, H.FromHeader, HeaderDone, Bump;
    RunnableRows(rows, header);
    assert FromGroup(rows[0], header);
    HeaderOfRow(rows[0], header);
    var entered := EnterGroup(c.options, s, GroupKey(path, header.instructionId), FirstToken(rows[0].instruction));
    if c.options.limitStates != 0 && s.summary.selectedRows >= c.options.limitStates {
      assert ExecuteRow(c, s, path, rows[0]) == s.(stop := true);
    } else if entered.stop {
      assert ExecuteRow(c, s, path, rows[0]) == s.(stop := true);
    } else {
      FirstRow(c, s, path, header, rows, keys);
    }
  }

  /** The first row enters the group, the others follow. */
  lemma FirstRow(c: Context, s: State, path: string, header: P.ParsedInstructionHeader, rows: seq<ExpectationRow>,
      keys: set<string>)
    requires rows != [] && AllFromGroup(rows, header) && HeaderDone(c, header, keys) && !s.stop
    requires CacheFresh(c, s.decodeCache) && Covered(c, s.ran, keys) && WithinStates(c, s)
    requires Matches(c.options, header.instruction, header.opcode)
    requires !(c.options.limitStates != 0 && s.summary.selectedRows >= c.options.limitStates)
    requires !EnterGroup(c.options, s, GroupKey(path, header.instructionId), FirstToken(rows[0].instruction)).stop
    ensures AllRunnable(rows)
    ensures var t := ExecuteRows(c, s, path, rows);
      && CacheFresh(c, t.decodeCache) && Covered(c, t.ran, keys)
      && t.selectedGroups == s.selectedGroups + {GroupKey(path, header.instructionId)}
      && (t.stop || (t.summary.selectedRows == s.summary.selectedRows + |rows| && WithinStates(c, t)))
  {
    hide HeaderDone, Runnable, CacheFresh, Covered, Matches, GroupKey, FirstToken, SelectedRow, H.FromHeader, Bump;
    RunnableRows(rows, header);
    assert FromGroup(rows[0], header);
    HeaderOfRow(rows[0], header);
    var key := GroupKey(path, header.instructionId);
    var entered := EnterGroup(c.options, s, key, FirstToken(rows[0].instruction));
    assert s.selectedGroups + {key} == entered.selectedGroups;
    SelectedAdvances(c, entered, rows[0], header, keys);
    var next := ExecuteRow(c, s, path, rows[0]);
    assert next == SelectedRow(c, entered, rows[0]);
    EnteredRows(c, next, path, header, rows[1..], keys);
  }

  /** The prepare pass on a header, once it may have stopped. */
  function PrepareNext(c: Context, p: Prepared, header: P.ParsedInstructionHeader): Prepared {
    if p.stop then p else PrepareHeader(c, p, header)
  }

  lemma GroupInStep(c: Context, p: Prepared, s: State, t: Tally, paths: set<string>, path: string,
      header: P.ParsedInstructionHeader, rows: seq<ExpectationRow>)
    requires Lockstep(c, p, s, t, paths, path, header.instructionId) && Covered(c, s.ran, p.keys)
    requires PathApart(c.options, path, paths) && AllFromGroup(rows, header)
    requires Behind(c.options, t, GroupCount(header, |rows|))
    ensures AllRunnable(rows)
    ensures Safe(c, PrepareNext(c, p, header), ExecuteRows(c, s, path, rows),
                 Count(c.options, t, GroupCount(header, |rows|)), paths, path, header.instructionId + 1)
  {
    hide Runnable, CacheFresh, Covered, Matches, KeysBelow, ExecuteRows, AllFromGroup, PrepareNext, PreparedTo,
         PrepareOver, ExecuteOver, Safe;
    if !Matches(c.options, header.instruction, header.opcode) || rows == [] {
      NothingSelected(c, p, s, t, paths, path, header, rows);
    } else if PrepareOver(c.options, t) {
      OverStopsExecute(c, p, s, t, paths, path, header, rows);
      HeaderTaken(c, p, t, header, |rows|);
      StoppedIsSafe(c, PrepareNext(c, p, header), s, Count(c.options, t, GroupCount(header, |rows|)), paths, path,
                    header.instructionId + 1);
    } else {
      HeaderTaken(c, p, t, header, |rows|);
      BothContinue(c, p, s, t, paths, path, header, rows);
    }
  }

  lemma StoppedIsSafe(c: Context, p: Prepared, s: State, t: Tally, paths: set<string>, path: string, id: nat)
    requires Covered(c, s.ran, p.keys)
    ensures Safe(c, p, s.(stop := true), t, paths, path, id)
  {
    hide Covered, Lockstep;
  }

  /** A group that has no rows, or that the filters hold back. */
  lemma NothingSelected(c: Context, p: Prepared, s: State, t: Tally, paths: set<string>, path: string,
      header: P.ParsedInstructionHeader, rows: seq<ExpectationRow>)
    requires Lockstep(c, p, s, t, paths, path, header.instructionId) && Covered(c, s.ran, p.keys)
    requires AllFromGroup(rows, header) && (rows == [] || !Matches(c.options, header.instruction, header.opcode))
    ensures AllRunnable(rows)
    ensures Safe(c, PrepareNext(c, p, header), ExecuteRows(c, s, path, rows),
                 Count(c.options, t, GroupCount(header, |rows|)), paths, path, header.instructionId + 1)
  {
    hide Runnable, CacheFresh, Covered, Matches, KeysBelow, AllFromGroup, AddPrepared, HeaderDone, PrepareOver;
    if c.options.limitInstructions != 0 {
      KeysBelowNext(s.selectedGroups, paths, path, header.instructionId);
    }
    if !Matches(c.options, header.instruction, header.opcode) {
      UnmatchedRows(c, s, path, header, rows);
    } else {
      HeaderTaken(c, p, t, header, |rows|);
      CoveredGrows(c, s.ran, p.keys, PrepareNext(c, p, header).keys);
    }
  }

  // ---- The groups of one file ----

  function Concat(lists: seq<seq<ExpectationRow>>): seq<ExpectationRow> {
    if lists == [] then [] else lists[0] + Concat(lists[1..])
  }

  lemma {:induction false} ExecuteRowsAppend(c: Context, s: State, path: string, a: seq<ExpectationRow>,
      b: seq<ExpectationRow>)
    requires AllRunnable(a) && AllRunnable(b)
    ensures AllRunnable(a + b)
    ensures ExecuteRows(c, s, path, a + b) == ExecuteRows(c, ExecuteRows(c, s, path, a), path, b)
    decreases |a|
  {
    hide Runnable, ExecuteRow;
    if a == [] {
      assert a + b == b;
    } else if !s.stop {
      ExecuteRowsAppend(c, ExecuteRow(c, s, path, a[0]), path, a[1..], b);
      assert (a + b)[1..] == a[1..] + b;
    }
  }

  lemma {:induction false} PreparedKeysGrow(c: Context, p: Prepared, headers: seq<P.ParsedInstructionHeader>)
    ensures p.keys <= PrepareHeaders(c, p, headers).keys
    decreases |headers|
  {
    hide AddPrepared, Matches;
    if headers != [] && !p.stop {
      var header := headers[0];
      var full := c.options.limitStates != 0 && p.rows >= c.options.limitStates;
      var more := if full then 0 else Remaining(c.options, p, header.rowCount);
      var taken := p.(groups := p.groups + 1, rows := p.rows + more);
      AddPreparedIs(c, taken, header);
      PreparedKeysGrow(c, PrepareHeader(c, p, header), headers[1..]);
    }
  }

  predicate GroupsOf(lists: seq<seq<ExpectationRow>>, headers: seq<P.ParsedInstructionHeader>) {
    && |lists| == |headers|
    && forall h :: 0 <= h < |headers| ==> AllFromGroup(lists[h], headers[h])
  }

  function CountsOf(lists: seq<seq<ExpectationRow>>, headers: seq<P.ParsedInstructionHeader>): (gs: seq<GroupCount>)
    requires |lists| == |headers|
    ensures |gs| == |headers|
  {
    seq(|headers|, h requires 0 <= h < |headers| => GroupCount(headers[h], |lists[h]|))
  }

  predicate NumberedFrom(headers: seq<P.ParsedInstructionHeader>, id: nat) {
    forall h :: 0 <= h < |headers| ==> headers[h].instructionId == id + h
  }

  lemma {:induction false} FileInStep(c: Context, p: Prepared, s: State, t: Tally, paths: set<string>, path: string,
                                      headers: seq<P.ParsedInstructionHeader>, lists: seq<seq<ExpectationRow>>, id: nat)
    requires Lockstep(c, p, s, t, paths, path, id) && Covered(c, s.ran, p.keys) && PathApart(c.options, path, paths)
    requires GroupsOf(lists, headers) && NumberedFrom(headers, id)
    requires NeverAhead(c.options, t, CountsOf(lists, headers))
    ensures AllRunnable(Concat(lists))
    ensures Safe(c, PrepareHeaders(c, p, headers), ExecuteRows(c, s, path, Concat(lists)),
                 CountAll(c.options, t, CountsOf(lists, headers)), paths, path, id + |headers|)
    decreases |headers|
  {
    hide Runnable, CacheFresh, Covered, KeysBelow, AllFromGroup, PrepareHeader, ExecuteRow, Behind, Lockstep, Count;
    if headers != [] {
      assert AllFromGroup(lists[0], headers[0]) && headers[0].instructionId == id;
      var gs := CountsOf(lists, headers);
      assert gs[0] == GroupCount(headers[0], |lists[0]|) && gs[1..] == CountsOf(lists[1..], headers[1..]);
      GroupInStep(c, p, s, t, paths, path, headers[0], lists[0]);
      var p1 := PrepareNext(c, p, headers[0]);
      var s1 := ExecuteRows(c, s, path, lists[0]);
      assert PrepareHeaders(c, p, headers) == PrepareHeaders(c, p1, headers[1..]);
      ListsRunnable(lists[1..], headers[1..]);
      ExecuteRowsAppend(c, s, path, lists[0], Concat(lists[1..]));
      if s1.stop {
        PreparedKeysGrow(c, p1, headers[1..]);
        CoveredGrows(c, s1.ran, p1.keys, PrepareHeaders(c, p1, headers[1..]).keys);
      } else {
        FileInStep(c, p1, s1, Count(c.options, t, gs[0]), paths, path, headers[1..], lists[1..], id + 1);
      }
    }
  }

  lemma {:induction false} ListsRunnable(lists: seq<seq<ExpectationRow>>, headers: seq<P.ParsedInstructionHeader>)
    requires GroupsOf(lists, headers)
    ensures AllRunnable(Concat(lists))
    decreases |lists|
  {
    hide Runnable, AllFromGroup;
    if lists != [] {
      assert AllFromGroup(lists[0], headers[0]);
      RunnableRows(lists[0], headers[0]);
      assert forall h :: 0 <= h < |headers[1..]| ==> lists[1..][h] == lists[h + 1] && headers[1..][h] == headers[h + 1];
      ListsRunnable(lists[1..], headers[1..]);
    }
  }

  // ---- Cutting a parsed file into its groups ----

  function CountUpTo(rows: seq<ExpectationRow>, id: nat): (n: nat)
    ensures n <= |rows|
  {
    if rows == [] then 0
    else CountUpTo(rows[..|rows| - 1], id) + if rows[|rows| - 1].instructionId <= id then 1 else 0
  }

  predicate IdsAscend(rows: seq<ExpectationRow>) {
    forall i :: 0 < i < |rows| ==> rows[i - 1].instructionId <= rows[i].instructionId
  }

  lemma {:induction false} CountUpToSplits(rows: seq<ExpectationRow>, id: nat)
    requires IdsAscend(rows)
    ensures forall i :: 0 <= i < CountUpTo(rows, id) ==> rows[i].instructionId <= id
    ensures forall i :: CountUpTo(rows, id) <= i < |rows| ==> rows[i].instructionId > id
    decreases |rows|
  {
    if rows != [] {
      var init := rows[..|rows| - 1];
      CountUpToSplits(init, id);
      assert forall i :: 0 <= i < |init| ==> init[i] == rows[i];
      if |rows| > 1 {
        assert rows[|rows| - 2].instructionId <= rows[|rows| - 1].instructionId;
      }
    }
  }

  lemma {:induction false} CountUpToNext(rows: seq<ExpectationRow>, id: nat)
    ensures CountUpTo(rows, id + 1) == CountUpTo(rows, id) + H.CountOf(rows, id + 1)
    decreases |rows|
  {
    if rows != [] {
      CountUpToNext(rows[..|rows| - 1], id);
    }
  }

  lemma {:induction false} CountUpToAll(rows: seq<ExpectationRow>, id: nat)
    requires forall i :: 0 <= i < |rows| ==> rows[i].instructionId <= id
    ensures CountUpTo(rows, id) == |rows|
    decreases |rows|
  {
    if rows != [] {
      CountUpToAll(rows[..|rows| - 1], id);
    }
  }

  lemma {:induction false} CountUpToNone(rows: seq<ExpectationRow>, id: nat)
    requires forall i :: 0 <= i < |rows| ==> rows[i].instructionId > id
    ensures CountUpTo(rows, id) == 0
    decreases |rows|
  {
    if rows != [] {
      CountUpToNone(rows[..|rows| - 1], id);
    }
  }

  /** The rows of group `id + 1`, between the rows of smaller and of larger ids. */
  function GroupRows(rows: seq<ExpectationRow>, id: nat): seq<ExpectationRow> {
    CountUpToNext(rows, id);
    CountUpToFits(rows, id);
    rows[CountUpTo(rows, id)..CountUpTo(rows, id + 1)]
  }

  lemma CountUpToFits(rows: seq<ExpectationRow>, id: nat)
    ensures CountUpTo(rows, id) <= CountUpTo(rows, id + 1) <= |rows|
  {
    CountUpToNext(rows, id);
  }

  function GroupsFrom(rows: seq<ExpectationRow>, id: nat, n: nat): (lists: seq<seq<ExpectationRow>>)
    ensures |lists| == n
  {
    seq(n, h requires 0 <= h < n => GroupRows(rows, id + h))
  }

  lemma {:induction false} GroupsConcat(rows: seq<ExpectationRow>, id: nat, n: nat)
    requires CountUpTo(rows, id + n) == |rows|
    ensures Concat(GroupsFrom(rows, id, n)) == rows[CountUpTo(rows, id)..]
    decreases n
  {
    hide CountUpTo;
    if n == 0 {
      assert rows[|rows|..] == [];
    } else {
      var lists := GroupsFrom(rows, id, n);
      assert lists[1..] == GroupsFrom(rows, id + 1, n - 1);
      GroupsConcat(rows, id + 1, n - 1);
      CountUpToFits(rows, id);
      var a, b := CountUpTo(rows, id), CountUpTo(rows, id + 1);
      assert lists[0] == GroupRows(rows, id) == rows[a..b];
      assert rows[a..b] + rows[b..] == rows[a..];
    }
  }

  lemma OneGroup(corpus: P.ParsedCorpus, headers: H.Headers, h: nat)
    requires H.Faithful(corpus, headers) && AllRunnable(corpus.rows) && h < |headers|
    ensures AllFromGroup(GroupRows(corpus.rows, h), headers[h])
    ensures |GroupRows(corpus.rows, h)| == H.CountOf(corpus.rows, h + 1)
  {
    hide Runnable, H.FromHeader, H.CountOf, H.Miscounted;
    var rows := corpus.rows;
    RowsAscend(corpus, headers);
    CountUpToSplits(rows, h);
    CountUpToSplits(rows, h + 1);
    CountUpToFits(rows, h);
    CountUpToNext(rows, h);
    var group := GroupRows(rows, h);
    var start := CountUpTo(rows, h);
    forall i | 0 <= i < |group| ensures FromGroup(group[i], headers[h]) {
      assert group[i] == rows[start + i] && H.RowInPlace(rows, headers, start + i) && Runnable(rows[start + i]);
      assert rows[start + i].instructionId == h + 1;
    }
    assert |group| == H.CountOf(rows, h + 1);
  }

  lemma RowsAscend(corpus: P.ParsedCorpus, headers: H.Headers)
    requires H.Faithful(corpus, headers)
    ensures IdsAscend(corpus.rows)
    ensures forall i :: 0 <= i < |corpus.rows| ==> 1 <= corpus.rows[i].instructionId <= |headers|
  {
    hide H.FromHeader, H.CountOf, H.Miscounted;
    forall i | 0 <= i < |corpus.rows|
      ensures 1 <= corpus.rows[i].instructionId <= |headers|
      ensures i > 0 ==> corpus.rows[i - 1].instructionId <= corpus.rows[i].instructionId
    {
      assert H.RowInPlace(corpus.rows, headers, i);
    }
  }

  /** Every faithful corpus is its groups, one after the other. */
  lemma CorpusIsGroups(corpus: P.ParsedCorpus, headers: H.Headers)
    requires H.Faithful(corpus, headers) && AllRunnable(corpus.rows)
    ensures var lists := GroupsFrom(corpus.rows, 0, |headers|);
      && GroupsOf(lists, headers) && NumberedFrom(headers, 1) && Concat(lists) == corpus.rows
      && CountsOf(lists, headers) == GroupCounts(corpus.rows, headers)
  {
    hide AllRunnable, GroupRows, AllFromGroup, CountUpTo, Concat, H.RowsInPlace, H.Miscounted, H.CountOf;
    var rows := corpus.rows;
    RowsAscend(corpus, headers);
    CountUpToAll(rows, |headers|);
    CountUpToNone(rows, 0);
    GroupsConcat(rows, 0, |headers|);
    assert rows[0..] == rows;
    forall h | 0 <= h < |headers|
      ensures AllFromGroup(GroupRows(rows, h), headers[h]) && |GroupRows(rows, h)| == H.CountOf(rows, h + 1)
    {
      OneGroup(corpus, headers, h);
    }
  }

  // ---- All files ----

  predicate DistinctPaths(o: Options, inputs: seq<Input>) {
    o.limitInstructions != 0 ==> forall i, j :: 0 <= i < j < |inputs| ==> inputs[i].path != inputs[j].path
  }

  predicate PathsApart(o: Options, inputs: seq<Input>, paths: set<string>) {
    forall i :: 0 <= i < |inputs| ==> PathApart(o, inputs[i].path, paths)
  }

  lemma CountFileInStep(c: Context, p: Prepared, s: State, t: Tally, corpus: P.ParsedCorpus, paths: set<string>,
      path: string, id: nat)
    requires Lockstep(c, p, s, t, paths, path, id)
    ensures Lockstep(c, p, CountFile(s, corpus), t, paths, path, id)
  {
    hide CacheFresh, KeysBelow, PreparedTo;
  }

  lemma NextFile(c: Context, p: Prepared, s: State, t: Tally, paths: set<string>, path: string, id: nat, next: string)
    requires Lockstep(c, p, s, t, paths, path, id)
    ensures Lockstep(c, p, s, t, paths + {path}, next, 1)
  {
    hide CacheFresh, KeysBelow, PreparedTo;
    if KeysBelow(s.selectedGroups, paths, path, id) {
      KeysBelowNextFile(s.selectedGroups, paths, path, id, next);
    }
  }

  lemma KeysBelowNextFile(groups: set<string>, paths: set<string>, path: string, id: nat, next: string)
    requires KeysBelow(groups, paths, path, id)
    ensures KeysBelow(groups, paths + {path}, next, 1)
  {
    hide GroupKey;
    forall k | k in groups ensures IsKeyBelow(k, paths + {path}, next, 1) {
      assert IsKeyBelow(k, paths, path, id);
      var q: string, n: nat :| k == GroupKey(q, n) && (q in paths || (q == path && n < id));
      assert k == GroupKey(q, n) && (q in paths + {path} || (q == next && n < 1));
    }
  }

  lemma {:induction false} InputKeysGrow(c: Context, p: Prepared, inputs: seq<Input>)
    requires PrepareInputs(c, p, inputs).Ok?
    ensures p.keys <= PrepareInputs(c, p, inputs).value.keys
    decreases |inputs|
  {
    hide PrepareHeaders, P.ScanFrom;
    if inputs != [] && !p.stop {
      PreparedKeysGrow(c, p, P.ScanFrom([], inputs[0].lines).value);
      InputKeysGrow(c, PrepareHeaders(c, p, P.ScanFrom([], inputs[0].lines).value), inputs[1..]);
    }
  }

  lemma OneFile(c: Context, p: Prepared, s: State, t: Tally, input: Input, paths: set<string>)
    requires Lockstep(c, p, s, t, paths, input.path, 1) && Covered(c, s.ran, p.keys)
    requires PathApart(c.options, input.path, paths)
    requires P.Parsed(input.lines).Ok? && InputRunnable(input) && NeverAhead(c.options, t, FileCounts(input))
    ensures P.ScanFrom([], input.lines).Ok?
    ensures var corpus, headers := P.Parsed(input.lines).value, P.ScanFrom([], input.lines).value;
      && AllRunnable(corpus.rows)
      && Safe(c, PrepareHeaders(c, p, headers), ExecuteRows(c, CountFile(s, corpus), input.path, corpus.rows),
              CountAll(c.options, t, FileCounts(input)), paths, input.path, 1 + |headers|)
  {
    hide Lockstep, PrepareHeaders, ExecuteRows, P.Parsed, P.ScanFrom, H.Faithful, AllRunnable, Safe, Covered,
         GroupsOf, NumberedFrom, Concat, GroupCounts, CountsOf, NeverAhead, CountAll;
    H.ScanAgreesWithParse(input.lines);
    var corpus, headers := P.Parsed(input.lines).value, P.ScanFrom([], input.lines).value;
    CorpusIsGroups(corpus, headers);
    CountFileInStep(c, p, s, t, corpus, paths, input.path, 1);
    FileInStep(c, p, CountFile(s, corpus), t, paths, input.path, headers, GroupsFrom(corpus.rows, 0, |headers|), 1);
  }

  lemma {:induction false} InputsInStep(c: Context, p: Prepared, s: State, t: Tally, inputs: seq<Input>,
      paths: set<string>)
    requires InputsRunnable(inputs) && DistinctPaths(c.options, inputs) && PathsApart(c.options, inputs, paths)
    requires Covered(c, s.ran, p.keys) && (inputs != [] ==> Lockstep(c, p, s, t, paths, inputs[0].path, 1))
    requires NeverAhead(c.options, t, AllCounts(inputs))
    requires PrepareInputs(c, p, inputs).Ok? && ExecuteInputs(c, s, inputs).Ok?
    ensures Covered(c, ExecuteInputs(c, s, inputs).value.ran, PrepareInputs(c, p, inputs).value.keys)
    decreases |inputs|
  {
    hide Covered, PrepareHeaders, ExecuteRows, P.Parsed, P.ScanFrom, InputRunnable, AllRunnable, CountFile, FileCounts,
         NeverAhead, CacheFresh, KeysBelow, WithinStates, Executed, PreparedTo, CountAll;
    if inputs != [] {
      var input, rest := inputs[0], inputs[1..];
      assert InputRunnable(input);
      AheadAppend(c.options, t, FileCounts(input), AllCounts(rest));
      OneFile(c, p, s, t, input, paths);
      var corpus, headers := P.Parsed(input.lines).value, P.ScanFrom([], input.lines).value;
      var p1 := PrepareHeaders(c, p, headers);
      var s1 := ExecuteRows(c, CountFile(s, corpus), input.path, corpus.rows);
      var t1 := CountAll(c.options, t, FileCounts(input));
      StoppedStays(c, p, headers);
      assert PrepareInputs(c, p, inputs) == PrepareInputs(c, p1, rest);
      if s1.stop {
        InputKeysGrow(c, p1, rest);
        CoveredGrows(c, s1.ran, p1.keys, PrepareInputs(c, p1, rest).value.keys);
      } else {
        if rest != [] {
          NextFile(c, p1, s1, t1, paths, input.path, 1 + |headers|, rest[0].path);
        }
        InputsInStep(c, p1, s1, t1, rest, paths + {input.path});
      }
    }
  }

  lemma StoppedStays(c: Context, p: Prepared, headers: seq<P.ParsedInstructionHeader>)
    ensures p.stop ==> PrepareHeaders(c, p, headers) == p
  {
    hide PrepareHeader;
  }

  /**
   * When the prepare pass is never ahead of the execute pass, every row the execute pass hands to
   * `RunCase` was prepared, unless its class is one of the six excluded.
   */
  lemma PrepareCoversExecute(c: Context, inputs: seq<Input>)
    requires InputsRunnable(inputs) && DistinctPaths(c.options, inputs)
    requires NeverAhead(c.options, NO_TALLY, AllCounts(inputs))
    requires PrepareInputs(c, NOT_PREPARED, inputs).Ok? && ExecuteInputs(c, INITIAL, inputs).Ok?
    ensures Covered(c, ExecuteInputs(c, INITIAL, inputs).value.ran, PrepareInputs(c, NOT_PREPARED, inputs).value.keys)
  {
    hide PrepareInputs, ExecuteInputs, InputsRunnable, NeverAhead, AllCounts;
    InputsInStep(c, NOT_PREPARED, INITIAL, NO_TALLY, inputs, {});
  }

  /** That is so when each header says what it has, as far as the limits given need it. */
  lemma TruthfulFilesAreCovered(c: Context, inputs: seq<Input>)
    requires InputsRunnable(inputs) && DistinctPaths(c.options, inputs) && CountsHold(c.options, AllCounts(inputs))
    requires PrepareInputs(c, NOT_PREPARED, inputs).Ok? && ExecuteInputs(c, INITIAL, inputs).Ok?
    ensures Covered(c, ExecuteInputs(c, INITIAL, inputs).value.ran, PrepareInputs(c, NOT_PREPARED, inputs).value.keys)
  {
    hide PrepareInputs, ExecuteInputs, InputsRunnable, NeverAhead, AllCounts, CountsHold, DistinctPaths, Covered;
    CountsHoldStayBehind(c.options, NO_TALLY, AllCounts(inputs));
    PrepareCoversExecute(c, inputs);
  }

  /** One unit of one of the two limits, everything selected and run. */
  predicate OneAllowed(o: Options) {
    o == Options({}, {}, 0, 1, true, false) || o == Options({}, {}, 1, 0, true, false)
  }

  /** The row is neither skipped nor of an excluded class. */
  predicate Runs(c: Context, row: ExpectationRow) {
    var metadata := c.decode(row.address, OpcodeBytes(row.opcode));
    PreExecutionSkip(metadata, row, |OpcodeBytes(row.opcode)|, MemoryMissing(metadata, row)).None?
      && !IsExcluded(metadata.iclass)
  }

  /**
   * Under a limit of instructions the groups must not be empty: with a limit of one, a header that
   * truthfully declares no rows uses the limit up in the prepare pass only, so the next group runs
   * unprepared.
   */
  lemma EmptyGroupBreaksCover(c: Context, path: string, a: P.ParsedInstructionHeader, b: P.ParsedInstructionHeader,
      row: ExpectationRow)
    requires c.options == Options({}, {}, 0, 1, true, false)
    requires a.rowCount == 0 && b.rowCount == 1 && FromGroup(row, b) && Runs(c, row)
    requires B.DecodeKey(a.address, a.opcode) != B.DecodeKey(b.address, b.opcode)
    ensures AllRunnable([row]) && ExecuteRows(c, INITIAL, path, [row]).ran == [row]
    ensures !RowCovered(c, row, PrepareHeaders(c, NOT_PREPARED, [a, b]).keys)
  {
    hide PrepareHeaders, OpcodeBytes, B.DecodeKey, PreExecutionSkip, Runnable, ExecuteRows, IsExcluded, MemoryMissing;
    RanAlone(c, path, row);
    OnlyFirstPrepared(c, a, b);
  }

  /**
   * Under a limit of states no header may declare more rows than it has: with a limit of one, a header
   * that declares a row it does not have uses the limit up in the prepare pass only.
   */
  lemma OverstatedCountBreaksCover(c: Context, path: string, a: P.ParsedInstructionHeader,
      b: P.ParsedInstructionHeader, row: ExpectationRow)
    requires c.options == Options({}, {}, 1, 0, true, false)
    requires a.rowCount == 1 && b.rowCount == 1 && FromGroup(row, b) && Runs(c, row)
    requires B.DecodeKey(a.address, a.opcode) != B.DecodeKey(b.address, b.opcode)
    ensures AllRunnable([row]) && ExecuteRows(c, INITIAL, path, [row]).ran == [row]
    ensures !RowCovered(c, row, PrepareHeaders(c, NOT_PREPARED, [a, b]).keys)
  {
    hide PrepareHeaders, OpcodeBytes, B.DecodeKey, PreExecutionSkip, Runnable, ExecuteRows, IsExcluded, MemoryMissing;
    RanAlone(c, path, row);
    OnlyFirstPrepared(c, a, b);
  }

  lemma OnlyFirstPrepared(c: Context, a: P.ParsedInstructionHeader, b: P.ParsedInstructionHeader)
    requires OneAllowed(c.options) && (c.options.limitStates != 0 ==> a.rowCount >= 1)
    ensures PrepareHeaders(c, NOT_PREPARED, [a, b]).keys <= {B.DecodeKey(a.address, a.opcode)}
  {
    hide PreExecutionSkip, IsExcluded, OpcodeBytes, B.DecodeKey, FirstToken;
    assert [a, b][1..] == [b] && [b][1..] == [];
    var p := PrepareHeader(c, NOT_PREPARED, a);
    assert p.groups == 1 && !p.stop && (c.options.limitStates != 0 ==> p.rows == 1);
    assert PrepareHeader(c, p, b) == p.(stop := true);
    assert PrepareHeaders(c, NOT_PREPARED, [a, b]) == PrepareHeaders(c, p, [b])
      == PrepareHeaders(c, p.(stop := true), []);
  }

  lemma RanAlone(c: Context, path: string, row: ExpectationRow)
    requires OneAllowed(c.options) && Runnable(row) && Runs(c, row)
    ensures AllRunnable([row]) && ExecuteRows(c, INITIAL, path, [row]).ran == [row]
  {
    hide PreExecutionSkip, OpcodeBytes, B.DecodeKey, FirstToken, Runnable, MemoryMissing, GroupKey, ResultOf,
         UnsupportedReason, Bump;
    var entered := EnterGroup(c.options, INITIAL, GroupKey(path, row.instructionId), FirstToken(row.instruction));
    LookUpFresh(c, entered, row);
    assert [row][1..] == [];
  }

  // ---- What the reader guarantees about opcodes ----

  predicate OpcodesAreHex(headers: H.Headers) {
    forall i :: 0 <= i < |headers| ==> HexBytes(headers[i].opcode).Ok?
  }

  lemma HeaderOpcodeIsHex(line: string)
    requires P.ParseHeader(line).Ok?
    ensures HexBytes(P.ParseHeader(line).value.opcode).Ok?
  {
    hide HexBytes, P.ParseSchemaField, Text.SplitSpec, Text.Trim;
  }

  lemma {:induction false} ScannedOpcodesAreHex(found: H.Headers, lines: seq<string>)
    requires OpcodesAreHex(found) && P.ScanFrom(found, lines).Ok?
    ensures OpcodesAreHex(P.ScanFrom(found, lines).value)
    decreases |lines|
  {
    hide HexBytes, P.ParseHeader, Text.Trim;
    if lines != [] {
      var trimmed := Text.Trim(lines[0]);
      if Text.StartsWith(trimmed, "instr:") {
        HeaderOpcodeIsHex(trimmed);
        ScannedOpcodesAreHex(found + [P.Short(P.ParseHeader(trimmed).value, |found| + 1)], lines[1..]);
      } else {
        ScannedOpcodesAreHex(found, lines[1..]);
      }
    }
  }

  /** Every row of a file the reader accepts can be run. */
  lemma ParsedRowsAreRunnable(input: Input)
    requires P.Parsed(input.lines).Ok? ==> forall i :: 0 <= i < |P.Parsed(input.lines).value.rows| ==>
      CaseRun.Representable(P.Parsed(input.lines).value.rows[i])
    ensures InputRunnable(input)
  {
    hide HexBytes, CaseRun.Representable, P.Parsed, P.ScanFrom, H.CountOf, H.Miscounted;
    if P.Parsed(input.lines).Ok? {
      H.ScanAgreesWithParse(input.lines);
      var rows, headers := P.Parsed(input.lines).value.rows, P.ScanFrom([], input.lines).value;
      ScannedOpcodesAreHex([], input.lines);
      forall i | 0 <= i < |rows| ensures Runnable(rows[i]) {
        assert H.RowInPlace(rows, headers, i);
      }
    }
  }

  predicate RowsAreHex(rows: seq<ExpectationRow>) {
    forall i :: 0 <= i < |rows| ==> HexBytes(rows[i].opcode).Ok?
  }

  lemma {:induction false} PreparedHeadersAreHex(c: Context, p: Prepared, headers: H.Headers)
    requires RowsAreHex(p.toPrepare) && OpcodesAreHex(headers)
    ensures RowsAreHex(PrepareHeaders(c, p, headers).toPrepare)
    decreases |headers|
  {
    hide HexBytes, Matches, PreExecutionSkip, IsExcluded, OpcodeBytes, B.DecodeKey;
    if headers != [] && !p.stop {
      PreparedHeadersAreHex(c, PrepareHeader(c, p, headers[0]), headers[1..]);
    }
  }

  /** No prepared row can make `PrepareCases` throw. */
  lemma {:induction false} PreparedRowsAreHex(c: Context, p: Prepared, inputs: seq<Input>)
    requires RowsAreHex(p.toPrepare) && PrepareInputs(c, p, inputs).Ok?
    ensures RowsAreHex(PrepareInputs(c, p, inputs).value.toPrepare)
    decreases |inputs|
  {
    hide PrepareHeaders, P.ScanFrom, RowsAreHex, OpcodesAreHex;
    if inputs != [] && !p.stop {
      var headers := P.ScanFrom([], inputs[0].lines).value;
      NoOpcodes();
      ScannedOpcodesAreHex([], inputs[0].lines);
      PreparedHeadersAreHex(c, p, headers);
      PreparedRowsAreHex(c, PrepareHeaders(c, p, headers), inputs[1..]);
    }
  }

  lemma NoOpcodes()
    ensures OpcodesAreHex([]) && RowsAreHex([])
  {
  }
}
