/** Chunked fetching and limits: `convert` of `tools/convert_public_parquet.py`. */
module PublicConvert {
  import opened Wrappers
  import opened PooledFormat
  import opened PublicItems
  import opened PublicWriter
  import opened PublicRoundTrip
  import opened PublicReadable
  import Text
  import C = ConvertTestVectors
  import P = X86TesterParser

  /** One row of the query, in order of test case and state. */
  datatype FetchedRow = FetchedRow(testCaseId: int, name: string, instruction: string, opcode: string, row: PublicRow)

  type Run = seq<FetchedRow>

  function RowsOf(run: Run): (rows: seq<PublicRow>)
    ensures |rows| == |run|
  {
    seq(|run|, i requires 0 <= i < |run| => run[i].row)
  }

  /** A group takes its name, disassembly and opcode from its first row. */
  function CaseOf(run: Run): PublicCase
    requires run != []
  {
    PublicCase(run[0].name, run[0].instruction, run[0].opcode, RowsOf(run))
  }

  // ---- Maximal runs of one test case ----

  predicate NoneEmpty(runs: seq<Run>) {
    forall i :: 0 <= i < |runs| ==> runs[i] != []
  }

  function AddToRuns(runs: seq<Run>, row: FetchedRow): (r: seq<Run>)
    requires NoneEmpty(runs)
    ensures NoneEmpty(r) && |r| >= |runs| && r != []
  {
    var n := |runs|;
    if n > 0 && runs[n - 1][0].testCaseId == row.testCaseId then runs[n - 1 := runs[n - 1] + [row]] else runs + [[row]]
  }

  function Runs(rows: seq<FetchedRow>): (runs: seq<Run>)
    ensures NoneEmpty(runs)
  {
    if rows == [] then [] else AddToRuns(Runs(rows[..|rows| - 1]), rows[|rows| - 1])
  }

  function Flatten(runs: seq<Run>): Run {
    if runs == [] then [] else Flatten(runs[..|runs| - 1]) + runs[|runs| - 1]
  }

  predicate OneCase(run: Run) {
    forall j :: 0 <= j < |run| ==> run[j].testCaseId == run[0].testCaseId
  }

  predicate OneCaseEach(runs: seq<Run>) {
    forall i :: 0 <= i < |runs| ==> OneCase(runs[i])
  }

  predicate NeighboursDiffer(runs: seq<Run>)
    requires NoneEmpty(runs)
  {
    forall i :: 0 < i < |runs| ==> runs[i - 1][0].testCaseId != runs[i][0].testCaseId
  }

  /** The runs are the rows in order, cut exactly where the test case changes. */
  lemma {:induction false} RunsAreMaximal(rows: seq<FetchedRow>)
    ensures Flatten(Runs(rows)) == rows
    ensures OneCaseEach(Runs(rows)) && NeighboursDiffer(Runs(rows))
    decreases |rows|
  {
    if rows == [] {
      NothingIsMaximal();
    } else {
      hide OneCaseEach, NeighboursDiffer, AddToRuns, Flatten;
      var init, row := rows[..|rows| - 1], rows[|rows| - 1];
      RunsAreMaximal(init);
      AddKeepsMaximal(Runs(init), row);
      assert init + [row] == rows;
    }
  }

  lemma NothingIsMaximal()
    ensures Flatten([]) == [] && OneCaseEach([]) && NeighboursDiffer([])
  {
  }

  lemma AddKeepsMaximal(runs: seq<Run>, row: FetchedRow)
    requires NoneEmpty(runs) && OneCaseEach(runs) && NeighboursDiffer(runs)
    ensures Flatten(AddToRuns(runs, row)) == Flatten(runs) + [row]
    ensures OneCaseEach(AddToRuns(runs, row)) && NeighboursDiffer(AddToRuns(runs, row))
  {
    hide OneCaseEach, NeighboursDiffer, Flatten;
    var n := |runs|;
    if n > 0 && runs[n - 1][0].testCaseId == row.testCaseId {
      JoinLast(runs, row);
    } else {
      OpenNew(runs, row);
    }
  }

  lemma JoinLast(runs: seq<Run>, row: FetchedRow)
    requires NoneEmpty(runs) && OneCaseEach(runs) && NeighboursDiffer(runs)
    requires runs != [] && runs[|runs| - 1][0].testCaseId == row.testCaseId
    ensures var joined := runs[|runs| - 1 := runs[|runs| - 1] + [row]];
      && NoneEmpty(joined) && OneCaseEach(joined) && NeighboursDiffer(joined)
      && Flatten(joined) == Flatten(runs) + [row]
  {
    hide OneCase;
    var n := |runs|;
    var last := runs[n - 1];
    var joined := runs[n - 1 := last + [row]];
    OneCaseGrows(last, row);
    assert joined[..n - 1] == runs[..n - 1];
    assert Flatten(runs[..n - 1]) + (last + [row]) == Flatten(runs[..n - 1]) + last + [row];
  }

  lemma OneCaseGrows(run: Run, row: FetchedRow)
    requires OneCase(run) && (run != [] ==> run[0].testCaseId == row.testCaseId)
    ensures OneCase(run + [row])
  {
  }

  lemma OpenNew(runs: seq<Run>, row: FetchedRow)
    requires NoneEmpty(runs) && OneCaseEach(runs) && NeighboursDiffer(runs)
    requires runs != [] ==> runs[|runs| - 1][0].testCaseId != row.testCaseId
    ensures var longer := runs + [[row]];
      && NoneEmpty(longer) && OneCaseEach(longer) && NeighboursDiffer(longer)
      && Flatten(longer) == Flatten(runs) + [row]
  {
    hide OneCase, Flatten;
    OneCaseGrows([], row);
    assert [] + [row] == [row];
    FlattenNext(runs, [row]);
  }

  lemma FlattenNext(runs: seq<Run>, run: Run)
    ensures Flatten(runs + [run]) == Flatten(runs) + run
  {
    assert (runs + [run])[..|runs|] == runs;
  }

  /** Later rows leave all runs but the last alone. */
  lemma {:induction false} RunsPrefix(a: seq<FetchedRow>, b: seq<FetchedRow>, n: nat)
    requires n < |Runs(a)|
    ensures |Runs(a + b)| >= |Runs(a)| && Runs(a + b)[..n] == Runs(a)[..n]
    decreases |b|
  {
    if b == [] {
      assert a + b == a;
    } else {
      var init := b[..|b| - 1];
      RunsPrefix(a, init, n);
      assert (a + b)[..|a + b| - 1] == a + init;
    }
  }

  // ---- What a conversion writes ----

  datatype Parameters = Parameters(entry: int, pageSize: int, mem0: int, limit: Option<nat>)

  function WidenRun(run: Run, p: Parameters): Result<WideCase, ConvertError>
    requires run != []
  {
    Widen(CaseOf(run), p.entry, p.pageSize, p.mem0)
  }

  predicate AllWiden(runs: seq<Run>, p: Parameters)
    requires NoneEmpty(runs)
  {
    forall i :: 0 <= i < |runs| ==> WidenRun(runs[i], p).Ok?
  }

  function WidesOf(runs: seq<Run>, p: Parameters): (wides: seq<WideCase>)
    requires NoneEmpty(runs) && AllWiden(runs, p)
    ensures |wides| == |runs|
  {
    seq(|runs|, i requires 0 <= i < |runs| => WidenRun(runs[i], p).value)
  }

  function Kept(rows: seq<FetchedRow>, limit: Option<nat>): seq<FetchedRow> {
    if limit.Some? && limit.value < |rows| then rows[..limit.value] else rows
  }

  predicate AddressesFit(rows: seq<FetchedRow>, p: Parameters) {
    forall i :: 0 <= i < |rows| ==> AddressFits(rows[i].opcode, p)
  }

  predicate AddressFits(opcode: string, p: Parameters) {
    var a := InstructionAddress(Text.ToUpper(opcode), p.entry, p.pageSize);
    a.Ok? ==> 0 <= a.value < TWO64
  }

  lemma FileNamesGrow(groups: seq<Group>, wides: seq<WideCase>, pool: seq<string>, larger: seq<string>)
    requires FileNames(File(pool, groups), wides) && pool <= larger
    ensures FileNames(File(larger, groups), wides)
  {
    hide GroupNames;
    forall g | 0 <= g < |wides| ensures GroupNames(groups[g], wides[g], larger) {
      GroupNamesGrow(groups[g], wides[g], pool, larger);
    }
  }

  /** The loop variables of `convert`. */
  datatype Progress = Progress(current: Option<int>, group: Run, cases: nat, states: nat, stop: bool)

  /** After `taken` rows the runs in `done` are written and the open group is the last run. */
  ghost predicate Tracks(g: Progress, taken: seq<FetchedRow>, done: seq<Run>, p: Parameters) {
    && NoneEmpty(done)
    && Runs(taken) == (if g.group == [] then done else done + [g.group])
    && g.cases == |done| && |taken| == g.states + |g.group|
    && (g.group == [] ==> taken == [] || g.stop)
    && (g.group != [] ==> g.current == Some(g.group[0].testCaseId))
    && (taken == [] && !g.stop ==> g.current == None)
    && (p.limit.Some? ==> |taken| <= p.limit.value)
    && (g.stop ==> p.limit == Some(|taken|))
    && AllWiden(done, p)
  }

  ghost predicate Written(file: OutputFile, done: seq<Run>, p: Parameters)
    requires NoneEmpty(done) && AllWiden(done, p)
    reads file
  {
    file.Valid() && FileNames(File(file.dataPool, file.groups), WidesOf(done, p))
  }

  /** Writing the open group. */
  method WriteRun(file: OutputFile, run: Run, p: Parameters, ghost done: seq<Run>) returns (r: Result<nat,
      ConvertError>)
    requires NoneEmpty(done) && AllWiden(done, p) && Written(file, done, p)
    requires run != [] && AddressFits(run[0].opcode, p)
    modifies file
    ensures match WidenRun(run, p)
            case Err(e) => r == Err(e)
            case Ok(_) =>
              r == Ok(|run|) && NoneEmpty(done + [run]) && AllWiden(done + [run], p) && Written(file, done + [run], p)
  {
    hide GroupNames, Widen, InstructionAddress, C.InverseOf, C.AllGoodHex, GroupsLines;
    ghost var pool, groups := file.dataPool, file.groups;
    r := file.WriteGroup(CaseOf(run), p.entry, p.pageSize, p.mem0);
    if r.Ok? {
      FileNamesGrow(groups, WidesOf(done, p), pool, file.dataPool);
      assert WidesOf(done + [run], p) == WidesOf(done, p) + [WidenRun(run, p).value];
    }
  }

  lemma RunsNext(taken: seq<FetchedRow>, row: FetchedRow)
    ensures Runs(taken + [row]) == AddToRuns(Runs(taken), row)
  {
    assert (taken + [row])[..|taken|] == taken;
  }

  /** One row joins the open group, or closes it and opens its own. */
  lemma RowJoins(g: Progress, taken: seq<FetchedRow>, done: seq<Run>, p: Parameters, row: FetchedRow)
    requires Tracks(g, taken, done, p) && !g.stop
    ensures Runs(taken + [row]) ==
      if g.group == [] then done + [[row]]
      else if g.current == Some(row.testCaseId) then done + [g.group + [row]]
      else done + [g.group] + [[row]]
  {
    hide AllWiden;
    RunsNext(taken, row);
    if g.group != [] && g.current == Some(row.testCaseId) {
      assert (done + [g.group])[|done| := g.group + [row]] == done + [g.group + [row]];
    }
  }

  /** The body of the row loop. */
  method TakeRow(file: OutputFile, g: Progress, row: FetchedRow, p: Parameters, ghost taken: seq<FetchedRow>,
      ghost done: seq<Run>)
    returns (r: Result<Progress, ConvertError>, ghost nowTaken: seq<FetchedRow>, ghost nowDone: seq<Run>)
    requires Tracks(g, taken, done, p) && !g.stop && Written(file, done, p)
    requires g.group != [] ==> AddressFits(g.group[0].opcode, p)
    modifies file
    ensures match r
            case Err(e) => g.group != [] && WidenRun(g.group, p) == Err(e) && row.testCaseId != g.group[0].testCaseId
            case Ok(h) =>
              && Tracks(h, nowTaken, nowDone, p) && Written(file, nowDone, p)
              && (if h.stop then nowTaken == taken else nowTaken == taken + [row])
              && (h.group != [] ==> h.group[0] == row || (g.group != [] && h.group[0] == g.group[0]))
  {
    hide AllWiden, Written, WidenRun, Runs, AddressFits;
    nowTaken, nowDone := taken, done;
    var current := if g.current.None? then row.testCaseId else g.current.value;
    var group, cases, states := g.group, g.cases, g.states;
    RowJoins(g, taken, done, p, row);
    if row.testCaseId != current {
      var written := WriteRun(file, group, p, done);
      if written.Err? {
        return Err(written.error), nowTaken, nowDone;
      }
      nowDone := done + [group];
      states := states + written.value;
      cases := cases + 1;
      group := [];
      current := row.testCaseId;
      if p.limit.Some? && states >= p.limit.value {
        return Ok(Progress(Some(current), group, cases, states, true)), nowTaken, nowDone;
      }
    }
    if p.limit.Some? && p.limit.value - states - |group| <= 0 {
      return Ok(Progress(Some(current), group, cases, states, true)), nowTaken, nowDone;
    }
    nowTaken := taken + [row];
    assert group == [] ==> group + [row] == [row];
    assert Runs(nowTaken) == nowDone + [group + [row]];
    return Ok(Progress(Some(current), group + [row], cases, states, false)), nowTaken, nowDone;
  }

  /** `group[: max(0, n)]`. */
  function AtMost(group: Run, n: int): (r: Run)
    ensures |group| <= n ==> r == group
  {
    if n <= 0 then [] else if n < |group| then group[..n] else group
  }

  lemma FirstOfKept(rows: seq<FetchedRow>, limit: Option<nat>, k: nat)
    requires k <= |rows| && (limit.Some? ==> k <= limit.value)
    requires k == |rows| || limit == Some(k)
    ensures rows[..k] == Kept(rows, limit)
  {
    assert rows[..|rows|] == rows;
  }

  /** A run that was closed is a run of everything that is kept. */
  lemma FailedRunIsKept(g: Progress, rows: seq<FetchedRow>, k: nat, done: seq<Run>, p: Parameters)
    requires k <= |rows| && Tracks(g, rows[..k], done, p) && g.group != [] && WidenRun(g.group, p).Err?
    requires k < |rows| ==> rows[k].testCaseId != g.group[0].testCaseId
    ensures !AllWiden(Runs(Kept(rows, p.limit)), p)
  {
    hide WidenRun, Runs;
    var kept := Kept(rows, p.limit);
    var runs := Runs(rows[..k]);
    if k == |kept| {
      assert kept == rows[..k];
      assert runs[|done|] == g.group;
    } else {
      assert kept[..k] == rows[..k] && kept[k] == rows[k];
      RunsNext(rows[..k], rows[k]);
      assert Runs(rows[..k] + [rows[k]]) == done + [g.group] + [[rows[k]]];
      RunsPrefix(rows[..k] + [rows[k]], kept[k + 1..], |done| + 1);
      assert rows[..k] + [rows[k]] + kept[k + 1..] == kept;
      assert Runs(kept)[|done|] == Runs(kept)[..|done| + 1][|done|] == g.group;
    }
  }

  /** After the loop: the open group is the last run. */
  method FinishConversion(file: OutputFile, g: Progress, p: Parameters, ghost rows: seq<FetchedRow>, ghost k: nat,
      ghost done: seq<Run>)
    returns (r: Result<(nat, nat), ConvertError>)
    requires k <= |rows| && Tracks(g, rows[..k], done, p) && Written(file, done, p) && rows[..k] == Kept(rows, p.limit)
    requires g.group != [] ==> AddressFits(g.group[0].opcode, p)
    modifies file
    ensures r.Ok? <==> AllWiden(Runs(Kept(rows, p.limit)), p)
    ensures r.Ok? ==>
      && r.value == (|Runs(Kept(rows, p.limit))|, |Kept(rows, p.limit)|)
      && Written(file, Runs(Kept(rows, p.limit)), p)
  {
    hide WidenRun, Runs, AddressFits, Kept, Written;
    if g.group != [] && (p.limit.None? || g.states < p.limit.value) {
      var group := g.group;
      if p.limit.Some? {
        group := AtMost(group, p.limit.value - g.states);
      }
      var written := WriteRun(file, group, p, done);
      if written.Err? {
        LastRunIsKept(g, rows, k, done, p);
        return Err(written.error);
      }
      return Ok((g.cases + 1, g.states + written.value));
    }
    return Ok((g.cases, g.states));
  }

  /**
   * Whatever the chunk size, the first `limit` rows are written, one group per maximal run of a test
   * case, and the counters are the numbers of runs and of rows; it fails only if one of these runs does.
   */
  method Convert(file: OutputFile, rows: seq<FetchedRow>, chunkSize: nat, p: Parameters) returns (r: Result<(nat, nat),
      ConvertError>)
    requires file.Valid() && file.groups == [] && chunkSize > 0 && AddressesFit(rows, p)
    modifies file
    ensures r.Ok? <==> AllWiden(Runs(Kept(rows, p.limit)), p)
    ensures r.Ok? ==>
      && r.value == (|Runs(Kept(rows, p.limit))|, |Kept(rows, p.limit)|)
      && Written(file, Runs(Kept(rows, p.limit)), p)
  {
    hide WidenRun, Runs, AddressFits, Kept, Written;
    ghost var done: seq<Run> := [];
    var g := Progress(None, [], 0, 0, false);
    StartTracks(file, p);
    var fetched := 0;
    ghost var k := 0;
    assert rows[..0] == [];
    while !g.stop
      invariant k <= fetched <= |rows| && Tracks(g, rows[..k], done, p) && Written(file, done, p)
      invariant !g.stop ==> k == fetched
      invariant g.group != [] ==> AddressFits(g.group[0].opcode, p)
      decreases |rows| - fetched, if g.stop then 0 else 1
    {
      var chunk := rows[fetched..if fetched + chunkSize < |rows| then fetched + chunkSize else |rows|];
      if chunk == [] {
        break;
      }
      ghost var start := fetched;
      fetched := fetched + |chunk|;
      for j := 0 to |chunk|
        invariant k <= start + j && Tracks(g, rows[..k], done, p) && Written(file, done, p)
        invariant !g.stop && k == start + j
        invariant g.group != [] ==> AddressFits(g.group[0].opcode, p)
      {
        assert chunk[j] == rows[k] && rows[..k] + [rows[k]] == rows[..k + 1];
        assert AddressFits(rows[k].opcode, p);
        ghost var taken, nowDone := rows[..k], done;
        ghost var before := g;
        var next;
        next, taken, nowDone := TakeRow(file, g, chunk[j], p, rows[..k], done);
        if next.Err? {
          FailedRunIsKept(before, rows, k, done, p);
          return Err(next.error);
        }
        g := next.value;
        done := nowDone;
        if g.stop {
          break;
        }
        k := k + 1;
      }
    }
    FirstOfKept(rows, p.limit, k);
    r := FinishConversion(file, g, p, rows, k, done);
  }

  lemma StartTracks(file: OutputFile, p: Parameters)
    requires file.Valid() && file.groups == []
    ensures Tracks(Progress(None, [], 0, 0, false), [], [], p) && Written(file, [], p)
  {
  }

  lemma LastRunIsKept(g: Progress, rows: seq<FetchedRow>, k: nat, done: seq<Run>, p: Parameters)
    requires k <= |rows| && Tracks(g, rows[..k], done, p) && g.group != [] && WidenRun(g.group, p).Err?
    requires rows[..k] == Kept(rows, p.limit)
    ensures !AllWiden(Runs(Kept(rows, p.limit)), p)
  {
    hide WidenRun, Kept;
    assert Runs(rows[..k])[|done|] == g.group;
  }

  // ---- The written file, read back ----

  predicate CleanRuns(runs: seq<Run>)
    requires NoneEmpty(runs)
  {
    forall i :: 0 <= i < |runs| ==> CleanCase(CaseOf(runs[i]))
  }

  predicate RunsRead(runs: seq<Run>, p: Parameters)
    requires NoneEmpty(runs)
  {
    forall i :: 0 <= i < |runs| ==> CaseReads(CaseOf(runs[i]), p.mem0)
  }

  lemma CleanRunIs(run: Run, p: Parameters)
    requires run != [] && CleanCase(CaseOf(run)) && WidenRun(run, p).Ok? && 0 <= WidenRun(run, p).value.address < TWO64
    ensures PlainWide(WidenRun(run, p).value) && WideUsed(WidenRun(run, p).value)
    ensures WideReads(WidenRun(run, p).value) <==> CaseReads(CaseOf(run), p.mem0)
  {
    assert CaseOf(run).rows != [];
    hide Widen, CleanCase, PlainWide, WideUsed, WideReads, CaseReads;
    CleanCaseWidens(CaseOf(run), p.entry, p.pageSize, p.mem0);
    GroupReadsExactly(CaseOf(run), p.entry, p.pageSize, p.mem0);
  }

  /** The text of a conversion parses exactly when all addresses in its rows are 64-bit ones. */
  lemma WrittenReads(file: File, runs: seq<Run>, p: Parameters)
    requires NoneEmpty(runs) && AllWiden(runs, p) && CleanRuns(runs) && FileNames(file, WidesOf(runs, p))
    requires C.AllGoodHex(file.pool) && |file.pool| < TWO64
    ensures ParsedText(FileText(file)).Ok? <==> RunsRead(runs, p)
    ensures RunsRead(runs, p) ==>
      && GoodWides(WidesOf(runs, p))
      && ParsedText(FileText(file)) == Ok(P.ParsedCorpus(WidesMean(WidesOf(runs, p), 1, 0), |runs|, 0))
  {
    hide WidenRun, CleanCase, PlainWide, WideUsed, WideReads, CaseReads, ParsedText, FileText, WidesMean, GroupNames,
         C.AllGoodHex, GoodWides;
    var wides := WidesOf(runs, p);
    forall i | 0 <= i < |runs|
      ensures PlainWide(wides[i]) && WideUsed(wides[i])
      ensures WideReads(wides[i]) <==> CaseReads(CaseOf(runs[i]), p.mem0)
    {
      assert GroupNames(file.groups[i], wides[i], file.pool);
      NamedAddress(file.groups[i], wides[i], file.pool);
      CleanRunIs(runs[i], p);
    }
    PublicFileReads(file, wides);
  }

  lemma NamedAddress(g: Group, w: WideCase, pool: seq<string>)
    requires GroupNames(g, w, pool)
    ensures 0 <= w.address < TWO64
  {
    hide RowNames;
  }

  /** Converting and flushing: the lines of the output file, and what the reader makes of their text. */
  method ConvertFile(rows: seq<FetchedRow>, chunkSize: nat, p: Parameters)
    returns (r: Result<seq<string>, ConvertError>)
    requires chunkSize > 0 && AddressesFit(rows, p)
    ensures var runs := Runs(Kept(rows, p.limit));
      && (r.Ok? <==> AllWiden(runs, p))
      && (r.Ok? && CleanRuns(runs) && |r.value| < TWO64 ==>
            && (ParsedText(Unlines(r.value)).Ok? <==> RunsRead(runs, p))
            && (RunsRead(runs, p) ==>
                  && GoodWides(WidesOf(runs, p))
                  && ParsedText(Unlines(r.value))
                     == Ok(P.ParsedCorpus(WidesMean(WidesOf(runs, p), 1, 0), |runs|, 0))))
  {
    hide WidenRun, Runs, AddressesFit, Kept, AllWiden, CleanRuns, RunsRead, WidesMean, ParsedText, GoodWides, FileNames,
         C.InverseOf, C.AllGoodHex;
    ghost var runs := Runs(Kept(rows, p.limit));
    var file := new OutputFile();
    var counted := Convert(file, rows, chunkSize, p);
    if counted.Err? {
      return Err(counted.error);
    }
    var lines := file.Flush();
    if CleanRuns(runs) && |lines| < TWO64 {
      WrittenReads(File(file.dataPool, file.groups), runs, p);
    }
    return Ok(lines);
  }
}
