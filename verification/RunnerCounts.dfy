/**
 * What the two passes count: the prepare pass the rows and groups that headers declare, the execute
 * pass the rows and groups there are. The prepare pass must never run ahead.
 */
module RunnerCounts {
  import opened Wrappers
  import opened Expectation
  import opened Runner
  import H = HeaderScan
  import P = X86TesterParser

  /** A header and the number of rows its group really has. */
  datatype GroupCount = GroupCount(header: P.ParsedInstructionHeader, count: nat)

  /** Declared rows and headers, actual rows and nonempty groups, of those the filters let through. */
  datatype Tally = Tally(declared: nat, headers: nat, rows: nat, groups: nat)

  const NO_TALLY := Tally(0, 0, 0, 0)

  predicate Selects(o: Options, g: GroupCount) {
    Matches(o, g.header.instruction, g.header.opcode)
  }

  function Count(o: Options, t: Tally, g: GroupCount): Tally {
    if !Selects(o, g) then t
    else Tally(t.declared + g.header.rowCount, t.headers + 1, t.rows + g.count, t.groups + if g.count > 0 then 1 else 0)
  }

  function CountAll(o: Options, t: Tally, gs: seq<GroupCount>): Tally
    decreases |gs|
  {
    if gs == [] then t else CountAll(o, Count(o, t, gs[0]), gs[1..])
  }

  predicate Over(o: Options, rows: nat, groups: nat) {
    (o.limitStates != 0 && rows >= o.limitStates) || (o.limitInstructions != 0 && groups >= o.limitInstructions)
  }

  predicate PrepareOver(o: Options, t: Tally) {
    Over(o, t.declared, t.headers)
  }

  predicate ExecuteOver(o: Options, t: Tally) {
    Over(o, t.rows, t.groups)
  }

  /** At a group with rows, the prepare pass is over a limit only if the execute pass is. */
  predicate Behind(o: Options, t: Tally, g: GroupCount) {
    Selects(o, g) && g.count > 0 && PrepareOver(o, t) ==> ExecuteOver(o, t)
  }

  predicate NeverAhead(o: Options, t: Tally, gs: seq<GroupCount>)
    decreases |gs|
  {
    gs == [] || (Behind(o, t, gs[0]) && NeverAhead(o, Count(o, t, gs[0]), gs[1..]))
  }

  lemma OverStays(o: Options, t: Tally, g: GroupCount)
    ensures PrepareOver(o, t) ==> PrepareOver(o, Count(o, t, g))
    ensures ExecuteOver(o, t) ==> ExecuteOver(o, Count(o, t, g))
  {
    hide Matches;
  }

  lemma {:induction false} OverStaysAll(o: Options, t: Tally, gs: seq<GroupCount>)
    ensures ExecuteOver(o, t) ==> ExecuteOver(o, CountAll(o, t, gs)) && NeverAhead(o, t, gs)
    decreases |gs|
  {
    hide ExecuteOver, PrepareOver, Count, Selects;
    if gs != [] {
      OverStays(o, t, gs[0]);
      OverStaysAll(o, Count(o, t, gs[0]), gs[1..]);
    }
  }

  lemma {:induction false} AheadAppend(o: Options, t: Tally, a: seq<GroupCount>, b: seq<GroupCount>)
    ensures CountAll(o, t, a + b) == CountAll(o, CountAll(o, t, a), b)
    ensures NeverAhead(o, t, a + b) <==> NeverAhead(o, t, a) && NeverAhead(o, CountAll(o, t, a), b)
    decreases |a|
  {
    hide Behind, Count;
    if a == [] {
      assert a + b == b;
    } else {
      AheadAppend(o, Count(o, t, a[0]), a[1..], b);
      assert (a + b)[0] == a[0] && (a + b)[1..] == a[1..] + b;
    }
  }

  // ---- Counts of files ----

  function GroupCounts(rows: seq<ExpectationRow>, headers: H.Headers): (gs: seq<GroupCount>)
    ensures |gs| == |headers|
  {
    seq(|headers|, h requires 0 <= h < |headers| => GroupCount(headers[h], H.CountOf(rows, h + 1)))
  }

  function FileCounts(input: Input): seq<GroupCount> {
    var parsed, scanned := P.Parsed(input.lines), P.ScanFrom([], input.lines);
    if parsed.Ok? && scanned.Ok? then GroupCounts(parsed.value.rows, scanned.value) else []
  }

  function AllCounts(inputs: seq<Input>): seq<GroupCount> {
    if inputs == [] then [] else FileCounts(inputs[0]) + AllCounts(inputs[1..])
  }

  // ---- Files that say what they have ----

  /**
   * What each limit needs of a header the filters let through: under a limit of states no more rows
   * declared than there are, under a limit of instructions at least one row.
   */
  predicate CountHolds(o: Options, g: GroupCount) {
    Selects(o, g) ==>
      && (o.limitStates != 0 ==> g.header.rowCount <= g.count)
      && (o.limitInstructions != 0 ==> g.count >= 1)
  }

  predicate CountsHold(o: Options, gs: seq<GroupCount>) {
    forall i :: 0 <= i < |gs| ==> CountHolds(o, gs[i])
  }

  /** Then the prepare pass is never ahead. */
  lemma {:induction false} CountsHoldStayBehind(o: Options, t: Tally, gs: seq<GroupCount>)
    requires CountsHold(o, gs)
    requires (o.limitStates != 0 ==> t.declared <= t.rows) && (o.limitInstructions != 0 ==> t.headers <= t.groups)
    ensures NeverAhead(o, t, gs)
    decreases |gs|
  {
    hide Selects;
    if gs != [] {
      assert CountHolds(o, gs[0]);
      assert forall i :: 0 <= i < |gs[1..]| ==> gs[1..][i] == gs[i + 1];
      CountsHoldStayBehind(o, Count(o, t, gs[0]), gs[1..]);
    }
  }

  lemma {:induction false} NothingMiscounted(rows: seq<ExpectationRow>, headers: H.Headers, groups: nat, h: nat)
    requires h < groups <= |headers| && H.Miscounted(rows, headers, groups) == 0
    ensures H.CountOf(rows, h + 1) == headers[h].rowCount
    decreases groups
  {
    if h < groups - 1 {
      NothingMiscounted(rows, headers, groups - 1, h);
    }
  }

  /** A file read without a warning whose groups are all nonempty says what it has, for every filter and limit. */
  lemma CleanFilesAreTruthful(o: Options, corpus: P.ParsedCorpus, headers: H.Headers)
    requires H.Faithful(corpus, headers) && corpus.parseWarnings == 0
    requires forall h :: 0 <= h < |headers| ==> headers[h].rowCount >= 1
    ensures CountsHold(o, GroupCounts(corpus.rows, headers))
  {
    hide H.RowsInPlace, H.CountOf, H.Miscounted, Matches;
    forall h | 0 <= h < |headers| ensures CountHolds(o, GroupCounts(corpus.rows, headers)[h]) {
      NothingMiscounted(corpus.rows, headers, |headers|, h);
    }
  }
}
