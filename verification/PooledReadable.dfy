/** Exactly which printed files the reader accepts: those whose memory keys all name a 64-bit address. */
module PooledReadable {
  import opened Wrappers
  import opened Text
  import opened Numbers
  import opened X86TesterParser
  import opened PooledFormat

  predicate KeyReads(key: string) {
    ParseMemoryAddressKey(key).Ok?
  }

  predicate SchemaReads(schema: seq<string>) {
    forall i :: 0 <= i < |schema| ==> KeyReads(schema[i])
  }

  /** An exception row has no final state, so its output schema is never looked at. */
  predicate RowReads(row: Row, g: Group) {
    SchemaReads(g.inputSchema) && (row.output.Values? ==> SchemaReads(g.outputSchema))
  }

  predicate RowsRead(rows: seq<Row>, g: Group) {
    forall i :: 0 <= i < |rows| ==> RowReads(rows[i], g)
  }

  predicate GroupsRead(groups: seq<Group>) {
    forall i :: 0 <= i < |groups| ==> RowsRead(groups[i].rows, groups[i])
  }

  // ---- One side, one row ----

  lemma {:induction false} PairsApplyIff(side: Side, pairs: seq<Pair>)
    ensures ApplyPairs(side, pairs).Ok? <==> GoodPairs(pairs)
    decreases |pairs|
  {
    hide AddStateBytes, ParseMemoryAddressKey;
    if pairs != [] {
      var next := AddPooledValue(side, pairs[0].key, pairs[0].bytes);
      assert next.Ok? <==> ParseMemoryAddressKey(pairs[0].key).Ok?;
      if next.Ok? {
        PairsApplyIff(next.value, pairs[1..]);
      }
      assert forall i :: 1 <= i < |pairs| ==> pairs[i] == pairs[1..][i - 1];
    }
  }

  lemma SchemaPairsRead(schema: seq<string>, indices: seq<nat>, pool: Pool)
    requires |schema| == |indices| && InPool(indices, pool)
    ensures GoodPairs(PairsOf(schema, indices, pool)) <==> SchemaReads(schema)
  {
    hide ParseMemoryAddressKey;
    var pairs := PairsOf(schema, indices, pool);
    assert forall i :: 0 <= i < |schema| ==> pairs[i].key == schema[i];
    if GoodPairs(pairs) {
      forall i | 0 <= i < |schema| ensures KeyReads(schema[i]) {
        assert ParseMemoryAddressKey(pairs[i].key).Ok?;
      }
    } else {
      var i :| 0 <= i < |pairs| && !ParseMemoryAddressKey(pairs[i].key).Ok?;
      assert !KeyReads(schema[i]);
    }
  }

  lemma SideReads(schema: seq<string>, indices: seq<nat>, pool: Pool)
    requires |schema| == |indices| && InPool(indices, pool) && |pool| <= TWO64
    ensures ParseInput(IndexText(indices), schema, pool).Ok? <==> SchemaReads(schema)
    ensures ApplyPairs(NOTHING, PairsOf(schema, indices, pool)).Ok? <==> SchemaReads(schema)
  {
    hide IndexList, IndexText, PairsOf, ApplyPairs, GoodPairs, SchemaReads;
    IndexListRoundTrip(indices, |pool|);
    PairsApplyIff(NOTHING, PairsOf(schema, indices, pool));
    SchemaPairsRead(schema, indices, pool);
  }

  lemma OutputReads(output: Output, schema: seq<string>, pool: Pool)
    requires GoodOutput(output, schema, |pool|) && |pool| <= TWO64
    ensures Trimmed(OutputText(output)) && '|' !in OutputText(output)
    ensures ParseOutput(OutputText(output), schema, pool).Ok? <==> (output.Values? ==> SchemaReads(schema))
  {
    hide IndexList, IndexText, PairsOf, ApplyPairs, SchemaReads, Trim;
    match output {
      case Raised(kind) =>
        assert OutputText(output)[1..] == kind;
        assert OutputText(output)[|OutputText(output)| - 1] == kind[|kind| - 1];
        TrimOfTrimmed(kind);
      case Values(indices) =>
        DecimalsPlain(indices);
        IndexListRoundTrip(indices, |pool|);
        SideReads(schema, indices, pool);
    }
  }

  /** A printed row is accepted exactly when the keys it has values for are. */
  lemma RowTextReads(row: Row, g: Group, instructionId: nat, testCaseId: nat, stateIndex: nat, pool: Pool)
    requires GoodRow(row, g, |pool|) && |pool| <= TWO64 && |g.rows| < TWO64
    ensures Trimmed(RowText(row)) && RowText(row) != ""
    ensures ParseStateRow(RowText(row), HeaderOf(g), instructionId, testCaseId, stateIndex, pool).Ok?
      <==> RowReads(row, g)
  {
    hide IndexText, OutputText, ParseInput, ParseOutput, Trim, SchemaReads, BuildRow;
    DecimalsPlain(row.input);
    OutputReads(row.output, g.outputSchema, pool);
    SideReads(g.inputSchema, row.input, pool);
    SeparatorRoundTrip(IndexText(row.input), OutputText(row.output));
    TrimOfTrimmed(RowText(row));
    TrimOfTrimmed(OutputText(row.output));
  }

  // ---- The line loop ----

  /** What the loop needs of its variables in the body of a file. */
  predicate AfterPool(s: State, pool: Pool) {
    s.dataValuesRemaining == 0 && s.pool == pool
  }

  predicate Inside(s: State, pool: Pool, g: Group)
    requires |g.rows| < TWO64
  {
    AfterPool(s, pool) && s.header == Some(HeaderOf(g))
  }

  lemma RowLineReads(s: State, row: Row, g: Group, pool: Pool)
    requires |g.rows| < TWO64 && Inside(s, pool, g) && GoodRow(row, g, |pool|) && |pool| <= TWO64
    ensures Line(InBody(s), RowText(row)).Ok? <==> RowReads(row, g)
    ensures Line(InBody(s), RowText(row)).Ok? ==>
      Line(InBody(s), RowText(row)).value.InBody? && Inside(Line(InBody(s), RowText(row)).value.state, pool, g)
  {
    hide RowText, RowReads, GoodRow, ParseStateRow, Trim, HeaderOf, ParseHeader;
    RowTextReads(row, g, s.instructionId, s.nextTestCaseId, s.stateIndex, pool);
    TrimOfTrimmed(RowText(row));
    RowStarts(row, g, |pool|);
  }

  lemma RowStarts(row: Row, g: Group, poolSize: nat)
    requires GoodRow(row, g, poolSize) && poolSize <= TWO64
    ensures !StartsWith(RowText(row), "data:") && !StartsWith(RowText(row), "instr:")
  {
    hide RowText;
    RowTextStart(row, poolSize);
  }

  lemma {:induction false} RowLinesRead(s: State, rows: seq<Row>, g: Group, pool: Pool)
    requires |g.rows| < TWO64 && Inside(s, pool, g) && |pool| <= TWO64
    requires forall i :: 0 <= i < |rows| ==> GoodRow(rows[i], g, |pool|)
    ensures Feed(InBody(s), RowTexts(rows)).Ok? <==> RowsRead(rows, g)
    ensures Feed(InBody(s), RowTexts(rows)).Ok? ==>
      Feed(InBody(s), RowTexts(rows)).value.InBody? && AfterPool(Feed(InBody(s), RowTexts(rows)).value.state, pool)
    decreases |rows|
  {
    hide RowText, RowReads, GoodRow, Line, HeaderOf;
    if rows != [] {
      RowLineReads(s, rows[0], g, pool);
      FeedOne(InBody(s), RowText(rows[0]), RowTexts(rows[1..]));
      assert RowTexts(rows) == [RowText(rows[0])] + RowTexts(rows[1..]);
      if RowReads(rows[0], g) {
        RowLinesRead(Line(InBody(s), RowText(rows[0])).value.state, rows[1..], g, pool);
      }
      assert forall i :: 1 <= i < |rows| ==> rows[i] == rows[1..][i - 1];
    }
  }

  lemma GroupLinesRead(s: State, g: Group, pool: Pool)
    requires AfterPool(s, pool) && PlainGroup(g, |pool|) && |pool| <= TWO64
    ensures Feed(InBody(s), GroupLines(g)).Ok? <==> RowsRead(g.rows, g)
    ensures Feed(InBody(s), GroupLines(g)).Ok? ==>
      Feed(InBody(s), GroupLines(g)).value.InBody? && AfterPool(Feed(InBody(s), GroupLines(g)).value.state, pool)
  {
    hide HeaderText, RowTexts, RowsRead, GoodRow, Line;
    HeaderLineReads(s, g);
    FeedOne(InBody(s), HeaderText(g), RowTexts(g.rows));
    RowLinesRead(StartGroup(s, HeaderOf(g)), g.rows, g, pool);
  }

  lemma {:induction false} GroupsLinesRead(s: State, groups: seq<Group>, pool: Pool)
    requires AfterPool(s, pool) && |pool| <= TWO64
    requires forall i :: 0 <= i < |groups| ==> PlainGroup(groups[i], |pool|)
    ensures Feed(InBody(s), GroupsLines(groups)).Ok? <==> GroupsRead(groups)
    ensures Feed(InBody(s), GroupsLines(groups)).Ok? ==>
      Feed(InBody(s), GroupsLines(groups)).value.InBody?
        && AfterPool(Feed(InBody(s), GroupsLines(groups)).value.state, pool)
    decreases |groups|
  {
    hide GroupLines, PlainGroup, RowsRead, Line;
    if groups != [] {
      GroupLinesRead(s, groups[0], pool);
      FeedAppend(InBody(s), GroupLines(groups[0]), GroupsLines(groups[1..]));
      if RowsRead(groups[0].rows, groups[0]) {
        GroupsLinesRead(Feed(InBody(s), GroupLines(groups[0])).value.state, groups[1..], pool);
      }
      assert forall i :: 1 <= i < |groups| ==> groups[i] == groups[1..][i - 1];
    }
  }

  /** The reader accepts a printed file exactly when every key that some row has a value for is readable. */
  lemma FileReads(file: File)
    requires PlainFile(file)
    ensures Parsed(FileLines(file)).Ok? <==> GroupsRead(file.groups)
  {
    hide Line, GoodHex, PlainGroup, GroupsLines, PoolLines, GroupsRead;
    var pool := PoolBytes(file.pool);
    var afterHeader := State(|file.pool|, [], None, 0, 0, 0, 0, START);
    var afterPool := State(0, pool, None, 0, 0, 0, 0, START);
    DataHeaderRoundTrip(|file.pool|);
    PoolRoundTrip(file.pool, []);
    assert [] + pool == pool;
    GroupsLinesRead(afterPool, file.groups, pool);
    FeedAppend(InBody(afterHeader), PoolLines(file.pool), GroupsLines(file.groups));
    FeedOne(BeforeData, "data:" + Decimal(|file.pool|), PoolLines(file.pool) + GroupsLines(file.groups));
    assert FileLines(file) == ["data:" + Decimal(|file.pool|)] + (PoolLines(file.pool) + GroupsLines(file.groups));
  }

  // ---- Files of the converters ----

  /** Every key of a group has a value in some row, as in the files both converters print. */
  predicate KeysUsed(g: Group) {
    g.rows != [] && (g.outputSchema != [] ==> exists i :: 0 <= i < |g.rows| && g.rows[i].output.Values?)
  }

  predicate SchemasRead(g: Group) {
    SchemaReads(g.inputSchema) && SchemaReads(g.outputSchema)
  }

  lemma UsedKeysRead(g: Group)
    requires KeysUsed(g)
    ensures RowsRead(g.rows, g) <==> SchemasRead(g)
  {
    hide KeyReads;
    if RowsRead(g.rows, g) {
      assert RowReads(g.rows[0], g);
      if g.outputSchema != [] {
        var i :| 0 <= i < |g.rows| && g.rows[i].output.Values?;
        assert RowReads(g.rows[i], g);
      }
    }
  }

  lemma GoodSchemaIs(schema: seq<string>)
    requires PlainSchema(schema)
    ensures GoodSchema(schema) <==> SchemaReads(schema)
  {
    hide ParseMemoryAddressKey, PlainKey;
    if GoodSchema(schema) {
      forall i | 0 <= i < |schema| ensures KeyReads(schema[i]) {
        assert GoodKey(schema[i]);
      }
    }
    if SchemaReads(schema) {
      forall i | 0 <= i < |schema| ensures GoodKey(schema[i]) {
        assert KeyReads(schema[i]) && PlainKey(schema[i]);
      }
    }
  }

  lemma GoodGroupIs(g: Group, poolSize: nat)
    requires PlainGroup(g, poolSize)
    ensures GoodGroup(g, poolSize) <==> SchemasRead(g)
  {
    hide GoodGroup, GoodSchema, PlainSchema, SchemaReads, GoodRow, GoodHex, GoodAssembly;
    GoodIsPlain(g, poolSize);
    GoodSchemaIs(g.inputSchema);
    GoodSchemaIs(g.outputSchema);
  }

  predicate AllSchemasRead(groups: seq<Group>) {
    forall i :: 0 <= i < |groups| ==> SchemasRead(groups[i])
  }

  /**
   * A plain file in which every key has a value somewhere is accepted exactly when each key of each
   * schema is readable, and then it means what was printed.
   */
  lemma FileReadsExactly(file: File)
    requires PlainFile(file) && forall i :: 0 <= i < |file.groups| ==> KeysUsed(file.groups[i])
    ensures ParsedText(FileText(file)).Ok? <==> AllSchemasRead(file.groups)
    ensures AllSchemasRead(file.groups) <==> GoodFile(file)
    ensures GoodFile(file) ==> ParsedText(FileText(file)) == Ok(Meaning(file))
  {
    hide FileText, Parsed, Meaning, FileLines, GoodGroup, PlainGroup, SchemasRead, RowsRead, KeysUsed, GoodPool;
    LinesOfText(file);
    FileReads(file);
    forall i | 0 <= i < |file.groups|
      ensures GoodGroup(file.groups[i], |file.pool|) <==> SchemasRead(file.groups[i])
      ensures RowsRead(file.groups[i].rows, file.groups[i]) <==> SchemasRead(file.groups[i])
    {
      GoodGroupIs(file.groups[i], |file.pool|);
      UsedKeysRead(file.groups[i]);
    }
    if GoodFile(file) {
      TextRoundTrip(file);
    }
  }
}
