/** The public converter's file through the reader: which files come back, and which rows they hold. */
module PublicRoundTrip {
  import opened Wrappers
  import opened Numbers
  import opened Expectation
  import opened PooledFormat
  import opened PooledReadable
  import opened PublicWriter
  import opened PublicReading
  import P = X86TesterParser
  import C = ConvertTestVectors

  // ---- Delimiter-free fields ----

  predicate GoodWideRow(row: WideRow, w: WideCase) {
    && |row.inputs| == |w.inSchema|
    && (if row.exception.Some? then GoodKind(row.exception.value) else |row.outputs| == |w.outSchema|)
  }

  predicate GoodWide(w: WideCase) {
    && 0 <= w.address < TWO64
    && GoodHex(w.opcode) && GoodAssembly(w.instruction)
    && GoodSchema(w.inSchema) && GoodSchema(w.outSchema)
    && |w.rows| < TWO64
    && forall i :: 0 <= i < |w.rows| ==> GoodWideRow(w.rows[i], w)
  }

  predicate GoodWides(wides: seq<WideCase>) {
    forall i :: 0 <= i < |wides| ==> GoodWide(wides[i])
  }

  lemma ZipIsGood(schema: seq<string>, values: seq<seq<byte>>)
    requires GoodSchema(schema) && |values| == |schema|
    ensures GoodPairs(Zip(schema, values))
  {
    hide P.ParseMemoryAddressKey;
    forall i | 0 <= i < |schema| ensures P.ParseMemoryAddressKey(Zip(schema, values)[i].key).Ok? {
      assert GoodKey(schema[i]);
    }
  }

  function ZipSide(schema: seq<string>, values: seq<seq<byte>>): P.Side
    requires GoodSchema(schema) && |values| == |schema|
  {
    ZipIsGood(schema, values);
    SideOf(Zip(schema, values))
  }

  // ---- What the reader makes of a file ----

  function WideHeader(w: WideCase): P.InstructionHeader
    requires 0 <= w.address < TWO64 && |w.rows| < TWO64
  {
    P.InstructionHeader(w.address, w.opcode, w.instruction, |w.rows|, w.inSchema, w.outSchema)
  }

  function WideRowMeans(w: WideCase, i: nat, instructionId: nat, testCaseId: nat): ExpectationRow
    requires GoodWide(w) && i < |w.rows|
  {
    var row := w.rows[i];
    assert GoodWideRow(row, w);
    P.BuildRow(WideHeader(w), instructionId, testCaseId, i,
               ZipSide(w.inSchema, row.inputs),
               if row.exception.Some? then P.NOTHING else ZipSide(w.outSchema, row.outputs),
               row.exception)
  }

  function WideMeans(w: WideCase, instructionId: nat, firstCase: nat): (rows: seq<ExpectationRow>)
    requires GoodWide(w)
    ensures |rows| == |w.rows|
  {
    seq(|w.rows|, i requires 0 <= i < |w.rows| => WideRowMeans(w, i, instructionId, firstCase + i))
  }

  function WidesMean(wides: seq<WideCase>, firstId: nat, firstCase: nat): seq<ExpectationRow>
    requires GoodWides(wides)
    decreases |wides|
  {
    if wides == [] then []
    else WideMeans(wides[0], firstId, firstCase) + WidesMean(wides[1..], firstId + 1, firstCase + |wides[0].rows|)
  }

  predicate FileNames(file: File, wides: seq<WideCase>) {
    && |file.groups| == |wides|
    && forall g :: 0 <= g < |wides| ==> GroupNames(file.groups[g], wides[g], file.pool)
  }

  lemma NamedSide(schema: seq<string>, values: seq<seq<byte>>, indices: seq<nat>, pool: seq<string>)
    requires GoodSchema(schema) && |values| == |schema| && GoodPool(pool) && C.Names(indices, HexAll(values), pool)
    ensures InPoolOf(indices, pool) && |indices| == |schema|
    ensures SchemaSide(schema, indices, PoolBytes(pool)) == ZipSide(schema, values)
  {
    hide BytesOf, SideOf, P.ParseMemoryAddressKey, GoodHex, HexText;
    forall i | 0 <= i < |schema| ensures BytesOf(pool[indices[i]]) == values[i] {
      PooledBytes(values[i], pool[indices[i]]);
    }
    assert P.PairsOf(schema, indices, PoolBytes(pool)) == Zip(schema, values);
  }

  predicate InPoolOf(indices: seq<nat>, pool: seq<string>) {
    P.Below(indices, |pool|)
  }

  lemma PooledBytes(bytes: seq<byte>, text: string)
    requires GoodHex(text) && text == HexText(bytes)
    ensures BytesOf(text) == bytes
  {
    HexRoundTrip(bytes);
  }

  lemma NamedRow(g: Group, w: WideCase, pool: seq<string>, i: nat)
    requires GoodWide(w) && GoodPool(pool) && GroupNames(g, w, pool) && i < |w.rows|
    ensures GoodSchema(g.inputSchema) && GoodSchema(g.outputSchema) && GoodRow(g.rows[i], g, |pool|)
  {
    hide GoodKey, GoodHex, GoodKind, SchemaSide, ZipSide, PoolBytes;
    assert RowNames(g.rows[i], w.rows[i], pool) && GoodWideRow(w.rows[i], w);
    NamedSide(w.inSchema, w.rows[i].inputs, g.rows[i].input, pool);
    if w.rows[i].exception.None? {
      NamedSide(w.outSchema, w.rows[i].outputs, g.rows[i].output.indices, pool);
    }
  }

  lemma NamedGroup(g: Group, w: WideCase, pool: seq<string>)
    requires GoodWide(w) && GoodPool(pool) && GroupNames(g, w, pool)
    ensures GoodGroup(g, |pool|)
  {
    hide GoodKey, GoodHex, GoodRow, RowNames, GoodAssembly, GoodSchema, GoodWideRow, GoodPool;
    forall i | 0 <= i < |g.rows| ensures GoodRow(g.rows[i], g, |pool|) {
      NamedRow(g, w, pool, i);
    }
  }

  lemma NamedRowMeans(g: Group, w: WideCase, pool: seq<string>, i: nat, instructionId: nat, testCaseId: nat)
    requires GoodWide(w) && GoodPool(pool) && GroupNames(g, w, pool) && i < |w.rows|
    ensures GoodGroup(g, |pool|) && GoodRow(g.rows[i], g, |pool|)
    ensures RowMeans(g.rows[i], g, instructionId, testCaseId, i, PoolBytes(pool))
      == WideRowMeans(w, i, instructionId, testCaseId)
  {
    NamedGroup(g, w, pool);
    NamedRow(g, w, pool, i);
    hide GoodKey, GoodHex, GoodGroup, SchemaSide, ZipSide, PoolBytes, GoodSchema, GoodAssembly, GoodPool, GoodRow;
    assert RowNames(g.rows[i], w.rows[i], pool) && GoodWideRow(w.rows[i], w);
    NamedSide(w.inSchema, w.rows[i].inputs, g.rows[i].input, pool);
    if w.rows[i].exception.None? {
      NamedSide(w.outSchema, w.rows[i].outputs, g.rows[i].output.indices, pool);
    }
  }

  lemma {:induction false} NamedGroupsMean(groups: seq<Group>, wides: seq<WideCase>, pool: seq<string>, firstId: nat,
      firstCase: nat)
    requires GoodWides(wides) && GoodPool(pool) && FileNames(File(pool, groups), wides)
    ensures GoodGroups(groups, |pool|)
    ensures GroupsMean(groups, firstId, firstCase, PoolBytes(pool)) == WidesMean(wides, firstId, firstCase)
    decreases |wides|
  {
    hide GoodWide, GoodPool, GroupNames, GoodGroup, PoolBytes, RowMeans, WideRowMeans;
    if wides != [] {
      var g, w := groups[0], wides[0];
      NamedGroupMeans(g, w, pool, firstId, firstCase);
      NamedGroupsMean(groups[1..], wides[1..], pool, firstId + 1, firstCase + |w.rows|);
      assert forall i :: 1 <= i < |groups| ==> groups[i] == groups[1..][i - 1];
    }
  }

  lemma GroupMeansAt(g: Group, pool: P.Pool, instructionId: nat, firstCase: nat, i: nat)
    requires GoodGroup(g, |pool|) && i < |g.rows|
    ensures GoodRow(g.rows[i], g, |pool|)
    ensures GroupMeans(g, instructionId, firstCase, pool)[i]
      == RowMeans(g.rows[i], g, instructionId, firstCase + i, i, pool)
  {
    hide RowMeans, GoodRow, GoodHex, GoodAssembly, GoodSchema;
  }

  lemma WideMeansAt(w: WideCase, instructionId: nat, firstCase: nat, i: nat)
    requires GoodWide(w) && i < |w.rows|
    ensures WideMeans(w, instructionId, firstCase)[i] == WideRowMeans(w, i, instructionId, firstCase + i)
  {
    hide WideRowMeans, GoodWide;
  }

  lemma NamedGroupMeans(g: Group, w: WideCase, pool: seq<string>, instructionId: nat, firstCase: nat)
    requires GoodWide(w) && GoodPool(pool) && GroupNames(g, w, pool)
    ensures GoodGroup(g, |pool|) && |g.rows| == |w.rows|
    ensures GroupMeans(g, instructionId, firstCase, PoolBytes(pool)) == WideMeans(w, instructionId, firstCase)
  {
    NamedGroup(g, w, pool);
    assert |g.rows| == |w.rows|;
    hide *;
    forall i | 0 <= i < |w.rows|
      ensures GroupMeans(g, instructionId, firstCase, PoolBytes(pool))[i] == WideMeans(w, instructionId, firstCase)[i]
    {
      NamedRowMeans(g, w, pool, i, instructionId, firstCase + i);
      GroupMeansAt(g, PoolBytes(pool), instructionId, firstCase, i);
      WideMeansAt(w, instructionId, firstCase, i);
    }
  }

  // ---- Which files come back ----

  predicate PlainWide(w: WideCase) {
    && 0 <= w.address < TWO64
    && GoodHex(w.opcode) && GoodAssembly(w.instruction)
    && PlainSchema(w.inSchema) && PlainSchema(w.outSchema)
    && |w.rows| < TWO64
    && forall i :: 0 <= i < |w.rows| ==> GoodWideRow(w.rows[i], w)
  }

  predicate PlainWides(wides: seq<WideCase>) {
    forall i :: 0 <= i < |wides| ==> PlainWide(wides[i])
  }

  predicate WideReads(w: WideCase) {
    SchemaReads(w.inSchema) && SchemaReads(w.outSchema)
  }

  predicate WidesRead(wides: seq<WideCase>) {
    forall i :: 0 <= i < |wides| ==> WideReads(wides[i])
  }

  /** Every key of the group has a value in some row. */
  predicate WideUsed(w: WideCase) {
    w.rows != [] && (w.outSchema != [] ==> exists i :: 0 <= i < |w.rows| && w.rows[i].exception.None?)
  }

  lemma GoodWideIs(w: WideCase)
    requires PlainWide(w)
    ensures GoodWide(w) <==> WideReads(w)
  {
    hide PlainSchema, GoodSchema, SchemaReads, GoodWideRow, GoodHex, GoodAssembly;
    GoodSchemaIs(w.inSchema);
    GoodSchemaIs(w.outSchema);
  }

  lemma PlainRowOf(row: Row, wide: WideRow, g: Group, w: WideCase, pool: seq<string>)
    requires RowNames(row, wide, pool) && GoodWideRow(wide, w)
    requires g.inputSchema == w.inSchema && g.outputSchema == w.outSchema
    ensures GoodRow(row, g, |pool|)
  {
    hide GoodKind, HexText;
  }

  lemma PlainGroupOf(g: Group, w: WideCase, pool: seq<string>)
    requires PlainWide(w) && WideUsed(w) && GroupNames(g, w, pool)
    ensures PlainGroup(g, |pool|) && KeysUsed(g)
    ensures SchemasRead(g) <==> WideReads(w)
  {
    hide PlainSchema, SchemaReads, GoodHex, GoodAssembly, GoodRow, GoodWideRow, RowNames;
    forall i | 0 <= i < |g.rows| ensures GoodRow(g.rows[i], g, |pool|) {
      PlainRowOf(g.rows[i], w.rows[i], g, w, pool);
    }
    if w.outSchema != [] {
      var i :| 0 <= i < |w.rows| && w.rows[i].exception.None?;
      OutputOf(g.rows[i], w.rows[i], pool);
    }
  }

  lemma OutputOf(row: Row, wide: WideRow, pool: seq<string>)
    requires RowNames(row, wide, pool) && wide.exception.None?
    ensures row.output.Values?
  {
  }

  lemma GoodFileReads(file: File, wides: seq<WideCase>)
    requires GoodWides(wides) && FileNames(file, wides) && C.AllGoodHex(file.pool) && |file.pool| < TWO64
    ensures P.Parsed(FileLines(file)) == Ok(P.ParsedCorpus(WidesMean(wides, 1, 0), |wides|, 0))
  {
    hide GoodWide, GroupNames, GoodGroup, FileLines, GoodHex, GroupsMean, WidesMean;
    NamedGroupsMean(file.groups, wides, file.pool, 1, 0);
    RoundTrip(file);
  }

  /**
   * The reader accepts the written text exactly when every key of every schema is readable, and then
   * without a warning and with one row per widened row, holding the widened values.
   */
  lemma PublicFileReads(file: File, wides: seq<WideCase>)
    requires PlainWides(wides) && forall i :: 0 <= i < |wides| ==> WideUsed(wides[i])
    requires FileNames(file, wides) && C.AllGoodHex(file.pool) && |file.pool| < TWO64
    ensures ParsedText(FileText(file)).Ok? <==> WidesRead(wides)
    ensures WidesRead(wides) <==> GoodWides(wides)
    ensures GoodWides(wides) ==> ParsedText(FileText(file)) == Ok(P.ParsedCorpus(WidesMean(wides, 1, 0), |wides|, 0))
  {
    hide GoodWide, PlainWide, WideUsed, WideReads, GroupNames, FileLines, FileText, GoodHex, WidesMean, PlainGroup,
         KeysUsed, SchemasRead, P.Parsed;
    forall i | 0 <= i < |wides|
      ensures PlainGroup(file.groups[i], |file.pool|) && KeysUsed(file.groups[i])
      ensures SchemasRead(file.groups[i]) <==> WideReads(wides[i])
      ensures GoodWide(wides[i]) <==> WideReads(wides[i])
    {
      PlainGroupOf(file.groups[i], wides[i], file.pool);
      GoodWideIs(wides[i]);
    }
    FileReadsExactly(file);
    if GoodWides(wides) {
      GoodFileReads(file, wides);
      LinesOfText(file);
    }
  }
}
