/**
 * The pooled text format as both converters print it, and the proof that the reader undoes the
 * printing for every well-formed file.
 */
module PooledFormat {
  import opened Wrappers
  import opened Text
  import opened Numbers
  import opened Expectation
  import opened X86TesterParser

  datatype Output = Values(indices: seq<nat>) | Raised(kind: string)

  datatype Row = Row(input: seq<nat>, output: Output)

  datatype Group = Group(
    address: u64, opcode: string, assembly: string,
    inputSchema: seq<string>, outputSchema: seq<string>, rows: seq<Row>)

  datatype File = File(pool: seq<string>, groups: seq<Group>)

  // ---- Printing ----

  function Decimals(indices: seq<nat>): (parts: seq<string>)
    ensures |parts| == |indices|
  {
    seq(|indices|, i requires 0 <= i < |indices| => Decimal(indices[i]))
  }

  function IndexText(indices: seq<nat>): string {
    Join(Decimals(indices), ',')
  }

  function OutputText(output: Output): string {
    match output
    case Values(indices) => IndexText(indices)
    case Raised(kind) => "!" + kind
  }

  function RowText(row: Row): string {
    IndexText(row.input) + ['|'] + OutputText(row.output)
  }

  function RowTexts(rows: seq<Row>): (texts: seq<string>)
    ensures |texts| == |rows|
  {
    seq(|rows|, i requires 0 <= i < |rows| => RowText(rows[i]))
  }

  function HeaderFields(g: Group): (fields: seq<string>)
    ensures |fields| == 6
  {
    [HexLiteral(g.address), "#" + g.opcode, g.assembly, Decimal(|g.rows|),
     "in=" + Join(g.inputSchema, ','), "out=" + Join(g.outputSchema, ',')]
  }

  function HeaderText(g: Group): string {
    "instr:" + Join(HeaderFields(g), ';')
  }

  function GroupLines(g: Group): seq<string> {
    [HeaderText(g)] + RowTexts(g.rows)
  }

  function GroupsLines(groups: seq<Group>): seq<string> {
    if groups == [] then [] else GroupLines(groups[0]) + GroupsLines(groups[1..])
  }

  function PoolLines(pool: seq<string>): (lines: seq<string>)
    ensures |lines| == |pool|
  {
    seq(|pool|, i requires 0 <= i < |pool| => "#" + pool[i])
  }

  function FileLines(file: File): seq<string> {
    ["data:" + Decimal(|file.pool|)] + PoolLines(file.pool) + GroupsLines(file.groups)
  }

  // ---- Well-formed files: fields free of the delimiters around them ----

  predicate GoodHex(hex: string) {
    AllUpperHex(hex) && |hex| % 2 == 0
  }

  predicate PlainKey(key: string) {
    key != "" && Trimmed(key) && ',' !in key && ';' !in key && '\n' !in key
  }

  predicate PlainSchema(schema: seq<string>) {
    forall i :: 0 <= i < |schema| ==> PlainKey(schema[i])
  }

  /** A plain key that the reader accepts: no memory key without a 64-bit address. */
  predicate GoodKey(key: string) {
    PlainKey(key) && ParseMemoryAddressKey(key).Ok?
  }

  predicate GoodSchema(schema: seq<string>) {
    forall i :: 0 <= i < |schema| ==> GoodKey(schema[i])
  }

  predicate GoodAssembly(assembly: string) {
    Trimmed(assembly) && ';' !in assembly && '\n' !in assembly
  }

  predicate GoodKind(kind: string) {
    kind != "" && Trimmed(kind) && '|' !in kind && '\n' !in kind
  }

  predicate GoodOutput(output: Output, schema: seq<string>, poolSize: nat) {
    match output
    case Values(indices) => |indices| == |schema| && Below(indices, poolSize)
    case Raised(kind) => GoodKind(kind)
  }

  predicate GoodRow(row: Row, g: Group, poolSize: nat) {
    |row.input| == |g.inputSchema| && Below(row.input, poolSize) && GoodOutput(row.output, g.outputSchema, poolSize)
  }

  predicate PlainHeader(g: Group) {
    && GoodHex(g.opcode) && GoodAssembly(g.assembly)
    && PlainSchema(g.inputSchema) && PlainSchema(g.outputSchema)
    && |g.rows| < TWO64
  }

  /** Every field is free of the delimiters around it; whether the keys name addresses is left open. */
  predicate PlainGroup(g: Group, poolSize: nat) {
    PlainHeader(g) && forall i :: 0 <= i < |g.rows| ==> GoodRow(g.rows[i], g, poolSize)
  }

  predicate GoodGroup(g: Group, poolSize: nat) {
    && GoodHex(g.opcode) && GoodAssembly(g.assembly)
    && GoodSchema(g.inputSchema) && GoodSchema(g.outputSchema)
    && |g.rows| < TWO64
    && forall i :: 0 <= i < |g.rows| ==> GoodRow(g.rows[i], g, poolSize)
  }

  lemma GoodIsPlain(g: Group, poolSize: nat)
    ensures GoodGroup(g, poolSize)
      <==> PlainGroup(g, poolSize) && GoodSchema(g.inputSchema) && GoodSchema(g.outputSchema)
  {
    hide PlainKey, ParseMemoryAddressKey, GoodRow, GoodHex, GoodAssembly;
    forall schema | GoodSchema(schema) ensures PlainSchema(schema) {
      assert forall i :: 0 <= i < |schema| ==> GoodKey(schema[i]);
    }
  }

  predicate GoodPool(pool: seq<string>) {
    |pool| < TWO64 && forall i :: 0 <= i < |pool| ==> GoodHex(pool[i])
  }

  predicate PlainFile(file: File) {
    GoodPool(file.pool) && forall i :: 0 <= i < |file.groups| ==> PlainGroup(file.groups[i], |file.pool|)
  }

  predicate GoodFile(file: File) {
    GoodPool(file.pool) && forall i :: 0 <= i < |file.groups| ==> GoodGroup(file.groups[i], |file.pool|)
  }

  // ---- What a file means, without any text ----

  /** The bytes of a pooled hex string. */
  function BytesOf(hex: string): seq<byte>
    requires GoodHex(hex)
  {
    GoodHexReads(hex);
    HexBytes(hex).value
  }

  lemma GoodHexReads(hex: string)
    requires GoodHex(hex)
    ensures HexBytes(hex).Ok?
  {
    HexDigitsOfDigits(hex);
  }

  function PoolBytes(pool: seq<string>): (bytes: Pool)
    requires GoodPool(pool)
    ensures |bytes| == |pool|
  {
    seq(|pool|, i requires 0 <= i < |pool| => BytesOf(pool[i]))
  }

  /** The key-value pairs of one side, added up. */
  function SideOf(pairs: seq<Pair>): Side
    requires GoodPairs(pairs)
  {
    GoodPairsApply(NOTHING, pairs);
    ApplyPairs(NOTHING, pairs).value
  }

  predicate GoodPairs(pairs: seq<Pair>) {
    forall i :: 0 <= i < |pairs| ==> ParseMemoryAddressKey(pairs[i].key).Ok?
  }

  lemma {:induction false} GoodPairsApply(side: Side, pairs: seq<Pair>)
    requires GoodPairs(pairs)
    ensures ApplyPairs(side, pairs).Ok?
    decreases |pairs|
  {
    hide AddStateBytes, ParseMemoryAddressKey;
    if pairs != [] {
      var next := AddPooledValue(side, pairs[0].key, pairs[0].bytes);
      GoodPairsApply(next.value, pairs[1..]);
    }
  }

  function HeaderOf(g: Group): InstructionHeader
    requires |g.rows| < TWO64
  {
    InstructionHeader(g.address, g.opcode, g.assembly, |g.rows|, g.inputSchema, g.outputSchema)
  }

  lemma SchemaPairsGood(schema: seq<string>, indices: seq<nat>, pool: Pool)
    requires GoodSchema(schema) && |schema| == |indices| && InPool(indices, pool)
    ensures GoodPairs(PairsOf(schema, indices, pool))
  {
    hide ParseMemoryAddressKey;
    forall i | 0 <= i < |schema| ensures ParseMemoryAddressKey(PairsOf(schema, indices, pool)[i].key).Ok? {
      assert GoodKey(schema[i]);
    }
  }

  function SchemaSide(schema: seq<string>, indices: seq<nat>, pool: Pool): Side
    requires GoodSchema(schema) && |schema| == |indices| && InPool(indices, pool)
  {
    SchemaPairsGood(schema, indices, pool);
    SideOf(PairsOf(schema, indices, pool))
  }

  /** The expectation a printed row stands for. */
  function RowMeans(row: Row, g: Group, instructionId: nat, testCaseId: nat, stateIndex: nat,
      pool: Pool): ExpectationRow
    requires GoodGroup(g, |pool|) && GoodRow(row, g, |pool|)
  {
    BuildRow(HeaderOf(g), instructionId, testCaseId, stateIndex,
             SchemaSide(g.inputSchema, row.input, pool),
             if row.output.Raised? then NOTHING else SchemaSide(g.outputSchema, row.output.indices, pool),
             if row.output.Raised? then Some(row.output.kind) else None)
  }

  function GroupMeans(g: Group, instructionId: nat, firstCase: nat, pool: Pool): (rows: seq<ExpectationRow>)
    requires GoodGroup(g, |pool|)
    ensures |rows| == |g.rows|
  {
    seq(|g.rows|, i requires 0 <= i < |g.rows| => RowMeans(g.rows[i], g, instructionId, firstCase + i, i, pool))
  }

  predicate GoodGroups(groups: seq<Group>, poolSize: nat) {
    forall i :: 0 <= i < |groups| ==> GoodGroup(groups[i], poolSize)
  }

  /** The rows of the groups in order; ids count up from `firstId`, test cases from `firstCase`. */
  function GroupsMean(groups: seq<Group>, firstId: nat, firstCase: nat, pool: Pool): seq<ExpectationRow>
    requires GoodGroups(groups, |pool|)
    decreases |groups|
  {
    if groups == [] then []
    else GroupMeans(groups[0], firstId, firstCase, pool)
         + GroupsMean(groups[1..], firstId + 1, firstCase + |groups[0].rows|, pool)
  }

  function Meaning(file: File): ParsedCorpus
    requires GoodFile(file)
  {
    ParsedCorpus(GroupsMean(file.groups, 1, 0, PoolBytes(file.pool)), |file.groups|, 0)
  }

  // ---- One line at a time ----

  lemma DecimalsPlain(indices: seq<nat>)
    requires Below(indices, TWO64)
    ensures forall i :: 0 <= i < |indices| ==>
      Decimals(indices)[i] != "" && Trimmed(Decimals(indices)[i]) && ',' !in Decimals(indices)[i]
    ensures '|' !in IndexText(indices)
    ensures Trimmed(IndexText(indices))
    ensures |indices| > 0 ==> IndexText(indices) != "" && IsUpperHex(IndexText(indices)[0])
    ensures |indices| == 0 ==> IndexText(indices) == ""
  {
    var parts := Decimals(indices);
    forall i | 0 <= i < |parts| ensures parts[i] != "" && Trimmed(parts[i]) && ',' !in parts[i] && '|' !in parts[i] {
      ParseDecimal(indices[i]);
    }
    if '|' in IndexText(indices) {
      CharsOfJoin(parts, ',', '|');
    }
    JoinTrimmed(parts, ',');
  }

  lemma {:induction false} IndicesRoundTrip(found: seq<nat>, indices: seq<nat>, poolSize: nat)
    requires Below(indices, poolSize) && poolSize <= TWO64
    ensures ParseIndices(found, Decimals(indices), poolSize) == Ok(found + indices)
    decreases |indices|
  {
    hide Trim, ParseUnsigned, Decimal;
    if indices == [] {
      assert found + indices == found;
    } else {
      ParseDecimal(indices[0]);
      NonEmptyDecimal(indices[0]);
      IndicesRoundTrip(found + [indices[0]], indices[1..], poolSize);
      assert Decimals(indices)[1..] == Decimals(indices[1..]);
      assert found + [indices[0]] + indices[1..] == found + indices;
    }
  }

  lemma NonEmptyDecimal(n: u64)
    ensures Decimal(n) != "" && Trim(Decimal(n)) == Decimal(n)
  {
    ParseDecimal(n);
  }

  lemma IndexListRoundTrip(indices: seq<nat>, poolSize: nat)
    requires Below(indices, poolSize) && poolSize <= TWO64
    ensures IndexList(IndexText(indices), |indices|, poolSize) == Ok(indices)
  {
    hide Trim, Decimals, ParseIndices, SplitSpec, Join;
    DecimalsPlain(indices);
    TrimOfTrimmed(IndexText(indices));
    if |indices| > 0 {
      SplitJoin(Decimals(indices), ',');
      IndicesRoundTrip([], indices, poolSize);
      assert [] + indices == indices;
    }
  }

  lemma TrimOfTrimmed(s: string)
    requires Trimmed(s)
    ensures Trim(s) == s
  {
  }

  lemma SideRoundTrip(schema: seq<string>, indices: seq<nat>, pool: Pool)
    requires GoodSchema(schema) && |schema| == |indices| && InPool(indices, pool) && |pool| <= TWO64
    ensures ParseInput(IndexText(indices), schema, pool) == Ok(SchemaSide(schema, indices, pool))
  {
    hide IndexList, IndexText, PairsOf, AddPooledValue, GoodKey;
    IndexListRoundTrip(indices, |pool|);
    SchemaPairsGood(schema, indices, pool);
    GoodPairsApply(NOTHING, PairsOf(schema, indices, pool));
  }

  function OutputMeans(output: Output, schema: seq<string>, pool: Pool): (Side, Option<string>)
    requires GoodSchema(schema) && GoodOutput(output, schema, |pool|)
  {
    match output
    case Raised(kind) => (NOTHING, Some(kind))
    case Values(indices) => (SchemaSide(schema, indices, pool), None)
  }

  lemma OutputRoundTrip(output: Output, schema: seq<string>, pool: Pool)
    requires GoodSchema(schema) && GoodOutput(output, schema, |pool|) && |pool| <= TWO64
    ensures Trimmed(OutputText(output)) && '|' !in OutputText(output)
    ensures ParseOutput(OutputText(output), schema, pool) == Ok(OutputMeans(output, schema, pool))
  {
    hide IndexList, IndexText, PairsOf, AddPooledValue, GoodKey, Trim;
    match output {
      case Raised(kind) =>
        assert OutputText(output)[1..] == kind;
        assert OutputText(output)[|OutputText(output)| - 1] == kind[|kind| - 1];
        TrimOfTrimmed(kind);
      case Values(indices) =>
        DecimalsPlain(indices);
        SideRoundTrip(schema, indices, pool);
    }
  }

  /** A line `left|right` whose sides hold no separator splits back at it. */
  lemma SeparatorRoundTrip(left: string, right: string)
    requires '|' !in left && '|' !in right
    requires Trimmed(left) && Trimmed(right)
    ensures var line := left + ['|'] + right;
      && Trimmed(line) && line != ""
      && Find(line, '|', 0) == |left| && Find(line, '|', |left| + 1) == |line|
      && line[..|left|] == left && line[|left| + 1..] == right
  {
    var line := left + ['|'] + right;
    assert line[|left|] == '|';
    assert forall k :: 0 <= k < |left| ==> line[k] == left[k];
    assert forall k :: |left| < k < |line| ==> line[k] == right[k - |left| - 1];
  }

  lemma RowRoundTrip(row: Row, g: Group, instructionId: nat, testCaseId: nat, stateIndex: nat, pool: Pool)
    requires GoodGroup(g, |pool|) && GoodRow(row, g, |pool|) && |pool| <= TWO64
    ensures Trimmed(RowText(row)) && RowText(row) != ""
    ensures ParseStateRow(RowText(row), HeaderOf(g), instructionId, testCaseId, stateIndex, pool)
         == Ok(RowMeans(row, g, instructionId, testCaseId, stateIndex, pool))
  {
    hide IndexText, OutputText, ParseInput, ParseOutput, Trim, SchemaSide, GoodSchema, GoodHex, GoodAssembly, BuildRow;
    DecimalsPlain(row.input);
    OutputRoundTrip(row.output, g.outputSchema, pool);
    SideRoundTrip(g.inputSchema, row.input, pool);
    SeparatorRoundTrip(IndexText(row.input), OutputText(row.output));
    TrimOfTrimmed(RowText(row));
    TrimOfTrimmed(OutputText(row.output));
  }

  lemma SchemaFieldRoundTrip(name: string, schema: seq<string>)
    requires PlainSchema(schema)
    requires name == "in" || name == "out"
    ensures ParseSchemaField(name + "=" + Join(schema, ','), name) == Ok(schema)
    ensures ';' !in name + "=" + Join(schema, ',') && Trimmed(name + "=" + Join(schema, ','))
  {
    hide Join, SplitSpec, Trim, PlainSchema, TrimAll;
    var text := Join(schema, ',');
    SchemaTextPlain(schema);
    PrefixedText(name + "=", text);
    TrimOfTrimmed(name + "=" + text);
    TrimOfTrimmed(text);
    if |schema| > 0 {
      SchemaBodyRoundTrip(schema);
    }
  }

  lemma PrefixedText(prefix: string, text: string)
    requires prefix != "" && Trimmed(prefix) && Trimmed(text)
    ensures Trimmed(prefix + text) && StartsWith(prefix + text, prefix)
    ensures (prefix + text)[|prefix|..] == text
  {
    var all := prefix + text;
    assert all[0] == prefix[0];
    assert all[|all| - 1] == if text == "" then prefix[|prefix| - 1] else text[|text| - 1];
  }

  lemma SchemaTextPlain(schema: seq<string>)
    requires PlainSchema(schema)
    ensures ';' !in Join(schema, ',') && Trimmed(Join(schema, ','))
    ensures |schema| > 0 ==> Join(schema, ',') != ""
    ensures |schema| == 0 ==> Join(schema, ',') == ""
  {
    forall i | 0 <= i < |schema| ensures schema[i] != "" && Trimmed(schema[i]) && ';' !in schema[i] {
      assert PlainKey(schema[i]);
    }
    JoinTrimmed(schema, ',');
    if ';' in Join(schema, ',') {
      CharsOfJoin(schema, ',', ';');
    }
  }

  lemma SchemaBodyRoundTrip(schema: seq<string>)
    requires PlainSchema(schema) && |schema| > 0
    ensures TrimAll(SplitSpec(Trim(Join(schema, ',')), ',')) == schema && "" !in schema
  {
    hide Trim, SplitSpec, Join;
    SchemaTextPlain(schema);
    TrimOfTrimmed(Join(schema, ','));
    forall i | 0 <= i < |schema| ensures ',' !in schema[i] && Trim(schema[i]) == schema[i] && schema[i] != "" {
      assert PlainKey(schema[i]);
      TrimOfTrimmed(schema[i]);
    }
    SplitJoin(schema, ',');
  }

  lemma HeaderFieldsPlain(g: Group)
    requires PlainHeader(g)
    ensures forall i :: 0 <= i < |HeaderFields(g)| ==>
      ';' !in HeaderFields(g)[i] && Trim(HeaderFields(g)[i]) == HeaderFields(g)[i]
    ensures EndsWithText(HeaderFields(g)[5])
  {
    hide Join, Trim, PlainSchema, Digits, ParseSchemaField, ParseUnsigned, ParsePrefix;
    ParseHexLiteral(g.address);
    ParseDecimal(|g.rows|);
    SchemaFieldRoundTrip("in", g.inputSchema);
    SchemaFieldRoundTrip("out", g.outputSchema);
    assert "in" + "=" == "in=" && "out" + "=" == "out=";
    PrefixedText("#", g.opcode);
    forall i | 0 <= i < 6 ensures ';' !in HeaderFields(g)[i] && Trim(HeaderFields(g)[i]) == HeaderFields(g)[i] {
      TrimOfTrimmed(HeaderFields(g)[i]);
    }
  }

  predicate EndsWithText(field: string) {
    field != "" && Trimmed(field)
  }

  lemma {:induction false} JoinEnd(parts: seq<string>, delimiter: char)
    requires |parts| > 0 && EndsWithText(parts[|parts| - 1])
    ensures var text := Join(parts, delimiter);
      text != "" && !IsSpace(text[|text| - 1])
  {
    if |parts| > 1 {
      JoinEnd(parts[1..], delimiter);
      var rest := Join(parts[1..], delimiter);
      assert (parts[0] + [delimiter] + rest)[|parts[0]| + |rest|] == rest[|rest| - 1];
    }
  }

  lemma HeaderRoundTrip(g: Group)
    requires PlainHeader(g)
    ensures Trimmed(HeaderText(g)) && StartsWith(HeaderText(g), "instr:")
    ensures ParseHeader(HeaderText(g)) == Ok(HeaderOf(g))
  {
    hide HeaderFields, Join, Trim, PlainHeader, SplitSpec;
    var fields := HeaderFields(g);
    HeaderFieldsPlain(g);
    JoinEnd(fields, ';');
    var body := Join(fields, ';');
    assert HeaderText(g)[6..] == body;
    assert HeaderText(g)[|HeaderText(g)| - 1] == body[|body| - 1];
    SplitJoin(fields, ';');
    HeaderPartsRoundTrip(g);
  }

  lemma HeaderPartsRoundTrip(g: Group)
    requires PlainHeader(g)
    ensures var parts := HeaderFields(g);
      && |parts| == 6
      && ParseUnsigned(Trim(parts[0]), 0) == Some(g.address)
      && StartsWith(Trim(parts[1]), "#") && ToUpper(Trim(parts[1])[1..]) == g.opcode && HexBytes(g.opcode).Ok?
      && ParseHeaderTail(g.address, g.opcode, Trim(parts[2]), parts[3], parts[4], parts[5]) == Ok(HeaderOf(g))
  {
    hide Join, Trim, PlainSchema, Digits, ParseSchemaField, ParseUnsigned;
    HeaderFieldsPlain(g);
    assert "in" + "=" == "in=" && "out" + "=" == "out=";
    ParseHexLiteral(g.address);
    ParseDecimal(|g.rows|);
    SchemaFieldRoundTrip("in", g.inputSchema);
    SchemaFieldRoundTrip("out", g.outputSchema);
    assert ("#" + g.opcode)[1..] == g.opcode;
    UpperHexIsUpper(g.opcode);
    GoodHexReads(g.opcode);
  }

  lemma UpperHexIsUpper(text: string)
    requires AllUpperHex(text)
    ensures ToUpper(text) == text
  {
  }

  // ---- Whole files ----

  function FeedAfter(r: Result<Phase, ParseError>, lines: seq<string>): Result<Phase, ParseError> {
    if r.Ok? then Feed(r.value, lines) else r
  }

  lemma FeedOne(p: Phase, line: string, lines: seq<string>)
    ensures Feed(p, [line] + lines) == FeedAfter(Line(p, line), lines)
  {
    hide Line;
    assert ([line] + lines)[1..] == lines;
  }

  lemma {:induction false} FeedAppend(p: Phase, first: seq<string>, second: seq<string>)
    ensures Feed(p, first + second) == FeedAfter(Feed(p, first), second)
    decreases |first|
  {
    hide Line;
    if first == [] {
      assert first + second == second;
    } else {
      FeedOne(p, first[0], first[1..] + second);
      FeedOne(p, first[0], first[1..]);
      assert first + second == [first[0]] + (first[1..] + second);
      assert first == [first[0]] + first[1..];
      var next := Line(p, first[0]);
      if next.Ok? {
        FeedAppend(next.value, first[1..], second);
      }
    }
  }

  /** Reading the rest of the pool. */
  lemma {:induction false} PoolRoundTrip(pool: seq<string>, read: Pool)
    requires GoodPool(pool)
    ensures Feed(InBody(State(|pool|, read, None, 0, 0, 0, 0, START)), PoolLines(pool))
         == Ok(InBody(State(0, read + PoolBytes(pool), None, 0, 0, 0, 0, START)))
    decreases |pool|
  {
    hide GoodHex, BytesOf, Line;
    if pool == [] {
      assert read + PoolBytes(pool) == read;
    } else {
      var rest := pool[1..];
      PoolLineRoundTrip(pool[0], |pool|, read);
      PoolRoundTrip(rest, read + [BytesOf(pool[0])]);
      FeedOne(InBody(State(|pool|, read, None, 0, 0, 0, 0, START)), "#" + pool[0], PoolLines(rest));
      assert PoolLines(pool) == ["#" + pool[0]] + PoolLines(rest);
      assert read + [BytesOf(pool[0])] + PoolBytes(rest) == read + PoolBytes(pool);
    }
  }

  lemma PoolLineRoundTrip(hex: string, remaining: nat, read: Pool)
    requires GoodHex(hex) && remaining > 0
    ensures Line(InBody(State(remaining, read, None, 0, 0, 0, 0, START)), "#" + hex)
         == Ok(InBody(State(remaining - 1, read + [BytesOf(hex)], None, 0, 0, 0, 0, START)))
  {
    hide Trim, HexBytes;
    var line := "#" + hex;
    GoodHexReads(hex);
    assert line[1..] == hex;
    assert hex != "" ==> line[|line| - 1] == hex[|hex| - 1];
    TrimOfTrimmed(line);
  }

  /** The state in the middle of a group, `done` rows in. */
  function InGroup(g: Group, done: nat, instructionId: nat, firstCase: nat, pool: Pool,
      before: seq<ExpectationRow>): State
    requires GoodGroup(g, |pool|) && done <= |g.rows|
  {
    State(0, pool, Some(HeaderOf(g)), instructionId, firstCase + done, done, done,
          ParsedCorpus(before + GroupMeans(g, instructionId, firstCase, pool)[..done], instructionId, 0))
  }

  /** A body line inside a group that parses as a row is added to the group. */
  lemma RowLineAdds(s: State, text: string, row: ExpectationRow)
    requires s.dataValuesRemaining == 0 && s.header.Some? && Trimmed(text) && text != ""
    requires !StartsWith(text, "data:") && !StartsWith(text, "instr:")
    requires ParseStateRow(text, s.header.value, s.instructionId, s.nextTestCaseId, s.stateIndex, s.pool) == Ok(row)
    ensures Line(InBody(s), text) == Ok(InBody(AddRow(s, row)))
  {
    hide Trim, ParseStateRow, StartsWith;
    TrimOfTrimmed(text);
  }

  lemma RowLineRoundTrip(g: Group, done: nat, instructionId: nat, firstCase: nat, pool: Pool,
      before: seq<ExpectationRow>)
    requires GoodGroup(g, |pool|) && done < |g.rows| && |pool| <= TWO64
    ensures Line(InBody(InGroup(g, done, instructionId, firstCase, pool, before)), RowText(g.rows[done]))
         == Ok(InBody(InGroup(g, done + 1, instructionId, firstCase, pool, before)))
  {
    hide GoodHex, GoodAssembly, GoodSchema, RowMeans, ParseStateRow, Trim, HeaderOf, Line, RowText, StartsWith, Trimmed;
    var row := g.rows[done];
    assert GoodRow(row, g, |pool|);
    RowRoundTrip(row, g, instructionId, firstCase + done, done, pool);
    RowTextStart(row, |pool|);
    var means := GroupMeans(g, instructionId, firstCase, pool);
    RowLineAdds(InGroup(g, done, instructionId, firstCase, pool, before), RowText(row), means[done]);
    assert before + means[..done] + [means[done]] == before + means[..done + 1];
  }

  /** A printed row starts with a digit or the separator, so it is never taken for a header. */
  lemma RowTextStart(row: Row, poolSize: nat)
    requires Below(row.input, poolSize) && poolSize <= TWO64
    ensures !StartsWith(RowText(row), "data:") && !StartsWith(RowText(row), "instr:")
  {
    hide IndexText, OutputText;
    DecimalsPlain(row.input);
    assert RowText(row)[0] == '|' || RowText(row)[0] == IndexText(row.input)[0];
    assert "data:"[0] == 'd' && "instr:"[0] == 'i';
  }

  lemma {:induction false} RowsRoundTrip(g: Group, done: nat, instructionId: nat, firstCase: nat, pool: Pool,
      before: seq<ExpectationRow>)
    requires GoodGroup(g, |pool|) && done <= |g.rows| && |pool| <= TWO64
    ensures Feed(InBody(InGroup(g, done, instructionId, firstCase, pool, before)), RowTexts(g.rows)[done..])
         == Ok(InBody(InGroup(g, |g.rows|, instructionId, firstCase, pool, before)))
    decreases |g.rows| - done
  {
    hide InGroup, RowText, GoodGroup, Line;
    if done < |g.rows| {
      RowLineRoundTrip(g, done, instructionId, firstCase, pool, before);
      RowsRoundTrip(g, done + 1, instructionId, firstCase, pool, before);
      assert RowTexts(g.rows)[done..] == [RowText(g.rows[done])] + RowTexts(g.rows)[done + 1..];
      FeedOne(InBody(InGroup(g, done, instructionId, firstCase, pool, before)), RowText(g.rows[done]),
        RowTexts(g.rows)[done + 1..]);
    }
  }

  /** Between groups: the previous group, if any, has all the rows its header promised. */
  predicate Ready(s: State, pool: Pool, instructionId: nat, nextCase: nat, before: seq<ExpectationRow>) {
    && s.dataValuesRemaining == 0 && s.pool == pool
    && s.instructionId == instructionId && s.nextTestCaseId == nextCase
    && s.corpus == ParsedCorpus(before, instructionId, 0)
    && (s.header.Some? ==> s.rowsInGroup == s.header.value.rowCount)
  }

  /** A printed header opens its group, whatever came before. */
  lemma HeaderLineReads(s: State, g: Group)
    requires PlainHeader(g) && s.dataValuesRemaining == 0
    ensures Line(InBody(s), HeaderText(g)) == Ok(InBody(StartGroup(s, HeaderOf(g))))
  {
    hide PlainHeader, HeaderText, ParseHeader, Trim, HeaderOf, StartGroup;
    HeaderRoundTrip(g);
    TrimOfTrimmed(HeaderText(g));
    assert HeaderText(g)[0] == "instr:"[0] == 'i' && "data:"[0] == 'd';
  }

  lemma PlainGroupHeader(g: Group, poolSize: nat)
    requires PlainGroup(g, poolSize)
    ensures PlainHeader(g)
  {
  }

  lemma HeaderLineRoundTrip(s: State, g: Group, instructionId: nat, nextCase: nat, pool: Pool,
      before: seq<ExpectationRow>)
    requires Ready(s, pool, instructionId, nextCase, before) && GoodGroup(g, |pool|)
    ensures Line(InBody(s), HeaderText(g)) == Ok(InBody(InGroup(g, 0, instructionId + 1, nextCase, pool, before)))
  {
    hide GoodGroup, PlainGroup, GoodSchema, HeaderText, Line, HeaderOf, PlainHeader, GroupMeans;
    GoodIsPlain(g, |pool|);
    PlainGroupHeader(g, |pool|);
    HeaderLineReads(s, g);
    assert before + GroupMeans(g, instructionId + 1, nextCase, pool)[..0] == before;
  }

  lemma GroupRoundTrip(s: State, g: Group, instructionId: nat, nextCase: nat, pool: Pool, before: seq<ExpectationRow>)
    requires Ready(s, pool, instructionId, nextCase, before) && GoodGroup(g, |pool|) && |pool| <= TWO64
    ensures Feed(InBody(s), GroupLines(g))
      == Ok(InBody(InGroup(g, |g.rows|, instructionId + 1, nextCase, pool, before)))
    ensures Ready(InGroup(g, |g.rows|, instructionId + 1, nextCase, pool, before), pool, instructionId + 1,
                  nextCase + |g.rows|, before + GroupMeans(g, instructionId + 1, nextCase, pool))
  {
    hide GoodGroup, HeaderText, RowText, Line, GroupMeans;
    HeaderLineRoundTrip(s, g, instructionId, nextCase, pool, before);
    RowsRoundTrip(g, 0, instructionId + 1, nextCase, pool, before);
    FeedOne(InBody(s), HeaderText(g), RowTexts(g.rows));
    assert RowTexts(g.rows)[0..] == RowTexts(g.rows);
    var means := GroupMeans(g, instructionId + 1, nextCase, pool);
    assert means[..|g.rows|] == means;
  }

  lemma {:induction false} GroupsRoundTrip(s: State, groups: seq<Group>, instructionId: nat, nextCase: nat, pool: Pool,
      before: seq<ExpectationRow>)
    returns (final: State, finalCase: nat)
    requires Ready(s, pool, instructionId, nextCase, before) && GoodGroups(groups, |pool|) && |pool| <= TWO64
    ensures Feed(InBody(s), GroupsLines(groups)) == Ok(InBody(final))
    ensures Ready(final, pool, instructionId + |groups|, finalCase,
                  before + GroupsMean(groups, instructionId + 1, nextCase, pool))
    decreases |groups|
  {
    hide GoodGroup, GroupLines, Line, Ready, InGroup;
    if groups == [] {
      assert before + GroupsMean(groups, instructionId + 1, nextCase, pool) == before;
      final, finalCase := s, nextCase;
    } else {
      var g, rest := groups[0], groups[1..];
      GroupRoundTrip(s, g, instructionId, nextCase, pool, before);
      var middle := InGroup(g, |g.rows|, instructionId + 1, nextCase, pool, before);
      var soFar := before + GroupMeans(g, instructionId + 1, nextCase, pool);
      final, finalCase := GroupsRoundTrip(middle, rest, instructionId + 1, nextCase + |g.rows|, pool, soFar);
      FeedAppend(InBody(s), GroupLines(g), GroupsLines(rest));
      assert soFar + GroupsMean(rest, instructionId + 2, nextCase + |g.rows|, pool)
          == before + GroupsMean(groups, instructionId + 1, nextCase, pool);
    }
  }

  lemma DataHeaderRoundTrip(n: u64)
    ensures Line(BeforeData, "data:" + Decimal(n)) == Ok(InBody(State(n, [], None, 0, 0, 0, 0, START)))
  {
    hide Trim, Digits, ParseUnsigned;
    var line := "data:" + Decimal(n);
    ParseDecimal(n);
    NonEmptyDecimal(n);
    assert line[5..] == Decimal(n);
    PrefixedText("data:", Decimal(n));
    TrimOfTrimmed(line);
  }

  /** Reading undoes printing: no error, no warning, every group and every row with exactly its own values. */
  lemma RoundTrip(file: File)
    requires GoodFile(file)
    ensures Parsed(FileLines(file)) == Ok(Meaning(file))
  {
    hide Line, GoodHex, GoodGroup, GroupsMean, GroupsLines, PoolLines;
    var pool := PoolBytes(file.pool);
    var afterHeader := State(|file.pool|, [], None, 0, 0, 0, 0, START);
    var afterPool := State(0, pool, None, 0, 0, 0, 0, START);
    DataHeaderRoundTrip(|file.pool|);
    PoolRoundTrip(file.pool, []);
    assert [] + pool == pool;
    var final, _ := GroupsRoundTrip(afterPool, file.groups, 0, 0, pool, []);
    assert [] + GroupsMean(file.groups, 1, 0, pool) == GroupsMean(file.groups, 1, 0, pool);
    FeedAppend(InBody(afterHeader), PoolLines(file.pool), GroupsLines(file.groups));
    FeedOne(BeforeData, "data:" + Decimal(|file.pool|), PoolLines(file.pool) + GroupsLines(file.groups));
    assert FileLines(file) == ["data:" + Decimal(|file.pool|)] + (PoolLines(file.pool) + GroupsLines(file.groups));
  }

  // ---- What a side holds, pair by pair ----

  predicate IsMemoryPair(pair: Pair) {
    ParseMemoryAddressKey(pair.key).Ok? && ParseMemoryAddressKey(pair.key).value.Some?
  }

  /** Does `key` have this scalar and these bytes in `side` that `bytes` asks for? */
  predicate Holds(side: Side, key: string, bytes: seq<byte>) {
    && (0 < |bytes| <= 8 ==> key in side.scalars && side.scalars[key] == ScalarOf(bytes))
    && (IsByteStateKey(key) || |bytes| > 8 ==> key in side.bytesMap && side.bytesMap[key] == bytes)
  }

  /** No two registers of a side share a canonical key. */
  predicate DistinctRegisters(pairs: seq<Pair>) {
    forall i, j :: 0 <= i < j < |pairs| && !IsMemoryPair(pairs[i]) && !IsMemoryPair(pairs[j]) ==>
      CanonicalStateKey(pairs[i].key) != CanonicalStateKey(pairs[j].key)
  }

  function MemoryOf(pairs: seq<Pair>): seq<PooledCell>
    requires GoodPairs(pairs)
  {
    if pairs == [] then []
    else
      (if IsMemoryPair(pairs[0])
       then [PooledCell(ParseMemoryAddressKey(pairs[0].key).value.value, pairs[0].bytes)]
       else [])
      + MemoryOf(pairs[1..])
  }

  lemma {:induction false} ApplyKeeps(side: Side, pairs: seq<Pair>, key: string)
    requires GoodPairs(pairs) && ApplyPairs(side, pairs).Ok?
    requires forall i :: 0 <= i < |pairs| && !IsMemoryPair(pairs[i]) ==> CanonicalStateKey(pairs[i].key) != key
    ensures forall bytes :: Holds(side, key, bytes) ==> Holds(ApplyPairs(side, pairs).value, key, bytes)
    decreases |pairs|
  {
    hide ParseMemoryAddressKey, CanonicalStateKey, IsByteStateKey, ScalarOf;
    if pairs != [] {
      var next := AddPooledValue(side, pairs[0].key, pairs[0].bytes).value;
      assert !IsMemoryPair(pairs[0]) ==> CanonicalStateKey(pairs[0].key) != key;
      assert forall bytes :: Holds(side, key, bytes) ==> Holds(next, key, bytes);
      ApplyKeeps(next, pairs[1..], key);
    }
  }

  lemma {:induction false} ApplyHolds(side: Side, pairs: seq<Pair>, i: nat)
    requires GoodPairs(pairs) && ApplyPairs(side, pairs).Ok? && DistinctRegisters(pairs)
    requires i < |pairs| && !IsMemoryPair(pairs[i])
    ensures Holds(ApplyPairs(side, pairs).value, CanonicalStateKey(pairs[i].key), pairs[i].bytes)
    decreases |pairs|
  {
    hide ParseMemoryAddressKey, CanonicalStateKey, IsByteStateKey, ScalarOf;
    var next := AddPooledValue(side, pairs[0].key, pairs[0].bytes).value;
    var rest := pairs[1..];
    if i == 0 {
      var key := CanonicalStateKey(pairs[0].key);
      assert Holds(next, key, pairs[0].bytes);
      forall k | 0 <= k < |rest| && !IsMemoryPair(rest[k]) ensures CanonicalStateKey(rest[k].key) != key {
        assert rest[k] == pairs[k + 1];
      }
      ApplyKeeps(next, rest, key);
    } else {
      forall k, l | 0 <= k < l < |rest| && !IsMemoryPair(rest[k]) && !IsMemoryPair(rest[l])
        ensures CanonicalStateKey(rest[k].key) != CanonicalStateKey(rest[l].key)
      {
        assert rest[k] == pairs[k + 1] && rest[l] == pairs[l + 1];
      }
      ApplyHolds(next, rest, i - 1);
    }
  }

  lemma {:induction false} ApplyMemory(side: Side, pairs: seq<Pair>)
    requires GoodPairs(pairs) && ApplyPairs(side, pairs).Ok?
    ensures ApplyPairs(side, pairs).value.memory == side.memory + MemoryOf(pairs)
    decreases |pairs|
  {
    hide ParseMemoryAddressKey, CanonicalStateKey, IsByteStateKey;
    if pairs != [] {
      ApplyMemory(AddPooledValue(side, pairs[0].key, pairs[0].bytes).value, pairs[1..]);
    }
  }

  /** Does a pair give its register an integer value? */
  predicate IsScalarPair(pair: Pair) {
    !IsMemoryPair(pair) && 0 < |pair.bytes| <= 8
  }

  /** Does a pair give its register a byte string? */
  predicate IsBytesPair(pair: Pair) {
    !IsMemoryPair(pair) && (IsByteStateKey(CanonicalStateKey(pair.key)) || |pair.bytes| > 8)
  }

  function ScalarKeys(pairs: seq<Pair>): set<string> {
    set i | 0 <= i < |pairs| && IsScalarPair(pairs[i]) :: CanonicalStateKey(pairs[i].key)
  }

  function BytesKeys(pairs: seq<Pair>): set<string> {
    set i | 0 <= i < |pairs| && IsBytesPair(pairs[i]) :: CanonicalStateKey(pairs[i].key)
  }

  lemma KeysSplit(pairs: seq<Pair>)
    requires pairs != []
    ensures var key := CanonicalStateKey(pairs[0].key);
      && ScalarKeys(pairs) == (if IsScalarPair(pairs[0]) then {key} else {}) + ScalarKeys(pairs[1..])
      && BytesKeys(pairs) == (if IsBytesPair(pairs[0]) then {key} else {}) + BytesKeys(pairs[1..])
  {
    hide IsScalarPair, IsBytesPair, CanonicalStateKey;
    assert forall i :: 1 <= i < |pairs| ==> pairs[i] == pairs[1..][i - 1];
    assert forall i :: 0 <= i < |pairs[1..]| ==> pairs[1..][i] == pairs[i + 1];
  }

  /** A side has the keys its pairs give and no other. */
  lemma {:induction false} ApplyKeys(side: Side, pairs: seq<Pair>)
    requires GoodPairs(pairs) && ApplyPairs(side, pairs).Ok?
    ensures ApplyPairs(side, pairs).value.scalars.Keys == side.scalars.Keys + ScalarKeys(pairs)
    ensures ApplyPairs(side, pairs).value.bytesMap.Keys == side.bytesMap.Keys + BytesKeys(pairs)
    decreases |pairs|
  {
    hide ParseMemoryAddressKey, CanonicalStateKey, IsByteStateKey, ScalarOf, ScalarKeys, BytesKeys;
    if pairs == [] {
      NoKeysInNothing();
    } else {
      KeysSplit(pairs);
      ApplyKeys(AddPooledValue(side, pairs[0].key, pairs[0].bytes).value, pairs[1..]);
    }
  }

  lemma NoKeysInNothing()
    ensures ScalarKeys([]) == {} && BytesKeys([]) == {}
  {
  }

  /**
   * A side has exactly the registers of its pairs, each with its own value under its canonical key, and
   * memory cells keep their order.
   */
  lemma SideHolds(pairs: seq<Pair>)
    requires GoodPairs(pairs) && DistinctRegisters(pairs)
    ensures forall i :: 0 <= i < |pairs| && !IsMemoryPair(pairs[i]) ==>
      Holds(SideOf(pairs), CanonicalStateKey(pairs[i].key), pairs[i].bytes)
    ensures SideOf(pairs).scalars.Keys == ScalarKeys(pairs) && SideOf(pairs).bytesMap.Keys == BytesKeys(pairs)
    ensures SideOf(pairs).memory == MemoryOf(pairs)
  {
    hide ApplyPairs, Holds, MemoryOf, IsMemoryPair, DistinctRegisters, ScalarKeys, BytesKeys;
    GoodPairsApply(NOTHING, pairs);
    ApplyMemory(NOTHING, pairs);
    ApplyKeys(NOTHING, pairs);
    forall i | 0 <= i < |pairs| && !IsMemoryPair(pairs[i])
      ensures Holds(SideOf(pairs), CanonicalStateKey(pairs[i].key), pairs[i].bytes)
    {
      ApplyHolds(NOTHING, pairs, i);
    }
  }

  // ---- Lines and text ----

  function Unlines(lines: seq<string>): string {
    if lines == [] then "" else lines[0] + ['\n'] + Unlines(lines[1..])
  }

  /** `std::getline` until it fails. */
  function LinesFrom(text: string, start: nat): seq<string>
    requires start <= |text|
    decreases |text| - start
  {
    if start == |text| then []
    else
      var pos := Find(text, '\n', start);
      if pos == |text| then [text[start..]] else [text[start..pos]] + LinesFrom(text, pos + 1)
  }

  lemma {:induction false} LinesOfUnlines(text: string, start: nat, lines: seq<string>)
    requires start <= |text| && text[start..] == Unlines(lines)
    requires NoLineEnds(lines)
    ensures LinesFrom(text, start) == lines
    decreases |lines|
  {
    hide LinesFrom;
    if lines == [] {
      NoLines(text, start);
    } else {
      FirstLine(text, start, lines[0], Unlines(lines[1..]));
      LinesOfUnlines(text, start + |lines[0]| + 1, lines[1..]);
    }
  }

  lemma NoLines(text: string, start: nat)
    requires start <= |text| && text[start..] == ""
    ensures LinesFrom(text, start) == []
  {
  }

  lemma FirstLine(text: string, start: nat, line: string, rest: string)
    requires start <= |text| && text[start..] == line + ['\n'] + rest && '\n' !in line
    ensures start + |line| + 1 <= |text| && text[start + |line| + 1..] == rest
    ensures LinesFrom(text, start) == [line] + LinesFrom(text, start + |line| + 1)
  {
    hide Find;
    DropPiece(text, start, line, '\n', rest);
    assert text[start..][..|line|] == line;
    FindAfter(text, start, line, '\n');
  }

  // ---- A printed line holds no line end ----

  predicate NoLineEnds(lines: seq<string>) {
    forall i :: 0 <= i < |lines| ==> '\n' !in lines[i]
  }

  lemma HexHasNoLineEnd(text: string)
    requires AllUpperHex(text)
    ensures '\n' !in text
  {
  }

  lemma JoinHasNoLineEnd(parts: seq<string>, delimiter: char)
    requires NoLineEnds(parts) && delimiter != '\n'
    ensures '\n' !in Join(parts, delimiter)
  {
    if '\n' in Join(parts, delimiter) {
      CharsOfJoin(parts, delimiter, '\n');
    }
  }

  lemma IndexTextHasNoLineEnd(indices: seq<nat>)
    ensures '\n' !in IndexText(indices)
  {
    forall i | 0 <= i < |indices| ensures '\n' !in Decimals(indices)[i] {
      HexHasNoLineEnd(Decimal(indices[i]));
    }
    JoinHasNoLineEnd(Decimals(indices), ',');
  }

  lemma RowTextHasNoLineEnd(row: Row, g: Group, poolSize: nat)
    requires GoodRow(row, g, poolSize)
    ensures '\n' !in RowText(row)
  {
    hide IndexText;
    IndexTextHasNoLineEnd(row.input);
    match row.output {
      case Values(indices) => IndexTextHasNoLineEnd(indices);
      case Raised(kind) =>
    }
  }

  lemma SchemaHasNoLineEnd(schema: seq<string>)
    requires PlainSchema(schema)
    ensures '\n' !in Join(schema, ',')
  {
    hide Join;
    assert forall i :: 0 <= i < |schema| ==> PlainKey(schema[i]);
    JoinHasNoLineEnd(schema, ',');
  }

  lemma HeaderTextHasNoLineEnd(g: Group)
    requires PlainHeader(g)
    ensures '\n' !in HeaderText(g)
  {
    hide Join, PlainSchema, Digits;
    SchemaHasNoLineEnd(g.inputSchema);
    SchemaHasNoLineEnd(g.outputSchema);
    HexHasNoLineEnd(g.opcode);
    HexHasNoLineEnd(Digits(g.address, 16));
    HexHasNoLineEnd(Decimal(|g.rows|));
    assert NoLineEnds(HeaderFields(g));
    JoinHasNoLineEnd(HeaderFields(g), ';');
  }

  lemma {:induction false} GroupsHaveNoLineEnds(groups: seq<Group>, poolSize: nat)
    requires forall i :: 0 <= i < |groups| ==> PlainGroup(groups[i], poolSize)
    ensures NoLineEnds(GroupsLines(groups))
    decreases |groups|
  {
    hide HeaderText, RowText, GoodRow, PlainHeader;
    if groups != [] {
      var g := groups[0];
      HeaderTextHasNoLineEnd(g);
      forall i | 0 <= i < |g.rows| ensures '\n' !in RowText(g.rows[i]) {
        RowTextHasNoLineEnd(g.rows[i], g, poolSize);
      }
      GroupsHaveNoLineEnds(groups[1..], poolSize);
    }
  }

  lemma FileHasNoLineEnds(file: File)
    requires PlainFile(file)
    ensures NoLineEnds(FileLines(file))
  {
    hide GroupsLines, Digits, PlainGroup;
    HexHasNoLineEnd(Decimal(|file.pool|));
    GroupsHaveNoLineEnds(file.groups, |file.pool|);
    forall i | 0 <= i < |file.pool| ensures '\n' !in PoolLines(file.pool)[i] {
      assert GoodHex(file.pool[i]);
      HexHasNoLineEnd(file.pool[i]);
    }
  }

  /** The text of a file, each line with its line end. */
  function FileText(file: File): string {
    Unlines(FileLines(file))
  }

  /** `X86TesterParser::ParseFile` of a text. */
  function ParsedText(text: string): Result<ParsedCorpus, ParseError> {
    Parsed(LinesFrom(text, 0))
  }

  /** Reading a written text line by line gives the printed lines. */
  lemma LinesOfText(file: File)
    requires PlainFile(file)
    ensures LinesFrom(FileText(file), 0) == FileLines(file)
  {
    hide FileLines, PlainFile;
    assert FileText(file)[0..] == FileText(file);
    FileHasNoLineEnds(file);
    LinesOfUnlines(FileText(file), 0, FileLines(file));
  }

  lemma GoodFileIsPlain(file: File)
    requires GoodFile(file)
    ensures PlainFile(file)
  {
    hide GoodGroup, PlainGroup, GoodSchema, GoodPool;
    forall i | 0 <= i < |file.groups| ensures PlainGroup(file.groups[i], |file.pool|) {
      GoodIsPlain(file.groups[i], |file.pool|);
    }
  }

  /** Reading the whole text undoes writing it. */
  lemma TextRoundTrip(file: File)
    requires GoodFile(file)
    ensures ParsedText(FileText(file)) == Ok(Meaning(file))
  {
    hide FileText, Parsed, GoodFile, Meaning;
    GoodFileIsPlain(file);
    LinesOfText(file);
    RoundTrip(file);
  }
}
