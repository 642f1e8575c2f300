/**
 * One test case printed as one group with union schemas: `write_group` and `OutputFile` of
 * `tools/convert_public_parquet.py`.
 */
module PublicWriter {
  import opened Wrappers
  import opened Text
  import opened Numbers
  import opened PooledFormat
  import opened PublicItems
  import FlatMemory
  import X86TesterParser
  import C = ConvertTestVectors

  type Pair = X86TesterParser.Pair
  type Values = map<string, seq<byte>>

  datatype ConvertError =
    | OddOpcode
    | InvalidOpcode
    | DuplicateKey(key: string)
    | MissingKey(key: string)
    | OddValue
    | InvalidValue

  // ---- Addresses ----

  /** `"".join(text.split())`. */
  function Squeeze(text: string): (r: string)
    ensures |r| <= |text|
    ensures NoSpace(r)
    ensures NoSpace(text) ==> r == text
  {
    if text == "" then ""
    else
      var init := Squeeze(text[..|text| - 1]);
      assert text == text[..|text| - 1] + [text[|text| - 1]];
      if IsSpace(text[|text| - 1]) then init else init + [text[|text| - 1]]
  }

  function InstructionAddress(opcode: string, entry: int, pageSize: int): Result<int, ConvertError> {
    var clean := Squeeze(opcode);
    if |clean| % 2 != 0 then Err(OddOpcode)
    else if !AllDigits(clean, 16) then Err(InvalidOpcode)
    else Ok(entry + pageSize - |clean| / 2)
  }

  lemma {:induction false} SqueezedDigits(text: string)
    requires AllDigits(Squeeze(text), 16)
    ensures HexDigits(text).Ok? && |HexDigits(text).value| == |Squeeze(text)|
    decreases |text|
  {
    if text != "" {
      var init, c := text[..|text| - 1], text[|text| - 1];
      var clean := Squeeze(text);
      assert AllDigits(Squeeze(init), 16) by {
        forall i | 0 <= i < |Squeeze(init)| ensures IsDigit(Squeeze(init)[i], 16) {
          assert Squeeze(init)[i] == clean[i];
        }
      }
      SqueezedDigits(init);
      if !IsSpace(c) {
        assert clean[|clean| - 1] == c && IsDigit(c, 16);
      }
    }
  }

  /** The opcode sits at the end of its page, so the one mapped code page holds all of it. */
  lemma InstructionFitsPage(opcode: string, entry: nat)
    requires FlatMemory.PageOffset(entry) == 0 && |Squeeze(opcode)| <= 0x2000
    requires InstructionAddress(opcode, entry, 0x1000).Ok?
    ensures var address := InstructionAddress(opcode, entry, 0x1000).value;
      && HexBytes(opcode).Ok?
      && entry <= address <= entry + 0x1000
      && FlatMemory.PageOffset(address) + |HexBytes(opcode).value| <= FlatMemory.PAGE_SIZE
  {
    SqueezedDigits(opcode);
    hide HexDigits, Squeeze;
    EndOfPage(entry, |Squeeze(opcode)| / 2);
  }

  lemma EndOfPage(entry: nat, n: nat)
    requires entry % 0x1000 == 0 && n <= 0x1000
    ensures (entry + 0x1000 - n) % 0x1000 + n <= 0x1000
  {
  }

  // ---- Schemas ----

  /** `append_schema`: new keys in order of first appearance. */
  function AppendSchema(schema: seq<string>, items: seq<Pair>): (r: seq<string>)
    ensures schema <= r
  {
    if items == [] then schema
    else
      var before := AppendSchema(schema, items[..|items| - 1]);
      var key := items[|items| - 1].key;
      if key in before then before else before + [key]
  }

  function Union(lists: seq<seq<Pair>>): seq<string> {
    if lists == [] then [] else AppendSchema(Union(lists[..|lists| - 1]), lists[|lists| - 1])
  }

  /** Zeros of the size of the first value a memory key has. */
  function AddDefaults(defaults: Values, items: seq<Pair>): Values {
    if items == [] then defaults
    else
      var before := AddDefaults(defaults, items[..|items| - 1]);
      var last := items[|items| - 1];
      if IsMemoryKey(last.key) && last.key !in before then before[last.key := Zeros(|last.bytes|)] else before
  }

  function Zeros(n: nat): (zeros: seq<byte>)
    ensures |zeros| == n
  {
    seq<byte>(n, _ => 0)
  }

  function Defaults(lists: seq<seq<Pair>>): Values {
    if lists == [] then map[] else AddDefaults(Defaults(lists[..|lists| - 1]), lists[|lists| - 1])
  }

  /** `items_to_map`. */
  function ItemsToMap(items: seq<Pair>): Result<Values, ConvertError> {
    if items == [] then Ok(map[])
    else match ItemsToMap(items[..|items| - 1])
      case Err(e) => Err(e)
      case Ok(before) =>
        var last := items[|items| - 1];
        if last.key in before then Err(DuplicateKey(last.key)) else Ok(before[last.key := last.bytes])
  }

  predicate Present(key: string, values: Values, defaults: Values) {
    key in values || key in defaults
  }

  function ValueFor(key: string, values: Values, defaults: Values): seq<byte>
    requires Present(key, values, defaults)
  {
    if key in values then values[key] else defaults[key]
  }

  /** A row's values in schema order. */
  function Fill(schema: seq<string>, values: Values, defaults: Values): (r: Result<seq<seq<byte>>, ConvertError>)
    ensures r.Ok? ==> |r.value| == |schema|
  {
    if schema == [] then Ok([])
    else match Fill(schema[..|schema| - 1], values, defaults)
      case Err(e) => Err(e)
      case Ok(before) =>
        var key := schema[|schema| - 1];
        if Present(key, values, defaults) then Ok(before + [ValueFor(key, values, defaults)]) else Err(MissingKey(key))
  }

  // ---- The whole group ----

  datatype MappedRow = MappedRow(inputs: Values, outputs: Values, exception: Option<string>)

  function MapRow(c: PublicCase, row: PublicRow, mem0: int): Result<MappedRow, ConvertError> {
    match ItemsToMap(InputItems(c, row, mem0))
    case Err(e) => Err(e)
    case Ok(inputs) =>
      match ItemsToMap(OutputItems(row, mem0))
      case Err(e) => Err(e)
      case Ok(outputs) => Ok(MappedRow(inputs, outputs, if Raises(row) then row.exception else None))
  }

  function MapRows(c: PublicCase, rows: seq<PublicRow>, mem0: int): (r: Result<seq<MappedRow>, ConvertError>)
    ensures r.Ok? ==> |r.value| == |rows|
  {
    if rows == [] then Ok([])
    else match MapRows(c, rows[..|rows| - 1], mem0)
      case Err(e) => Err(e)
      case Ok(before) =>
        match MapRow(c, rows[|rows| - 1], mem0)
        case Err(e) => Err(e)
        case Ok(mapped) => Ok(before + [mapped])
  }

  function InputLists(c: PublicCase, rows: seq<PublicRow>, mem0: int): (lists: seq<seq<Pair>>)
    ensures |lists| == |rows|
  {
    seq(|rows|, i requires 0 <= i < |rows| => InputItems(c, rows[i], mem0))
  }

  function OutputLists(rows: seq<PublicRow>, mem0: int): (lists: seq<seq<Pair>>)
    ensures |lists| == |rows|
  {
    seq(|rows|, i requires 0 <= i < |rows| => OutputItems(rows[i], mem0))
  }

  /** A row widened to the schemas of its group; a raising row has no outputs. */
  datatype WideRow = WideRow(inputs: seq<seq<byte>>, outputs: seq<seq<byte>>, exception: Option<string>)

  datatype WideCase = WideCase(
    address: int, opcode: string, instruction: string,
    inSchema: seq<string>, outSchema: seq<string>, rows: seq<WideRow>)

  function WidenRow(row: MappedRow, inSchema: seq<string>, outSchema: seq<string>, defaults: Values): Result<WideRow,
      ConvertError> {
    match Fill(inSchema, row.inputs, defaults)
    case Err(e) => Err(e)
    case Ok(inputs) =>
      if row.exception.Some? then Ok(WideRow(inputs, [], row.exception))
      else match Fill(outSchema, row.outputs, map[])
        case Err(e) => Err(e)
        case Ok(outputs) => Ok(WideRow(inputs, outputs, None))
  }

  function WidenRows(rows: seq<MappedRow>, inSchema: seq<string>, outSchema: seq<string>, defaults: Values)
    : (r: Result<seq<WideRow>, ConvertError>)
    ensures r.Ok? ==> |r.value| == |rows|
  {
    if rows == [] then Ok([])
    else match WidenRows(rows[..|rows| - 1], inSchema, outSchema, defaults)
      case Err(e) => Err(e)
      case Ok(before) =>
        match WidenRow(rows[|rows| - 1], inSchema, outSchema, defaults)
        case Err(e) => Err(e)
        case Ok(wide) => Ok(before + [wide])
  }

  function Widen(c: PublicCase, entry: int, pageSize: int, mem0: int): Result<WideCase, ConvertError> {
    var opcode := ToUpper(c.opcode);
    match InstructionAddress(opcode, entry, pageSize)
    case Err(e) => Err(e)
    case Ok(address) =>
      match MapRows(c, c.rows, mem0)
      case Err(e) => Err(e)
      case Ok(mapped) =>
        var inSchema := Union(InputLists(c, c.rows, mem0));
        var outSchema := Union(OutputLists(c.rows, mem0));
        match WidenRows(mapped, inSchema, outSchema, Defaults(InputLists(c, c.rows, mem0)))
        case Err(e) => Err(e)
        case Ok(rows) => Ok(WideCase(address, opcode, c.instruction, inSchema, outSchema, rows))
  }

  // ---- What is written for a group ----

  function HexAll(values: seq<seq<byte>>): (texts: seq<string>)
    ensures |texts| == |values|
  {
    seq(|values|, i requires 0 <= i < |values| => HexText(values[i]))
  }

  predicate RowNames(row: Row, wide: WideRow, pool: seq<string>) {
    && C.Names(row.input, HexAll(wide.inputs), pool)
    && (if wide.exception.Some? then row.output == Raised(wide.exception.value)
        else row.output.Values? && C.Names(row.output.indices, HexAll(wide.outputs), pool))
  }

  predicate GroupNames(g: Group, w: WideCase, pool: seq<string>) {
    && g.address == w.address && g.opcode == w.opcode && g.assembly == w.instruction
    && g.inputSchema == w.inSchema && g.outputSchema == w.outSchema
    && |g.rows| == |w.rows|
    && forall i :: 0 <= i < |w.rows| ==> RowNames(g.rows[i], w.rows[i], pool)
  }

  lemma RowNamesGrow(row: Row, wide: WideRow, pool: seq<string>, larger: seq<string>)
    requires RowNames(row, wide, pool) && pool <= larger
    ensures RowNames(row, wide, larger)
  {
    hide C.Names;
    C.NamesGrow(row.input, HexAll(wide.inputs), pool, larger);
    if wide.exception.None? {
      C.NamesGrow(row.output.indices, HexAll(wide.outputs), pool, larger);
    }
  }

  lemma GroupNamesGrow(g: Group, w: WideCase, pool: seq<string>, larger: seq<string>)
    requires GroupNames(g, w, pool) && pool <= larger
    ensures GroupNames(g, w, larger)
  {
    hide RowNames;
    forall i | 0 <= i < |w.rows| ensures RowNames(g.rows[i], w.rows[i], larger) {
      RowNamesGrow(g.rows[i], w.rows[i], pool, larger);
    }
  }

  lemma HexTextIsGood(bytes: seq<byte>)
    ensures GoodHex(HexText(bytes)) && ToUpper(Squeeze(HexText(bytes))) == HexText(bytes)
    ensures AllDigits(HexText(bytes), 16)
  {
    var text := HexText(bytes);
    forall i | 0 <= i < |text| ensures IsDigit(text[i], 16) && !IsSpace(text[i]) && UpperChar(text[i]) == text[i] {
      assert IsUpperHex(text[i]);
    }
  }

  datatype Mapped = Mapped(rows: seq<MappedRow>, inSchema: seq<string>, outSchema: seq<string>, defaults: Values)

  lemma {:induction false} MapErrorPersists(c: PublicCase, rows: seq<PublicRow>, mem0: int, n: nat)
    requires n <= |rows| && MapRows(c, rows[..n], mem0).Err?
    ensures MapRows(c, rows, mem0) == MapRows(c, rows[..n], mem0)
  {
    hide MapRow;
    if n < |rows| {
      assert rows[..|rows| - 1][..n] == rows[..n];
      MapErrorPersists(c, rows[..|rows| - 1], mem0, n);
    } else {
      assert rows[..n] == rows;
    }
  }

  lemma {:induction false} WidenErrorPersists(rows: seq<MappedRow>, inSchema: seq<string>, outSchema: seq<string>,
      defaults: Values, n: nat)
    requires n <= |rows| && WidenRows(rows[..n], inSchema, outSchema, defaults).Err?
    ensures WidenRows(rows, inSchema, outSchema, defaults) == WidenRows(rows[..n], inSchema, outSchema, defaults)
  {
    hide WidenRow;
    if n < |rows| {
      assert rows[..|rows| - 1][..n] == rows[..n];
      WidenErrorPersists(rows[..|rows| - 1], inSchema, outSchema, defaults, n);
    } else {
      assert rows[..n] == rows;
    }
  }

  /** The first loop of `write_group`: schemas, defaults and one map per row and side. */
  method MapCase(c: PublicCase, mem0: int) returns (r: Result<Mapped, ConvertError>)
    ensures match MapRows(c, c.rows, mem0)
            case Err(e) => r == Err(e)
            case Ok(rows) => r == Ok(Mapped(rows, Union(InputLists(c, c.rows, mem0)), Union(OutputLists(c.rows, mem0)),
                                            Defaults(InputLists(c, c.rows, mem0))))
  {
    hide InputItems, OutputItems, MapRow, AppendSchema, AddDefaults;
    var inSchema: seq<string>, outSchema: seq<string>, defaults: Values := [], [], map[];
    var converted: seq<MappedRow> := [];
    for i := 0 to |c.rows|
      invariant MapRows(c, c.rows[..i], mem0) == Ok(converted)
      invariant inSchema == Union(InputLists(c, c.rows[..i], mem0))
      invariant outSchema == Union(OutputLists(c.rows[..i], mem0))
      invariant defaults == Defaults(InputLists(c, c.rows[..i], mem0))
    {
      var row := c.rows[i];
      assert c.rows[..i + 1][..i] == c.rows[..i];
      assert InputLists(c, c.rows[..i + 1], mem0)[..i] == InputLists(c, c.rows[..i], mem0);
      assert OutputLists(c.rows[..i + 1], mem0)[..i] == OutputLists(c.rows[..i], mem0);
      inSchema := AppendSchema(inSchema, InputItems(c, row, mem0));
      defaults := AddDefaults(defaults, InputItems(c, row, mem0));
      outSchema := AppendSchema(outSchema, OutputItems(row, mem0));
      match MapRow(c, row, mem0) {
        case Err(e) =>
          MapErrorPersists(c, c.rows, mem0, i + 1);
          return Err(e);
        case Ok(mapped) => converted := converted + [mapped];
      }
    }
    assert c.rows[..|c.rows|] == c.rows;
    return Ok(Mapped(converted, inSchema, outSchema, defaults));
  }

  function HeaderLine(address: int, opcode: string, instruction: string, count: nat, inSchema: seq<string>,
      outSchema: seq<string>): string
    requires address >= 0
  {
    "instr:" + Join([HexLiteral(address), "#" + opcode, instruction, Decimal(count),
                     "in=" + Join(inSchema, ','), "out=" + Join(outSchema, ',')], ';')
  }

  class OutputFile {
    var dataPool: seq<string>
    var dataIndex: map<string, nat>
    var body: seq<string>
    ghost var groups: seq<Group>

    /** The pool and its index are inverse, so no value is pooled twice. */
    ghost predicate PoolValid()
      reads `dataPool, `dataIndex
    {
      C.InverseOf(dataIndex, dataPool) && C.AllGoodHex(dataPool)
    }

    ghost predicate Valid()
      reads this
    {
      PoolValid() && body == GroupsLines(groups)
    }

    constructor ()
      ensures Valid() && groups == []
    {
      dataPool, dataIndex, body, groups := [], map[], [], [];
    }

    method Intern(hexValue: string) returns (r: Result<nat, ConvertError>)
      requires PoolValid()
      modifies `dataPool, `dataIndex
      ensures PoolValid() && old(dataPool) <= dataPool
      ensures var clean := ToUpper(Squeeze(hexValue));
        if |clean| % 2 != 0 then r == Err(OddValue) && dataPool == old(dataPool)
        else if !AllDigits(clean, 16) then r == Err(InvalidValue) && dataPool == old(dataPool)
        else
          && dataPool == (if clean in old(dataPool) then old(dataPool) else old(dataPool) + [clean])
          && r.Ok? && r.value < |dataPool| && dataPool[r.value] == clean
    {
      var clean := ToUpper(Squeeze(hexValue));
      if |clean| % 2 != 0 {
        return Err(OddValue);
      }
      if !AllDigits(clean, 16) {
        return Err(InvalidValue);
      }
      if clean in dataIndex {
        return Ok(dataIndex[clean]);
      }
      UpperDigitsAreGood(Squeeze(hexValue));
      var index := |dataPool|;
      dataIndex := dataIndex[clean := index];
      dataPool := dataPool + [clean];
      return Ok(index);
    }

    method SchemaIndices(values: Values, schema: seq<string>, defaults: Values) returns (r: Result<seq<nat>,
        ConvertError>)
      requires PoolValid()
      modifies `dataPool, `dataIndex
      ensures PoolValid() && old(dataPool) <= dataPool
      ensures match Fill(schema, values, defaults)
              case Err(e) => r == Err(e)
              case Ok(filled) => r.Ok? && C.Names(r.value, HexAll(filled), dataPool)
    {
      hide C.InverseOf, C.AllGoodHex, HexText, Squeeze, ToUpper, PoolValid;
      var indices: seq<nat> := [];
      for i := 0 to |schema|
        invariant PoolValid() && old(dataPool) <= dataPool
        invariant Fill(schema[..i], values, defaults).Ok?
        invariant C.Names(indices, HexAll(Fill(schema[..i], values, defaults).value), dataPool)
      {
        assert schema[..i + 1][..i] == schema[..i];
        if !Present(schema[i], values, defaults) {
          FillErrorPersists(schema, values, defaults, i + 1);
          return Err(MissingKey(schema[i]));
        }
        var value := ValueFor(schema[i], values, defaults);
        ghost var filled := Fill(schema[..i], values, defaults).value;
        ghost var before := dataPool;
        HexTextIsGood(value);
        var index := Intern(HexText(value));
        C.NamesGrow(indices, HexAll(filled), before, dataPool);
        assert HexAll(filled + [value]) == HexAll(filled) + [HexText(value)];
        indices := indices + [index.value];
      }
      assert schema[..|schema|] == schema;
      return Ok(indices);
    }

    method WriteRow(row: MappedRow, m: Mapped) returns (r: Result<string, ConvertError>, ghost written: Row)
      requires PoolValid()
      modifies `dataPool, `dataIndex
      ensures PoolValid() && old(dataPool) <= dataPool
      ensures match WidenRow(row, m.inSchema, m.outSchema, m.defaults)
              case Err(e) => r == Err(e)
              case Ok(wide) => r == Ok(RowText(written)) && RowNames(written, wide, dataPool)
    {
      hide C.Names, Fill, PoolValid, IndexText;
      written := Row([], Raised(""));
      var input := SchemaIndices(row.inputs, m.inSchema, m.defaults);
      if input.Err? {
        return Err(input.error), written;
      }
      ghost var middle := dataPool;
      if row.exception.Some? {
        written := Row(input.value, Raised(row.exception.value));
        return Ok(IndexText(input.value) + ['|'] + ("!" + row.exception.value)), written;
      }
      var output := SchemaIndices(row.outputs, m.outSchema, map[]);
      if output.Err? {
        return Err(output.error), written;
      }
      C.NamesGrow(input.value, HexAll(Fill(m.inSchema, row.inputs, m.defaults).value), middle, dataPool);
      written := Row(input.value, Values(output.value));
      return Ok(IndexText(input.value) + ['|'] + IndexText(output.value)), written;
    }

    /** The second loop of `write_group`. */
    method WriteRows(m: Mapped) returns (r: Result<(), ConvertError>, ghost written: seq<Row>)
      requires PoolValid()
      modifies this
      ensures PoolValid() && old(dataPool) <= dataPool && groups == old(groups)
      ensures match WidenRows(m.rows, m.inSchema, m.outSchema, m.defaults)
              case Err(e) => r == Err(e)
              case Ok(wide) =>
                && r.Ok? && |written| == |wide| && body == old(body) + RowTexts(written)
                && forall i :: 0 <= i < |wide| ==> RowNames(written[i], wide[i], dataPool)
    {
      hide C.InverseOf, C.AllGoodHex, RowNames, RowText, WidenRow, PoolValid;
      written := [];
      for i := 0 to |m.rows|
        invariant PoolValid() && old(dataPool) <= dataPool && groups == old(groups)
        invariant WidenRows(m.rows[..i], m.inSchema, m.outSchema, m.defaults).Ok?
        invariant |written| == i && body == old(body) + RowTexts(written)
        invariant AllNamed(written, WidenRows(m.rows[..i], m.inSchema, m.outSchema, m.defaults).value, dataPool)
      {
        assert m.rows[..i + 1][..i] == m.rows[..i];
        ghost var before := dataPool;
        ghost var wides := WidenRows(m.rows[..i], m.inSchema, m.outSchema, m.defaults).value;
        var text, one := WriteRow(m.rows[i], m);
        if text.Err? {
          WidenErrorPersists(m.rows, m.inSchema, m.outSchema, m.defaults, i + 1);
          return Err(text.error), written;
        }
        AllNamedGrow(written, wides, before, dataPool);
        body := body + [text.value];
        assert RowTexts(written + [one]) == RowTexts(written) + [RowText(one)];
        written := written + [one];
      }
      assert m.rows[..|m.rows|] == m.rows;
      return Ok(()), written;
    }

    method WriteGroup(c: PublicCase, entry: int, pageSize: int, mem0: int) returns (r: Result<nat, ConvertError>)
      requires Valid()
      requires var a := InstructionAddress(ToUpper(c.opcode), entry, pageSize); a.Ok? ==> 0 <= a.value < TWO64
      modifies this
      ensures PoolValid() && old(dataPool) <= dataPool
      ensures c.rows == [] ==> r == Ok(0) && Valid() && groups == old(groups)
      ensures c.rows != [] ==>
        match Widen(c, entry, pageSize, mem0)
        case Err(e) => r == Err(e)
        case Ok(wide) =>
          && r == Ok(|c.rows|) && Valid()
          && |groups| == |old(groups)| + 1 && groups[..|old(groups)|] == old(groups)
          && GroupNames(groups[|old(groups)|], wide, dataPool)
    {
      hide InstructionAddress, PoolValid, RowNames, Union, Defaults, InputLists, OutputLists, ToUpper, RowText,
           GroupsLines, MapRows, WidenRows;
      if c.rows == [] {
        return Ok(0);
      }
      var opcode := ToUpper(c.opcode);
      var address := InstructionAddress(opcode, entry, pageSize);
      if address.Err? {
        return Err(address.error);
      }
      var mapped := MapCase(c, mem0);
      if mapped.Err? {
        return Err(mapped.error);
      }
      var m := mapped.value;
      body := body + [HeaderLine(address.value, opcode, c.instruction, |m.rows|, m.inSchema, m.outSchema)];
      ghost var rows: seq<Row>;
      var rest;
      rest, rows := WriteRows(m);
      if rest.Err? {
        return Err(rest.error);
      }
      ghost var g := Group(address.value, opcode, c.instruction, m.inSchema, m.outSchema, rows);
      C.GroupsLinesAppend(groups, g);
      groups := groups + [g];
      return Ok(|m.rows|);
    }

    /** `flush`: the lines of the output file. */
    method Flush() returns (lines: seq<string>)
      requires Valid()
      ensures lines == FileLines(File(dataPool, groups))
    {
      lines := ["data:" + Decimal(|dataPool|)];
      for i := 0 to |dataPool|
        invariant lines == ["data:" + Decimal(|dataPool|)] + PoolLines(dataPool)[..i]
      {
        lines := lines + ["#" + dataPool[i]];
      }
      lines := lines + body;
    }
  }

  predicate AllNamed(rows: seq<Row>, wides: seq<WideRow>, pool: seq<string>) {
    |rows| == |wides| && forall i :: 0 <= i < |wides| ==> RowNames(rows[i], wides[i], pool)
  }

  lemma AllNamedGrow(rows: seq<Row>, wides: seq<WideRow>, pool: seq<string>, larger: seq<string>)
    requires AllNamed(rows, wides, pool) && pool <= larger
    ensures AllNamed(rows, wides, larger)
  {
    hide RowNames;
    forall i | 0 <= i < |wides| ensures RowNames(rows[i], wides[i], larger) {
      RowNamesGrow(rows[i], wides[i], pool, larger);
    }
  }

  lemma UpperDigitsAreGood(text: string)
    requires |text| % 2 == 0 && NoSpace(text) && AllDigits(ToUpper(text), 16)
    ensures GoodHex(ToUpper(text))
  {
    var upper := ToUpper(text);
    forall i | 0 <= i < |upper| ensures IsUpperHex(upper[i]) {
      assert IsDigit(upper[i], 16);
    }
  }

  lemma {:induction false} FillErrorPersists(schema: seq<string>, values: Values, defaults: Values, n: nat)
    requires n <= |schema| && Fill(schema[..n], values, defaults).Err?
    ensures Fill(schema, values, defaults) == Fill(schema[..n], values, defaults)
  {
    hide Present;
    if n < |schema| {
      assert schema[..|schema| - 1][..n] == schema[..n];
      FillErrorPersists(schema[..|schema| - 1], values, defaults, n);
    } else {
      assert schema[..n] == schema;
    }
  }
}
