/**
 * The writer of `tools/convert_test_vectors.py`: an interned value pool and rows grouped under their
 * encoding, assembly and schemas, and the proof that the reader gives every call its own values back.
 */
module ConvertTestVectors {
  import opened Wrappers
  import opened Text
  import opened Numbers
  import opened Expectation
  import opened X86TesterParser
  import opened PooledFormat
  import opened PooledReadable

  datatype Item = Item(key: string, hex: string)

  /** The arguments of one `add_row`. */
  datatype Call = Call(encoding: string, assembly: string, inputs: seq<Item>, outputs: seq<Item>,
    exception: Option<string>)

  datatype GroupKey = GroupKey(encoding: string, assembly: string, inputSchema: seq<string>, outputSchema: seq<string>)

  function Keys(items: seq<Item>): (keys: seq<string>)
    ensures |keys| == |items|
  {
    seq(|items|, i requires 0 <= i < |items| => items[i].key)
  }

  function HexValues(items: seq<Item>): (values: seq<string>)
    ensures |values| == |items|
  {
    seq(|items|, i requires 0 <= i < |items| => items[i].hex)
  }

  /** An empty exception text counts as none. */
  predicate Raises(call: Call) {
    call.exception.Some? && call.exception.value != ""
  }

  function KeyOf(call: Call): GroupKey {
    GroupKey(call.encoding, call.assembly, Keys(call.inputs), if Raises(call) then [] else Keys(call.outputs))
  }

  // ---- The pool ----

  /** Each value is pooled once and the index map is the inverse of the pool. */
  predicate InverseOf(indexes: map<string, nat>, pool: seq<string>) {
    && (forall v :: v in indexes ==> indexes[v] < |pool| && pool[indexes[v]] == v)
    && (forall i :: 0 <= i < |pool| ==> pool[i] in indexes && indexes[pool[i]] == i)
  }

  /** Every index points at its value, and the old pool is a prefix of the new one. */
  predicate Names(indices: seq<nat>, values: seq<string>, pool: seq<string>) {
    && |indices| == |values|
    && Below(indices, |pool|)
    && forall i :: 0 <= i < |values| ==> pool[indices[i]] == values[i]
  }

  lemma NamesGrow(indices: seq<nat>, values: seq<string>, pool: seq<string>, larger: seq<string>)
    requires Names(indices, values, pool) && pool <= larger
    ensures Names(indices, values, larger)
  {
  }

  // ---- Which call lands in which group ----

  type Grouped = seq<seq<Call>>

  /** The position of the group with a key, or the number of groups. */
  function Position(grouped: Grouped, key: GroupKey): (p: nat)
    requires forall i :: 0 <= i < |grouped| ==> grouped[i] != []
    ensures p <= |grouped|
    ensures p < |grouped| ==> KeyOf(grouped[p][0]) == key
    ensures forall i :: 0 <= i < p ==> KeyOf(grouped[i][0]) != key
  {
    if grouped == [] || KeyOf(grouped[0][0]) == key then 0 else 1 + Position(grouped[1..], key)
  }

  predicate OneKeyEach(grouped: Grouped) {
    forall g, i :: 0 <= g < |grouped| && 0 <= i < |grouped[g]| ==> KeyOf(grouped[g][i]) == KeyOf(grouped[g][0])
  }

  predicate NonEmptyGroups(grouped: Grouped) {
    forall g :: 0 <= g < |grouped| ==> grouped[g] != []
  }

  predicate DistinctKeys(grouped: Grouped)
    requires NonEmptyGroups(grouped)
  {
    forall g, h :: 0 <= g < h < |grouped| ==> KeyOf(grouped[g][0]) != KeyOf(grouped[h][0])
  }

  predicate IsGrouping(grouped: Grouped) {
    NonEmptyGroups(grouped) && OneKeyEach(grouped) && DistinctKeys(grouped)
  }

  /** A call joins the group of its key, or opens a new one at the end. */
  function Place(grouped: Grouped, call: Call): Grouped
    requires NonEmptyGroups(grouped)
  {
    var p := Position(grouped, KeyOf(call));
    if p < |grouped| then grouped[p := grouped[p] + [call]] else grouped + [[call]]
  }

  lemma PlaceIsGrouping(grouped: Grouped, call: Call)
    requires IsGrouping(grouped)
    ensures IsGrouping(Place(grouped, call))
  {
    hide KeyOf;
  }

  function GroupCalls(calls: seq<Call>): (grouped: Grouped)
    ensures IsGrouping(grouped)
  {
    if calls == [] then []
    else
      var before := GroupCalls(calls[..|calls| - 1]);
      PlaceIsGrouping(before, calls[|calls| - 1]);
      Place(before, calls[|calls| - 1])
  }

  function Flatten(grouped: Grouped): seq<Call> {
    if grouped == [] then [] else grouped[0] + Flatten(grouped[1..])
  }

  lemma {:induction false} FlattenAppend(a: Grouped, b: Grouped)
    ensures Flatten(a + b) == Flatten(a) + Flatten(b)
    decreases |a|
  {
    if a == [] {
      assert a + b == b;
    } else {
      FlattenAppend(a[1..], b);
      assert (a + b)[1..] == a[1..] + b;
    }
  }

  /** No call is lost or repeated by the grouping. */
  lemma {:induction false} GroupingKeepsCalls(calls: seq<Call>)
    ensures multiset(Flatten(GroupCalls(calls))) == multiset(calls)
  {
    if calls != [] {
      var before, call := GroupCalls(calls[..|calls| - 1]), calls[|calls| - 1];
      GroupingKeepsCalls(calls[..|calls| - 1]);
      assert calls == calls[..|calls| - 1] + [call];
      PlaceKeepsCalls(before, call);
    }
  }

  lemma PlaceKeepsCalls(grouped: Grouped, call: Call)
    requires NonEmptyGroups(grouped)
    ensures multiset(Flatten(Place(grouped, call))) == multiset(Flatten(grouped)) + multiset{call}
  {
    hide KeyOf;
    var p := Position(grouped, KeyOf(call));
    if p < |grouped| {
      FlattenReplace(grouped, p, call);
    } else {
      FlattenAppend(grouped, [[call]]);
      assert Flatten([[call]]) == [call];
    }
  }

  lemma {:induction false} FlattenReplace(grouped: Grouped, p: nat, call: Call)
    requires p < |grouped|
    ensures multiset(Flatten(grouped[p := grouped[p] + [call]])) == multiset(Flatten(grouped)) + multiset{call}
  {
    var replaced := grouped[p := grouped[p] + [call]];
    if p == 0 {
      assert replaced[1..] == grouped[1..];
      assert Flatten(replaced) == grouped[0] + [call] + Flatten(grouped[1..]);
    } else {
      assert replaced[1..] == grouped[1..][p - 1 := grouped[p] + [call]];
      FlattenReplace(grouped[1..], p - 1, call);
    }
  }

  // ---- What the groups of a file must be for a list of calls ----

  predicate RowNames(row: Row, call: Call, pool: seq<string>) {
    && Names(row.input, HexValues(call.inputs), pool)
    && (if Raises(call) then row.output == Raised(call.exception.value)
        else row.output.Values? && Names(row.output.indices, HexValues(call.outputs), pool))
  }

  predicate GroupNames(g: Group, calls: seq<Call>, address: u64, pool: seq<string>)
    requires calls != []
  {
    && g.address == address
    && GroupKey(g.opcode, g.assembly, g.inputSchema, g.outputSchema) == KeyOf(calls[0])
    && |g.rows| == |calls|
    && forall i :: 0 <= i < |calls| ==> RowNames(g.rows[i], calls[i], pool)
  }

  predicate FileNames(file: File, grouped: Grouped, address: u64)
    requires NonEmptyGroups(grouped)
  {
    && |file.groups| == |grouped|
    && forall g :: 0 <= g < |grouped| ==> GroupNames(file.groups[g], grouped[g], address, file.pool)
  }

  lemma RowNamesGrow(row: Row, call: Call, pool: seq<string>, larger: seq<string>)
    requires RowNames(row, call, pool) && pool <= larger
    ensures RowNames(row, call, larger)
  {
    hide Names;
    NamesGrow(row.input, HexValues(call.inputs), pool, larger);
    if !Raises(call) {
      NamesGrow(row.output.indices, HexValues(call.outputs), pool, larger);
    }
  }

  lemma GroupNamesGrow(g: Group, calls: seq<Call>, address: u64, pool: seq<string>, larger: seq<string>)
    requires calls != [] && GroupNames(g, calls, address, pool) && pool <= larger
    ensures GroupNames(g, calls, address, larger)
  {
    hide RowNames, KeyOf;
    forall i | 0 <= i < |calls| ensures RowNames(g.rows[i], calls[i], larger) {
      RowNamesGrow(g.rows[i], calls[i], pool, larger);
    }
  }

  function NewGroup(address: u64, key: GroupKey, row: Row): Group {
    Group(address, key.encoding, key.assembly, key.inputSchema, key.outputSchema, [row])
  }

  /** The groups after one more row with a key found at `p`, or with a new key. */
  function PlaceRow(groups: seq<Group>, p: nat, address: u64, key: GroupKey, row: Row): seq<Group>
    requires p <= |groups|
  {
    if p < |groups| then groups[p := groups[p].(rows := groups[p].rows + [row])]
    else groups + [NewGroup(address, key, row)]
  }

  lemma PlaceNames(file: File, grouped: Grouped, address: u64, call: Call, row: Row, larger: seq<string>)
    requires IsGrouping(grouped) && FileNames(file, grouped, address)
    requires file.pool <= larger && RowNames(row, call, larger)
    ensures var p := Position(grouped, KeyOf(call));
      var placed := File(larger, PlaceRow(file.groups, p, address, KeyOf(call), row));
      FileNames(placed, Place(grouped, call), address)
  {
    hide RowNames, KeyOf;
    var p := Position(grouped, KeyOf(call));
    var groups := PlaceRow(file.groups, p, address, KeyOf(call), row);
    var placed := Place(grouped, call);
    forall g | 0 <= g < |placed| ensures GroupNames(groups[g], placed[g], address, larger) {
      if g < |grouped| {
        GroupNamesGrow(file.groups[g], grouped[g], address, file.pool, larger);
      }
    }
  }

  // ---- Calls with delimiter-free fields ----

  predicate PlainItems(items: seq<Item>) {
    forall i :: 0 <= i < |items| ==> PlainKey(items[i].key) && GoodHex(items[i].hex)
  }

  /** The outputs of a call that raises are never looked at. */
  predicate PlainCall(call: Call) {
    && GoodHex(call.encoding) && GoodAssembly(call.assembly) && PlainItems(call.inputs)
    && (if Raises(call) then GoodKind(call.exception.value) else PlainItems(call.outputs))
  }

  predicate PlainCalls(calls: seq<Call>) {
    forall i :: 0 <= i < |calls| ==> PlainCall(calls[i])
  }

  /** Do all memory keys of a call name an address? */
  predicate CallReads(call: Call) {
    SchemaReads(KeyOf(call).inputSchema) && SchemaReads(KeyOf(call).outputSchema)
  }

  predicate CallsRead(calls: seq<Call>) {
    forall i :: 0 <= i < |calls| ==> CallReads(calls[i])
  }

  predicate GoodItems(items: seq<Item>) {
    forall i :: 0 <= i < |items| ==> GoodKey(items[i].key) && GoodHex(items[i].hex)
  }

  predicate GoodCall(call: Call) {
    && GoodHex(call.encoding) && GoodAssembly(call.assembly) && GoodItems(call.inputs)
    && (if Raises(call) then GoodKind(call.exception.value) else GoodItems(call.outputs))
  }

  lemma GoodItemsAre(items: seq<Item>)
    ensures GoodItems(items) <==> PlainItems(items) && SchemaReads(Keys(items))
  {
    hide PlainKey, ParseMemoryAddressKey, GoodHex;
    assert |Keys(items)| == |items| && forall i :: 0 <= i < |items| ==> Keys(items)[i] == items[i].key;
    if SchemaReads(Keys(items)) {
      assert forall i :: 0 <= i < |items| ==> KeyReads(Keys(items)[i]);
    }
    if GoodItems(items) {
      forall i | 0 <= i < |items| ensures KeyReads(Keys(items)[i]) {
        assert GoodKey(items[i].key);
      }
    }
  }

  lemma GoodCallIs(call: Call)
    ensures GoodCall(call) <==> PlainCall(call) && CallReads(call)
  {
    hide GoodItems, PlainItems, Keys, GoodHex, GoodAssembly, GoodKind, KeyReads;
    GoodItemsAre(call.inputs);
    GoodItemsAre(call.outputs);
  }

  predicate GoodCalls(calls: seq<Call>) {
    forall i :: 0 <= i < |calls| ==> GoodCall(calls[i])
  }

  predicate AllGoodHex(pool: seq<string>) {
    forall i :: 0 <= i < |pool| ==> GoodHex(pool[i])
  }

  lemma PlainCallsSplit(calls: seq<Call>, call: Call)
    requires PlainCalls(calls + [call])
    ensures PlainCalls(calls) && PlainCall(call)
  {
    assert (calls + [call])[|calls|] == call;
    forall i | 0 <= i < |calls| ensures PlainCall(calls[i]) {
      assert (calls + [call])[i] == calls[i];
    }
  }

  // ---- The class ----

  /** A group as the writer keeps it: its rows are already text. */
  datatype TextGroup = TextGroup(encoding: string, assembly: string, inputSchema: seq<string>,
    outputSchema: seq<string>, rows: seq<string>)

  function AsText(g: Group): TextGroup {
    TextGroup(g.opcode, g.assembly, g.inputSchema, g.outputSchema, RowTexts(g.rows))
  }

  function TextKey(g: TextGroup): GroupKey {
    GroupKey(g.encoding, g.assembly, g.inputSchema, g.outputSchema)
  }

  predicate TextOf(groups: seq<TextGroup>, file: File) {
    |groups| == |file.groups| && forall g :: 0 <= g < |groups| ==> groups[g] == AsText(file.groups[g])
  }

  /** The dictionary lookup: the position of a key among the groups in insertion order. */
  method FindGroup(groups: seq<TextGroup>, key: GroupKey, ghost grouped: Grouped, ghost file: File,
      ghost address: u64) returns (p: nat)
    requires IsGrouping(grouped) && FileNames(file, grouped, address) && TextOf(groups, file)
    ensures p == Position(grouped, key) && p <= |groups| == |file.groups| == |grouped|
  {
    p := 0;
    while p < |groups| && TextKey(groups[p]) != key
      invariant p <= |groups|
      invariant forall i :: 0 <= i < p ==> KeyOf(grouped[i][0]) != key
    {
      assert GroupNames(file.groups[p], grouped[p], address, file.pool);
      p := p + 1;
    }
    assert p < |groups| ==> GroupNames(file.groups[p], grouped[p], address, file.pool);
  }

  class OutputCorpus {
    const address: u64
    var poolIndexes: map<string, nat>
    var poolValues: seq<string>
    var groups: seq<TextGroup>
    var rowCount: nat
    ghost var calls: seq<Call>
    ghost var file: File

    /** Pool and index map are inverse, and the text groups are the structured ones of the calls so far. */
    ghost predicate Valid()
      reads this
    {
      && InverseOf(poolIndexes, poolValues)
      && file.pool == poolValues
      && TextOf(groups, file)
      && FileNames(file, GroupCalls(calls), address)
      && rowCount == |calls|
      && (PlainCalls(calls) ==> AllGoodHex(poolValues))
    }

    constructor (address: u64)
      ensures Valid() && this.address == address && calls == []
    {
      this.address := address;
      poolIndexes, poolValues, groups, rowCount := map[], [], [], 0;
      calls, file := [], File([], []);
    }

    /** The pool only grows, at its end, and never holds a value twice. */
    method PoolIndex(value: string) returns (index: nat)
      requires InverseOf(poolIndexes, poolValues)
      modifies this`poolIndexes, this`poolValues
      ensures InverseOf(poolIndexes, poolValues)
      ensures old(poolValues) <= poolValues && index < |poolValues| && poolValues[index] == value
      ensures poolValues == if value in old(poolValues) then old(poolValues) else old(poolValues) + [value]
      ensures AllGoodHex(old(poolValues)) && GoodHex(value) ==> AllGoodHex(poolValues)
    {
      if value in poolIndexes {
        return poolIndexes[value];
      }
      index := |poolValues|;
      poolIndexes := poolIndexes[value := index];
      poolValues := poolValues + [value];
    }

    method PoolIndices(items: seq<Item>) returns (indices: seq<nat>)
      requires InverseOf(poolIndexes, poolValues)
      modifies this`poolIndexes, this`poolValues
      ensures InverseOf(poolIndexes, poolValues)
      ensures old(poolValues) <= poolValues
      ensures Names(indices, HexValues(items), poolValues)
      ensures AllGoodHex(old(poolValues)) && PlainItems(items) ==> AllGoodHex(poolValues)
    {
      hide InverseOf, AllGoodHex, PlainKey, GoodHex;
      indices := [];
      for i := 0 to |items|
        invariant InverseOf(poolIndexes, poolValues)
        invariant old(poolValues) <= poolValues
        invariant Names(indices, HexValues(items)[..i], poolValues)
        invariant AllGoodHex(old(poolValues)) && PlainItems(items) ==> AllGoodHex(poolValues)
      {
        ghost var before := poolValues;
        assert PlainItems(items) ==> GoodHex(items[i].hex);
        var index := PoolIndex(items[i].hex);
        NamesGrow(indices, HexValues(items)[..i], before, poolValues);
        indices := indices + [index];
      }
      assert HexValues(items)[..|items|] == HexValues(items);
    }

    /** `group.rows.append`, on the group found or on a new one. */
    method AppendRow(p: nat, key: GroupKey, text: string)
      requires p <= |groups|
      modifies this`groups
      ensures groups == PlaceText(old(groups), p, key, text)
    {
      if p == |groups| {
        groups := groups + [TextGroup(key.encoding, key.assembly, key.inputSchema, key.outputSchema, [])];
      }
      groups := groups[p := groups[p].(rows := groups[p].rows + [text])];
      assert [] + [text] == [text];
    }

    method AddRow(call: Call)
      requires Valid()
      modifies this
      ensures Valid()
      ensures calls == old(calls) + [call]
      ensures old(poolValues) <= poolValues
    {
      hide InverseOf, Names, KeyOf, RowText, AllGoodHex, PlainItems, TextOf, PlaceRow, PlaceText, FileNames, Place;
      ghost var grouped := GroupCalls(calls);
      var inputIndexes := PoolIndices(call.inputs);
      ghost var middle := poolValues;
      var output: Output;
      if Raises(call) {
        output := Raised(call.exception.value);
      } else {
        var outputIndexes := PoolIndices(call.outputs);
        output := Values(outputIndexes);
      }
      NamesGrow(inputIndexes, HexValues(call.inputs), middle, poolValues);
      var row := Row(inputIndexes, output);
      assert RowNames(row, call, poolValues);
      var key := KeyOf(call);
      var p := FindGroup(groups, key, grouped, file, address);
      PlaceNames(file, grouped, address, call, row, poolValues);
      assert (calls + [call])[..|calls|] == calls;
      if PlainCalls(calls + [call]) {
        PlainCallsSplit(calls, call);
      }
      TextAfterPlace(groups, file, p, address, key, row, poolValues);
      AppendRow(p, key, RowText(row));
      file := File(poolValues, PlaceRow(file.groups, p, address, key, row));
      calls := calls + [call];
      rowCount := rowCount + 1;
    }

    /** The lines of the output file. */
    method Write() returns (lines: seq<string>)
      requires Valid()
      ensures lines == FileLines(file)
    {
      hide InverseOf, FileNames, PlainCalls, GroupsLines, TextOf;
      var pool := WritePool();
      var body := WriteGroups();
      lines := pool + body;
    }

    method WritePool() returns (lines: seq<string>)
      ensures lines == ["data:" + Decimal(|poolValues|)] + PoolLines(poolValues)
    {
      lines := ["data:" + Decimal(|poolValues|)];
      for i := 0 to |poolValues|
        invariant lines == ["data:" + Decimal(|poolValues|)] + PoolLines(poolValues)[..i]
      {
        lines := lines + ["#" + poolValues[i]];
      }
    }

    method WriteGroups() returns (lines: seq<string>)
      requires Valid()
      ensures lines == GroupsLines(file.groups)
    {
      hide InverseOf, FileNames, GroupLines, PlainCalls, AsText;
      lines := [];
      assert file.groups[..0] == [];
      for i := 0 to |groups|
        invariant lines == GroupsLines(file.groups[..i])
      {
        TextLines(groups, file, GroupCalls(calls), address, i);
        var text := WriteGroup(groups[i]);
        GroupsLinesNext(file.groups, i);
        lines := lines + text;
      }
      assert file.groups[..|groups|] == file.groups;
    }

    method WriteGroup(g: TextGroup) returns (lines: seq<string>)
      ensures lines == [HeaderOfText(address, g)] + g.rows
    {
      hide HeaderOfText;
      lines := [HeaderOfText(address, g)];
      for i := 0 to |g.rows|
        invariant lines == [HeaderOfText(address, g)] + g.rows[..i]
      {
        lines := lines + [g.rows[i]];
      }
    }
  }

  lemma {:induction false} GroupsLinesAppend(groups: seq<Group>, g: Group)
    ensures GroupsLines(groups + [g]) == GroupsLines(groups) + GroupLines(g)
  {
    hide GroupLines;
    if groups == [] {
      assert (groups + [g])[1..] == [];
    } else {
      assert (groups + [g])[1..] == groups[1..] + [g];
      GroupsLinesAppend(groups[1..], g);
    }
  }

  lemma GroupsLinesNext(groups: seq<Group>, i: nat)
    requires i < |groups|
    ensures GroupsLines(groups[..i + 1]) == GroupsLines(groups[..i]) + GroupLines(groups[i])
  {
    hide GroupsLines;
    assert groups[..i + 1] == groups[..i] + [groups[i]];
    GroupsLinesAppend(groups[..i], groups[i]);
  }

  function HeaderOfText(address: u64, g: TextGroup): string {
    "instr:" + Join([HexLiteral(address), "#" + g.encoding, g.assembly, Decimal(|g.rows|),
                     "in=" + Join(g.inputSchema, ','), "out=" + Join(g.outputSchema, ',')], ';')
  }

  lemma TextLines(groups: seq<TextGroup>, file: File, grouped: Grouped, address: u64, i: nat)
    requires IsGrouping(grouped) && FileNames(file, grouped, address) && TextOf(groups, file) && i < |groups|
    ensures [HeaderOfText(address, groups[i])] + groups[i].rows == GroupLines(file.groups[i])
  {
    hide KeyOf, RowNames;
    assert GroupNames(file.groups[i], grouped[i], address, file.pool);
  }

  function PlaceText(groups: seq<TextGroup>, p: nat, key: GroupKey, text: string): seq<TextGroup>
    requires p <= |groups|
  {
    if p < |groups| then groups[p := groups[p].(rows := groups[p].rows + [text])]
    else groups + [TextGroup(key.encoding, key.assembly, key.inputSchema, key.outputSchema, [text])]
  }

  lemma TextAfterPlace(groups: seq<TextGroup>, file: File, p: nat, address: u64, key: GroupKey, row: Row,
      pool: seq<string>)
    requires TextOf(groups, file) && p <= |groups|
    ensures TextOf(PlaceText(groups, p, key, RowText(row)), File(pool, PlaceRow(file.groups, p, address, key, row)))
  {
    hide RowText;
    var after, placed := PlaceText(groups, p, key, RowText(row)), PlaceRow(file.groups, p, address, key, row);
    forall g | 0 <= g < |after| ensures after[g] == AsText(placed[g]) {
    }
  }

  // ---- Reading the written file ----

  function ItemPairs(items: seq<Item>): (pairs: seq<Pair>)
    requires GoodItems(items)
    ensures |pairs| == |items|
  {
    seq(|items|, i requires 0 <= i < |items| => Pair(items[i].key, BytesOf(items[i].hex)))
  }

  lemma ItemPairsGood(items: seq<Item>)
    requires GoodItems(items)
    ensures GoodPairs(ItemPairs(items))
  {
    hide ParseMemoryAddressKey, BytesOf, GoodHex;
    forall i | 0 <= i < |items| ensures ParseMemoryAddressKey(ItemPairs(items)[i].key).Ok? {
      assert GoodKey(items[i].key);
    }
  }

  function ItemsSide(items: seq<Item>): Side
    requires GoodItems(items)
  {
    ItemPairsGood(items);
    SideOf(ItemPairs(items))
  }

  function CallHeader(key: GroupKey, address: u64, count: u64): InstructionHeader {
    InstructionHeader(address, key.encoding, key.assembly, count, key.inputSchema, key.outputSchema)
  }

  /** The expectation a call asks for, whatever the pool looks like. */
  function CallMeans(call: Call, address: u64, count: u64, instructionId: nat, testCaseId: nat,
      stateIndex: nat): ExpectationRow
    requires GoodCall(call)
  {
    BuildRow(CallHeader(KeyOf(call), address, count), instructionId, testCaseId, stateIndex,
             ItemsSide(call.inputs), if Raises(call) then NOTHING else ItemsSide(call.outputs),
             if Raises(call) then call.exception else None)
  }

  function GroupCallsMean(calls: seq<Call>, address: u64, instructionId: nat,
      firstCase: nat): (rows: seq<ExpectationRow>)
    requires GoodCalls(calls) && |calls| < TWO64
    ensures |rows| == |calls|
  {
    seq(|calls|, i requires 0 <= i < |calls| =>
      CallMeans(calls[i], address, |calls|, instructionId, firstCase + i, i))
  }

  predicate GoodGrouped(grouped: Grouped) {
    forall g :: 0 <= g < |grouped| ==> GoodCalls(grouped[g]) && |grouped[g]| < TWO64
  }

  function CallsMean(grouped: Grouped, address: u64, firstId: nat, firstCase: nat): seq<ExpectationRow>
    requires GoodGrouped(grouped)
    decreases |grouped|
  {
    if grouped == [] then []
    else GroupCallsMean(grouped[0], address, firstId, firstCase)
         + CallsMean(grouped[1..], address, firstId + 1, firstCase + |grouped[0]|)
  }

  lemma SideOfNames(items: seq<Item>, indices: seq<nat>, pool: seq<string>)
    requires GoodItems(items) && GoodPool(pool) && Names(indices, HexValues(items), pool)
    ensures GoodSchema(Keys(items)) && InPool(indices, PoolBytes(pool))
    ensures SchemaSide(Keys(items), indices, PoolBytes(pool)) == ItemsSide(items)
  {
    hide BytesOf, SideOf, ParseMemoryAddressKey, GoodHex;
    assert PairsOf(Keys(items), indices, PoolBytes(pool)) == ItemPairs(items);
  }

  lemma RowOfCall(row: Row, call: Call, g: Group, pool: seq<string>, instructionId: nat, testCaseId: nat,
      stateIndex: nat)
    requires GoodCall(call) && GoodPool(pool) && RowNames(row, call, pool)
    requires |g.rows| < TWO64 && GroupKey(g.opcode, g.assembly, g.inputSchema, g.outputSchema) == KeyOf(call)
    ensures GoodSchema(g.inputSchema) && GoodSchema(g.outputSchema)
    ensures GoodRow(row, g, |pool|)
    ensures BuildRow(HeaderOf(g), instructionId, testCaseId, stateIndex,
                     SchemaSide(g.inputSchema, row.input, PoolBytes(pool)),
                     if row.output.Raised? then NOTHING
                     else SchemaSide(g.outputSchema, row.output.indices, PoolBytes(pool)),
                     if row.output.Raised? then Some(row.output.kind) else None)
         == CallMeans(call, g.address, |g.rows|, instructionId, testCaseId, stateIndex)
  {
    hide SchemaSide, ItemsSide, PoolBytes, GoodKey, GoodHex, GoodPool;
    SideOfNames(call.inputs, row.input, pool);
    if !Raises(call) {
      SideOfNames(call.outputs, row.output.indices, pool);
    }
  }

  lemma GroupOfCalls(g: Group, calls: seq<Call>, address: u64, pool: seq<string>, instructionId: nat, firstCase: nat)
    requires calls != [] && GoodCalls(calls) && |calls| < TWO64 && GoodPool(pool)
    requires GroupNames(g, calls, address, pool) && forall i :: 0 <= i < |calls| ==> KeyOf(calls[i]) == KeyOf(calls[0])
    ensures GoodGroup(g, |pool|)
    ensures GroupMeans(g, instructionId, firstCase, PoolBytes(pool))
      == GroupCallsMean(calls, address, instructionId, firstCase)
  {
    hide RowNames, GoodRow, GoodPool, PoolBytes, GoodSchema, CallMeans, GoodHex, GoodAssembly, SchemaSide, BuildRow;
    assert GoodCall(calls[0]);
    forall i | 0 <= i < |calls|
      ensures GoodSchema(g.inputSchema) && GoodSchema(g.outputSchema) && GoodRow(g.rows[i], g, |pool|)
    {
      RowOfCall(g.rows[i], calls[i], g, pool, instructionId, firstCase + i, i);
    }
    assert KeyOf(calls[0]).encoding == calls[0].encoding && KeyOf(calls[0]).assembly == calls[0].assembly;
    assert GoodSchema(g.inputSchema) && GoodSchema(g.outputSchema);
    forall i | 0 <= i < |calls|
      ensures RowMeans(g.rows[i], g, instructionId, firstCase + i, i, PoolBytes(pool))
           == CallMeans(calls[i], address, |calls|, instructionId, firstCase + i, i)
    {
      RowOfCall(g.rows[i], calls[i], g, pool, instructionId, firstCase + i, i);
    }
  }

  lemma {:induction false} GroupsOfCalls(groups: seq<Group>, grouped: Grouped, address: u64, pool: seq<string>,
      firstId: nat, firstCase: nat)
    requires NonEmptyGroups(grouped) && OneKeyEach(grouped) && GoodGrouped(grouped) && GoodPool(pool)
    requires FileNames(File(pool, groups), grouped, address)
    ensures GoodGroups(groups, |pool|)
    ensures GroupsMean(groups, firstId, firstCase, PoolBytes(pool)) == CallsMean(grouped, address, firstId, firstCase)
    decreases |groups|
  {
    hide KeyOf, GoodPool, PoolBytes, GoodGroup, GroupMeans, GroupCallsMean, RowNames;
    if groups != [] {
      assert GroupNames(groups[0], grouped[0], address, pool);
      assert FileNames(File(pool, groups[1..]), grouped[1..], address);
      GroupOfCalls(groups[0], grouped[0], address, pool, firstId, firstCase);
      GroupsOfCalls(groups[1..], grouped[1..], address, pool, firstId + 1, firstCase + |grouped[0]|);
      forall i | 0 <= i < |groups| ensures GoodGroup(groups[i], |pool|) {
        if i > 0 {
          assert groups[1..][i - 1] == groups[i];
        }
      }
    }
  }

  lemma {:induction false} GroupsFit(grouped: Grouped, g: nat)
    requires g < |grouped|
    ensures |grouped[g]| <= |Flatten(grouped)|
  {
    if g > 0 {
      GroupsFit(grouped[1..], g - 1);
    }
  }

  lemma GroupedCallsGood(calls: seq<Call>)
    requires GoodCalls(calls) && |calls| < TWO64
    ensures GoodGrouped(GroupCalls(calls))
  {
    hide GoodCall, IsGrouping;
    var grouped := GroupCalls(calls);
    GroupingKeepsCalls(calls);
    assert |Flatten(grouped)| == |multiset(Flatten(grouped))| == |calls|;
    forall g | 0 <= g < |grouped| ensures GoodCalls(grouped[g]) && |grouped[g]| < TWO64 {
      GroupsFit(grouped, g);
      forall i | 0 <= i < |grouped[g]| ensures GoodCall(grouped[g][i]) {
        InFlatten(grouped, g, i);
        assert grouped[g][i] in multiset(Flatten(grouped));
        assert grouped[g][i] in calls;
      }
    }
  }

  lemma {:induction false} InFlatten(grouped: Grouped, g: nat, i: nat)
    requires g < |grouped| && i < |grouped[g]|
    ensures grouped[g][i] in Flatten(grouped)
  {
    if g > 0 {
      InFlatten(grouped[1..], g - 1, i);
    }
  }

  // ---- Which calls read back at all ----

  lemma PlainGroupOfCalls(g: Group, calls: seq<Call>, address: u64, pool: seq<string>)
    requires calls != [] && PlainCalls(calls) && |calls| < TWO64
    requires GroupNames(g, calls, address, pool) && forall i :: 0 <= i < |calls| ==> KeyOf(calls[i]) == KeyOf(calls[0])
    ensures PlainGroup(g, |pool|) && KeysUsed(g)
    ensures SchemasRead(g) <==> CallsRead(calls)
  {
    hide GoodHex, GoodAssembly, GoodKind, KeyOf, SchemaReads, GoodRow, RowNames, PlainSchema;
    PlainKeyOf(calls[0]);
    forall i | 0 <= i < |calls| ensures GoodRow(g.rows[i], g, |pool|) {
      RowOfPlainCall(g.rows[i], calls[i], g, pool);
    }
    RowOutputIs(g.rows[0], calls[0], pool);
    assert CallsRead(calls) ==> CallReads(calls[0]);
  }

  lemma PlainKeyOf(call: Call)
    requires PlainCall(call)
    ensures var key := KeyOf(call);
      GoodHex(key.encoding) && GoodAssembly(key.assembly) && PlainSchema(key.inputSchema)
        && PlainSchema(key.outputSchema)
  {
    hide GoodHex, GoodAssembly, PlainKey;
  }

  lemma RowOutputIs(row: Row, call: Call, pool: seq<string>)
    requires RowNames(row, call, pool)
    ensures KeyOf(call).outputSchema != [] ==> row.output.Values?
  {
  }

  lemma RowOfPlainCall(row: Row, call: Call, g: Group, pool: seq<string>)
    requires PlainCall(call) && RowNames(row, call, pool)
    requires GroupKey(g.opcode, g.assembly, g.inputSchema, g.outputSchema) == KeyOf(call)
    ensures GoodRow(row, g, |pool|)
  {
    hide PlainItems, GoodHex, GoodAssembly;
  }

  lemma {:induction false} CallsReadFlatten(grouped: Grouped)
    ensures CallsRead(Flatten(grouped)) <==> forall g :: 0 <= g < |grouped| ==> CallsRead(grouped[g])
    ensures PlainCalls(Flatten(grouped)) <==> forall g :: 0 <= g < |grouped| ==> PlainCalls(grouped[g])
    decreases |grouped|
  {
    hide CallReads, PlainCall;
    if grouped != [] {
      var first, rest := grouped[0], Flatten(grouped[1..]);
      CallsReadFlatten(grouped[1..]);
      assert forall g :: 1 <= g < |grouped| ==> grouped[g] == grouped[1..][g - 1];
      SplitReads(first, rest);
    }
  }

  lemma SplitReads(a: seq<Call>, b: seq<Call>)
    ensures CallsRead(a + b) <==> CallsRead(a) && CallsRead(b)
    ensures PlainCalls(a + b) <==> PlainCalls(a) && PlainCalls(b)
  {
    hide CallReads, PlainCall;
    assert forall i :: 0 <= i < |a| ==> (a + b)[i] == a[i];
    assert forall i :: 0 <= i < |b| ==> (a + b)[|a| + i] == b[i];
  }

  lemma SameCalls(a: seq<Call>, b: seq<Call>)
    requires multiset(a) == multiset(b)
    ensures CallsRead(a) <==> CallsRead(b)
    ensures PlainCalls(a) <==> PlainCalls(b)
  {
    hide CallReads, PlainCall;
    assert forall i :: 0 <= i < |a| ==> a[i] in multiset(b);
    assert forall i :: 0 <= i < |b| ==> b[i] in multiset(a);
  }

  lemma GroupedCallsRead(calls: seq<Call>)
    requires PlainCalls(calls) && |calls| < TWO64
    ensures var grouped := GroupCalls(calls);
      && (CallsRead(calls) <==> forall g :: 0 <= g < |grouped| ==> CallsRead(grouped[g]))
      && forall g :: 0 <= g < |grouped| ==> PlainCalls(grouped[g]) && |grouped[g]| < TWO64
  {
    hide CallsRead, PlainCalls;
    var grouped := GroupCalls(calls);
    GroupingKeepsCalls(calls);
    assert |Flatten(grouped)| == |multiset(Flatten(grouped))| == |calls|;
    SameCalls(Flatten(grouped), calls);
    CallsReadFlatten(grouped);
    forall g | 0 <= g < |grouped| ensures |grouped[g]| < TWO64 {
      GroupsFit(grouped, g);
    }
  }

  lemma PlainGroupAt(calls: seq<Call>, file: File, address: u64, g: nat)
    requires FileNames(file, GroupCalls(calls), address) && g < |GroupCalls(calls)|
    requires PlainCalls(GroupCalls(calls)[g]) && |GroupCalls(calls)[g]| < TWO64
    ensures PlainGroup(file.groups[g], |file.pool|) && KeysUsed(file.groups[g])
    ensures SchemasRead(file.groups[g]) <==> CallsRead(GroupCalls(calls)[g])
  {
    hide CallsRead, PlainCalls, PlainGroup, KeysUsed, SchemasRead, GroupNames, GroupCalls;
    PlainGroupOfCalls(file.groups[g], GroupCalls(calls)[g], address, file.pool);
  }

  lemma PlainFileOfCalls(calls: seq<Call>, file: File, address: u64)
    requires FileNames(file, GroupCalls(calls), address) && PlainCalls(calls) && AllGoodHex(file.pool)
    requires |calls| < TWO64 && |file.pool| < TWO64
    ensures PlainFile(file) && forall i :: 0 <= i < |file.groups| ==> KeysUsed(file.groups[i])
    ensures AllSchemasRead(file.groups) <==> CallsRead(calls)
  {
    hide CallsRead, PlainCalls, PlainGroup, KeysUsed, SchemasRead, GroupNames, GoodHex, GroupCalls, IsGrouping;
    GroupedCallsRead(calls);
    forall g | 0 <= g < |file.groups|
      ensures PlainGroup(file.groups[g], |file.pool|) && KeysUsed(file.groups[g])
      ensures SchemasRead(file.groups[g]) <==> CallsRead(GroupCalls(calls)[g])
    {
      PlainGroupAt(calls, file, address, g);
    }
  }

  lemma GoodCallsAre(calls: seq<Call>)
    ensures GoodCalls(calls) <==> PlainCalls(calls) && CallsRead(calls)
  {
    hide GoodCall, PlainCall, CallReads;
    forall i | 0 <= i < |calls| ensures GoodCall(calls[i]) <==> PlainCall(calls[i]) && CallReads(calls[i]) {
      GoodCallIs(calls[i]);
    }
  }

  /**
   * Reading the written text succeeds exactly when the memory keys of all calls name an address, and
   * then gives one row per call, grouped in order of first appearance, with the call's own values.
   */
  lemma WriteThenRead(calls: seq<Call>, file: File, address: u64)
    requires FileNames(file, GroupCalls(calls), address)
    requires PlainCalls(calls) && AllGoodHex(file.pool)
    requires |calls| < TWO64 && |file.pool| < TWO64
    ensures ParsedText(FileText(file)).Ok? <==> CallsRead(calls)
    ensures CallsRead(calls) ==>
      && GoodGrouped(GroupCalls(calls))
      && ParsedText(FileText(file))
         == Ok(ParsedCorpus(CallsMean(GroupCalls(calls), address, 1, 0), |GroupCalls(calls)|, 0))
  {
    hide GoodHex, GroupNames, FileText, GoodGroup, PlainFile, CallsRead, PlainCalls, GoodCalls, ParsedText,
         AllSchemasRead, KeysUsed, CallsMean;
    PlainFileOfCalls(calls, file, address);
    FileReadsExactly(file);
    GoodCallsAre(calls);
    if CallsRead(calls) {
      GroupedCallsGood(calls);
      GroupsOfCalls(file.groups, GroupCalls(calls), address, file.pool, 1, 0);
    }
  }

  /** A whole conversion: every call added, then written. */
  method Convert(address: u64, calls: seq<Call>) returns (lines: seq<string>)
    requires |calls| < TWO64
    ensures PlainCalls(calls) && |lines| < TWO64 ==>
      && (ParsedText(Unlines(lines)).Ok? <==> CallsRead(calls))
      && (CallsRead(calls) ==>
            && GoodGrouped(GroupCalls(calls))
            && ParsedText(Unlines(lines))
               == Ok(ParsedCorpus(CallsMean(GroupCalls(calls), address, 1, 0), |GroupCalls(calls)|, 0)))
  {
    hide FileNames, InverseOf, PlainCalls, CallsMean, ParsedText, AllGoodHex, GroupCalls, GoodGrouped, CallsRead;
    var corpus := new OutputCorpus(address);
    for i := 0 to |calls|
      invariant fresh(corpus) && corpus.Valid() && corpus.calls == calls[..i]
    {
      corpus.AddRow(calls[i]);
      assert calls[..i] + [calls[i]] == calls[..i + 1];
    }
    assert calls[..|calls|] == calls;
    lines := corpus.Write();
    if PlainCalls(calls) && |lines| < TWO64 {
      WriteThenRead(calls, corpus.file, address);
    }
  }
}
