/** What a parsed row of the public converter's file holds: its own registers and its own memory. */
module PublicValues {
  import opened Wrappers
  import opened Text
  import opened Numbers
  import opened Expectation
  import opened PooledFormat
  import opened PublicItems
  import opened PublicWriter
  import opened PublicReading
  import opened PublicRoundTrip
  import opened BitTest
  import P = X86TesterParser
  import I = Intrinsics
  import LE = LittleEndian

  // ---- Keys ----

  /** A key as `normalize_state_key` leaves it. */
  predicate IsNormal(key: string) {
    StateKey(key) == key
  }

  lemma StateKeyIsNormal(raw: string)
    ensures IsNormal(StateKey(raw))
  {
    assert Trimmed(Trim(raw));
    LowerKeepsTrimmed(Trim(raw));
    LowerTwice(Trim(raw));
    assert Trimmed("flags") && ToLower("flags") == "flags";
  }

  lemma LowerKeepsTrimmed(s: string)
    requires Trimmed(s)
    ensures Trimmed(ToLower(s))
  {
  }

  lemma LowerTwice(s: string)
    ensures ToLower(ToLower(s)) == ToLower(s)
  {
  }

  /** Only the flags change their name between the converter and the reader. */
  lemma CanonicalOfNormal(key: string)
    requires IsNormal(key)
    ensures P.CanonicalStateKey(key) == if key == "flags" then "flag" else key
    ensures key != "flag"
  {
    hide ToLower, Trim;
  }

  ghost predicate IsPrintedMemoryKey(key: string) {
    exists address :: key == MemoryKey(address)
  }

  ghost predicate IsPlain(item: Pair) {
    IsNormal(item.key) || IsPrintedMemoryKey(item.key)
  }

  lemma ItemKeys(state: Option<StateObject>, mem0: int)
    ensures forall item :: item in StateItems(state, mem0) ==> IsPlain(item)
  {
    hide StateKey, MemoryKey;
    forall item | item in StateItems(state, mem0) ensures IsPlain(item) {
      var i :| 0 <= i < |StateItems(state, mem0)| && StateItems(state, mem0)[i] == item;
      StateKeyIsNormal(state.value[i].key);
    }
  }

  predicate NormalOrMemory(pairs: seq<Pair>) {
    forall j :: 0 <= j < |pairs| ==> IsNormal(pairs[j].key) || IsMemoryPair(pairs[j])
  }

  /** Distinct keys of a schema stay distinct registers in the reader. */
  lemma RegistersDistinct(schema: seq<string>, values: seq<seq<byte>>)
    requires |values| == |schema| && NoRepeats(schema) && NormalOrMemory(Zip(schema, values))
    ensures DistinctRegisters(Zip(schema, values))
  {
    hide StateKey, P.CanonicalStateKey, P.ParseMemoryAddressKey;
    var pairs := Zip(schema, values);
    forall i, j | 0 <= i < j < |pairs| && !IsMemoryPair(pairs[i]) && !IsMemoryPair(pairs[j])
      ensures P.CanonicalStateKey(pairs[i].key) != P.CanonicalStateKey(pairs[j].key)
    {
      CanonicalOfNormal(schema[i]);
      CanonicalOfNormal(schema[j]);
    }
  }

  lemma ValueReads(key: string, value: int)
    ensures |ValueBytes(key, value)| <= 8
    ensures P.ScalarOf(ValueBytes(key, value))
      == value % (if key == "flags" then 0x1_0000_0000 else 0x1_0000_0000_0000_0000)
  {
    hide LE.Compose, LE.Decompose;
    I.ComposeIsModulo(value, I.W64);
    I.ComposeIsModulo(value, I.W32);
  }

  // ---- Registers ----

  predicate IsRegister(rawKey: string) {
    var key := StateKey(rawKey);
    key != "mem0_value" && P.ParseMemoryAddressKey(key) == Ok(None)
  }

  /** The name the reader gives to a register of a state object. */
  function RegisterName(rawKey: string): string {
    P.CanonicalStateKey(StateKey(rawKey))
  }

  function RegisterNames(state: Option<StateObject>): set<string> {
    match state
    case None => {}
    case Some(entries) => set i | 0 <= i < |entries| && IsRegister(entries[i].key) :: RegisterName(entries[i].key)
  }

  function ByteRegisterNames(state: Option<StateObject>): set<string> {
    set name | name in RegisterNames(state) && P.IsByteStateKey(name)
  }

  predicate HoldsEntry(scalars: Scalars, bytesMap: ByteStates, entry: Entry) {
    var key, name := StateKey(entry.key), RegisterName(entry.key);
    && name in scalars
    && scalars[name] == entry.value % (if key == "flags" then 0x1_0000_0000 else 0x1_0000_0000_0000_0000)
    && (P.IsByteStateKey(name) ==> name in bytesMap && bytesMap[name] == ValueBytes(key, entry.value))
  }

  /** The registers of a state object and no others, each with its value. */
  predicate HoldsExactly(scalars: Scalars, bytesMap: ByteStates, state: Option<StateObject>) {
    && scalars.Keys == RegisterNames(state)
    && bytesMap.Keys == ByteRegisterNames(state)
    && (state.Some? ==>
          forall i :: 0 <= i < |state.value| && IsRegister(state.value[i].key) ==>
            HoldsEntry(scalars, bytesMap, state.value[i]))
  }

  /** The registers among the pairs are the items of the state object. */
  ghost predicate RegistersFrom(pairs: seq<Pair>, state: Option<StateObject>, mem0: int) {
    && (forall item :: item in StateItems(state, mem0) ==> item in pairs)
    && (forall j :: 0 <= j < |pairs| ==> IsMemoryPair(pairs[j]) || pairs[j] in StateItems(state, mem0))
  }

  lemma RegisterOfPair(pairs: seq<Pair>, state: Option<StateObject>, mem0: int, j: nat) returns (i: nat)
    requires GoodPairs(pairs) && RegistersFrom(pairs, state, mem0) && j < |pairs| && !IsMemoryPair(pairs[j])
    ensures state.Some? && i < |state.value| && IsRegister(state.value[i].key)
    ensures P.CanonicalStateKey(pairs[j].key) == RegisterName(state.value[i].key) && 0 < |pairs[j].bytes| <= 8
  {
    hide StateKey, P.ParseMemoryAddressKey, MemoryKey, ValueBytes, P.CanonicalStateKey;
    assert pairs[j] in StateItems(state, mem0);
    i :| 0 <= i < |StateItems(state, mem0)| && StateItems(state, mem0)[i] == pairs[j];
    assert pairs[j] == ItemOf(state.value[i], mem0);
    MemoryKeyReads(mem0);
    ValueReads(StateKey(state.value[i].key), state.value[i].value);
    NonEmptyValue(StateKey(state.value[i].key), state.value[i].value);
  }

  lemma PairOfRegister(pairs: seq<Pair>, state: StateObject, mem0: int, i: nat) returns (j: nat)
    requires RegistersFrom(pairs, Some(state), mem0) && i < |state| && IsRegister(state[i].key)
    ensures j < |pairs| && !IsMemoryPair(pairs[j]) && 0 < |pairs[j].bytes| <= 8
    ensures pairs[j] == P.Pair(StateKey(state[i].key), ValueBytes(StateKey(state[i].key), state[i].value))
  {
    hide StateKey, P.ParseMemoryAddressKey, MemoryKey, ValueBytes;
    var item := ItemOf(state[i], mem0);
    assert StateItems(Some(state), mem0)[i] == item;
    assert item in StateItems(Some(state), mem0);
    j :| 0 <= j < |pairs| && pairs[j] == item;
    ValueReads(StateKey(state[i].key), state[i].value);
    NonEmptyValue(StateKey(state[i].key), state[i].value);
  }

  lemma RegisterKeysAre(pairs: seq<Pair>, state: Option<StateObject>, mem0: int)
    requires GoodPairs(pairs) && RegistersFrom(pairs, state, mem0)
    ensures ScalarKeys(pairs) == RegisterNames(state) && BytesKeys(pairs) == ByteRegisterNames(state)
  {
    hide StateKey, StateItems, IsMemoryPair, P.CanonicalStateKey, P.IsByteStateKey, IsRegister, GoodPairs,
         RegistersFrom, ValueBytes;
    forall j | 0 <= j < |pairs| && !IsMemoryPair(pairs[j])
      ensures P.CanonicalStateKey(pairs[j].key) in RegisterNames(state) && 0 < |pairs[j].bytes| <= 8
    {
      var i := RegisterOfPair(pairs, state, mem0, j);
    }
    if state.Some? {
      forall i | 0 <= i < |state.value| && IsRegister(state.value[i].key)
        ensures RegisterName(state.value[i].key) in ScalarKeys(pairs)
        ensures P.IsByteStateKey(RegisterName(state.value[i].key)) ==>
          RegisterName(state.value[i].key) in BytesKeys(pairs)
      {
        var j := PairOfRegister(pairs, state.value, mem0, i);
      }
    }
    assert ScalarKeys(pairs) == RegisterNames(state);
    assert BytesKeys(pairs) == ByteRegisterNames(state);
  }

  lemma SideHoldsState(schema: seq<string>, values: seq<seq<byte>>, state: Option<StateObject>, mem0: int)
    requires |values| == |schema| && GoodSchema(schema) && NoRepeats(schema) && NormalOrMemory(Zip(schema, values))
    requires RegistersFrom(Zip(schema, values), state, mem0)
    ensures HoldsExactly(ZipSide(schema, values).scalars, ZipSide(schema, values).bytesMap, state)
  {
    hide StateKey, P.CanonicalStateKey, P.ParseMemoryAddressKey, GoodKey, SideOf, NormalOrMemory, NoRepeats,
         DistinctRegisters, MemoryOf, ValueBytes, P.ScalarOf, P.IsByteStateKey, RegistersFrom, RegisterNames,
         ByteRegisterNames, ScalarKeys, BytesKeys, IsRegister, IsMemoryPair;
    var pairs := Zip(schema, values);
    ZipIsGood(schema, values);
    RegistersDistinct(schema, values);
    SideHolds(pairs);
    RegisterKeysAre(pairs, state, mem0);
    if state.Some? {
      forall i | 0 <= i < |state.value| && IsRegister(state.value[i].key)
        ensures HoldsEntry(ZipSide(schema, values).scalars, ZipSide(schema, values).bytesMap, state.value[i])
      {
        var key := StateKey(state.value[i].key);
        var j := PairOfRegister(pairs, state.value, mem0, i);
        ValueReads(key, state.value[i].value);
        assert Holds(SideOf(pairs), P.CanonicalStateKey(pairs[j].key), pairs[j].bytes);
      }
    }
  }

  lemma NonEmptyValue(key: string, value: int)
    ensures |ValueBytes(key, value)| > 0
  {
  }

  lemma UnionIsNormal(schema: seq<string>, values: seq<seq<byte>>, lists: seq<seq<Pair>>)
    requires |values| == |schema| && schema == Union(lists) && GoodSchema(schema)
    requires forall i, j :: 0 <= i < |lists| && 0 <= j < |lists[i]| ==> IsPlain(lists[i][j])
    ensures NormalOrMemory(Zip(schema, values))
  {
    hide StateKey, P.ParseMemoryAddressKey, Union;
    forall j | 0 <= j < |schema| ensures IsNormal(schema[j]) || IsMemoryPair(Zip(schema, values)[j]) {
      UnionKeys(lists, schema[j]);
      var i :| 0 <= i < |lists| && HasKey(lists[i], schema[j]);
      var k :| 0 <= k < |lists[i]| && lists[i][k].key == schema[j];
      if !IsNormal(schema[j]) {
        assert GoodKey(schema[j]);
        PrintedKeyIsMemory(schema[j]);
      }
    }
  }

  lemma PrintedKeyIsMemory(key: string)
    requires IsPrintedMemoryKey(key) && P.ParseMemoryAddressKey(key).Ok?
    ensures P.ParseMemoryAddressKey(key).value.Some?
  {
    hide P.ParseMemoryAddressKey, MemoryKey;
    var address :| key == MemoryKey(address);
    MemoryKeyReads(address);
  }

  lemma InputKeys(c: PublicCase, row: PublicRow, mem0: int)
    ensures forall item :: item in InputItems(c, row, mem0) ==> IsPlain(item)
  {
    hide StateKey, MemoryKey, HiddenMemory;
    ItemKeys(row.initial, mem0);
    forall item | item in HiddenItems(Hidden(c, row, mem0)) ensures IsPlain(item) {
      var i :| 0 <= i < |HiddenItems(Hidden(c, row, mem0))| && HiddenItems(Hidden(c, row, mem0))[i] == item;
      assert item.key == MemoryKey(Hidden(c, row, mem0)[i].address);
    }
  }

  /** A key that fills with zeros names memory. */
  lemma MemoryKeyIsPair(key: string, bytes: seq<byte>)
    requires GoodKey(key) && IsMemoryKey(key)
    ensures IsMemoryPair(P.Pair(key, bytes))
  {
    hide ParseUnsigned;
    assert Trim(key) == key;
  }

  lemma InputRegisters(c: PublicCase, w: WideCase, mem0: int, i: nat)
    requires i < |c.rows| && |w.rows| == |c.rows| && GoodSchema(w.inSchema) && RowIsOwn(c, w, mem0, i)
    ensures RegistersFrom(Zip(w.inSchema, w.rows[i].inputs), c.rows[i].initial, mem0)
  {
    hide StateKey, P.ParseMemoryAddressKey, GoodKey, MemoryKey, HiddenMemory, StateItems, IsMemoryKey, InputLists,
         SizedInSome, HasKey;
    var row := c.rows[i];
    var pairs := Zip(w.inSchema, w.rows[i].inputs);
    assert forall item :: item in StateItems(row.initial, mem0) ==> item in InputItems(c, row, mem0);
    forall j | 0 <= j < |pairs| ensures IsMemoryPair(pairs[j]) || pairs[j] in StateItems(row.initial, mem0) {
      assert GoodKey(w.inSchema[j]);
      if pairs[j] !in InputItems(c, row, mem0) {
        MemoryKeyIsPair(pairs[j].key, pairs[j].bytes);
      } else if pairs[j] !in StateItems(row.initial, mem0) {
        var k :| 0 <= k < |HiddenItems(Hidden(c, row, mem0))| && HiddenItems(Hidden(c, row, mem0))[k] == pairs[j];
        MemoryKeyReads(Hidden(c, row, mem0)[k].address);
        MemoryKeyIsPair(pairs[j].key, pairs[j].bytes);
      }
    }
  }

  lemma InputSide(c: PublicCase, w: WideCase, mem0: int, i: nat)
    requires i < |c.rows| && |w.rows| == |c.rows| && GoodSchema(w.inSchema) && NoRepeats(w.inSchema)
    requires w.inSchema == Union(InputLists(c, c.rows, mem0)) && RowIsOwn(c, w, mem0, i)
    ensures var side := ZipSide(w.inSchema, w.rows[i].inputs);
      HoldsExactly(side.scalars, side.bytesMap, c.rows[i].initial)
  {
    hide StateKey, P.ParseMemoryAddressKey, GoodKey, Union, NoRepeats, MemoryKey, HoldsExactly, ZipSide, InputItems,
         OwnOrZero, RegistersFrom;
    var lists := InputLists(c, c.rows, mem0);
    forall k, j | 0 <= k < |lists| && 0 <= j < |lists[k]| ensures IsPlain(lists[k][j]) {
      InputKeys(c, c.rows[k], mem0);
    }
    UnionIsNormal(w.inSchema, w.rows[i].inputs, lists);
    InputRegisters(c, w, mem0, i);
    SideHoldsState(w.inSchema, w.rows[i].inputs, c.rows[i].initial, mem0);
  }

  lemma OutputSide(c: PublicCase, w: WideCase, mem0: int, i: nat)
    requires i < |c.rows| && |w.rows| == |c.rows| && GoodSchema(w.outSchema)
    requires NoRepeats(w.outSchema) && !Raises(c.rows[i])
    requires w.outSchema == Union(OutputLists(c.rows, mem0)) && RowIsOwn(c, w, mem0, i)
    ensures var side := ZipSide(w.outSchema, w.rows[i].outputs);
      HoldsExactly(side.scalars, side.bytesMap, c.rows[i].final)
  {
    hide StateKey, P.ParseMemoryAddressKey, GoodKey, Union, NoRepeats, MemoryKey, HoldsExactly, ZipSide, StateItems,
         OwnOrZero;
    var lists := OutputLists(c.rows, mem0);
    forall k, j | 0 <= k < |lists| && 0 <= j < |lists[k]| ensures IsPlain(lists[k][j]) {
      ItemKeys(c.rows[k].final, mem0);
    }
    UnionIsNormal(w.outSchema, w.rows[i].outputs, lists);
    SideHoldsState(w.outSchema, w.rows[i].outputs, c.rows[i].final, mem0);
  }

  /**
   * Whenever writing a group succeeds and its fields are readable, each parsed row has exactly the
   * registers of its own initial and final state, with their values modulo 2^64 (flags modulo 2^32).
   */
  lemma RowsReadTheirOwnState(c: PublicCase, entry: int, pageSize: int, mem0: int, i: nat, instructionId: nat,
      testCaseId: nat)
    requires Widen(c, entry, pageSize, mem0).Ok? && GoodWide(Widen(c, entry, pageSize, mem0).value) && i < |c.rows|
    ensures var w := Widen(c, entry, pageSize, mem0).value;
      var read := WideRowMeans(w, i, instructionId, testCaseId);
      var row := c.rows[i];
      && HoldsExactly(read.initialState, read.initialBytes, row.initial)
      && (if Raises(row)
          then read.expectedExceptionKind == row.exception && read.expectedFinalState == Some(map[])
               && read.expectedFinalBytes == map[]
          else read.expectedExceptionKind == None
               && HoldsExactly(read.expectedFinalState.value, read.expectedFinalBytes, row.final))
  {
    hide StateKey, P.CanonicalStateKey, P.ParseMemoryAddressKey, GoodKey, SideOf, Union, NoRepeats, StateItems,
         HiddenItems, MemoryKey, Widen, OwnOrZero, SameItems, GoodHex, HoldsExactly;
    WidenedRowsAreOwn(c, entry, pageSize, mem0);
    var w := Widen(c, entry, pageSize, mem0).value;
    assert RowIsOwn(c, w, mem0, i) && GoodWideRow(w.rows[i], w);
    InputSide(c, w, mem0, i);
    if !Raises(c.rows[i]) {
      OutputSide(c, w, mem0, i);
    }
  }

  // ---- Memory ----

  lemma {:induction false} MemoryOfMembers(pairs: seq<Pair>)
    requires GoodPairs(pairs)
    ensures forall cell :: cell in MemoryOf(pairs) ==> exists j :: 0 <= j < |pairs| && IsCellOf(pairs[j], cell)
    ensures forall j :: 0 <= j < |pairs| && IsMemoryPair(pairs[j]) ==>
      P.PooledCell(P.ParseMemoryAddressKey(pairs[j].key).value.value, pairs[j].bytes) in MemoryOf(pairs)
    decreases |pairs|
  {
    hide P.ParseMemoryAddressKey;
    if pairs != [] {
      MemoryOfMembers(pairs[1..]);
      forall cell | cell in MemoryOf(pairs[1..]) ensures exists j :: 0 <= j < |pairs| && IsCellOf(pairs[j], cell) {
        var j :| 0 <= j < |pairs[1..]| && IsCellOf(pairs[1..][j], cell);
        assert IsCellOf(pairs[j + 1], cell);
      }
      if IsMemoryPair(pairs[0]) {
        assert IsCellOf(pairs[0], P.PooledCell(P.ParseMemoryAddressKey(pairs[0].key).value.value, pairs[0].bytes));
      }
      assert forall j :: 1 <= j < |pairs| ==> pairs[j] == pairs[1..][j - 1];
    }
  }

  predicate IsCellOf(pair: Pair, cell: P.PooledCell) {
    P.ParseMemoryAddressKey(pair.key) == Ok(Some(cell.address)) && cell.bytes == pair.bytes
  }

  /** The cell that set-up writes for a memory pair. */
  predicate IsInputCell(pair: Pair, cell: MemoryCell) {
    P.ParseMemoryAddressKey(pair.key) == Ok(Some(cell.address)) && cell.bytes == pair.bytes && cell.permissions == 0
  }

  /** The cell that the comparator checks for a memory pair: all bits of all its bytes. */
  predicate IsOutputCell(pair: Pair, cell: MemoryExpectation) {
    P.ParseMemoryAddressKey(pair.key) == Ok(Some(cell.address)) && cell.bytes == pair.bytes && cell.mask == []
  }

  lemma InputCellsAre(pairs: seq<Pair>)
    requires GoodPairs(pairs)
    ensures var cells := P.InputCells(MemoryOf(pairs));
      && (forall cell :: cell in cells ==> exists pair: Pair :: pair in pairs && IsInputCell(pair, cell))
      && (forall j :: 0 <= j < |pairs| && IsMemoryPair(pairs[j]) ==>
            exists cell :: cell in cells && IsInputCell(pairs[j], cell))
  {
    hide P.ParseMemoryAddressKey, MemoryOf;
    MemoryOfMembers(pairs);
    var memory := MemoryOf(pairs);
    var cells := P.InputCells(memory);
    forall cell | cell in cells ensures exists pair: Pair :: pair in pairs && IsInputCell(pair, cell) {
      var k :| 0 <= k < |cells| && cells[k] == cell;
      assert memory[k] in memory;
      var j :| 0 <= j < |pairs| && IsCellOf(pairs[j], memory[k]);
      assert pairs[j] in pairs && IsInputCell(pairs[j], cell);
    }
    forall j | 0 <= j < |pairs| && IsMemoryPair(pairs[j])
      ensures exists cell :: cell in cells && IsInputCell(pairs[j], cell)
    {
      var k :| 0 <= k < |memory|
        && memory[k] == P.PooledCell(P.ParseMemoryAddressKey(pairs[j].key).value.value, pairs[j].bytes);
      assert cells[k] in cells && IsInputCell(pairs[j], cells[k]);
    }
  }

  lemma OutputCellsAre(pairs: seq<Pair>)
    requires GoodPairs(pairs)
    ensures var cells := P.OutputCells(MemoryOf(pairs));
      && (forall cell :: cell in cells ==> exists pair: Pair :: pair in pairs && IsOutputCell(pair, cell))
      && (forall j :: 0 <= j < |pairs| && IsMemoryPair(pairs[j]) ==>
            exists cell :: cell in cells && IsOutputCell(pairs[j], cell))
  {
    hide P.ParseMemoryAddressKey, MemoryOf;
    MemoryOfMembers(pairs);
    var memory := MemoryOf(pairs);
    var cells := P.OutputCells(memory);
    forall cell | cell in cells ensures exists pair: Pair :: pair in pairs && IsOutputCell(pair, cell) {
      var k :| 0 <= k < |cells| && cells[k] == cell;
      assert memory[k] in memory;
      var j :| 0 <= j < |pairs| && IsCellOf(pairs[j], memory[k]);
      assert pairs[j] in pairs && IsOutputCell(pairs[j], cell);
    }
    forall j | 0 <= j < |pairs| && IsMemoryPair(pairs[j])
      ensures exists cell :: cell in cells && IsOutputCell(pairs[j], cell)
    {
      var k :| 0 <= k < |memory|
        && memory[k] == P.PooledCell(P.ParseMemoryAddressKey(pairs[j].key).value.value, pairs[j].bytes);
      assert cells[k] in cells && IsOutputCell(pairs[j], cells[k]);
    }
  }

  /** Every cell is the row's own, or zeros where only other rows have memory; and every memory key has its cell. */
  ghost predicate HoldsInputMemory(cells: seq<MemoryCell>, items: seq<Pair>, lists: seq<seq<Pair>>) {
    && (forall cell :: cell in cells ==>
          exists pair: Pair :: IsInputCell(pair, cell) && (pair in items || IsZeroFill(pair, items, lists)))
    && (forall item :: item in items && P.ParseMemoryAddressKey(item.key) != Ok(None) ==>
          exists cell :: cell in cells && IsInputCell(item, cell))
    && (forall key :: InSome(lists, key) && P.ParseMemoryAddressKey(key) != Ok(None) ==>
          exists cell :: cell in cells && P.ParseMemoryAddressKey(key) == Ok(Some(cell.address)))
  }

  /** The checked cells are the row's own final memory and nothing else. */
  ghost predicate HoldsOutputMemory(cells: seq<MemoryExpectation>, items: seq<Pair>) {
    && (forall cell :: cell in cells ==> exists pair: Pair :: pair in items && IsOutputCell(pair, cell))
    && (forall item :: item in items && P.ParseMemoryAddressKey(item.key) != Ok(None) ==>
          exists cell :: cell in cells && IsOutputCell(item, cell))
  }

  lemma InputMemory(schema: seq<string>, values: seq<seq<byte>>, items: seq<Pair>, lists: seq<seq<Pair>>)
    requires |values| == |schema| && GoodSchema(schema) && schema == Union(lists)
    requires OwnOrZero(Zip(schema, values), items, lists)
    ensures GoodPairs(Zip(schema, values))
    ensures HoldsInputMemory(P.InputCells(MemoryOf(Zip(schema, values))), items, lists)
  {
    hide P.ParseMemoryAddressKey, GoodKey, Union, IsZeroFill, MemoryOf, InSome, IsInputCell;
    var pairs := Zip(schema, values);
    ZipIsGood(schema, values);
    InputCellsAre(pairs);
    var cells := P.InputCells(MemoryOf(pairs));
    forall item | item in items && P.ParseMemoryAddressKey(item.key) != Ok(None)
      ensures exists cell :: cell in cells && IsInputCell(item, cell)
    {
      var j :| 0 <= j < |pairs| && pairs[j] == item;
      assert GoodKey(schema[j]);
      SchemaKeyIsMemory(schema, values, j);
    }
    forall key | InSome(lists, key) && P.ParseMemoryAddressKey(key) != Ok(None)
      ensures exists cell :: cell in cells && P.ParseMemoryAddressKey(key) == Ok(Some(cell.address))
    {
      UnionKeys(lists, key);
      var j :| 0 <= j < |schema| && schema[j] == key;
      assert GoodKey(schema[j]);
      SchemaKeyIsMemory(schema, values, j);
      var cell :| cell in cells && IsInputCell(pairs[j], cell);
      CellIsAtKey(pairs[j], cell);
    }
  }

  lemma CellIsAtKey(pair: Pair, cell: MemoryCell)
    requires IsInputCell(pair, cell)
    ensures P.ParseMemoryAddressKey(pair.key) == Ok(Some(cell.address))
  {
    hide P.ParseMemoryAddressKey;
  }

  lemma OutputMemory(schema: seq<string>, values: seq<seq<byte>>, items: seq<Pair>)
    requires |values| == |schema| && GoodSchema(schema) && SameItems(Zip(schema, values), items)
    ensures GoodPairs(Zip(schema, values))
    ensures HoldsOutputMemory(P.OutputCells(MemoryOf(Zip(schema, values))), items)
  {
    hide P.ParseMemoryAddressKey, GoodKey, MemoryOf, IsOutputCell;
    var pairs := Zip(schema, values);
    ZipIsGood(schema, values);
    OutputCellsAre(pairs);
    var cells := P.OutputCells(MemoryOf(pairs));
    forall item | item in items && P.ParseMemoryAddressKey(item.key) != Ok(None)
      ensures exists cell :: cell in cells && IsOutputCell(item, cell)
    {
      var j :| 0 <= j < |pairs| && pairs[j] == item;
      assert GoodKey(schema[j]);
      SchemaKeyIsMemory(schema, values, j);
    }
  }

  /**
   * The memory a parsed row sets up is exactly its own cells, with their bytes, and zeros where only
   * other rows of the group have memory; the memory it checks is exactly its own final memory.
   */
  lemma RowsReadTheirOwnMemory(c: PublicCase, entry: int, pageSize: int, mem0: int, i: nat, instructionId: nat,
      testCaseId: nat)
    requires Widen(c, entry, pageSize, mem0).Ok? && GoodWide(Widen(c, entry, pageSize, mem0).value) && i < |c.rows|
    ensures var w := Widen(c, entry, pageSize, mem0).value;
      var read := WideRowMeans(w, i, instructionId, testCaseId);
      && HoldsInputMemory(read.initialMemory, InputItems(c, c.rows[i], mem0), InputLists(c, c.rows, mem0))
      && HoldsOutputMemory(read.expectedMemory, OutputItems(c.rows[i], mem0))
  {
    hide P.ParseMemoryAddressKey, GoodKey, SideOf, Union, NoRepeats, InputItems, StateItems, Widen, OwnOrZero,
         SameItems, GoodHex, MemoryOf, GoodKind, HoldsInputMemory;
    WidenedRowsAreOwn(c, entry, pageSize, mem0);
    var w := Widen(c, entry, pageSize, mem0).value;
    assert RowIsOwn(c, w, mem0, i) && GoodWideRow(w.rows[i], w);
    InputMemory(w.inSchema, w.rows[i].inputs, InputItems(c, c.rows[i], mem0), InputLists(c, c.rows, mem0));
    SideMemory(Zip(w.inSchema, w.rows[i].inputs));
    if !Raises(c.rows[i]) {
      OutputMemory(w.outSchema, w.rows[i].outputs, OutputItems(c.rows[i], mem0));
      SideMemory(Zip(w.outSchema, w.rows[i].outputs));
    }
  }

  lemma SchemaKeyIsMemory(schema: seq<string>, values: seq<seq<byte>>, j: nat)
    requires |values| == |schema| && j < |schema|
    requires GoodKey(schema[j]) && P.ParseMemoryAddressKey(schema[j]) != Ok(None)
    ensures IsMemoryPair(Zip(schema, values)[j])
  {
    hide P.ParseMemoryAddressKey;
  }

  lemma SideMemory(pairs: seq<Pair>)
    requires GoodPairs(pairs)
    ensures SideOf(pairs).memory == MemoryOf(pairs)
  {
    hide MemoryOf, P.ApplyPairs;
    GoodPairsApply(P.NOTHING, pairs);
    ApplyMemory(P.NOTHING, pairs);
  }
}
