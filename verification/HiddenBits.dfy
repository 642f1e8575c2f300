/**
 * The hidden bit-string memory end to end: converter, file, reader and set-up together, against the
 * bit-string addressing of the hardware.
 */
module HiddenBits {
  import opened Wrappers
  import opened Numbers
  import opened Expectation
  import opened PooledFormat
  import opened PublicItems
  import opened PublicWriter
  import opened PublicReading
  import opened PublicRoundTrip
  import opened PublicValues
  import opened BitTest
  import opened BitTestExamples
  import P = X86TesterParser
  import F = FlatMemory
  import R = CaseRun
  import Text

  // ---- Where the memory of a bit-test group lies ----

  /** No state object names memory on its own: the serialised cell is `mem0_value`. */
  predicate PlainStates(c: PublicCase) {
    forall i :: 0 <= i < |c.rows| && c.rows[i].initial.Some? ==> PlainState(c.rows[i].initial.value)
  }

  predicate PlainState(state: StateObject) {
    forall j :: 0 <= j < |state| ==>
      StateKey(state[j].key) == "mem0_value" || P.ParseMemoryAddressKey(StateKey(state[j].key)) == Ok(None)
  }

  function TestOfRow(c: PublicCase, i: nat): Option<Test>
    requires i < |c.rows|
  {
    TestOf(c.name, c.instruction, c.rows[i].initial, c.rows[i].final)
  }

  /** Row `j` materialises the element at an address. */
  predicate MaterialisedBy(c: PublicCase, mem0: int, address: int, j: int) {
    0 <= j < |c.rows| && TestOfRow(c, j).Some? && Materialises(TestOfRow(c, j).value, mem0)
    && ElementAddress(TestOfRow(c, j).value, mem0) == address
  }

  predicate Materialised(c: PublicCase, mem0: int, address: int) {
    exists j :: 0 <= j < |c.rows| && MaterialisedBy(c, mem0, address, j)
  }

  /** The memory items of a row: the serialised cell, or the row's own element. */
  predicate IsMem0Item(item: Pair, mem0: int) {
    item.key == MemoryKey(mem0) && |item.bytes| == 8
  }

  predicate IsElementItem(item: Pair, c: PublicCase, mem0: int, j: nat)
    requires j < |c.rows|
  {
    && TestOfRow(c, j).Some? && Materialises(TestOfRow(c, j).value, mem0)
    && item == P.Pair(MemoryKey(ElementAddress(TestOfRow(c, j).value, mem0)), CellOf(TestOfRow(c, j).value, mem0).bytes)
  }

  lemma MemoryItems(c: PublicCase, mem0: int, j: nat, item: Pair)
    requires PlainStates(c) && j < |c.rows|
    requires item in InputItems(c, c.rows[j], mem0) && P.ParseMemoryAddressKey(item.key) != Ok(None)
    ensures IsMem0Item(item, mem0) || IsElementItem(item, c, mem0, j)
  {
    hide StateKey, MemoryKey, P.ParseMemoryAddressKey, TestOf, CellOf, Materialises, ElementAddress, ValueBytes;
    var row := c.rows[j];
    if item in StateItems(row.initial, mem0) {
      var k :| 0 <= k < |StateItems(row.initial, mem0)| && StateItems(row.initial, mem0)[k] == item;
      assert PlainState(row.initial.value);
    } else {
      var k :| 0 <= k < |HiddenItems(Hidden(c, row, mem0))| && HiddenItems(Hidden(c, row, mem0))[k] == item;
      CellAddress(TestOfRow(c, j).value, mem0);
    }
  }

  lemma CellAddress(t: Test, mem0: int)
    ensures CellOf(t, mem0).address == ElementAddress(t, mem0) && |CellOf(t, mem0).bytes| == t.element.Size()
  {
  }

  lemma ElementIsItem(c: PublicCase, mem0: int, address: int, j: nat)
    requires MaterialisedBy(c, mem0, address, j)
    ensures j < |c.rows| && HasKey(InputItems(c, c.rows[j], mem0), MemoryKey(address))
    ensures InSome(InputLists(c, c.rows, mem0), MemoryKey(address))
  {
    hide StateKey, MemoryKey, TestOf, CellOf, Materialises, ElementAddress, StateItems;
    var row := c.rows[j];
    CellAddress(TestOfRow(c, j).value, mem0);
    var items := InputItems(c, row, mem0);
    assert Hidden(c, row, mem0) == [CellOf(TestOfRow(c, j).value, mem0)];
    assert items[|StateItems(row.initial, mem0)|].key == MemoryKey(address);
    assert HasKey(InputLists(c, c.rows, mem0)[j], MemoryKey(address));
  }

  lemma SameElements(c: PublicCase, i: nat, j: nat)
    requires i < |c.rows| && j < |c.rows| && TestOfRow(c, i).Some? && TestOfRow(c, j).Some?
    ensures TestOfRow(c, i).value.element == TestOfRow(c, j).value.element
  {
    hide MemoryWidth, Lookup, AfterLastComma, RegisterWidth, SignExtend, Text.ToUpper;
  }

  /** Two elements of a group that share a byte are the same element. */
  lemma ElementsMeet(t: Test, u: Test, mem0: int, x: int)
    requires t.element == u.element
    requires R.Within(x, ElementAddress(t, mem0), t.element.Size())
    requires R.Within(x, ElementAddress(u, mem0), u.element.Size())
    ensures ElementAddress(t, mem0) == ElementAddress(u, mem0)
  {
    hide ElementAddress;
    ElementsIdenticalOrDisjoint(t, u, mem0);
  }

  lemma TargetWithin(t: Test, mem0: int)
    ensures R.Within(TargetByte(t.offset, mem0), ElementAddress(t, mem0), t.element.Size())
  {
    hide ElementAddress, BitIndex;
    TargetInElement(t, mem0);
  }

  /** The byte a covering cell must hold at the target: the row's own bit, or zero. */
  function WantedByte(t: Test, mem0: int): byte {
    var j := TargetByte(t.offset, mem0) - ElementAddress(t, mem0);
    TargetWithin(t, mem0);
    CellAddress(t, mem0);
    if t.carry then CellOf(t, mem0).bytes[j] else 0
  }

  /** Some row writes a memory key; which one and where it lies. */
  lemma KeyOrigin(c: PublicCase, mem0: int, key: string, size: nat, address: u64)
    requires PlainStates(c) && 0 <= mem0 < TWO64
    requires SizedInSome(InputLists(c, c.rows, mem0), key, size) && P.ParseMemoryAddressKey(key) == Ok(Some(address))
    ensures (address == mem0 && size == 8)
         || (exists j :: 0 <= j < |c.rows| && MaterialisedBy(c, mem0, address, j)
               && size == TestOfRow(c, j).value.element.Size())
  {
    hide P.ParseMemoryAddressKey, MemoryKey, InputItems, Materialises, ElementAddress, TestOf, IsMemoryKey, CellOf;
    var lists := InputLists(c, c.rows, mem0);
    var j, k :| SizedAt(lists, key, size, j, k);
    var item := lists[j][k];
    assert item in InputItems(c, c.rows[j], mem0);
    MemoryItems(c, mem0, j, item);
    if IsMem0Item(item, mem0) {
      MemoryKeyReads(mem0);
    } else {
      MemoryKeyReads(ElementAddress(TestOfRow(c, j).value, mem0));
      CellAddress(TestOfRow(c, j).value, mem0);
      assert MaterialisedBy(c, mem0, address, j);
    }
  }

  /** A cell that covers the target belongs to the target's element and holds the wanted byte there. */
  lemma CoveringCell(c: PublicCase, mem0: int, i: nat, pair: Pair, cell: MemoryCell)
    requires PlainStates(c) && i < |c.rows| && 0 <= mem0 < TWO64
    requires TestOfRow(c, i).Some? && !InsideMem0(TestOfRow(c, i).value, mem0)
    requires var items := InputItems(c, c.rows[i], mem0);
      pair in items || IsZeroFill(pair, items, InputLists(c, c.rows, mem0))
    requires IsInputCell(pair, cell)
    requires R.Within(TargetByte(TestOfRow(c, i).value.offset, mem0), cell.address, |cell.bytes|)
    ensures var t := TestOfRow(c, i).value;
      && cell.address == ElementAddress(t, mem0)
      && cell.bytes[TargetByte(t.offset, mem0) - cell.address] == WantedByte(t, mem0)
      && Materialised(c, mem0, ElementAddress(t, mem0))
  {
    hide P.ParseMemoryAddressKey, MemoryKey, InputItems, InputLists, Materialises, ElementAddress, TestOf, IsMemoryKey,
         CellOf, TargetByte, InsideMem0, SizedInSome, PlainStates;
    var t := TestOfRow(c, i).value;
    TargetWithin(t, mem0);
    ElementAvoidsMem0(t, mem0);
    if pair in InputItems(c, c.rows[i], mem0) {
      MemoryItems(c, mem0, i, pair);
      MemoryKeyReads(mem0);
      MemoryKeyReads(ElementAddress(t, mem0));
      CellAddress(t, mem0);
      MaterialisesCarry(t, mem0);
      assert IsElementItem(pair, c, mem0, i) ==> MaterialisedBy(c, mem0, ElementAddress(t, mem0), i);
    } else {
      ZeroFillCovers(c, mem0, i, pair, cell);
    }
  }

  lemma MaterialisesCarry(t: Test, mem0: int)
    ensures Materialises(t, mem0) <==> !InsideMem0(t, mem0) && t.carry
  {
  }

  lemma ZeroFillCovers(c: PublicCase, mem0: int, i: nat, pair: Pair, cell: MemoryCell)
    requires PlainStates(c) && i < |c.rows| && 0 <= mem0 < TWO64
    requires TestOfRow(c, i).Some? && !InsideMem0(TestOfRow(c, i).value, mem0)
    requires IsZeroFill(pair, InputItems(c, c.rows[i], mem0), InputLists(c, c.rows, mem0))
    requires IsInputCell(pair, cell)
    requires R.Within(TargetByte(TestOfRow(c, i).value.offset, mem0), cell.address, |cell.bytes|)
    ensures var t := TestOfRow(c, i).value;
      && cell.address == ElementAddress(t, mem0)
      && cell.bytes[TargetByte(t.offset, mem0) - cell.address] == WantedByte(t, mem0)
      && Materialised(c, mem0, ElementAddress(t, mem0))
  {
    hide P.ParseMemoryAddressKey, MemoryKey, InputItems, InputLists, ElementAddress, TestOf, IsMemoryKey, CellOf,
         TargetByte, InsideMem0, SizedInSome, PlainStates, HasKey, WantedByte, Materialises;
    var t := TestOfRow(c, i).value;
    TargetWithin(t, mem0);
    ElementAvoidsMem0(t, mem0);
    KeyOrigin(c, mem0, pair.key, |pair.bytes|, cell.address);
    var j :| 0 <= j < |c.rows| && MaterialisedBy(c, mem0, cell.address, j)
      && |pair.bytes| == TestOfRow(c, j).value.element.Size();
    SameElements(c, i, j);
    ElementsMeet(t, TestOfRow(c, j).value, mem0, TargetByte(t.offset, mem0));
    if t.carry {
      MaterialisesCarry(t, mem0);
      assert MaterialisedBy(c, mem0, cell.address, i);
      ElementIsItem(c, mem0, cell.address, i);
      KeyIsPrinted(c, mem0, pair, cell);
      assert false;
    }
    WantedZero(t, mem0);
  }

  lemma WantedZero(t: Test, mem0: int)
    requires !t.carry
    ensures WantedByte(t, mem0) == 0
  {
  }

  /** A zero-filled key is the one key that prints its address. */
  lemma KeyIsPrinted(c: PublicCase, mem0: int, pair: Pair, cell: MemoryCell)
    requires PlainStates(c) && 0 <= mem0 < TWO64
    requires SizedInSome(InputLists(c, c.rows, mem0), pair.key, |pair.bytes|) && IsInputCell(pair, cell)
    ensures pair.key == MemoryKey(cell.address)
  {
    hide P.ParseMemoryAddressKey, MemoryKey, InputItems, ElementAddress, TestOf, CellOf, Materialises;
    var lists := InputLists(c, c.rows, mem0);
    var j, k :| SizedAt(lists, pair.key, |pair.bytes|, j, k);
    assert lists[j][k] in InputItems(c, c.rows[j], mem0);
    MemoryItems(c, mem0, j, lists[j][k]);
    MemoryKeyReads(mem0);
    if !IsMem0Item(lists[j][k], mem0) {
      MemoryKeyReads(ElementAddress(TestOfRow(c, j).value, mem0));
    }
  }

  /** A cell at the target's element spans the element. */
  lemma CellSpansElement(c: PublicCase, mem0: int, i: nat, pair: Pair, cell: MemoryCell)
    requires PlainStates(c) && i < |c.rows| && 0 <= mem0 < TWO64
    requires TestOfRow(c, i).Some? && !InsideMem0(TestOfRow(c, i).value, mem0)
    requires var items := InputItems(c, c.rows[i], mem0);
      pair in items || IsZeroFill(pair, items, InputLists(c, c.rows, mem0))
    requires IsInputCell(pair, cell) && cell.address == ElementAddress(TestOfRow(c, i).value, mem0)
    ensures |cell.bytes| == TestOfRow(c, i).value.element.Size()
  {
    hide P.ParseMemoryAddressKey, MemoryKey, InputItems, InputLists, ElementAddress, TestOf, IsMemoryKey, CellOf,
         InsideMem0, SizedInSome, PlainStates, HasKey, Materialises;
    var t := TestOfRow(c, i).value;
    ElementAvoidsMem0(t, mem0);
    if pair in InputItems(c, c.rows[i], mem0) {
      MemoryItems(c, mem0, i, pair);
      MemoryKeyReads(mem0);
      CellAddress(t, mem0);
    } else {
      KeyOrigin(c, mem0, pair.key, |pair.bytes|, cell.address);
      if cell.address != mem0 {
        var j :| 0 <= j < |c.rows| && MaterialisedBy(c, mem0, cell.address, j)
          && |pair.bytes| == TestOfRow(c, j).value.element.Size();
        SameElements(c, i, j);
      }
    }
  }

  // ---- The bit that set-up leaves ----

  predicate Covered(x: int, cells: seq<MemoryCell>) {
    exists i :: 0 <= i < |cells| && R.Within(x, cells[i].address, |cells[i].bytes|)
  }

  /** When all cells over an address agree on its byte, that byte is written. */
  lemma {:induction false} LastWrittenUniform(x: int, address: int, opcode: seq<byte>, cells: seq<MemoryCell>, v: byte)
    requires forall i :: 0 <= i < |cells| ==> AgreesAt(x, cells[i], v)
    ensures R.LastWritten(x, address, opcode, cells) ==
      if Covered(x, cells) then v else if R.Within(x, address, |opcode|) then opcode[x - address] else 0
    decreases |cells|
  {
    if cells != [] {
      var init, last := cells[..|cells| - 1], cells[|cells| - 1];
      LastWrittenUniform(x, address, opcode, init, v);
      if R.Within(x, last.address, |last.bytes|) {
        assert Covered(x, cells);
      } else {
        CoveredInit(x, cells);
      }
    }
  }

  lemma CoveredInit(x: int, cells: seq<MemoryCell>)
    requires cells != [] && !R.Within(x, cells[|cells| - 1].address, |cells[|cells| - 1].bytes|)
    ensures Covered(x, cells) <==> Covered(x, cells[..|cells| - 1])
  {
    var init := cells[..|cells| - 1];
    assert forall i :: 0 <= i < |init| ==> init[i] == cells[i];
    if Covered(x, init) {
      var i :| 0 <= i < |init| && R.Within(x, init[i].address, |init[i].bytes|);
      assert R.Within(x, cells[i].address, |cells[i].bytes|);
    }
  }

  lemma {:induction false} ZeroHasNoBits(k: nat)
    ensures BitAt(0, k) == 0
  {
    if k > 0 {
      ZeroHasNoBits(k - 1);
    }
  }

  lemma WantedBit(t: Test, mem0: int)
    ensures BitAt(WantedByte(t, mem0), TargetBit(t.offset)) == if t.carry then 1 else 0
  {
    hide BitAt, CellOf, ElementAddress, TargetByte;
    CellAddress(t, mem0);
    if t.carry {
      CellHoldsCarry(t, mem0);
    } else {
      ZeroHasNoBits(TargetBit(t.offset));
    }
  }

  /** Writing the group succeeds and its fields are delimiter-free. */
  predicate Readable(c: PublicCase, entry: int, pageSize: int, mem0: int) {
    Widen(c, entry, pageSize, mem0).Ok? && GoodWide(Widen(c, entry, pageSize, mem0).value)
  }

  /** Row `i` of a group, converted and parsed. */
  function ReadRow(c: PublicCase, entry: int, pageSize: int, mem0: int, i: nat, instructionId: nat,
      testCaseId: nat): ExpectationRow
    requires Readable(c, entry, pageSize, mem0) && i < |c.rows|
  {
    WidenedRowsAreOwn(c, entry, pageSize, mem0);
    WideRowMeans(Widen(c, entry, pageSize, mem0).value, i, instructionId, testCaseId)
  }

  ghost predicate FromRow(cell: MemoryCell, items: seq<Pair>, lists: seq<seq<Pair>>) {
    exists pair: Pair :: IsInputCell(pair, cell) && (pair in items || IsZeroFill(pair, items, lists))
  }

  lemma CellsFromRow(c: PublicCase, entry: int, pageSize: int, mem0: int, i: nat, instructionId: nat, testCaseId: nat)
    requires Readable(c, entry, pageSize, mem0) && i < |c.rows|
    ensures var cells := ReadRow(c, entry, pageSize, mem0, i, instructionId, testCaseId).initialMemory;
      && (forall k :: 0 <= k < |cells| ==>
            FromRow(cells[k], InputItems(c, c.rows[i], mem0), InputLists(c, c.rows, mem0)))
      && (forall key :: InSome(InputLists(c, c.rows, mem0), key) && P.ParseMemoryAddressKey(key) != Ok(None) ==>
            exists k :: 0 <= k < |cells| && P.ParseMemoryAddressKey(key) == Ok(Some(cells[k].address)))
  {
    hide P.ParseMemoryAddressKey, InputItems, InputLists, Widen, IsZeroFill, GoodWide, InSome, WideRowMeans,
         IsInputCell;
    RowsReadTheirOwnMemory(c, entry, pageSize, mem0, i, instructionId, testCaseId);
    var cells := ReadRow(c, entry, pageSize, mem0, i, instructionId, testCaseId).initialMemory;
    forall k | 0 <= k < |cells| ensures FromRow(cells[k], InputItems(c, c.rows[i], mem0), InputLists(c, c.rows, mem0)) {
      assert cells[k] in cells;
    }
    forall key | InSome(InputLists(c, c.rows, mem0), key) && P.ParseMemoryAddressKey(key) != Ok(None)
      ensures exists k :: 0 <= k < |cells| && P.ParseMemoryAddressKey(key) == Ok(Some(cells[k].address))
    {
      var cell :| cell in cells && P.ParseMemoryAddressKey(key) == Ok(Some(cell.address));
      var k :| 0 <= k < |cells| && cells[k] == cell;
    }
  }

  /** A row whose register offset leaves the serialised cell. */
  predicate OutsideTest(c: PublicCase, mem0: int, i: nat)
    requires i < |c.rows|
  {
    TestOfRow(c, i).Some? && !InsideMem0(TestOfRow(c, i).value, mem0)
  }

  predicate AgreesAt(x: int, cell: MemoryCell, v: byte) {
    R.Within(x, cell.address, |cell.bytes|) ==> cell.bytes[x - cell.address] == v
  }

  lemma CoveringIs(c: PublicCase, mem0: int, i: nat, cell: MemoryCell)
    requires PlainStates(c) && i < |c.rows| && 0 <= mem0 < TWO64 && OutsideTest(c, mem0, i)
    requires FromRow(cell, InputItems(c, c.rows[i], mem0), InputLists(c, c.rows, mem0))
    ensures var t := TestOfRow(c, i).value;
      && AgreesAt(TargetByte(t.offset, mem0), cell, WantedByte(t, mem0))
      && (R.Within(TargetByte(t.offset, mem0), cell.address, |cell.bytes|) ==>
            Materialised(c, mem0, ElementAddress(t, mem0)))
      && (cell.address == ElementAddress(t, mem0) ==> |cell.bytes| == t.element.Size())
  {
    hide P.ParseMemoryAddressKey, InputItems, InputLists, IsZeroFill, IsInputCell, PlainStates, TestOf, ElementAddress,
         TargetByte, InsideMem0, WantedByte, Materialised, R.Within;
    var t := TestOfRow(c, i).value;
    var items, lists := InputItems(c, c.rows[i], mem0), InputLists(c, c.rows, mem0);
    var pair: Pair :| IsInputCell(pair, cell) && (pair in items || IsZeroFill(pair, items, lists));
    if R.Within(TargetByte(t.offset, mem0), cell.address, |cell.bytes|) {
      CoveringCell(c, mem0, i, pair, cell);
    }
    if cell.address == ElementAddress(t, mem0) {
      CellSpansElement(c, mem0, i, pair, cell);
    }
  }

  /**
   * The cells of a parsed row over its target: all hold the wanted byte, and there is one iff some row
   * materialises the element.
   */
  lemma TargetCells(c: PublicCase, entry: int, pageSize: int, mem0: int, i: nat, instructionId: nat, testCaseId: nat)
    requires Readable(c, entry, pageSize, mem0) && i < |c.rows|
    requires PlainStates(c) && 0 <= mem0 < TWO64 && OutsideTest(c, mem0, i)
    ensures var cells := ReadRow(c, entry, pageSize, mem0, i, instructionId, testCaseId).initialMemory;
      var t := TestOfRow(c, i).value;
      var x := TargetByte(t.offset, mem0);
      && (forall k :: 0 <= k < |cells| ==> AgreesAt(x, cells[k], WantedByte(t, mem0)))
      && (Covered(x, cells) <==> Materialised(c, mem0, ElementAddress(t, mem0)))
  {
    assert TestOfRow(c, i).Some?;
    hide *;
    var cells := ReadRow(c, entry, pageSize, mem0, i, instructionId, testCaseId).initialMemory;
    var t := TestOfRow(c, i).value;
    var x := TargetByte(t.offset, mem0);
    CellsFromRow(c, entry, pageSize, mem0, i, instructionId, testCaseId);
    forall k | 0 <= k < |cells|
      ensures AgreesAt(x, cells[k], WantedByte(t, mem0))
      ensures R.Within(x, cells[k].address, |cells[k].bytes|) ==> Materialised(c, mem0, ElementAddress(t, mem0))
      ensures cells[k].address == ElementAddress(t, mem0) ==> |cells[k].bytes| == t.element.Size()
    {
      CoveringIs(c, mem0, i, cells[k]);
    }
    if Covered(x, cells) {
      var k := CoveringIndex(x, cells);
    }
    if Materialised(c, mem0, ElementAddress(t, mem0)) {
      var key := ElementKey(c, mem0, ElementAddress(t, mem0), entry, pageSize);
      var k :| 0 <= k < |cells| && P.ParseMemoryAddressKey(key) == Ok(Some(cells[k].address));
      TargetWithin(t, mem0);
      CoveredAt(x, cells, k);
    }
  }

  lemma CoveringIndex(x: int, cells: seq<MemoryCell>) returns (k: nat)
    requires Covered(x, cells)
    ensures k < |cells| && R.Within(x, cells[k].address, |cells[k].bytes|)
  {
    k :| 0 <= k < |cells| && R.Within(x, cells[k].address, |cells[k].bytes|);
  }

  lemma CoveredAt(x: int, cells: seq<MemoryCell>, k: nat)
    requires k < |cells| && R.Within(x, cells[k].address, |cells[k].bytes|)
    ensures Covered(x, cells)
  {
  }

  /** A materialised element has a key in the group that reads as its address, because the group is readable. */
  lemma ElementKey(c: PublicCase, mem0: int, address: int, entry: int, pageSize: int) returns (key: string)
    requires Materialised(c, mem0, address) && Readable(c, entry, pageSize, mem0)
    ensures InSome(InputLists(c, c.rows, mem0), key)
    ensures 0 <= address < TWO64 && P.ParseMemoryAddressKey(key) == Ok(Some(address))
    ensures P.ParseMemoryAddressKey(key) != Ok(None)
  {
    hide P.ParseMemoryAddressKey, MemoryKey, InputItems, Widen, MaterialisedBy, InSome, Union, NoRepeats, RowIsOwn;
    var j :| 0 <= j < |c.rows| && MaterialisedBy(c, mem0, address, j);
    key := MemoryKey(address);
    ElementIsItem(c, mem0, address, j);
    WidenedRowsAreOwn(c, entry, pageSize, mem0);
    var schema := Widen(c, entry, pageSize, mem0).value.inSchema;
    UnionKeys(InputLists(c, c.rows, mem0), key);
    var k :| 0 <= k < |schema| && schema[k] == key;
    assert GoodKey(schema[k]);
    MemoryKeyReads(address);
  }

  /**
   * After loading, the bit at the signed register offset from mem0 is the row's carry if and only if
   * some row of the group materialises the element, or the target byte is not an opcode byte, or the
   * opcode has a zero there. A row whose carry is one always materialises its element.
   */
  lemma HiddenBitReads(c: PublicCase, entry: int, pageSize: int, mem0: int, i: nat, instructionId: nat,
      testCaseId: nat, opcode: seq<byte>)
    requires Readable(c, entry, pageSize, mem0) && i < |c.rows|
    requires PlainStates(c) && 0 <= mem0 < TWO64 && OutsideTest(c, mem0, i)
    requires var read := ReadRow(c, entry, pageSize, mem0, i, instructionId, testCaseId);
      && R.Fits(read.address, opcode, read.initialMemory)
      && TargetByte(TestOfRow(c, i).value.offset, mem0) in R.SetUp(read.address, opcode, read.initialMemory).cells
    ensures var t := TestOfRow(c, i).value;
      var read := ReadRow(c, entry, pageSize, mem0, i, instructionId, testCaseId);
      var x := TargetByte(t.offset, mem0);
      ReadsCarry(R.SetUp(read.address, opcode, read.initialMemory).cells[x].value, t) <==>
        || Materialised(c, mem0, ElementAddress(t, mem0))
        || !R.Within(x, read.address, |opcode|)
        || BitAt(opcode[x - read.address], TargetBit(t.offset)) == 0
    ensures TestOfRow(c, i).value.carry ==> Materialised(c, mem0, ElementAddress(TestOfRow(c, i).value, mem0))
  {
    OwnElementIsMaterialised(c, mem0, i);
    var t := TestOfRow(c, i).value;
    hide *;
    var read := ReadRow(c, entry, pageSize, mem0, i, instructionId, testCaseId);
    var x := TargetByte(t.offset, mem0);
    WrittenAtTarget(c, entry, pageSize, mem0, i, instructionId, testCaseId, opcode);
    ByteReadsCarry(t, mem0);
    if !Materialised(c, mem0, ElementAddress(t, mem0)) && R.Within(x, read.address, |opcode|) {
      OpcodeByteReads(opcode, x - read.address, t, read.address, x);
    }
  }

  predicate ReadsCarry(value: byte, t: Test) {
    BitAt(value, TargetBit(t.offset)) == if t.carry then 1 else 0
  }

  lemma OwnElementIsMaterialised(c: PublicCase, mem0: int, i: nat)
    requires i < |c.rows| && OutsideTest(c, mem0, i)
    ensures TestOfRow(c, i).value.carry ==> Materialised(c, mem0, ElementAddress(TestOfRow(c, i).value, mem0))
  {
    hide TestOf, ElementAddress;
    var t := TestOfRow(c, i).value;
    assert t.carry ==> MaterialisedBy(c, mem0, ElementAddress(t, mem0), i);
  }

  lemma ByteReadsCarry(t: Test, mem0: int)
    ensures ReadsCarry(WantedByte(t, mem0), t)
    ensures !t.carry ==> ReadsCarry(0, t)
  {
    hide BitAt, WantedByte, TargetBit;
    WantedBit(t, mem0);
    ZeroHasNoBits(TargetBit(t.offset));
  }

  lemma OpcodeByteReads(opcode: seq<byte>, j: int, t: Test, address: int, x: int)
    requires R.Within(x, address, |opcode|) && j == x - address && !t.carry
    ensures ReadsCarry(opcode[j], t) <==> BitAt(opcode[j], TargetBit(t.offset)) == 0
  {
  }

  lemma WrittenAtTarget(c: PublicCase, entry: int, pageSize: int, mem0: int, i: nat, instructionId: nat,
      testCaseId: nat, opcode: seq<byte>)
    requires Readable(c, entry, pageSize, mem0) && i < |c.rows|
    requires PlainStates(c) && 0 <= mem0 < TWO64 && OutsideTest(c, mem0, i)
    requires var read := ReadRow(c, entry, pageSize, mem0, i, instructionId, testCaseId);
      && R.Fits(read.address, opcode, read.initialMemory)
      && TargetByte(TestOfRow(c, i).value.offset, mem0) in R.SetUp(read.address, opcode, read.initialMemory).cells
    ensures var t := TestOfRow(c, i).value;
      var read := ReadRow(c, entry, pageSize, mem0, i, instructionId, testCaseId);
      var x := TargetByte(t.offset, mem0);
      R.SetUp(read.address, opcode, read.initialMemory).cells[x].value ==
        if Materialised(c, mem0, ElementAddress(t, mem0)) then WantedByte(t, mem0)
        else if R.Within(x, read.address, |opcode|) then opcode[x - read.address] else 0
  {
    var t := TestOfRow(c, i).value;
    hide Readable, ReadRow, R.SetUp, R.Fits, R.LastWritten, R.LastMapped, R.Touched, WantedByte, TestOf, ElementAddress,
         TargetByte, OutsideTest, PlainStates, Covered, Materialised;
    var read := ReadRow(c, entry, pageSize, mem0, i, instructionId, testCaseId);
    var x := TargetByte(t.offset, mem0);
    R.SetUpImage(read.address, opcode, read.initialMemory);
    TargetCells(c, entry, pageSize, mem0, i, instructionId, testCaseId);
    LastWrittenUniform(x, read.address, opcode, read.initialMemory, WantedByte(t, mem0));
  }

  // ---- A bit the opcode hides ----

  lemma CellsUnderOpcode(cell: MemoryCell)
    requires Readable(UnderOpcode(), ENTRY, PAGE, MEM0)
    requires cell in ReadRow(UnderOpcode(), ENTRY, PAGE, MEM0, 0, 1, 0).initialMemory
    ensures cell.address == MEM0 && |cell.bytes| == 8 && cell.permissions == 0
  {
    hide P.ParseMemoryAddressKey, Widen, GoodWide, WideRowMeans, MemoryKey, ValueBytes, StateKey, InputItems,
         UnderOpcode, IsMemoryKey, AllZero;
    var c := UnderOpcode();
    UnderOpcodeItems();
    assert |c.rows| == 1 by {
      OneRow();
    }
    RowsReadTheirOwnMemory(c, ENTRY, PAGE, MEM0, 0, 1, 0);
    var items, lists := InputItems(c, c.rows[0], MEM0), InputLists(c, c.rows, MEM0);
    var pair: Pair :| IsInputCell(pair, cell) && (pair in items || IsZeroFill(pair, items, lists));
    OwnKeysOnly(pair, items, lists);
    KeysAre();
    MemoryKeyReads(MEM0);
  }

  lemma OneRow()
    ensures |UnderOpcode().rows| == 1
  {
  }

  lemma UnderOpcodeReadable()
    ensures Readable(UnderOpcode(), ENTRY, PAGE, MEM0) && |UnderOpcode().rows| == 1
  {
    hide Widen, GoodWide;
    UnderOpcodeIsGood();
  }

  /** A group of one row has no zero fills. */
  lemma OwnKeysOnly(pair: Pair, items: seq<Pair>, lists: seq<seq<Pair>>)
    requires lists == [items]
    ensures !IsZeroFill(pair, items, lists)
  {
    hide IsMemoryKey, AllZero, HasKey, SizedInSome;
    if SizedInSome(lists, pair.key, |pair.bytes|) {
      SizedHasKey(items, pair.key, |pair.bytes|);
    }
  }

  lemma SizedHasKey(items: seq<Pair>, key: string, size: nat)
    requires SizedInSome([items], key, size)
    ensures HasKey(items, key)
  {
    var i, j :| SizedAt([items], key, size, i, j);
  }

  lemma UnderOpcodeFits(cells: seq<MemoryCell>)
    requires forall cell :: cell in cells ==> cell.address == MEM0 && |cell.bytes| == 8 && cell.permissions == 0
    ensures var address, opcode := 0x6666_6666_0FFC, [0x48, 0x0F, 0xA3, 0x18];
      && R.Fits(address, opcode, cells)
      && address in R.SetUp(address, opcode, cells).cells
  {
    var address: u64, opcode: seq<byte> := 0x6666_6666_0FFC, [0x48, 0x0F, 0xA3, 0x18];
    assert R.Fits(address, opcode, cells);
    R.SetUpImage(address, opcode, cells);
    hide R.SetUp;
    assert R.Within(address, F.PageBase(address), F.PAGE_SIZE);
  }

  /**
   * A register offset can reach the code page: with the default entry and mem0 addresses, the
   * opcode 48 0F A3 18 at the page's end and a zero carry, nothing is materialised and set-up leaves
   * bit 3 of the opcode's first byte, a one.
   */
  lemma OpcodeUnderBitString()
    ensures Readable(UnderOpcode(), ENTRY, PAGE, MEM0)
    ensures PlainStates(UnderOpcode()) && |UnderOpcode().rows| == 1 && OutsideTest(UnderOpcode(), MEM0, 0)
    ensures var t := TestOfRow(UnderOpcode(), 0).value;
      var read := ReadRow(UnderOpcode(), ENTRY, PAGE, MEM0, 0, 1, 0);
      var opcode := [0x48, 0x0F, 0xA3, 0x18];
      && HexBytes(read.opcode) == Ok(opcode)
      && R.Fits(read.address, opcode, read.initialMemory)
      && TargetByte(t.offset, MEM0) in R.SetUp(read.address, opcode, read.initialMemory).cells
      && !ReadsCarry(R.SetUp(read.address, opcode, read.initialMemory).cells[TargetByte(t.offset, MEM0)].value, t)
  {
    hide Readable, ReadRow, UnderOpcode, PlainStates, OutsideTest, TestOfRow, HexBytes, R.SetUp, R.Fits, TargetByte,
         TargetBit, Materialised, BitAt, ElementAddress;
    UnderOpcodeReadable();
    UnderOpcodeIsPlain();
    UnderOpcodeTarget();
    var c := UnderOpcode();
    var read := ReadRow(c, ENTRY, PAGE, MEM0, 0, 1, 0);
    var opcode: seq<byte> := [0x48, 0x0F, 0xA3, 0x18];
    ReadUnderOpcode();
    forall cell | cell in read.initialMemory
      ensures cell.address == MEM0 && |cell.bytes| == 8 && cell.permissions == 0
    {
      CellsUnderOpcode(cell);
    }
    UnderOpcodeFits(read.initialMemory);
    HiddenBitReads(c, ENTRY, PAGE, MEM0, 0, 1, 0, opcode);
    NothingMaterialised();
    OpcodeBit();
  }

  lemma UnderOpcodeTarget()
    ensures TestOfRow(UnderOpcode(), 0) == Some(Test(Qword, 0x32877E3, false))
    ensures TargetByte(0x32877E3, MEM0) == 0x6666_6666_0FFC && TargetBit(0x32877E3) == 3
  {
    hide TestOf;
    UnderOpcodeTest();
  }

  lemma NothingMaterialised()
    ensures forall address :: !Materialised(UnderOpcode(), MEM0, address)
  {
    hide TestOf, ElementAddress;
    UnderOpcodeTest();
  }

  lemma OpcodeBit()
    ensures BitAt(0x48, 3) == 1
  {
    assert BitAt(0x48, 3) == BitAt(0x24, 2) == BitAt(0x12, 1) == BitAt(0x9, 0) == 1;
  }

  /** The parsed row stands at the end of the code page, with the opcode as written. */
  lemma ReadUnderOpcode()
    requires Readable(UnderOpcode(), ENTRY, PAGE, MEM0)
    ensures ReadRow(UnderOpcode(), ENTRY, PAGE, MEM0, 0, 1, 0).address == 0x6666_6666_0FFC
    ensures HexBytes(ReadRow(UnderOpcode(), ENTRY, PAGE, MEM0, 0, 1, 0).opcode) == Ok([0x48, 0x0F, 0xA3, 0x18])
  {
    hide ZipSide, GoodWide, HexBytes, InstructionAddress, Union, MapRows, WidenRows, Defaults, InputLists, OutputLists;
    UnderOpcodeIsGood();
    OpcodeIs();
    OpcodeBytes();
  }

  lemma OpcodeBytes()
    ensures HexBytes(OPCODE) == Ok([0x48, 0x0F, 0xA3, 0x18])
  {
    HexDigitsOfDigits(OPCODE);
    var ds := HexDigits(OPCODE).value;
    assert ds == [4, 8, 0, 15, 10, 3, 1, 8];
    assert PairUp(ds) == [0x48, 0x0F, 0xA3, 0x18];
  }

  lemma UnderOpcodeIsPlain()
    ensures PlainStates(UnderOpcode()) && OutsideTest(UnderOpcode(), MEM0, 0)
  {
    hide StateKey, P.ParseMemoryAddressKey, TestOf;
    KeysAre();
    Mem0KeyIs();
    UnderOpcodeTest();
  }
}
