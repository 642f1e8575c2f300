/** A row's own memory survives set-up: no zero fill and no other cell of its group overwrites a byte of it. */
module OwnMemory {
  import opened Wrappers
  import opened Text
  import opened Expectation
  import opened PublicItems
  import opened PublicWriter
  import opened PublicReading
  import opened PublicValues
  import opened BitTest
  import opened HiddenBits
  import P = X86TesterParser
  import R = CaseRun

  /** Where a group has memory: the serialised cell, or an element that some row materialises. */
  predicate IsSpan(c: PublicCase, mem0: int, address: int, size: nat) {
    || (address == mem0 && size == 8)
    || exists j :: 0 <= j < |c.rows| && SpanOfRow(c, mem0, address, size, j)
  }

  predicate SpanOfRow(c: PublicCase, mem0: int, address: int, size: nat, j: int) {
    MaterialisedBy(c, mem0, address, j) && size == TestOfRow(c, j).value.element.Size()
  }

  /** Two spans of a group are the same address or share no byte. */
  lemma SpansApart(c: PublicCase, mem0: int, a: int, m: nat, b: int, n: nat)
    requires IsSpan(c, mem0, a, m) && IsSpan(c, mem0, b, n)
    ensures a == b || Disjoint(a, m, b, n)
  {
    hide TestOf, ElementAddress;
    if !(a == mem0 && m == 8) {
      var j :| 0 <= j < |c.rows| && SpanOfRow(c, mem0, a, m, j);
      ElementAvoidsMem0(TestOfRow(c, j).value, mem0);
      if !(b == mem0 && n == 8) {
        var k :| 0 <= k < |c.rows| && SpanOfRow(c, mem0, b, n, k);
        SameElements(c, j, k);
        ElementsIdenticalOrDisjoint(TestOfRow(c, j).value, TestOfRow(c, k).value, mem0);
      }
    } else if !(b == mem0 && n == 8) {
      var k :| 0 <= k < |c.rows| && SpanOfRow(c, mem0, b, n, k);
      ElementAvoidsMem0(TestOfRow(c, k).value, mem0);
    }
  }

  lemma CellIsSpan(c: PublicCase, mem0: int, pair: Pair, cell: MemoryCell)
    requires PlainStates(c) && 0 <= mem0 < TWO64
    requires SizedInSome(InputLists(c, c.rows, mem0), pair.key, |pair.bytes|) && IsInputCell(pair, cell)
    ensures IsSpan(c, mem0, cell.address, |cell.bytes|) && pair.key == MemoryKey(cell.address)
  {
    hide P.ParseMemoryAddressKey, MemoryKey, InputLists, SizedInSome, TestOf, Materialises, ElementAddress, PlainStates;
    KeyOrigin(c, mem0, pair.key, |pair.bytes|, cell.address);
    KeyIsPrinted(c, mem0, pair, cell);
    if !(cell.address == mem0 && |cell.bytes| == 8) {
      var j :| 0 <= j < |c.rows| && MaterialisedBy(c, mem0, cell.address, j)
        && |pair.bytes| == TestOfRow(c, j).value.element.Size();
      assert SpanOfRow(c, mem0, cell.address, |cell.bytes|, j);
    }
  }

  lemma OwnIsSized(c: PublicCase, mem0: int, i: nat, pair: Pair)
    requires i < |c.rows| && pair in InputItems(c, c.rows[i], mem0)
    ensures SizedInSome(InputLists(c, c.rows, mem0), pair.key, |pair.bytes|)
  {
    hide InputItems;
    var items := InputItems(c, c.rows[i], mem0);
    var k :| 0 <= k < |items| && items[k] == pair;
    assert SizedAt(InputLists(c, c.rows, mem0), pair.key, |pair.bytes|, i, k);
  }

  /** Of the pairs of one row, no other has the key of an own item. */
  lemma OwnKeyIsOwn(items: seq<Pair>, lists: seq<seq<Pair>>, item: Pair, pair: Pair)
    requires DistinctItems(items) && item in items && pair.key == item.key
    requires pair in items || IsZeroFill(pair, items, lists)
    ensures pair == item
  {
    hide IsMemoryKey, AllZero, SizedInSome;
    var k :| 0 <= k < |items| && items[k] == item;
    assert HasKey(items, pair.key);
    var j :| 0 <= j < |items| && items[j] == pair;
  }

  /** Every cell of a parsed row agrees with the row's own item on the bytes they share. */
  lemma CellAgreesWithOwn(c: PublicCase, mem0: int, i: nat, item: Pair, own: MemoryCell, cell: MemoryCell, k: nat)
    requires PlainStates(c) && i < |c.rows| && 0 <= mem0 < TWO64
    requires DistinctItems(InputItems(c, c.rows[i], mem0))
    requires item in InputItems(c, c.rows[i], mem0) && IsInputCell(item, own) && k < |item.bytes|
    requires FromRow(cell, InputItems(c, c.rows[i], mem0), InputLists(c, c.rows, mem0))
    ensures AgreesAt(own.address + k, cell, item.bytes[k])
  {
    hide P.ParseMemoryAddressKey, InputItems, InputLists, PlainStates, DistinctItems, IsSpan, MemoryKey, SizedInSome,
         IsMemoryKey, AllZero, HasKey;
    var items, lists := InputItems(c, c.rows[i], mem0), InputLists(c, c.rows, mem0);
    var pair: Pair :| IsInputCell(pair, cell) && (pair in items || IsZeroFill(pair, items, lists));
    OwnIsSized(c, mem0, i, item);
    if pair in items {
      OwnIsSized(c, mem0, i, pair);
    }
    CellIsSpan(c, mem0, item, own);
    CellIsSpan(c, mem0, pair, cell);
    SpansApart(c, mem0, own.address, |own.bytes|, cell.address, |cell.bytes|);
    if cell.address == own.address {
      OwnKeyIsOwn(items, lists, item, pair);
    }
  }

  lemma ReadableIsDistinct(c: PublicCase, entry: int, pageSize: int, mem0: int, i: nat)
    requires Readable(c, entry, pageSize, mem0) && i < |c.rows|
    ensures DistinctItems(InputItems(c, c.rows[i], mem0))
  {
    hide InputItems, OutputItems, InputLists, OutputLists, DistinctItems, HasAllKeys, InstructionAddress, Widen,
         ToUpper;
    WidensExactly(c, entry, pageSize, mem0);
    assert RowWidens(c, mem0, i);
  }

  /** An own memory item of a parsed row has its cell there. */
  lemma OwnCell(c: PublicCase, entry: int, pageSize: int, mem0: int, i: nat, instructionId: nat, testCaseId: nat,
      item: Pair) returns (m: nat)
    requires Readable(c, entry, pageSize, mem0) && i < |c.rows|
    requires item in InputItems(c, c.rows[i], mem0) && P.ParseMemoryAddressKey(item.key) != Ok(None)
    ensures var cells := ReadRow(c, entry, pageSize, mem0, i, instructionId, testCaseId).initialMemory;
      m < |cells| && IsInputCell(item, cells[m])
  {
    hide P.ParseMemoryAddressKey, InputItems, InputLists, Widen, IsZeroFill, InSome, IsInputCell;
    RowsReadTheirOwnMemory(c, entry, pageSize, mem0, i, instructionId, testCaseId);
    var cells := ReadRow(c, entry, pageSize, mem0, i, instructionId, testCaseId).initialMemory;
    var cell :| cell in cells && IsInputCell(item, cell);
    m :| 0 <= m < |cells| && cells[m] == cell;
  }

  /**
   * After conversion, parsing and set-up, every byte of every own memory item of a row, the serialised
   * cell and the materialised element, is in memory as the row has it, whatever memory the other rows
   * of the group have.
   */
  lemma OwnMemorySurvives(c: PublicCase, entry: int, pageSize: int, mem0: int, i: nat, instructionId: nat,
      testCaseId: nat, opcode: seq<byte>, item: Pair, address: u64, k: nat)
    requires Readable(c, entry, pageSize, mem0) && i < |c.rows| && PlainStates(c) && 0 <= mem0 < TWO64
    requires item in InputItems(c, c.rows[i], mem0) && P.ParseMemoryAddressKey(item.key) == Ok(Some(address))
    requires k < |item.bytes|
    requires var read := ReadRow(c, entry, pageSize, mem0, i, instructionId, testCaseId);
      R.Fits(read.address, opcode, read.initialMemory)
    ensures var read := ReadRow(c, entry, pageSize, mem0, i, instructionId, testCaseId);
      var cells := R.SetUp(read.address, opcode, read.initialMemory).cells;
      address + k < TWO64 && address + k in cells && cells[address + k].value == item.bytes[k]
  {
    hide P.ParseMemoryAddressKey, InputItems, InputLists, Readable, ReadRow, R.SetUp, R.Fits, PlainStates,
         DistinctItems;
    var read := ReadRow(c, entry, pageSize, mem0, i, instructionId, testCaseId);
    var cells := read.initialMemory;
    var m := OwnCell(c, entry, pageSize, mem0, i, instructionId, testCaseId, item);
    ReadableIsDistinct(c, entry, pageSize, mem0, i);
    CellsFromRow(c, entry, pageSize, mem0, i, instructionId, testCaseId);
    forall n | 0 <= n < |cells| ensures AgreesAt(address + k, cells[n], item.bytes[k]) {
      CellAgreesWithOwn(c, mem0, i, item, cells[m], cells[n], k);
    }
    WrittenByte(read.address, opcode, cells, m, k, item.bytes[k]);
  }

  /** A byte of a cell that all cells agree on is what set-up leaves there. */
  lemma WrittenByte(address: u64, opcode: seq<byte>, cells: seq<MemoryCell>, m: nat, k: nat, v: byte)
    requires R.Fits(address, opcode, cells) && m < |cells| && k < |cells[m].bytes|
    requires forall n :: 0 <= n < |cells| ==> AgreesAt(cells[m].address + k, cells[n], v)
    ensures var x := cells[m].address + k;
      && x < TWO64 && x in R.SetUp(address, opcode, cells).cells
      && R.SetUp(address, opcode, cells).cells[x].value == v
  {
    hide R.SetUp, R.Fits, R.LastWritten, R.LastMapped, R.Touched, AgreesAt, Covered;
    var x := cells[m].address + k;
    ByteFits(address, opcode, cells, m, k);
    R.SetUpImage(address, opcode, cells);
    LastWrittenUniform(x, address, opcode, cells, v);
    assert R.Within(x, cells[m].address, |cells[m].bytes|);
    CoveredAt(x, cells, m);
    CellTouches(x, address, cells, m);
  }

  lemma ByteFits(address: u64, opcode: seq<byte>, cells: seq<MemoryCell>, m: nat, k: nat)
    requires R.Fits(address, opcode, cells) && m < |cells| && k < |cells[m].bytes|
    ensures cells[m].address + k < TWO64
  {
    hide R.EffectivePermissions;
    assert cells[m] in cells;
  }

  lemma CellTouches(x: int, address: int, cells: seq<MemoryCell>, m: nat)
    requires m < |cells| && R.Within(x, cells[m].address, |cells[m].bytes|)
    ensures R.Touched(x, address, cells)
  {
    OnOwnPages(x, cells[m].address, |cells[m].bytes|);
    hide R.OnPagesOf, R.Within;
  }

  lemma OnOwnPages(x: int, address: int, size: nat)
    requires 0 <= address && R.Within(x, address, size)
    ensures R.OnPagesOf(x, address, size)
  {
  }
}
