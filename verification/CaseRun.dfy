/**
 * What `RemillBackend::RunCase` computes from compiled code, over flat memory: set-up, the run,
 * the read-back and the classification of faults (`src/remill_backend.cpp`).
 */
module CaseRun {
  import opened Wrappers
  import opened Numbers
  import opened Expectation
  import opened FlatMemory
  import opened StateBridge
  import I = Intrinsics
  import opened OrderedKeys
  import Text

  type Code = I.Lifted<MachineState>

  /** Sizes that a `std::string` and a `std::vector` can hold. */
  predicate Representable(row: ExpectationRow) {
    && |row.opcode| < TWO64
    && (forall cell :: cell in row.initialMemory ==> |cell.bytes| < TWO64)
    && (forall e :: e in row.expectedMemory ==> |e.bytes| < TWO64)
  }

  // ---- Set-up ----

  function EffectivePermissions(cell: MemoryCell): bv8 {
    if cell.permissions == 0 then READ_WRITE else cell.permissions
  }

  function PlaceCell(m: Memory, cell: MemoryCell): Memory
    requires |cell.bytes| < TWO64
  {
    Write(MapRange(m, cell.address, |cell.bytes|, EffectivePermissions(cell)).memory, cell.address, cell.bytes).memory
  }

  function PlaceCells(m: Memory, cells: seq<MemoryCell>): Memory
    requires forall cell :: cell in cells ==> |cell.bytes| < TWO64
  {
    if cells == [] then m else PlaceCell(PlaceCells(m, cells[..|cells| - 1]), cells[|cells| - 1])
  }

  function PlaceCode(m: Memory, address: u64, opcode: seq<byte>): Memory
    requires |opcode| < TWO64
  {
    Write(MapRange(m, PageBase(address), PAGE_SIZE, ALL).memory, address, opcode).memory
  }

  function SetUp(address: u64, opcode: seq<byte>, cells: seq<MemoryCell>): Memory
    requires |opcode| < TWO64 && forall cell :: cell in cells ==> |cell.bytes| < TWO64
  {
    PlaceCells(PlaceCode(EMPTY, address, opcode), cells)
  }

  // ---- The image set-up leaves ----

  predicate Within(x: int, address: int, size: nat) { address <= x < address + size }

  /** The pages `Map` touches for a nonempty range. */
  predicate OnPagesOf(x: int, address: int, size: nat) {
    size > 0 && PageBase(address) <= x < PageBase(address + size - 1) + PAGE_SIZE
  }

  predicate Touched(x: int, address: int, cells: seq<MemoryCell>) {
    Within(x, PageBase(address), PAGE_SIZE)
    || exists i :: 0 <= i < |cells| && OnPagesOf(x, cells[i].address, |cells[i].bytes|)
  }

  /** The last cell that holds an address, else the opcode, else zero. */
  function LastWritten(x: int, address: int, opcode: seq<byte>, cells: seq<MemoryCell>): byte {
    if cells == [] then if Within(x, address, |opcode|) then opcode[x - address] else 0
    else
      var last := cells[|cells| - 1];
      if Within(x, last.address, |last.bytes|) then last.bytes[x - last.address]
      else LastWritten(x, address, opcode, cells[..|cells| - 1])
  }

  /** The permissions of the last cell whose pages hold an address, else those of the code page. */
  function LastMapped(x: int, cells: seq<MemoryCell>): bv8 {
    if cells == [] then ALL
    else
      var last := cells[|cells| - 1];
      if OnPagesOf(x, last.address, |last.bytes|) then EffectivePermissions(last)
      else LastMapped(x, cells[..|cells| - 1])
  }

  predicate Fits(address: u64, opcode: seq<byte>, cells: seq<MemoryCell>) {
    && PageOffset(address) + |opcode| <= PAGE_SIZE
    && forall cell :: cell in cells ==>
         |cell.bytes| < TWO64 && !Wraps(cell.address, |cell.bytes|) && EffectivePermissions(cell) & WRITE == WRITE
  }

  predicate IsImage(m: Memory, address: u64, opcode: seq<byte>, cells: seq<MemoryCell>) {
    && m.fault == None
    && (forall x: u64 :: x in m.cells <==> Touched(x, address, cells))
    && (forall x: u64 :: x in m.cells ==>
          m.cells[x] == Cell(LastWritten(x, address, opcode, cells), LastMapped(x, cells)))
  }

  lemma PageBounds(address: u64)
    ensures 0 <= PageBase(address) <= address < PageBase(address) + PAGE_SIZE <= TWO64
  {
  }

  /** Mapping and writing one range that does not wrap never faults and shows the bytes over what was there. */
  lemma MapThenWrite(m: Memory, base: u64, span: u64, address: u64, bytes: seq<byte>, permissions: bv8)
    requires span > 0 && base + span <= TWO64 && base <= address && address + |bytes| <= base + span
    requires permissions & WRITE == WRITE && |bytes| < TWO64
    ensures var m1 := MapRange(m, base, span, permissions).memory;
      var m2 := Write(m1, address, bytes).memory;
      && m2.fault == m.fault
      && (forall x: u64 :: x in m2.cells <==> x in m.cells || OnPagesOf(x, base, span))
      && (forall x: u64 :: x in m2.cells ==>
            m2.cells[x] == Cell(if Within(x, address, |bytes|) then bytes[x - address]
                                else if x in m.cells then m.cells[x].value else 0,
                                if OnPagesOf(x, base, span) then permissions else m.cells[x].permissions))
  {
    hide PageBase;
    PageBounds(base);
    PageBounds(base + span - 1);
    var m1 := MapRange(m, base, span, permissions).memory;
    assert m1 == m.(cells := Cover(m.cells, PageBase(base), PageBase(base + span - 1) + PAGE_SIZE, permissions));
    forall x | address <= x < address + |bytes| ensures Accessible(m1.cells, x, WRITE) {
    }
    AllAccessibleIsClear(m1.cells, address, |bytes|, WRITE, WriteOp);
  }

  lemma PageOfPage(address: u64)
    ensures PageBase(PageBase(address)) == PageBase(address)
    ensures PageBase(PageBase(address) + PAGE_SIZE - 1) == PageBase(address)
    ensures PageBase(address) + PageOffset(address) == address
  {
  }

  lemma CodeImage(address: u64, opcode: seq<byte>)
    requires PageOffset(address) + |opcode| <= PAGE_SIZE
    ensures IsImage(PlaceCode(EMPTY, address, opcode), address, opcode, [])
  {
    hide PageBase, PageOffset, MapRange, Write;
    PageBounds(address);
    PageOfPage(address);
    MapThenWrite(EMPTY, PageBase(address), PAGE_SIZE, address, opcode, ALL);
  }

  lemma CellImage(m: Memory, address: u64, opcode: seq<byte>, cells: seq<MemoryCell>, cell: MemoryCell)
    requires IsImage(m, address, opcode, cells) && Fits(address, opcode, cells)
    requires |cell.bytes| < TWO64 && !Wraps(cell.address, |cell.bytes|) && EffectivePermissions(cell) & WRITE == WRITE
    ensures IsImage(PlaceCell(m, cell), address, opcode, cells + [cell])
  {
    hide PageBase, EffectivePermissions, Touched, LastWritten, LastMapped, MapRange, Write, OnPagesOf;
    if cell.bytes == [] {
      PlaceNothing(m, cell);
    } else {
      MapThenWrite(m, cell.address, |cell.bytes|, cell.address, cell.bytes, EffectivePermissions(cell));
    }
    forall x: u64
      ensures Touched(x, address, cells + [cell])
        <==> Touched(x, address, cells) || OnPagesOf(x, cell.address, |cell.bytes|)
      ensures LastMapped(x, cells + [cell]) ==
              if OnPagesOf(x, cell.address, |cell.bytes|) then EffectivePermissions(cell) else LastMapped(x, cells)
      ensures LastWritten(x, address, opcode, cells + [cell]) ==
              if Within(x, cell.address, |cell.bytes|) then cell.bytes[x - cell.address]
                else LastWritten(x, address, opcode, cells)
      ensures cell.bytes == [] ==> !OnPagesOf(x, cell.address, |cell.bytes|)
    {
      OneMoreCell(x, address, opcode, cells, cell);
    }
    forall x: u64 | !Touched(x, address, cells) ensures LastWritten(x, address, opcode, cells) == 0 {
      UntouchedIsZero(x, address, opcode, cells);
    }
  }

  lemma OneMoreCell(x: int, address: u64, opcode: seq<byte>, cells: seq<MemoryCell>, cell: MemoryCell)
    ensures Touched(x, address, cells + [cell])
      <==> Touched(x, address, cells) || OnPagesOf(x, cell.address, |cell.bytes|)
    ensures LastMapped(x, cells + [cell]) ==
            if OnPagesOf(x, cell.address, |cell.bytes|) then EffectivePermissions(cell) else LastMapped(x, cells)
    ensures LastWritten(x, address, opcode, cells + [cell]) ==
            if Within(x, cell.address, |cell.bytes|) then cell.bytes[x - cell.address]
              else LastWritten(x, address, opcode, cells)
    ensures cell.bytes == [] ==> !OnPagesOf(x, cell.address, |cell.bytes|)
  {
    hide EffectivePermissions, PageBase;
    var all := cells + [cell];
    assert all[..|all| - 1] == cells;
    TouchedAppend(x, address, cells, cell);
  }

  /** What no page holds was never written. */
  lemma {:induction false} UntouchedIsZero(x: u64, address: u64, opcode: seq<byte>, cells: seq<MemoryCell>)
    requires Fits(address, opcode, cells) && !Touched(x, address, cells)
    ensures LastWritten(x, address, opcode, cells) == 0
    decreases |cells|
  {
    hide PageBase, PageOffset, EffectivePermissions, OnPagesOf, Touched;
    if cells == [] {
      if Within(x, address, |opcode|) {
        CodePageHoldsCode(x, address, opcode);
      }
    } else {
      var last := cells[|cells| - 1];
      var init := cells[..|cells| - 1];
      assert init + [last] == cells;
      TouchedAppend(x, address, init, last);
      if Within(x, last.address, |last.bytes|) {
        CellPagesHoldCell(x, last);
      }
      UntouchedIsZero(x, address, opcode, init);
    }
  }

  lemma CodePageHoldsCode(x: int, address: u64, opcode: seq<byte>)
    requires PageOffset(address) + |opcode| <= PAGE_SIZE && Within(x, address, |opcode|)
    ensures Touched(x, address, [])
  {
    PageBounds(address);
  }

  lemma CellPagesHoldCell(x: int, cell: MemoryCell)
    requires !Wraps(cell.address, |cell.bytes|) && Within(x, cell.address, |cell.bytes|)
    ensures OnPagesOf(x, cell.address, |cell.bytes|)
  {
    PageBounds(cell.address);
    PageBounds(cell.address + |cell.bytes| - 1);
  }

  lemma PlaceNothing(m: Memory, cell: MemoryCell)
    requires cell.bytes == []
    ensures PlaceCell(m, cell) == m
  {
    PokeEmpty(m.cells, cell.address);
  }

  lemma TouchedAppend(x: int, address: int, cells: seq<MemoryCell>, cell: MemoryCell)
    ensures Touched(x, address, cells + [cell])
      <==> Touched(x, address, cells) || OnPagesOf(x, cell.address, |cell.bytes|)
  {
    hide OnPagesOf, Within;
    var all := cells + [cell];
    assert all[|cells|] == cell;
    assert forall i :: 0 <= i < |cells| ==> all[i] == cells[i];
  }

  /** Set-up without a fault: zeroed pages under the opcode under the cells, the last one written on top. */
  lemma {:induction false} SetUpImage(address: u64, opcode: seq<byte>, cells: seq<MemoryCell>)
    requires Fits(address, opcode, cells)
    ensures IsImage(SetUp(address, opcode, cells), address, opcode, cells)
    decreases |cells|
  {
    hide PlaceCode, PlaceCell, IsImage, PageOffset, EffectivePermissions;
    if cells == [] {
      CodeImage(address, opcode);
    } else {
      var init := cells[..|cells| - 1];
      SetUpImage(address, opcode, init);
      CellImage(SetUp(address, opcode, init), address, opcode, init, cells[|cells| - 1]);
      assert init + [cells[|cells| - 1]] == cells;
    }
  }

  // ---- Read-back ----

  datatype Observed = Observed(memory: Memory, found: seq<MemoryExpectation>)

  function Observation(m: Memory, e: MemoryExpectation): MemoryExpectation
    requires |e.bytes| < TWO64
  {
    MemoryExpectation(e.address, Read(m, e.address, |e.bytes|).bytes, e.mask)
  }

  function ReadBack(m: Memory, expected: seq<MemoryExpectation>): Observed
    requires forall e :: e in expected ==> |e.bytes| < TWO64
  {
    if expected == [] then Observed(m, [])
    else
      var before := ReadBack(m, expected[..|expected| - 1]);
      var e := expected[|expected| - 1];
      Observed(Read(before.memory, e.address, |e.bytes|).memory, before.found + [Observation(before.memory, e)])
  }

  lemma ReadKeepsCells(m: Memory, e: MemoryExpectation)
    requires |e.bytes| < TWO64
    ensures var r := Read(m, e.address, |e.bytes|).memory;
      && r.cells == m.cells
      && r.fault == if m.fault.Some? then m.fault else AccessFault(m.cells, e.address, |e.bytes|, READ, ReadOp)
  {
  }

  lemma ObservationOfCells(m: Memory, n: Memory, e: MemoryExpectation)
    requires |e.bytes| < TWO64 && m.cells == n.cells
    ensures Observation(m, e) == Observation(n, e)
  {
  }

  /** One observation per expectation, with its address, size and mask, read from the same bytes. */
  lemma {:induction false} ReadBackIs(m: Memory, expected: seq<MemoryExpectation>)
    requires forall e :: e in expected ==> |e.bytes| < TWO64
    ensures var r := ReadBack(m, expected);
      && r.memory.cells == m.cells
      && |r.found| == |expected|
      && (forall i :: 0 <= i < |expected| ==> r.found[i] == Observation(m, expected[i]))
    decreases |expected|
  {
    hide AccessFault, Peek, Read, Observation;
    if expected != [] {
      var init := expected[..|expected| - 1];
      var e := expected[|expected| - 1];
      ReadBackIs(m, init);
      ReadKeepsCells(ReadBack(m, init).memory, e);
      ObservationOfCells(m, ReadBack(m, init).memory, e);
      assert forall i :: 0 <= i < |init| ==> init[i] == expected[i];
    }
  }

  /** The fault after the read-back: the one before it, else that of the first cell that cannot be read. */
  lemma {:induction false} ReadBackFault(m: Memory, expected: seq<MemoryExpectation>)
    requires forall e :: e in expected ==> |e.bytes| < TWO64
    ensures var fault := ReadBack(m, expected).memory.fault;
      && (m.fault.Some? ==> fault == m.fault)
      && (m.fault.None? && fault.Some? ==> IsReadFault(m, expected, fault.value))
    decreases |expected|
  {
    hide AccessFault, Peek, Read, Observation;
    if expected != [] {
      var init := expected[..|expected| - 1];
      var e := expected[|expected| - 1];
      ReadBackFault(m, init);
      ReadBackIs(m, init);
      ReadKeepsCells(ReadBack(m, init).memory, e);
      assert forall x :: x in init ==> x in expected;
    }
  }

  predicate IsReadFault(m: Memory, expected: seq<MemoryExpectation>, fault: MemoryFault)
    requires forall e :: e in expected ==> |e.bytes| < TWO64
  {
    exists e :: e in expected && AccessFault(m.cells, e.address, |e.bytes|, READ, ReadOp) == Some(fault)
  }

  // ---- Faults ----

  function LowerHex(n: nat): string { Text.ToLower(Digits(n, 16)) }

  const FAULT_AT := " fault at 0x"

  function FaultText(f: MemoryFault): string {
    f.operation.Name() + FAULT_AT + LowerHex(f.address) + ": " + f.detail.Text()
  }

  const REMILL_ERROR := "__remill_error"

  predicate IsRemillError(f: MemoryFault) {
    f.kind == FaultKind.Unsupported && f.detail.Text() == REMILL_ERROR
  }

  function FaultOutcome(f: MemoryFault, expectedKind: Option<string>): OutcomeClass {
    if IsRemillError(f) && expectedKind.Some? then Exception
    else if f.kind == FaultKind.Unsupported then OutcomeClass.Unsupported
    else Exception
  }

  function FaultDetail(f: MemoryFault, expectedKind: Option<string>): string {
    if IsRemillError(f) && expectedKind.Some? then expectedKind.value else FaultText(f)
  }

  /** A fault text always holds a blank, so it is never mistaken for an exception kind. */
  lemma FaultTextHasBlank(f: MemoryFault)
    ensures ' ' in FaultText(f)
  {
    var name := f.operation.Name();
    assert FAULT_AT[0] == ' ';
    assert FaultText(f)[|name|] == FAULT_AT[0];
  }

  // ---- The whole case ----

  function NotRun(outcome: OutcomeClass, message: string): ExecutionResult {
    ExecutionResult(outcome, map[], map[], [], None, Some(message))
  }

  /** The registers the lifted code starts from: an absent or zero `rip` becomes the row's address. */
  function StartState(s: MachineState, address: u64): MachineState {
    RipIsScalar();
    if s.gpr["rip"] == 0 then WithScalar(s, "rip", address) else s
  }

  /** The state and memory after the lifted code and the read-back. */
  function Judge(after: I.Finished<MachineState>, row: ExpectationRow, keys: seq<string>): ExecutionResult
    requires Representable(row)
  {
    var seen := if after.memory.fault.None? then ReadBack(after.memory, row.expectedMemory)
      else Observed(after.memory, []);
    match seen.memory.fault
    case Some(f) =>
      ExecutionResult(FaultOutcome(f, row.expectedExceptionKind), map[], map[], seen.found,
                      Some(FaultDetail(f, row.expectedExceptionKind)), None)
    case None =>
      ExecutionResult(Normal, Snapshot(after.state, keys),
        SnapshotBytes(after.state, Sorted(row.expectedFinalBytes.Keys)),
                      seen.found, None, None)
  }

  function Launch(code: Code, s: MachineState, m: Memory): I.Finished<MachineState> {
    I.Run(code, s, m, [])
  }

  function RunFrom(code: Code, s: MachineState, row: ExpectationRow, opcode: seq<byte>,
      keys: seq<string>): ExecutionResult
    requires Representable(row) && |opcode| < TWO64
  {
    Judge(Launch(code, StartState(s, row.address), SetUp(row.address, opcode, row.initialMemory)), row, keys)
  }

  function RunCode(code: Code, row: ExpectationRow, opcode: seq<byte>, keys: seq<string>): ExecutionResult
    requires Representable(row) && |opcode| < TWO64
  {
    var applied := Apply(Reset(), row.initialState, row.initialBytes);
    if applied.Err? then NotRun(OutcomeClass.Unsupported, applied.error.Text())
    else RunFrom(code, applied.value, row, opcode, keys)
  }
}
