/**
 * The reference memory: a finite map from address to byte and permissions, with the first fault it
 * has seen. Guest memory refines it; everything else is stated over it.
 */
module FlatMemory {
  import opened Wrappers

  const PAGE_SIZE: int := 0x1000

  const READ: bv8 := 1
  const WRITE: bv8 := 2
  const READ_WRITE: bv8 := 3
  const ALL: bv8 := 7

  datatype FaultKind = Unmapped | Permission | Unsupported | BackendError

  datatype Operation = MapOp | ReadOp | WriteOp | UnsupportedOp {
    function Name(): string {
      match this
      case MapOp => "map"
      case ReadOp => "read"
      case WriteOp => "write"
      case UnsupportedOp => "unsupported"
    }
  }

  /** The diagnostic text of a fault; an unsupported intrinsic leaves its own name. */
  datatype Detail = NotMapped | NotAllowed | RangeOverflow | MappingOverflow | Intrinsic(name: string) {
    function Text(): string {
      match this
      case NotMapped => "page is not mapped"
      case NotAllowed => "page permissions do not allow access"
      case RangeOverflow => "access range overflows uint64_t"
      case MappingOverflow => "mapping range overflows uint64_t"
      case Intrinsic(name) => name
    }
  }

  datatype MemoryFault = MemoryFault(kind: FaultKind, address: u64, size: u64, operation: Operation, detail: Detail)

  datatype Cell = Cell(value: byte, permissions: bv8)

  type Cells = map<u64, Cell>

  datatype Memory = Memory(cells: Cells, fault: Option<MemoryFault>)

  const EMPTY := Memory(map[], None)

  function PageBase(address: int): int {
    address - address % 0x1000
  }

  function PageOffset(address: int): (offset: int)
    ensures 0 <= offset < PAGE_SIZE
  {
    address % 0x1000
  }

  function Min(a: int, b: int): (m: int)
    ensures m <= a && m <= b && (m == a || m == b)
  {
    if a < b then a else b
  }

  /** Does a range of `size` bytes run past the last address? */
  predicate Wraps(address: u64, size: nat) {
    size != 0 && address + size > TWO64
  }

  predicate Accessible(cells: Cells, address: int, required: bv8) {
    address in cells && cells[address].permissions & required == required
  }

  predicate AllAccessible(cells: Cells, address: int, size: nat, required: bv8) {
    forall x :: address <= x < address + size ==> Accessible(cells, x, required)
  }

  /** How many bytes from `address` on are accessible, up to `size`. */
  function AccessiblePrefix(cells: Cells, address: int, size: nat, required: bv8): (k: nat)
    ensures k <= size
    ensures AllAccessible(cells, address, k, required)
    ensures k < size ==> !Accessible(cells, address + k, required)
    decreases size
  {
    if size == 0 || !Accessible(cells, address, required) then 0
    else 1 + AccessiblePrefix(cells, address + 1, size - 1, required)
  }

  function BlockedFault(cells: Cells, address: u64, size: u64, operation: Operation): MemoryFault {
    if address !in cells
    then MemoryFault(Unmapped, address, size, operation, NotMapped)
    else MemoryFault(Permission, address, size, operation, NotAllowed)
  }

  /** The fault an access raises: a wrap first, else the rest of the page from the first blocked byte on. */
  function AccessFault(cells: Cells, address: u64, size: u64, required: bv8,
      operation: Operation): (r: Option<MemoryFault>)
    ensures r.None? <==> !Wraps(address, size) && AllAccessible(cells, address, size, required)
  {
    if size == 0 then None
    else if Wraps(address, size)
    then Some(MemoryFault(BackendError, address, size, operation, RangeOverflow))
    else
      var k := AccessiblePrefix(cells, address, size, required);
      if k == size then None
      else Some(BlockedFault(cells, address + k, Min(size - k, PAGE_SIZE - PageOffset(address + k)), operation))
  }

  /** Only the first fault is kept. */
  function Raise(m: Memory, fault: MemoryFault): Memory {
    if m.fault.None? then m.(fault := Some(fault)) else m
  }

  predicate AllMapped(cells: Cells, address: int, size: nat) {
    forall x :: address <= x < address + size ==> x in cells
  }

  lemma AccessibleIsMapped(cells: Cells, address: int, size: nat, required: bv8)
    requires AllAccessible(cells, address, size, required)
    ensures AllMapped(cells, address, size)
  {
    forall x | address <= x < address + size ensures x in cells {
      assert Accessible(cells, x, required);
    }
  }

  function Peek(cells: Cells, address: int, size: nat): (bytes: seq<byte>)
    requires AllMapped(cells, address, size)
    ensures |bytes| == size
  {
    seq<byte>(size, i requires 0 <= i < size => cells[address + i].value)
  }

  function Poke(cells: Cells, address: int, bytes: seq<byte>): (cells': Cells)
    ensures cells'.Keys == cells.Keys
  {
    map x | x in cells ::
      if address <= x < address + |bytes| then Cell(bytes[x - address], cells[x].permissions) else cells[x]
  }

  predicate InRange(x: int, low: int, high: int) { low <= x < high }

  function Range(low: u64, high: int): set<u64> {
    set x: u64 | low <= x < high && InRange(x, low, high)
  }

  /** New bytes are zero, old bytes stay, and the permissions of the whole range are replaced. */
  function Cover(cells: Cells, low: u64, high: int, permissions: bv8): (cells': Cells)
    ensures cells'.Keys == cells.Keys + Range(low, high)
  {
    map x | x in cells.Keys + Range(low, high) ::
      if low <= x < high then Cell(if x in cells then cells[x].value else 0, permissions) else cells[x]
  }

  datatype Access = Access(memory: Memory, ok: bool, bytes: seq<byte>)

  function Zeros(size: nat): seq<byte> {
    seq(size, _ => 0)
  }

  function Read(m: Memory, address: u64, size: u64): (r: Access)
    ensures |r.bytes| == size
    ensures r.memory.cells == m.cells
  {
    match AccessFault(m.cells, address, size, READ, ReadOp)
    case Some(fault) => Access(Raise(m, fault), false, Zeros(size))
    case None =>
      assert AllMapped(m.cells, address, size) by { AccessibleIsMapped(m.cells, address, size, READ); }
      Access(m, true, Peek(m.cells, address, size))
  }

  function Write(m: Memory, address: u64, bytes: seq<byte>): (r: Access)
    requires |bytes| < TWO64
    ensures r.memory.cells.Keys == m.cells.Keys
    ensures !r.ok ==> r.memory.cells == m.cells
  {
    match AccessFault(m.cells, address, |bytes|, WRITE, WriteOp)
    case Some(fault) => Access(Raise(m, fault), false, [])
    case None => Access(m.(cells := Poke(m.cells, address, bytes)), true, [])
  }

  function MapRange(m: Memory, address: u64, size: u64, permissions: bv8): Access {
    if size == 0 then Access(m, true, [])
    else if Wraps(address, size)
    then Access(Raise(m, MemoryFault(BackendError, address, size, MapOp, MappingOverflow)), false, [])
    else
      var covered := Cover(m.cells, PageBase(address), PageBase(address + size - 1) + PAGE_SIZE, permissions);
      Access(m.(cells := covered), true, [])
  }

  lemma PeekSlice(cells: Cells, address: int, size: nat, done: nat, chunk: nat)
    requires AllMapped(cells, address, size) && done + chunk <= size
    ensures AllMapped(cells, address + done, chunk)
    ensures Peek(cells, address, size)[..done + chunk]
         == Peek(cells, address, size)[..done] + Peek(cells, address + done, chunk)
  {
  }

  lemma NothingIsAccessible(cells: Cells, address: int, required: bv8)
    ensures AllAccessible(cells, address, 0, required)
  {
  }

  lemma AllAccessibleExtends(cells: Cells, address: int, done: nat, chunk: nat, required: bv8)
    requires AllAccessible(cells, address, done, required)
    requires AllAccessible(cells, address + done, chunk, required)
    ensures AllAccessible(cells, address, done + chunk, required)
  {
  }

  lemma AccessFaultAtOnce(cells: Cells, address: u64, size: u64, required: bv8, operation: Operation)
    ensures size == 0 ==> AccessFault(cells, address, size, required, operation) == None
    ensures Wraps(address, size) ==>
      AccessFault(cells, address, size, required, operation)
      == Some(MemoryFault(BackendError, address, size, operation, RangeOverflow))
  {
  }

  lemma AllAccessibleIsClear(cells: Cells, address: u64, size: u64, required: bv8, operation: Operation)
    requires address + size <= TWO64 && AllAccessible(cells, address, size, required)
    ensures AccessFault(cells, address, size, required, operation) == None
  {
  }

  /** What an access raises when its first blocked byte is known. */
  lemma BlockedAt(cells: Cells, address: u64, size: u64, required: bv8, operation: Operation, k: nat)
    requires !Wraps(address, size) && k < size
    requires AllAccessible(cells, address, k, required) && !Accessible(cells, address + k, required)
    ensures AccessFault(cells, address, size, required, operation)
         == Some(BlockedFault(cells, address + k, Min(size - k, PAGE_SIZE - PageOffset(address + k)), operation))
  {
    AccessiblePrefixIs(cells, address, size, required, k);
  }

  lemma PokeEmpty(cells: Cells, address: int)
    ensures Poke(cells, address, []) == cells
  {
  }

  lemma PokePoke(cells: Cells, address: int, a: seq<byte>, b: seq<byte>)
    ensures Poke(Poke(cells, address, a), address + |a|, b) == Poke(cells, address, a + b)
  {
  }

  lemma CoverNothing(cells: Cells, address: u64, permissions: bv8)
    ensures Cover(cells, address, address, permissions) == cells
  {
  }

  lemma CoverCover(cells: Cells, low: u64, middle: u64, high: int, permissions: bv8)
    requires low <= middle <= high
    ensures Cover(Cover(cells, low, middle, permissions), middle, high, permissions)
      == Cover(cells, low, high, permissions)
  {
  }

  /** The prefix is the only number that separates accessible bytes from a blocked one. */
  lemma AccessiblePrefixIs(cells: Cells, address: int, size: nat, required: bv8, k: nat)
    requires k <= size
    requires AllAccessible(cells, address, k, required)
    requires k < size ==> !Accessible(cells, address + k, required)
    ensures AccessiblePrefix(cells, address, size, required) == k
  {
    var p := AccessiblePrefix(cells, address, size, required);
    assert p < size ==> !Accessible(cells, address + p, required);
    assert k < p ==> Accessible(cells, address + k, required);
  }
}
