/**
 * The hidden bit-string memory of BT/BTC/BTR/BTS rows (`public_bit_test_hidden_memory` in
 * `tools/convert_public_parquet.py`): which cell a row materialises, and where the cells of one
 * instruction lie relative to each other and to the serialised 8-byte cell.
 */
module BitTest {
  import opened Wrappers
  import opened Text
  import opened Remainders
  import LE = LittleEndian

  /** One entry of a state object; raw keys are distinct. */
  datatype Entry = Entry(key: string, value: int)

  type StateObject = seq<Entry>

  function Lookup(state: StateObject, key: string): Option<int> {
    if state == [] then None
    else if state[0].key == key then Some(state[0].value)
    else Lookup(state[1..], key)
  }

  predicate Contains(text: string, pattern: string)
    decreases |text|
  {
    StartsWith(text, pattern) || (text != "" && Contains(text[1..], pattern))
  }

  datatype Element = Word | Dword | Qword {
    function Size(): nat {
      match this case Word => 2 case Dword => 4 case Qword => 8
    }
  }

  function MemoryWidth(instruction: string): Option<Element> {
    var text := ToLower(instruction);
    if Contains(text, "qword ptr [") then Some(Qword)
    else if Contains(text, "dword ptr [") then Some(Dword)
    else if Contains(text, "word ptr [") then Some(Word)
    else None
  }

  datatype Register = R16 | R32 | R64 {
    function Modulus(): nat {
      match this case R16 => 0x1_0000 case R32 => 0x1_0000_0000 case R64 => 0x1_0000_0000_0000_0000
    }
  }

  function RegisterWidth(source: string): Option<Register> {
    var name := ToLower(Trim(source));
    if name == "rbx" then Some(R64) else if name == "ebx" then Some(R32) else if name == "bx" then Some(R16) else None
  }

  /** Two's complement at the register's width. */
  function SignExtend(value: int, register: Register): int {
    var low := value % register.Modulus();
    if low >= register.Modulus() / 2 then low - register.Modulus() else low
  }

  /** The one number in the register's signed range that has the same low bits. */
  lemma SignExtendIs(value: int, register: Register)
    ensures var n := SignExtend(value, register);
      && 0 - register.Modulus() / 2 <= n < register.Modulus() / 2
      && n % register.Modulus() == value % register.Modulus()
  {
    var m := register.Modulus();
    var low := value % m;
    if low >= m / 2 {
      RemainderShift(low, -1, m);
    }
    RemainderSmall(low, m);
  }

  /** The text after the last comma. */
  function AfterLastComma(text: string): Option<string> {
    if text == "" then None
    else if text[|text| - 1] == ',' then Some("")
    else match AfterLastComma(text[..|text| - 1])
      case None => None
      case Some(tail) => Some(tail + [text[|text| - 1]])
  }

  /** A register-offset bit test on memory: its element, its signed bit offset and the carry its row reports. */
  datatype Test = Test(element: Element, offset: int, carry: bool)

  function TestOf(name: string, instruction: string, initial: Option<StateObject>,
      final: Option<StateObject>): Option<Test> {
    var mnemonic := ToUpper(name);
    if mnemonic != "BT" && mnemonic != "BTC" && mnemonic != "BTR" && mnemonic != "BTS" then None
    else match MemoryWidth(instruction)
      case None => None
      case Some(element) =>
        if initial.None? || final.None? then None
        else match AfterLastComma(instruction)
          case None => None
          case Some(source) =>
            match RegisterWidth(source)
            case None => None
            case Some(register) =>
              match Lookup(initial.value, "rbx")
              case None => None
              case Some(rbx) =>
                match Lookup(final.value, "flag")
                case None => None
                case Some(flag) => Some(Test(element, SignExtend(rbx, register), flag % 2 == 1))
  }

  function ElementBits(element: Element): nat {
    match element case Word => 16 case Dword => 32 case Qword => 64
  }

  function BitIndex(t: Test): nat {
    t.offset % ElementBits(t.element)
  }

  function ElementAddress(t: Test, mem0: int): int {
    mem0 + t.offset / ElementBits(t.element) * t.element.Size()
  }

  predicate InsideMem0(t: Test, mem0: int) {
    mem0 <= ElementAddress(t, mem0) && ElementAddress(t, mem0) + t.element.Size() <= mem0 + 8
  }

  datatype HiddenCell = HiddenCell(address: int, bytes: seq<byte>)

  function CellOf(t: Test, mem0: int): HiddenCell {
    HiddenCell(ElementAddress(t, mem0), LE.Decompose(LE.Pow2(BitIndex(t)), t.element.Size()))
  }

  predicate Materialises(t: Test, mem0: int) {
    !InsideMem0(t, mem0) && t.carry
  }

  function HiddenMemory(name: string, instruction: string, initial: Option<StateObject>, final: Option<StateObject>,
      mem0: int): seq<HiddenCell> {
    match TestOf(name, instruction, initial, final)
    case None => []
    case Some(t) => if Materialises(t, mem0) then [CellOf(t, mem0)] else []
  }

  // ---- Where cells lie ----

  /** Elements sit at whole multiples of their size from the serialised cell. */
  function ElementIndex(t: Test): int {
    t.offset / ElementBits(t.element)
  }

  lemma ElementAddressIs(t: Test, mem0: int)
    ensures t.element == Word ==> ElementAddress(t, mem0) == mem0 + 2 * ElementIndex(t)
    ensures t.element == Dword ==> ElementAddress(t, mem0) == mem0 + 4 * ElementIndex(t)
    ensures t.element == Qword ==> ElementAddress(t, mem0) == mem0 + 8 * ElementIndex(t)
  {
    hide ElementBits;
  }

  predicate Disjoint(a: int, m: nat, b: int, n: nat) {
    a + m <= b || b + n <= a
  }

  /** Two elements of one instruction are the same bytes or share none. */
  lemma ElementsIdenticalOrDisjoint(t: Test, u: Test, mem0: int)
    requires t.element == u.element
    ensures ElementAddress(t, mem0) == ElementAddress(u, mem0)
         || Disjoint(ElementAddress(t, mem0), t.element.Size(), ElementAddress(u, mem0), u.element.Size())
  {
    hide ElementBits, ElementAddress;
    ElementAddressIs(t, mem0);
    ElementAddressIs(u, mem0);
  }

  /** An element not inside the serialised cell does not touch it. */
  lemma ElementAvoidsMem0(t: Test, mem0: int)
    requires !InsideMem0(t, mem0)
    ensures Disjoint(ElementAddress(t, mem0), t.element.Size(), mem0, 8)
  {
    hide ElementBits, ElementAddress;
    ElementAddressIs(t, mem0);
  }

  // ---- The bit itself: floor DIV and MOD by 8 from the serialised cell ----

  /** Section 3.1.1.9 of Intel SDM Vol. 2A: the byte that holds Bit(BitBase, BitOffset). */
  function TargetByte(offset: int, mem0: int): int {
    mem0 + offset / 8
  }

  function BitAt(b: nat, k: nat): nat {
    if k == 0 then b % 2 else BitAt(b / 2, k - 1)
  }

  function TargetBit(offset: int): nat {
    offset % 8
  }

  /** The target byte is byte `BitIndex / 8` of the element, and the target bit is bit `BitIndex % 8` of it. */
  lemma TargetInElement(t: Test, mem0: int)
    ensures BitIndex(t) / 8 < t.element.Size()
    ensures TargetByte(t.offset, mem0) == ElementAddress(t, mem0) + BitIndex(t) / 8
    ensures TargetBit(t.offset) == BitIndex(t) % 8
  {
    match t.element {
      case Word => FloorSplit16(t.offset);
      case Dword => FloorSplit32(t.offset);
      case Qword => FloorSplit64(t.offset);
    }
  }

  lemma FloorSplit16(o: int)
    ensures o / 8 == o / 16 * 2 + o % 16 / 8 && o % 8 == o % 16 % 8 && o % 16 / 8 < 2
  {
  }

  lemma FloorSplit32(o: int)
    ensures o / 8 == o / 32 * 4 + o % 32 / 8 && o % 8 == o % 32 % 8 && o % 32 / 8 < 4
  {
  }

  lemma FloorSplit64(o: int)
    ensures o / 8 == o / 64 * 8 + o % 64 / 8 && o % 8 == o % 64 % 8 && o % 64 / 8 < 8
  {
  }

  /** A single bit lands in exactly one byte. */
  lemma {:induction false} OneBitDecomposed(bit: nat, size: nat, j: nat)
    requires j < size
    ensures LE.Decompose(LE.Pow2(bit), size)[j] == if j == bit / 8 then LE.Pow2(bit % 8) else 0
    decreases size
  {
    LE.Pow2AtLeast(bit);
    if bit >= 8 {
      assert bit / 8 == (bit - 8) / 8 + 1 && bit % 8 == (bit - 8) % 8;
      assert LE.Pow2(bit) / 256 == LE.Pow2(bit - 8) && LE.Pow2(bit) % 256 == 0;
      if j > 0 {
        OneBitDecomposed(bit - 8, size - 1, j - 1);
      }
    } else if j > 0 {
      assert LE.Pow2(bit) / 256 == 0;
      ZeroDecomposed(size - 1, j - 1);
    }
  }

  lemma {:induction false} ZeroDecomposed(size: nat, j: nat)
    requires j < size
    ensures LE.Decompose(0, size)[j] == 0
    decreases size
  {
    if j > 0 {
      ZeroDecomposed(size - 1, j - 1);
    }
  }

  lemma {:induction false} PowerBit(k: nat)
    ensures BitAt(LE.Pow2(k), k) == 1
  {
    if k > 0 {
      PowerBit(k - 1);
    }
  }

  /** A materialised cell holds a one at the target bit. */
  lemma CellHoldsCarry(t: Test, mem0: int)
    ensures var cell := CellOf(t, mem0);
      var j := TargetByte(t.offset, mem0) - cell.address;
      && 0 <= j < |cell.bytes|
      && BitAt(cell.bytes[j], TargetBit(t.offset)) == 1
  {
    hide BitIndex, BitAt, LE.Decompose, ElementAddress, LE.Pow2;
    TargetInElement(t, mem0);
    OneBitDecomposed(BitIndex(t), t.element.Size(), BitIndex(t) / 8);
    LE.Pow2AtLeast(BitIndex(t) % 8);
    PowerBit(TargetBit(t.offset));
  }
}
