/**
 * Two register-offset bit tests whose offset leaves the serialised cell: one whose written file the
 * reader refuses, and one whose bit the opcode hides.
 */
module BitTestExamples {
  import opened Wrappers
  import opened Text
  import opened Numbers
  import opened PooledFormat
  import opened PublicItems
  import opened PublicWriter
  import opened PublicReading
  import opened PublicRoundTrip
  import opened PublicReadable
  import opened BitTest
  import P = X86TesterParser
  import C = ConvertTestVectors
  import LE = LittleEndian

  // ---- The converter's default addresses ----

  const ENTRY := 0x6666_6666_0000
  const PAGE := 0x1000
  const MEM0 := 0x6666_6601_0100

  const WIDTH := "qword ptr ["
  const OPERAND := [' '] + "rbx"
  const INSTRUCTION := "bt " + WIDTH + "rax]" + [','] + OPERAND
  const OPCODE := "480FA318"

  /** `bt [rax], rbx` with one row, whose carry is the low bit of the final flags. */
  function BitTestCase(initial: StateObject, flag: int): PublicCase {
    PublicCase("BT", INSTRUCTION, OPCODE, [PublicRow(Some(initial), Some([Entry("flag", flag)]), None)])
  }

  // ---- What the converter sees ----

  lemma {:induction false} ContainsAt(text: string, pattern: string, k: nat)
    requires k <= |text| && StartsWith(text[k..], pattern)
    ensures Contains(text, pattern)
    decreases k
  {
    if k > 0 {
      assert text[1..][k - 1..] == text[k..];
      ContainsAt(text[1..], pattern, k - 1);
    }
  }

  lemma {:induction false} AfterLastCommaIs(prefix: string, tail: string)
    requires ',' !in tail
    ensures AfterLastComma(prefix + [','] + tail) == Some(tail)
    decreases |tail|
  {
    var text := prefix + [','] + tail;
    if tail != "" {
      var init := tail[..|tail| - 1];
      assert text[..|text| - 1] == prefix + [','] + init;
      assert init + [tail[|tail| - 1]] == tail;
      AfterLastCommaIs(prefix, init);
    }
  }

  predicate NoUpper(text: string) {
    forall i :: 0 <= i < |text| ==> !IsUpper(text[i])
  }

  lemma LowerIsSame(text: string)
    requires NoUpper(text)
    ensures ToLower(text) == text
  {
  }

  lemma NoUpperAppend(a: string, b: string)
    requires NoUpper(a) && NoUpper(b)
    ensures NoUpper(a + b)
  {
  }

  lemma InstructionIsLower()
    ensures ToLower(INSTRUCTION) == INSTRUCTION
  {
    hide NoUpper, ToLower;
    PiecesAreLower();
    NoUpperAppend("bt ", WIDTH);
    NoUpperAppend("bt " + WIDTH, "rax]");
    NoUpperAppend("bt " + WIDTH + "rax]", [',']);
    NoUpperAppend("bt " + WIDTH + "rax]" + [','], OPERAND);
    LowerIsSame(INSTRUCTION);
  }

  lemma PiecesAreLower()
    ensures NoUpper("bt ") && NoUpper(WIDTH) && NoUpper("rax]") && NoUpper([',']) && NoUpper(OPERAND)
  {
  }

  lemma OperandsAre()
    ensures MemoryWidth(INSTRUCTION) == Some(Qword)
    ensures AfterLastComma(INSTRUCTION) == Some(OPERAND)
    ensures RegisterWidth(OPERAND) == Some(R64)
  {
    hide Contains, ToLower, RegisterWidth;
    InstructionIsLower();
    WidthIsThere();
    AfterLastCommaIs("bt " + WIDTH + "rax]", OPERAND);
    RegisterIs();
  }

  lemma WidthIsThere()
    ensures Contains(INSTRUCTION, WIDTH)
  {
    hide Contains;
    var rest := "rax]" + [','] + OPERAND;
    assert INSTRUCTION == "bt " + (WIDTH + rest);
    assert INSTRUCTION[3..] == WIDTH + rest;
    ContainsAt(INSTRUCTION, WIDTH, 3);
  }

  lemma RegisterIs()
    ensures RegisterWidth(OPERAND) == Some(R64)
  {
    hide Trim, ToLower;
    NameIsKey("rbx");
    RbxIsTrimmed();
    BlankTrimmed("rbx");
  }

  lemma RbxIsTrimmed()
    ensures Trimmed("rbx")
  {
  }

  /** One blank before a trimmed name goes. */
  lemma BlankTrimmed(name: string)
    requires name != "" && Trimmed(name)
    ensures Trim([' '] + name) == name
  {
    hide TrimRight;
    assert ([' '] + name)[1..] == name;
    NothingToTrim(name);
  }

  lemma NothingToTrim(text: string)
    requires text != "" && Trimmed(text)
    ensures TrimRight(text) == text && TrimLeft(text) == text
  {
  }

  lemma TestIs(initial: StateObject, rbx: int, flag: int)
    requires Lookup(initial, "rbx") == Some(rbx)
    ensures var row := BitTestCase(initial, flag).rows[0];
      TestOf("BT", INSTRUCTION, row.initial, row.final) == Some(Test(Qword, SignExtend(rbx, R64), flag % 2 == 1))
  {
    hide Contains, AfterLastComma, RegisterWidth, MemoryWidth, SignExtend;
    OperandsAre();
    assert ToUpper("BT") == "BT";
    assert Lookup([Entry("flag", flag)], "flag") == Some(flag);
  }

  // ---- That it writes the case ----

  lemma OpcodeIs()
    ensures ToUpper(OPCODE) == OPCODE && GoodHex(OPCODE) && AllDigits(OPCODE, 16) && NoSpace(OPCODE)
    ensures InstructionAddress(OPCODE, ENTRY, PAGE) == Ok(ENTRY + PAGE - 4)
  {
    hide Squeeze;
    assert Squeeze(OPCODE) == OPCODE;
  }

  /** A register name in lower case is its own key. */
  lemma NameIsKey(name: string)
    requires name != "" && (forall i :: 0 <= i < |name| ==> IsLower(name[i])) && name[0] != 'm'
    ensures Trim(name) == name && ToLower(name) == name
    ensures PlainKey(name) && P.ParseMemoryAddressKey(name) == Ok(None)
  {
    assert ToLower(name) == name;
    assert "mem["[0] == 'm' && "mem@"[0] == 'm';
  }

  lemma KeysAre()
    ensures StateKey("rbx") == "rbx" && StateKey("flag") == "flags"
    ensures PlainKey("rbx") && PlainKey("flags")
    ensures P.ParseMemoryAddressKey("rbx") == Ok(None) && P.ParseMemoryAddressKey("flags") == Ok(None)
  {
    hide Trim, ToLower, PlainKey, P.ParseMemoryAddressKey;
    NameIsKey("rbx");
    NameIsKey("flag");
    NameIsKey("flags");
  }

  lemma OneRowHasAllKeys(items: seq<Pair>, zerosAllowed: bool)
    ensures HasAllKeys(items, [items], zerosAllowed)
  {
    hide HasKey;
  }

  /** A case of one row is written whenever the row names no key twice. */
  lemma OneRowWidens(c: PublicCase, entry: int, pageSize: int, mem0: int)
    requires |c.rows| == 1 && InstructionAddress(ToUpper(c.opcode), entry, pageSize).Ok?
    requires DistinctItems(InputItems(c, c.rows[0], mem0)) && DistinctItems(OutputItems(c.rows[0], mem0))
    ensures Widen(c, entry, pageSize, mem0).Ok?
  {
    hide InputItems, OutputItems, HasAllKeys, DistinctItems, Widen, InstructionAddress, ToUpper;
    assert InputLists(c, c.rows, mem0) == [InputItems(c, c.rows[0], mem0)];
    assert OutputLists(c.rows, mem0) == [OutputItems(c.rows[0], mem0)];
    OneRowHasAllKeys(InputItems(c, c.rows[0], mem0), true);
    OneRowHasAllKeys(OutputItems(c.rows[0], mem0), false);
    WidensExactly(c, entry, pageSize, mem0);
  }

  lemma MemoryKeyStarts(address: int)
    ensures MemoryKey(address) != "" && MemoryKey(address)[0] == 'm'
  {
  }

  lemma OutputIs(c: PublicCase, initial: StateObject, flag: int)
    requires c == BitTestCase(initial, flag)
    ensures OutputItems(c.rows[0], MEM0) == [P.Pair("flags", ValueBytes("flags", flag))]
    ensures DistinctItems(OutputItems(c.rows[0], MEM0))
  {
    hide StateKey, ValueBytes, MemoryKey;
    KeysAre();
  }

  // ---- An element below address zero ----

  /** A one-row case whose bit offset is the least 64-bit integer, with the carry set. */
  function FarBelow(): PublicCase {
    BitTestCase([Entry("rbx", 0x8000_0000_0000_0000)], 1)
  }

  lemma FarBelowTest()
    ensures var row := FarBelow().rows[0];
      var t := Test(Qword, -0x8000_0000_0000_0000, true);
      && TestOf("BT", INSTRUCTION, row.initial, row.final) == Some(t)
      && Materialises(t, MEM0) && ElementAddress(t, MEM0) == MEM0 - 0x1000_0000_0000_0000
  {
    hide TestOf;
    TestIs([Entry("rbx", 0x8000_0000_0000_0000)], 0x8000_0000_0000_0000, 1);
  }

  lemma FarBelowItems()
    ensures DistinctItems(InputItems(FarBelow(), FarBelow().rows[0], MEM0))
  {
    hide StateKey, MemoryKey, TestOf, CellOf, Materialises, ElementAddress, ValueBytes;
    FarBelowTest();
    KeysAre();
    var c := FarBelow();
    var address := MEM0 - 0x1000_0000_0000_0000;
    var t := Test(Qword, -0x8000_0000_0000_0000, true);
    assert Hidden(c, c.rows[0], MEM0) == [CellOf(t, MEM0)];
    MemoryKeyStarts(CellOf(t, MEM0).address);
    var items := InputItems(c, c.rows[0], MEM0);
    var cell := CellOf(t, MEM0);
    var rbx := ValueBytes("rbx", 0x8000_0000_0000_0000);
    assert items == [P.Pair("rbx", rbx), P.Pair(MemoryKey(cell.address), cell.bytes)];
  }

  lemma FarBelowWidens()
    ensures Widen(FarBelow(), ENTRY, PAGE, MEM0).Ok?
    ensures 0 <= Widen(FarBelow(), ENTRY, PAGE, MEM0).value.address < TWO64
  {
    hide Widen, DistinctItems, InputItems, OutputItems, InstructionAddress, GoodHex, ToUpper;
    var c := FarBelow();
    OpcodeIs();
    FarBelowItems();
    OutputIs(c, c.rows[0].initial.value, 1);
    OneRowWidens(c, ENTRY, PAGE, MEM0);
    WidenedAddress(c, ENTRY, PAGE, MEM0);
  }

  lemma InstructionIsPlain()
    ensures GoodAssembly(INSTRUCTION)
  {
  }

  lemma FlagsAreClean(flag: int)
    ensures CleanState(Some([Entry("flag", flag)]))
  {
    hide StateKey, PlainKey, CleanState;
    KeysAre();
    OneEntryClean(Entry("flag", flag));
  }

  lemma BitTestCaseIsClean(initial: StateObject, flag: int)
    requires CleanState(Some(initial))
    ensures CleanCase(BitTestCase(initial, flag)) && BitTestCase(initial, flag).rows != []
  {
    hide CleanState, GoodHex, GoodAssembly, ToUpper, GoodKind;
    OpcodeIs();
    InstructionIsPlain();
    FlagsAreClean(flag);
    assert CleanRow(BitTestCase(initial, flag).rows[0]);
  }

  lemma OneEntryClean(entry: Entry)
    requires PlainKey(StateKey(entry.key))
    ensures CleanState(Some([entry]))
  {
    hide StateKey, PlainKey;
  }

  lemma FarBelowIsClean()
    ensures CleanCase(FarBelow()) && FarBelow().rows != []
  {
    hide StateKey, PlainKey, CleanCase, CleanState, BitTestCase;
    KeysAre();
    OneEntryClean(Entry("rbx", 0x8000_0000_0000_0000));
    BitTestCaseIsClean([Entry("rbx", 0x8000_0000_0000_0000)], 1);
  }

  lemma FarBelowReadsNot()
    ensures !CaseReads(FarBelow(), MEM0)
  {
    hide StateReads, TestOf, Materialises, ElementAddress;
    FarBelowTest();
    assert !ElementReads(FarBelow(), FarBelow().rows[0], MEM0);
    assert !PublicRowReads(FarBelow(), FarBelow().rows[0], MEM0);
  }

  /** The converter writes the row without an error, and the reader refuses every file that holds its group alone. */
  lemma NegativeElementIsUnreadable()
    ensures Widen(FarBelow(), ENTRY, PAGE, MEM0).Ok?
    ensures CleanCase(FarBelow()) && !CaseReads(FarBelow(), MEM0)
    ensures var w := Widen(FarBelow(), ENTRY, PAGE, MEM0).value;
      forall file :: FileNames(file, [w]) && C.AllGoodHex(file.pool) && |file.pool| < TWO64 ==>
        ParsedText(FileText(file)).Err?
  {
    hide *;
    FarBelowWidens();
    FarBelowIsClean();
    FarBelowReadsNot();
    var w := Widen(FarBelow(), ENTRY, PAGE, MEM0).value;
    forall file | FileNames(file, [w]) && C.AllGoodHex(file.pool) && |file.pool| < TWO64
      ensures ParsedText(FileText(file)).Err?
    {
      AloneIsUnreadable(FarBelow(), file);
    }
  }

  lemma AloneIsUnreadable(c: PublicCase, file: File)
    requires CleanCase(c) && !CaseReads(c, MEM0) && c.rows != []
    requires Widen(c, ENTRY, PAGE, MEM0).Ok? && 0 <= Widen(c, ENTRY, PAGE, MEM0).value.address < TWO64
    requires FileNames(file, [Widen(c, ENTRY, PAGE, MEM0).value]) && C.AllGoodHex(file.pool) && |file.pool| < TWO64
    ensures ParsedText(FileText(file)).Err?
  {
    hide Widen, CleanCase, CaseReads, ParsedText, FileText, FileNames, PlainWide, WideUsed, WideReads, GoodWides,
         C.AllGoodHex;
    var w := Widen(c, ENTRY, PAGE, MEM0).value;
    CleanCaseWidens(c, ENTRY, PAGE, MEM0);
    GroupReadsExactly(c, ENTRY, PAGE, MEM0);
    assert !WideReads([w][0]);
    PublicFileReads(file, [w]);
  }

  // ---- An element under the opcode ----

  /** A one-row case whose bit offset leads from mem0 to the end of the code page, with the carry clear. */
  function UnderOpcode(): PublicCase {
    BitTestCase([Entry("rbx", 0x32877E3), Entry("mem0_value", 0)], 0)
  }

  lemma UnderOpcodeTest()
    ensures var row := UnderOpcode().rows[0];
      TestOf("BT", INSTRUCTION, row.initial, row.final) == Some(Test(Qword, 0x32877E3, false))
  {
    hide TestOf;
    TestIs([Entry("rbx", 0x32877E3), Entry("mem0_value", 0)], 0x32877E3, 0);
  }

  lemma Mem0IsPlain()
    ensures NoUpper("mem0_value") && PlainKey("mem0_value")
  {
    hide NoUpper;
    assert "mem0_value" == "mem0" + "_value";
    PartsArePlain();
    NoUpperAppend("mem0", "_value");
  }

  lemma PartsArePlain()
    ensures NoUpper("mem0") && NoUpper("_value")
  {
  }

  lemma Mem0KeyIs()
    ensures StateKey("mem0_value") == "mem0_value" && PlainKey("mem0_value")
  {
    hide NoUpper, ToLower, Trim;
    Mem0IsPlain();
    TrimOfTrimmed("mem0_value");
    LowerIsSame("mem0_value");
  }

  lemma UnderOpcodeItems()
    ensures var c := UnderOpcode();
      && InputItems(c, c.rows[0], MEM0)
         == [P.Pair("rbx", ValueBytes("rbx", 0x32877E3)), P.Pair(MemoryKey(MEM0), LE.Decompose(0, 8))]
      && DistinctItems(InputItems(c, c.rows[0], MEM0))
  {
    hide StateKey, MemoryKey, TestOf, CellOf, ElementAddress, ValueBytes, LE.Decompose;
    UnderOpcodeTest();
    KeysAre();
    Mem0KeyIs();
    MemoryKeyStarts(MEM0);
    var c := UnderOpcode();
    assert Hidden(c, c.rows[0], MEM0) == [];
    var items := InputItems(c, c.rows[0], MEM0);
    assert items == [P.Pair("rbx", ValueBytes("rbx", 0x32877E3)), P.Pair(MemoryKey(MEM0), LE.Decompose(0, 8))];
  }

  lemma UnderOpcodeWidens()
    ensures Widen(UnderOpcode(), ENTRY, PAGE, MEM0).Ok?
    ensures Widen(UnderOpcode(), ENTRY, PAGE, MEM0).value.address == 0x6666_6666_0FFC
  {
    hide Widen, DistinctItems, InputItems, OutputItems, InstructionAddress, GoodHex, ToUpper;
    var c := UnderOpcode();
    OpcodeIs();
    UnderOpcodeItems();
    OutputIs(c, c.rows[0].initial.value, 0);
    OneRowWidens(c, ENTRY, PAGE, MEM0);
    WidenedAddress(c, ENTRY, PAGE, MEM0);
  }

  lemma TwoEntriesClean(first: Entry, second: Entry)
    requires PlainKey(StateKey(first.key)) && PlainKey(StateKey(second.key))
    ensures CleanState(Some([first, second]))
  {
    hide StateKey, PlainKey;
  }

  lemma UnderOpcodeIsClean()
    ensures CleanCase(UnderOpcode()) && UnderOpcode().rows != []
  {
    hide StateKey, PlainKey, CleanCase, CleanState, BitTestCase;
    KeysAre();
    Mem0KeyIs();
    TwoEntriesClean(Entry("rbx", 0x32877E3), Entry("mem0_value", 0));
    BitTestCaseIsClean([Entry("rbx", 0x32877E3), Entry("mem0_value", 0)], 0);
  }

  lemma UnderOpcodeReads()
    ensures CaseReads(UnderOpcode(), MEM0)
  {
    hide StateKey, TestOf, ElementAddress, P.ParseMemoryAddressKey;
    UnderOpcodeTest();
    KeysAre();
    Mem0KeyIs();
    assert PublicRowReads(UnderOpcode(), UnderOpcode().rows[0], MEM0);
  }

  /** The case is written, and its file is read back. */
  lemma UnderOpcodeIsGood()
    ensures Widen(UnderOpcode(), ENTRY, PAGE, MEM0).Ok?
    ensures GoodWide(Widen(UnderOpcode(), ENTRY, PAGE, MEM0).value)
    ensures Widen(UnderOpcode(), ENTRY, PAGE, MEM0).value.address == 0x6666_6666_0FFC
  {
    hide Widen, CleanCase, CaseReads, PlainWide, WideUsed, WideReads, GoodWide, UnderOpcode;
    UnderOpcodeWidens();
    UnderOpcodeIsClean();
    UnderOpcodeReads();
    CleanCaseWidens(UnderOpcode(), ENTRY, PAGE, MEM0);
    GroupReadsExactly(UnderOpcode(), ENTRY, PAGE, MEM0);
    GoodWideIs(Widen(UnderOpcode(), ENTRY, PAGE, MEM0).value);
  }

  lemma WidenedAddress(c: PublicCase, entry: int, pageSize: int, mem0: int)
    requires Widen(c, entry, pageSize, mem0).Ok?
    ensures InstructionAddress(ToUpper(c.opcode), entry, pageSize) == Ok(Widen(c, entry, pageSize, mem0).value.address)
  {
    hide InstructionAddress, ToUpper, MapRows, WidenRows, Union, InputLists, OutputLists, Defaults;
  }
}
