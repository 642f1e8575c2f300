/** The keys and values the public converter prints for one row: `tools/convert_public_parquet.py`. */
module PublicItems {
  import opened Wrappers
  import opened Text
  import opened Numbers
  import opened X86TesterParser
  import opened BitTest
  import opened PooledFormat
  import LE = LittleEndian

  /** One result row of a test case; a missing state object is an empty one. */
  datatype PublicRow = PublicRow(initial: Option<StateObject>, final: Option<StateObject>, exception: Option<string>)

  /** The rows of one test case, which share their name, disassembly and opcode. */
  datatype PublicCase = PublicCase(name: string, instruction: string, opcode: string, rows: seq<PublicRow>)

  function StateKey(key: string): string {
    var k := ToLower(Trim(key));
    if k == "flag" || k == "flags" || k == "eflags" || k == "rflags" then "flags" else k
  }

  const MEM_OPEN := "mem[0x"

  function MemoryKey(address: int): string {
    MEM_OPEN + (if address < 0 then ['-'] + Digits(-address, 16) else Digits(address, 16)) + [']']
  }

  predicate IsMemoryKey(key: string) {
    var k := ToLower(key);
    (StartsWith(k, "mem[") && k[|k| - 1] == ']') || StartsWith(k, "mem@")
  }

  /** `int_le_hex`: 32 bits of the flags and 64 bits of everything else. */
  function ValueBytes(key: string, value: int): seq<byte> {
    LE.Decompose(value, if key == "flags" then 4 else 8)
  }

  function ItemOf(entry: Entry, mem0: int): Pair {
    var key := StateKey(entry.key);
    if key == "mem0_value" then Pair(MemoryKey(mem0), LE.Decompose(entry.value, 8))
    else Pair(key, ValueBytes(key, entry.value))
  }

  function StateItems(state: Option<StateObject>, mem0: int): (items: seq<Pair>) {
    match state
    case None => []
    case Some(entries) => seq(|entries|, i requires 0 <= i < |entries| => ItemOf(entries[i], mem0))
  }

  function HiddenItems(cells: seq<HiddenCell>): (items: seq<Pair>)
    ensures |items| == |cells|
  {
    seq(|cells|, i requires 0 <= i < |cells| => Pair(MemoryKey(cells[i].address), cells[i].bytes))
  }

  function Hidden(c: PublicCase, row: PublicRow, mem0: int): seq<HiddenCell> {
    HiddenMemory(c.name, c.instruction, row.initial, row.final, mem0)
  }

  function InputItems(c: PublicCase, row: PublicRow, mem0: int): seq<Pair> {
    StateItems(row.initial, mem0) + HiddenItems(Hidden(c, row, mem0))
  }

  /** An empty exception text counts as none. */
  predicate Raises(row: PublicRow) {
    row.exception.Some? && row.exception.value != ""
  }

  function OutputItems(row: PublicRow, mem0: int): seq<Pair> {
    if Raises(row) then [] else StateItems(row.final, mem0)
  }

  // ---- Which memory keys the reader takes back ----

  lemma LowerDigit(c: char, base: int)
    ensures DigitValue(LowerChar(c)) == DigitValue(c)
    ensures IsDigit(LowerChar(c), base) == IsDigit(c, base)
  {
  }

  lemma {:induction false} LowerDigitsValue(text: string, base: int)
    requires IsBase(base) && AllDigits(text, base)
    ensures AllDigits(ToLower(text), base) && DigitsValue(ToLower(text), base) == DigitsValue(text, base)
    decreases |text|
  {
    forall i | 0 <= i < |text| ensures IsDigit(ToLower(text)[i], base) {
      LowerDigit(text[i], base);
    }
    if text != "" {
      assert ToLower(text)[..|text| - 1] == ToLower(text[..|text| - 1]);
      LowerDigitsValue(text[..|text| - 1], base);
      LowerDigit(text[|text| - 1], base);
    }
  }

  /** `0x` and lower-case digits read back when they fit. */
  lemma LowerHexReads(n: nat)
    ensures ParseUnsigned("0x" + ToLower(Digits(n, 16)), 0) == if n < TWO64 then Some(n) else None
  {
    var digits := Digits(n, 16);
    var lower := ToLower(digits);
    var text := "0x" + lower;
    LowerDigitsValue(digits, 16);
    DigitsRoundTrip(n, 16);
    assert text[2..] == lower;
    assert IsDigit(lower[0], 16);
    forall k | 2 <= k < |text| ensures IsDigit(text[k], 16) {
      assert text[k] == lower[k - 2];
    }
    DigitRunIsAll(text, 2, 16);
    assert text[2..|text|] == lower;
  }

  /** A minus sign after the prefix stops the number at its leading zero. */
  lemma SignedHexFails(digits: string)
    ensures ParseUnsigned("0x-" + digits, 0) == None
  {
    var text := "0x-" + digits;
    assert text[0] == '0' && text[1] == 'x' && text[2] == '-';
    assert DigitRun(text, 0, 8) == 1;
  }

  lemma LowerOfMemoryKey(body: string)
    requires AllUpperHex(body) || (body != "" && body[0] == '-' && AllUpperHex(body[1..]))
    ensures ToLower(Trim(MEM_OPEN + body + [']'])) == MEM_OPEN + ToLower(body) + [']']
    ensures Trimmed(MEM_OPEN + body + [']'])
    ensures var key := MEM_OPEN + body + [']']; ',' !in key && ';' !in key && '\n' !in key
  {
    var key := MEM_OPEN + body + [']'];
    assert key[0] == 'm' && key[|key| - 1] == ']';
    assert forall i :: 0 <= i < |MEM_OPEN| ==> LowerChar(MEM_OPEN[i]) == MEM_OPEN[i] && MEM_OPEN[i] !in ",;\n";
    forall c | c in body ensures c !in ",;\n" {
      var i :| 0 <= i < |body| && body[i] == c;
      assert i > 0 ==> body[i] == body[1..][i - 1];
    }
  }

  lemma BracketedBody(lower: string)
    ensures var key := MEM_OPEN + lower + [']'];
      && StartsWith(key, "mem[") && key[|key| - 1] == ']'
      && key[4..|key| - 1] == "0x" + lower
  {
  }

  /** The reader takes a printed memory key back exactly when its address is a 64-bit one. */
  lemma MemoryKeyReads(address: int)
    ensures ParseMemoryAddressKey(MemoryKey(address))
      == if 0 <= address < TWO64 then Ok(Some(address)) else Err(NotAnInteger)
    ensures PlainKey(MemoryKey(address)) && IsMemoryKey(MemoryKey(address))
  {
    hide Digits, ParseUnsigned, ToLower, Trim;
    if address < 0 {
      var digits := Digits(-address, 16);
      var body := ['-'] + digits;
      assert body[1..] == digits;
      LowerOfMemoryKey(body);
      BracketedBody(ToLower(body));
      LowerMinus(digits);
      SignedHexFails(ToLower(digits));
      assert "0x" + (['-'] + ToLower(digits)) == "0x-" + ToLower(digits);
    } else {
      LowerOfMemoryKey(Digits(address, 16));
      BracketedBody(ToLower(Digits(address, 16)));
      LowerHexReads(address);
    }
    MemoryKeyIsMemory(address);
  }

  lemma LowerMinus(digits: string)
    ensures ToLower(['-'] + digits) == ['-'] + ToLower(digits)
  {
  }

  lemma MemoryKeyIsMemory(address: int)
    ensures IsMemoryKey(MemoryKey(address))
  {
    hide Digits;
    var key := MemoryKey(address);
    var k := ToLower(key);
    assert key[..4] == "mem[";
    assert forall i :: 0 <= i < 4 ==> key[i] == "mem["[i] && k[i] == LowerChar(key[i]);
    assert k[..4] == "mem[";
  }

  /** Distinct addresses print distinct keys. */
  lemma MemoryKeyInjective(a: int, b: int)
    requires 0 <= a < TWO64 && 0 <= b < TWO64 && MemoryKey(a) == MemoryKey(b)
    ensures a == b
  {
    hide MemoryKey, ParseMemoryAddressKey, IsMemoryKey;
    MemoryKeyReads(a);
    MemoryKeyReads(b);
  }
}
