/** The x86 state and its textual view, `src/remill_state_bridge.cpp`. */
module StateBridge {
  import opened Wrappers
  import opened Text
  import opened Numbers
  import opened Expectation
  import opened BitLaws
  import opened OrderedKeys
  import X86TesterParser
  import FlatMemory

  // ---- The state ----

  datatype ArithFlags = ArithFlags(cf: bool, pf: bool, af: bool, zf: bool, sf: bool, df: bool, of: bool)

  datatype StatusBits = StatusBits(
    ie: bool, de: bool, ze: bool, oe: bool, ue: bool, pe: bool, sf: bool, c0: bool, c1: bool, c2: bool, c3: bool)

  function ScalarRegisterNames(): set<string> {
    {"rax", "rbx", "rcx", "rdx", "rsi", "rdi", "rsp", "rbp", "r8", "r9", "r10", "r11", "r12", "r13", "r14",
     "r15", "rip"}
  }

  function ZeroRegisters(): map<string, u64> {
    map name | name in ScalarRegisterNames() :: 0
  }

  type Registers = m: map<string, u64> | m.Keys == ScalarRegisterNames() witness ZeroRegisters()

  type VectorBytes = s: seq<byte> | |s| == 64 witness FlatMemory.Zeros(64)
  type VectorFile = s: seq<VectorBytes> | |s| == 32 witness seq<VectorBytes>(32, _ => FlatMemory.Zeros(64))
  type MmxBytes = s: seq<byte> | |s| == 8 witness FlatMemory.Zeros(8)
  type MmxFile = s: seq<MmxBytes> | |s| == 8 witness seq<MmxBytes>(8, _ => FlatMemory.Zeros(8))
  type StackBytes = s: seq<byte> | |s| == 10 witness FlatMemory.Zeros(10)
  type StackFile = s: seq<StackBytes> | |s| == 8 witness seq<StackBytes>(8, _ => FlatMemory.Zeros(10))

  datatype MachineState = MachineState(
    gpr: Registers, rflag: bv64, aflag: ArithFlags, sw: StatusBits, fxsaveSwd: bv16, fsaveSwd: bv16,
    vec: VectorFile, mmx: MmxFile, st: StackFile)

  // ---- Flags ----

  const CF: bv64 := 0x1
  const PF: bv64 := 0x4
  const AF: bv64 := 0x10
  const ZF: bv64 := 0x40
  const SF: bv64 := 0x80
  const DF: bv64 := 0x400
  const OF: bv64 := 0x800

  function FlagsOf(f: bv64): ArithFlags {
    ArithFlags(f & CF != 0, f & PF != 0, f & AF != 0, f & ZF != 0, f & SF != 0, f & DF != 0, f & OF != 0)
  }

  function WithFlags(s: MachineState, f: bv64): MachineState {
    s.(rflag := f | 0x2, aflag := FlagsOf(f))
  }

  function SetOrClear(flags: bv64, mask: bv64, value: bool): bv64 {
    if value then flags | mask else flags & !mask
  }

  function GetFlags(s: MachineState): bv64 {
    var f0 := s.rflag | 0x2;
    var f1 := SetOrClear(f0, CF, s.aflag.cf);
    var f2 := SetOrClear(f1, PF, s.aflag.pf);
    var f3 := SetOrClear(f2, AF, s.aflag.af);
    var f4 := SetOrClear(f3, ZF, s.aflag.zf);
    var f5 := SetOrClear(f4, SF, s.aflag.sf);
    var f6 := SetOrClear(f5, DF, s.aflag.df);
    SetOrClear(f6, OF, s.aflag.of)
  }

  lemma KeepBit(f: bv64, mask: bv64)
    requires mask == 0x1 || mask == 0x4 || mask == 0x10 || mask == 0x40 || mask == 0x80 || mask == 0x400
      || mask == 0x800
    ensures SetOrClear(f | 0x2, mask, f & mask != 0) == f | 0x2
  {
  }

  /** Flags read back with the always-one bit set: section 3.4.3 of Intel SDM Vol. 1. */
  lemma FlagsRoundTrip(s: MachineState, f: bv64)
    ensures GetFlags(WithFlags(s, f)) == f | 0x2
  {
    hide SetOrClear;
    KeepBit(f, CF);
    KeepBit(f, PF);
    KeepBit(f, AF);
    KeepBit(f, ZF);
    KeepBit(f, SF);
    KeepBit(f, DF);
    KeepBit(f, OF);
  }

  /** Whatever lifted code leaves in the arithmetic flags wins over the packed word. */
  lemma ArithFlagsWin(s: MachineState)
    ensures FlagsOf(GetFlags(s)) == s.aflag
  {
  }

  // ---- x87 status ----

  function StatusWord(value: u64): bv16 {
    (value as bv64 & 0x7f7f) as bv16
  }

  function StatusBitsOf(w: bv16): StatusBits {
    StatusBits(w & 0x1 != 0, w & 0x2 != 0, w & 0x4 != 0, w & 0x8 != 0, w & 0x10 != 0, w & 0x20 != 0, w & 0x40 != 0,
               w & 0x100 != 0, w & 0x200 != 0, w & 0x400 != 0, w & 0x4000 != 0)
  }

  function WithX87Status(s: MachineState, w: bv16): MachineState {
    s.(fxsaveSwd := w, fsaveSwd := w, sw := StatusBitsOf(w))
  }

  function StatusBit(value: bool, mask: bv16): bv16 {
    if value then mask else 0
  }

  function PackFirst(top: bv16, b: StatusBits): bv16 {
    top | StatusBit(b.ie, 0x1) | StatusBit(b.de, 0x2) | StatusBit(b.ze, 0x4) | StatusBit(b.oe, 0x8)
  }

  function PackSecond(top: bv16, b: StatusBits): bv16 {
    top | StatusBit(b.ue, 0x10) | StatusBit(b.pe, 0x20) | StatusBit(b.sf, 0x40)
  }

  function PackThird(top: bv16, b: StatusBits): bv16 {
    top | StatusBit(b.c0, 0x100) | StatusBit(b.c1, 0x200)
  }

  function PackFourth(top: bv16, b: StatusBits): bv16 {
    top | StatusBit(b.c2, 0x400)
  }

  function PackLast(top: bv16, b: StatusBits): bv16 {
    top | StatusBit(b.c3, 0x4000)
  }

  function PackStatus(top: bv16, b: StatusBits): bv16 {
    PackLast(PackFourth(PackThird(PackSecond(PackFirst(top, b), b), b), b), b)
  }

  function GetX87Status(s: MachineState): bv16 {
    PackStatus(s.fxsaveSwd & 0x3800, s.sw)
  }

  lemma FirstBits(w: bv16)
    ensures PackFirst(w & 0x3800, StatusBitsOf(w)) == w & 0x380f
  {
  }

  lemma SecondBits(w: bv16)
    ensures PackSecond(w & 0x380f, StatusBitsOf(w)) == w & 0x387f
  {
  }

  lemma ThirdBits(w: bv16)
    ensures PackThird(w & 0x387f, StatusBitsOf(w)) == w & 0x3b7f
  {
  }

  lemma FourthBit(w: bv16, b: StatusBits)
    requires b.c2 == (w & 0x400 != 0)
    ensures PackFourth(w & 0x3b7f, b) == w & 0x3f7f
  {
    KeepBit10(w, b.c2);
  }

  lemma LastBit(w: bv16, b: StatusBits)
    requires b.c3 == (w & 0x4000 != 0)
    ensures PackLast(w & 0x3f7f, b) == w & 0x7f7f
  {
    KeepBit14(w, b.c3);
  }

  lemma TopConditions(w: bv16)
    ensures StatusBitsOf(w).c2 == (w & 0x400 != 0) && StatusBitsOf(w).c3 == (w & 0x4000 != 0)
  {
  }

  /** The status word reads back without the busy and summary bits: section 8.1.3 of Intel SDM Vol. 1. */
  lemma X87StatusRoundTrip(s: MachineState, w: bv16)
    ensures GetX87Status(WithX87Status(s, w)) == w & 0x7f7f
  {
    hide PackFirst, PackSecond, PackThird, PackFourth, PackLast, StatusBitsOf;
    FirstBits(w);
    SecondBits(w);
    ThirdBits(w);
    TopConditions(w);
    FourthBit(w, StatusBitsOf(w));
    LastBit(w, StatusBitsOf(w));
  }

  lemma StatusWordMasked(value: u64)
    ensures StatusWord(value) & 0x7f7f == StatusWord(value)
  {
    MaskTwice(value as bv64);
  }

  lemma MaskTwice(v: bv64)
    ensures ((v & 0x7f7f) as bv16) & 0x7f7f == (v & 0x7f7f) as bv16
  {
  }

  /** What an initial state sets is what a snapshot shows, once masked. */
  lemma X87StatusReadsBack(s: MachineState, value: u64)
    ensures GetX87Status(WithX87Status(s, StatusWord(value))) == StatusWord(value)
  {
    hide StatusWord, GetX87Status, WithX87Status;
    X87StatusRoundTrip(s, StatusWord(value));
    StatusWordMasked(value);
  }

  // ---- Byte registers ----

  datatype Kind = Vector | Mmx | X87Stack

  datatype ByteRegister = ByteRegister(kind: Kind, index: nat, size: nat)

  /** `std::from_chars` over a whole text, below a limit. */
  function ParseIndex(text: string, limit: nat): Option<nat> {
    if text == "" || !AllDigits(text, 10) || DigitsValue(text, 10) >= limit then None else Some(DigitsValue(text, 10))
  }

  function RegisterAt(kind: Kind, text: string, limit: nat, size: nat): Option<ByteRegister> {
    match ParseIndex(text, limit)
    case None => None
    case Some(index) => Some(ByteRegister(kind, index, size))
  }

  function ParseByteRegisterName(rawName: string): (r: Option<ByteRegister>)
    ensures r.Some? ==> r.value.index < FileLength(r.value.kind) && 0 < r.value.size <= SlotSize(r.value.kind)
    ensures r.Some? && r.value.kind != Vector ==> r.value.size == SlotSize(r.value.kind)
  {
    var name := ToLower(rawName);
    if StartsWith(name, "xmm") then RegisterAt(Vector, name[3..], 32, 16)
    else if StartsWith(name, "ymm") then RegisterAt(Vector, name[3..], 32, 32)
    else if StartsWith(name, "zmm") then RegisterAt(Vector, name[3..], 32, 64)
    else if StartsWith(name, "mm") then RegisterAt(Mmx, name[2..], 8, 8)
    else if StartsWith(name, "st") then RegisterAt(X87Stack, name[2..], 8, 10)
    else None
  }

  predicate IsByteRegister(name: string) {
    ParseByteRegisterName(name).Some?
  }

  predicate IsScalarRegister(name: string) {
    ToLower(name) in ScalarRegisterNames()
  }

  function FileLength(kind: Kind): nat {
    if kind == Vector then 32 else 8
  }

  function SlotSize(kind: Kind): nat {
    match kind case Vector => 64 case Mmx => 8 case X87Stack => 10
  }

  /** All bytes of one slot of a register file. */
  function Slot(s: MachineState, kind: Kind, index: nat): (bytes: seq<byte>)
    requires index < FileLength(kind)
    ensures |bytes| == SlotSize(kind)
  {
    match kind case Vector => s.vec[index] case Mmx => s.mmx[index] case X87Stack => s.st[index]
  }

  /** `memcpy` over the front of a slot. */
  function WithSlot(s: MachineState, kind: Kind, index: nat, bytes: seq<byte>): MachineState
    requires index < FileLength(kind) && |bytes| <= SlotSize(kind)
  {
    var slot := bytes + Slot(s, kind, index)[|bytes|..];
    match kind
    case Vector => s.(vec := s.vec[index := slot])
    case Mmx => s.(mmx := s.mmx[index := slot])
    case X87Stack => s.(st := s.st[index := slot])
  }

  function WithByteRegister(s: MachineState, name: string, bytes: seq<byte>): Option<MachineState> {
    match ParseByteRegisterName(name)
    case None => None
    case Some(r) => if |bytes| != r.size then None else Some(WithSlot(s, r.kind, r.index, bytes))
  }

  function GetByteRegister(s: MachineState, name: string): Option<seq<byte>> {
    match ParseByteRegisterName(name)
    case None => None
    case Some(r) => Some(Slot(s, r.kind, r.index)[..r.size])
  }

  lemma RipIsScalar()
    ensures IsScalarRegister("rip")
  {
    assert ToLower("rip") == "rip";
  }

  // ---- Initial state ----

  datatype ApplyError =
    | UnsupportedScalarKey(key: string)
    | InvalidByteState(key: string)
    | UnsupportedByteKey(key: string)
  {
    function Text(): string {
      match this
      case UnsupportedScalarKey(key) => "unsupported scalar state key: " + key
      case InvalidByteState(key) => "invalid byte state for register: " + key
      case UnsupportedByteKey(key) => "unsupported byte state key: " + key
    }
  }

  function ApplyScalar(s: MachineState, rawKey: string, value: u64): Result<MachineState, ApplyError> {
    var key := X86TesterParser.CanonicalStateKey(rawKey);
    if key == "flag" then Ok(WithFlags(s, value as bv64))
    else if key == "cr0" then Ok(s)
    else if key == "x87status" then Ok(WithX87Status(s, StatusWord(value)))
    else if IsScalarRegister(key) then Ok(WithScalar(s, key, value))
    else if IsByteRegister(key) then Ok(s)
    else Err(UnsupportedScalarKey(key))
  }

  function WithScalar(s: MachineState, name: string, value: u64): MachineState
    requires IsScalarRegister(name)
  {
    s.(gpr := s.gpr[ToLower(name) := value])
  }

  function ApplyBytes(s: MachineState, rawKey: string, bytes: seq<byte>): Result<MachineState, ApplyError> {
    var key := X86TesterParser.CanonicalStateKey(rawKey);
    if key == "flag" || key == "cr0" || key == "x87status" || IsScalarRegister(key) then Ok(s)
    else if IsByteRegister(key) then
      match WithByteRegister(s, key, bytes)
      case None => Err(InvalidByteState(key))
      case Some(s') => Ok(s')
    else Err(UnsupportedByteKey(key))
  }

  function ApplyScalars(s: MachineState, values: Scalars, keys: seq<string>): Result<MachineState, ApplyError>
    requires forall k :: k in keys ==> k in values
  {
    if keys == [] then Ok(s)
    else match ApplyScalars(s, values, keys[..|keys| - 1])
      case Err(e) => Err(e)
      case Ok(s') => ApplyScalar(s', keys[|keys| - 1], values[keys[|keys| - 1]])
  }

  function ApplyAllBytes(s: MachineState, values: ByteStates, keys: seq<string>): Result<MachineState, ApplyError>
    requires forall k :: k in keys ==> k in values
  {
    if keys == [] then Ok(s)
    else match ApplyAllBytes(s, values, keys[..|keys| - 1])
      case Err(e) => Err(e)
      case Ok(s') => ApplyBytes(s', keys[|keys| - 1], values[keys[|keys| - 1]])
  }

  /** Scalars first, then bytes, each in key order. */
  function Apply(s: MachineState, scalars: Scalars, bytes: ByteStates): Result<MachineState, ApplyError> {
    match ApplyScalars(s, scalars, Sorted(scalars.Keys))
    case Err(e) => Err(e)
    case Ok(s') => ApplyAllBytes(s', bytes, Sorted(bytes.Keys))
  }

  /** `ResetState`: everything zero except the always-one flag bit. */
  function Reset(): MachineState {
    WithFlags(
      MachineState(ZeroRegisters(), 0, ArithFlags(false, false, false, false, false, false, false),
                   StatusBits(false, false, false, false, false, false, false, false, false, false, false), 0, 0,
                   seq<VectorBytes>(32, _ => FlatMemory.Zeros(64)), seq<MmxBytes>(8, _ => FlatMemory.Zeros(8)),
                   seq<StackBytes>(8, _ => FlatMemory.Zeros(10))), 0)
  }

  // ---- Who wins on shared bytes ----

  /** Does writing under `key` touch byte `j` of a slot? */
  predicate Covers(key: string, kind: Kind, index: nat, j: nat) {
    var r := ParseByteRegisterName(X86TesterParser.CanonicalStateKey(key));
    r.Some? && r.value.kind == kind && r.value.index == index && j < r.value.size
  }

  /** The last key of a list that covers a byte. */
  function LastCover(keys: seq<string>, kind: Kind, index: nat, j: nat): (r: Option<string>)
    ensures r.Some? ==> r.value in keys && Covers(r.value, kind, index, j)
    ensures r.None? ==> forall k :: k in keys ==> !Covers(k, kind, index, j)
  {
    if keys == [] then None
    else if Covers(keys[|keys| - 1], kind, index, j) then Some(keys[|keys| - 1])
    else LastCover(keys[..|keys| - 1], kind, index, j)
  }

  /** The registers no byte key can reach. */
  predicate SameElsewhere(s: MachineState, s': MachineState) {
    s'.gpr == s.gpr && s'.rflag == s.rflag && s'.aflag == s.aflag && s'.sw == s.sw
    && s'.fxsaveSwd == s.fxsaveSwd && s'.fsaveSwd == s.fsaveSwd
  }

  /** One key writes exactly the bytes it covers. */
  lemma ApplyBytesOne(s: MachineState, key: string, bytes: seq<byte>, kind: Kind, index: nat, j: nat)
    requires index < FileLength(kind) && j < SlotSize(kind) && ApplyBytes(s, key, bytes).Ok?
    ensures var s' := ApplyBytes(s, key, bytes).value;
      && SameElsewhere(s, s')
      && (Covers(key, kind, index, j) ==> j < |bytes|)
      && Slot(s', kind, index)[j] == if Covers(key, kind, index, j) then bytes[j] else Slot(s, kind, index)[j]
  {
    hide ParseByteRegisterName, X86TesterParser.CanonicalStateKey, IsScalarRegister;
    var canonical := X86TesterParser.CanonicalStateKey(key);
    if canonical == "flag" || canonical == "cr0" || canonical == "x87status" || IsScalarRegister(canonical) {
      NamesNoBytes(canonical);
    }
  }

  lemma NamesNoBytes(name: string)
    requires name == "flag" || name == "cr0" || name == "x87status" || IsScalarRegister(name)
    ensures !IsByteRegister(name)
  {
    var low := ToLower(name);
    assert (low[0] != 's' && low[0] != 'm' && low[0] != 'x' && low[0] != 'y' && low[0] != 'z') || name == "x87status";
    assert "xmm"[0] == 'x' && "xmm"[1] == 'm' && "ymm"[0] == 'y' && "zmm"[0] == 'z' && "mm"[0] == 'm' && "st"[0] == 's';
    if name == "x87status" {
      assert low[1] == '8';
    }
  }

  lemma {:induction false} ApplyBytesLast(s: MachineState, values: ByteStates, keys: seq<string>, kind: Kind,
      index: nat, j: nat)
    requires forall k :: k in keys ==> k in values
    requires index < FileLength(kind) && j < SlotSize(kind) && ApplyAllBytes(s, values, keys).Ok?
    ensures var s' := ApplyAllBytes(s, values, keys).value;
      var last := LastCover(keys, kind, index, j);
      && SameElsewhere(s, s')
      && (last.Some? ==> j < |values[last.value]|)
      && Slot(s', kind, index)[j] == if last.Some? then values[last.value][j] else Slot(s, kind, index)[j]
  {
    hide ApplyBytes, Covers, Slot;
    if keys != [] {
      ApplyBytesLast(s, values, keys[..|keys| - 1], kind, index, j);
      var key := keys[|keys| - 1];
      ApplyBytesOne(ApplyAllBytes(s, values, keys[..|keys| - 1]).value, key, values[key], kind, index, j);
    }
  }

  predicate IsLatestCover(values: ByteStates, key: string, kind: Kind, index: nat, j: nat) {
    && Covers(key, kind, index, j)
    && (forall other :: other in values && Covers(other, kind, index, j) ==> other == key || Less(other, key))
  }

  /**
   * Of all given registers that cover a byte, the one latest in key order decides it; uncovered bytes
   * keep their value.
   */
  lemma LatestKeyWins(s: MachineState, values: ByteStates, kind: Kind, index: nat, j: nat)
    requires index < FileLength(kind) && j < SlotSize(kind)
    requires ApplyAllBytes(s, values, Sorted(values.Keys)).Ok?
    ensures var s' := ApplyAllBytes(s, values, Sorted(values.Keys)).value;
      && SameElsewhere(s, s')
      && (forall k :: k in values && IsLatestCover(values, k, kind, index, j) ==>
            j < |values[k]| && Slot(s', kind, index)[j] == values[k][j])
      && ((forall k :: k in values ==> !Covers(k, kind, index, j)) ==>
            Slot(s', kind, index)[j] == Slot(s, kind, index)[j])
  {
    hide ApplyAllBytes, Covers, Slot;
    var keys := Sorted(values.Keys);
    ApplyBytesLast(s, values, keys, kind, index, j);
    var last := LastCover(keys, kind, index, j);
    if last.Some? {
      forall k | k in values && IsLatestCover(values, k, kind, index, j)
        ensures k == last.value
      {
        if k != last.value {
          LastCoverIsLatest(keys, kind, index, j, k);
          LessTotal(k, last.value);
        }
      }
    }
  }

  lemma {:induction false} LastCoverIsLatest(keys: seq<string>, kind: Kind, index: nat, j: nat, k: string)
    requires Ascending(keys) && k in keys && Covers(k, kind, index, j)
    ensures LastCover(keys, kind, index, j).Some?
    ensures k == LastCover(keys, kind, index, j).value || Less(k, LastCover(keys, kind, index, j).value)
  {
    hide Covers;
    var n := |keys|;
    if !Covers(keys[n - 1], kind, index, j) {
      var i :| 0 <= i < n && keys[i] == k;
      assert keys[..n - 1][i] == k;
      LastCoverIsLatest(keys[..n - 1], kind, index, j, k);
    }
  }

  /** A wider vector register comes later in key order, so the widest one given wins on the bytes it shares. */
  lemma WiderIsLater(narrow: string, wide: string)
    requires X86TesterParser.CanonicalStateKey(narrow) == narrow && X86TesterParser.CanonicalStateKey(wide) == wide
    requires ParseByteRegisterName(narrow).Some? && ParseByteRegisterName(wide).Some?
    requires ParseByteRegisterName(narrow).value.kind == Vector && ParseByteRegisterName(wide).value.kind == Vector
    requires ParseByteRegisterName(narrow).value.size < ParseByteRegisterName(wide).value.size
    ensures Less(narrow, wide)
  {
    hide ParseByteRegisterName, X86TesterParser.CanonicalStateKey;
    CanonicalIsLower(narrow);
    CanonicalIsLower(wide);
    assert narrow[0] < wide[0] by {
      VectorLetter(narrow);
      VectorLetter(wide);
    }
  }

  /** The first letter of a vector register tells its width. */
  lemma VectorLetter(name: string)
    requires ToLower(name) == name && ParseByteRegisterName(name).Some?
    requires ParseByteRegisterName(name).value.kind == Vector
    ensures name != ""
    ensures var size := ParseByteRegisterName(name).value.size;
      (name[0] == 'x' && size == 16) || (name[0] == 'y' && size == 32) || (name[0] == 'z' && size == 64)
  {
    hide ParseIndex, ToLower;
    assert "xmm"[0] == 'x' && "ymm"[0] == 'y' && "zmm"[0] == 'z';
  }

  lemma CanonicalIsLower(key: string)
    requires X86TesterParser.CanonicalStateKey(key) == key
    ensures ToLower(key) == key
  {
    var lowered := ToLower(Trim(key));
    assert forall i :: 0 <= i < |lowered| ==> LowerChar(lowered[i]) == lowered[i];
    assert ToLower(lowered) == lowered;
  }

  /** Of the given keys for a vector register, `wide` alone has the greatest width; all are spelled canonically. */
  predicate IsWidest(values: ByteStates, wide: string, index: nat) {
    && wide in values
    && IsVector(wide, index)
    && forall k :: k in values && Covers(k, Vector, index, 0) ==>
         X86TesterParser.CanonicalStateKey(k) == k && (k == wide || Width(k) < Width(wide))
  }

  predicate IsVector(key: string, index: nat) {
    var r := ParseByteRegisterName(key);
    X86TesterParser.CanonicalStateKey(key) == key && r.Some? && r.value.kind == Vector && r.value.index == index
  }

  function Width(key: string): nat {
    var r := ParseByteRegisterName(key);
    if r.Some? then r.value.size else 0
  }

  lemma CoversIs(key: string, index: nat, j: nat)
    requires Covers(key, Vector, index, j)
    ensures Covers(key, Vector, index, 0)
    ensures X86TesterParser.CanonicalStateKey(key) == key ==> IsVector(key, index) && j < Width(key)
  {
    hide X86TesterParser.CanonicalStateKey, ParseByteRegisterName;
  }

  lemma WidestCovers(values: ByteStates, wide: string, index: nat, j: nat)
    requires index < 32 && IsWidest(values, wide, index) && j < Width(wide)
    ensures IsLatestCover(values, wide, Vector, index, j)
  {
    hide X86TesterParser.CanonicalStateKey, ParseByteRegisterName;
    forall k | k in values && Covers(k, Vector, index, j) && k != wide ensures Less(k, wide) {
      CoversIs(k, index, j);
      WiderIsLater(k, wide);
    }
  }

  /**
   * After the initial state, any view of a vector register no wider than its widest given name shows the
   * front of that value.
   */
  lemma WidestVectorShows(s: MachineState, scalars: Scalars, values: ByteStates, wide: string, index: nat, view: string,
      keys: seq<string>)
    requires index < 32 && Apply(s, scalars, values).Ok? && IsWidest(values, wide, index)
    requires IsVector(view, index) && Width(view) <= Width(wide) && view in keys
    ensures var shown := SnapshotBytes(Apply(s, scalars, values).value, keys);
      view in shown && Width(view) <= |values[wide]| && shown[view] == values[wide][..Width(view)]
  {
    var t := Apply(s, scalars, values).value;
    FrontOfWidest(ApplyScalars(s, scalars, Sorted(scalars.Keys)).value, values, wide, index, view);
    hide X86TesterParser.CanonicalStateKey, ParseByteRegisterName, Slot, ApplyScalars, ApplyAllBytes, Sorted, Ascending,
         SnapshotBytes;
    SnapshotBytesIs(t, keys);
  }

  lemma FrontOfWidest(s: MachineState, values: ByteStates, wide: string, index: nat, view: string)
    requires index < 32 && ApplyAllBytes(s, values, Sorted(values.Keys)).Ok? && IsWidest(values, wide, index)
    requires IsVector(view, index) && Width(view) <= Width(wide)
    ensures Width(view) <= |values[wide]|
    ensures GetByteRegister(ApplyAllBytes(s, values, Sorted(values.Keys)).value, view)
      == Some(values[wide][..Width(view)])
  {
    var n := Width(view);
    WidthFits(view);
    hide X86TesterParser.CanonicalStateKey, ParseByteRegisterName, ApplyAllBytes, Sorted, Ascending, IsLatestCover,
         IsWidest, Less;
    assert wide in values by { WidestIsGiven(values, wide, index); }
    var slot := Slot(ApplyAllBytes(s, values, Sorted(values.Keys)).value, Vector, index);
    forall j | 0 <= j < n ensures j < |values[wide]| && slot[j] == values[wide][j] {
      WidestCovers(values, wide, index, j);
      LatestKeyWins(s, values, Vector, index, j);
    }
    if n > 0 {
      WidestCovers(values, wide, index, n - 1);
      LatestKeyWins(s, values, Vector, index, n - 1);
      assert n - 1 < |values[wide]|;
    }
    assert slot[..n] == values[wide][..n];
  }

  lemma WidestIsGiven(values: ByteStates, wide: string, index: nat)
    requires IsWidest(values, wide, index)
    ensures wide in values
  {
  }

  lemma WidthFits(key: string)
    ensures Width(key) <= 64
    ensures forall index :: IsVector(key, index) ==> Width(key) == ParseByteRegisterName(key).value.size
  {
    hide ParseByteRegisterName;
  }

  // ---- Scalars ----

  predicate NamesScalar(key: string, name: string) {
    X86TesterParser.CanonicalStateKey(key) == name
  }

  /** The last key of a list that names a scalar. */
  function LastNamed(keys: seq<string>, name: string): (r: Option<string>)
    ensures r.Some? ==> r.value in keys && NamesScalar(r.value, name)
    ensures r.None? ==> forall k :: k in keys ==> !NamesScalar(k, name)
  {
    if keys == [] then None
    else if NamesScalar(keys[|keys| - 1], name) then Some(keys[|keys| - 1])
    else LastNamed(keys[..|keys| - 1], name)
  }

  lemma CanonicalLower(raw: string)
    ensures ToLower(X86TesterParser.CanonicalStateKey(raw)) == X86TesterParser.CanonicalStateKey(raw)
  {
    assert ToLower("flag") == "flag";
    var lowered := ToLower(Trim(raw));
    assert ToLower(lowered) == lowered;
  }

  lemma SpecialKeysAreNoRegisters()
    ensures "flag" !in ScalarRegisterNames() && "cr0" !in ScalarRegisterNames() && "x87status" !in ScalarRegisterNames()
  {
    assert "flag"[0] == 'f' && "cr0"[0] == 'c' && "x87status"[0] == 'x';
    assert forall name :: name in ScalarRegisterNames() ==> name[0] == 'r';
  }

  /** The files no scalar reaches. */
  predicate SameFiles(s: MachineState, t: MachineState) {
    t.vec == s.vec && t.mmx == s.mmx && t.st == s.st
  }

  predicate FlagsAre(s: MachineState, flags: u64) {
    s.rflag == flags as bv64 | 0x2 && s.aflag == FlagsOf(flags as bv64)
  }

  predicate SameFlagWord(s: MachineState, t: MachineState) {
    t.rflag == s.rflag && t.aflag == s.aflag
  }

  predicate StatusIs(s: MachineState, value: u64) {
    var w := StatusWord(value);
    s.fxsaveSwd == w && s.fsaveSwd == w && s.sw == StatusBitsOf(w)
  }

  predicate SameStatus(s: MachineState, t: MachineState) {
    t.fxsaveSwd == s.fxsaveSwd && t.fsaveSwd == s.fsaveSwd && t.sw == s.sw
  }

  lemma StatusStays(s: MachineState, t: MachineState, u: MachineState, value: u64)
    ensures SameStatus(s, s)
    ensures SameStatus(s, t) && SameStatus(t, u) ==> SameStatus(s, u)
    ensures StatusIs(s, value) && SameStatus(s, t) ==> StatusIs(t, value)
  {
    hide StatusWord, StatusBitsOf;
  }

  lemma SameFlagWordTransitive(s: MachineState, t: MachineState, u: MachineState)
    ensures SameFlagWord(s, s)
    ensures SameFlagWord(s, t) && SameFlagWord(t, u) ==> SameFlagWord(s, u)
  {
  }

  lemma FlagsStay(s: MachineState, t: MachineState, flags: u64)
    requires FlagsAre(s, flags) && SameFlagWord(s, t)
    ensures FlagsAre(t, flags)
  {
  }

  lemma ApplyScalarOne(s: MachineState, key: string, value: u64, name: string)
    requires name in ScalarRegisterNames() && ApplyScalar(s, key, value).Ok?
    ensures var t := ApplyScalar(s, key, value).value;
      && SameFiles(s, t)
      && t.gpr[name] == (if NamesScalar(key, name) then value else s.gpr[name])
      && (if NamesScalar(key, "flag") then FlagsAre(t, value) else SameFlagWord(s, t))
      && (if NamesScalar(key, "x87status") then StatusIs(t, value) else SameStatus(s, t))
  {
    CanonicalLower(key);
    SpecialKeysAreNoRegisters();
    hide X86TesterParser.CanonicalStateKey, ScalarRegisterNames, IsByteRegister, FlagsOf, StatusWord, StatusBitsOf,
         ToLower;
  }

  /**
   * After the scalars, each register, the flags and the x87 status hold what the last key naming them
   * gives, else what they held.
   */
  lemma {:induction false} ScalarsApplied(s: MachineState, values: Scalars, keys: seq<string>, name: string)
    requires forall k :: k in keys ==> k in values
    requires name in ScalarRegisterNames() && ApplyScalars(s, values, keys).Ok?
    ensures var t := ApplyScalars(s, values, keys).value;
      var register, flags, status := LastNamed(keys, name), LastNamed(keys, "flag"), LastNamed(keys, "x87status");
      && SameFiles(s, t)
      && t.gpr[name] == (if register.Some? then values[register.value] else s.gpr[name])
      && (if flags.Some? then FlagsAre(t, values[flags.value]) else SameFlagWord(s, t))
      && (if status.Some? then StatusIs(t, values[status.value]) else SameStatus(s, t))
  {
    SameFlagWordTransitive(s, s, s);
    StatusStays(s, s, s, 0);
    hide ApplyScalar, NamesScalar, ScalarRegisterNames, FlagsAre, SameFlagWord, StatusIs, SameStatus;
    if keys != [] {
      var key := keys[|keys| - 1];
      var before := ApplyScalars(s, values, keys[..|keys| - 1]).value;
      ScalarsApplied(s, values, keys[..|keys| - 1], name);
      ApplyScalarOne(before, key, values[key], name);
      var t := ApplyScalars(s, values, keys).value;
      if !NamesScalar(key, "flag") {
        var flags := LastNamed(keys[..|keys| - 1], "flag");
        if flags.Some? {
          FlagsStay(before, t, values[flags.value]);
        } else {
          SameFlagWordTransitive(s, before, t);
        }
      }
      if !NamesScalar(key, "x87status") {
        var status := LastNamed(keys[..|keys| - 1], "x87status");
        StatusStays(s, before, t, 0);
        if status.Some? {
          StatusStays(before, t, t, values[status.value]);
        }
      }
    }
  }

  // ---- Snapshots ----

  function SnapshotOne(s: MachineState, key: string): Option<u64> {
    if key == "flag" then Some(GetFlags(s) as u64)
    else if key == "x87status" then Some(GetX87Status(s) as u64)
    else if IsScalarRegister(key) then Some(s.gpr[ToLower(key)])
    else None
  }

  function Snapshot(s: MachineState, keys: seq<string>): Scalars {
    if keys == [] then map[]
    else
      var before := Snapshot(s, keys[..|keys| - 1]);
      var key := X86TesterParser.CanonicalStateKey(keys[|keys| - 1]);
      match SnapshotOne(s, key)
      case Some(value) => before[key := value]
      case None => before
  }

  function SnapshotBytes(s: MachineState, keys: seq<string>): ByteStates {
    if keys == [] then map[]
    else
      var before := SnapshotBytes(s, keys[..|keys| - 1]);
      var key := X86TesterParser.CanonicalStateKey(keys[|keys| - 1]);
      match GetByteRegister(s, key)
      case Some(bytes) => before[key := bytes]
      case None => before
  }

  /** A snapshot holds every asked-for register that exists, with its value, and nothing else. */
  lemma {:induction false} SnapshotIs(s: MachineState, keys: seq<string>)
    ensures forall key :: key in Snapshot(s, keys) <==>
      SnapshotOne(s, key).Some? && exists raw :: raw in keys && X86TesterParser.CanonicalStateKey(raw) == key
    ensures forall key :: key in Snapshot(s, keys) ==> SnapshotOne(s, key) == Some(Snapshot(s, keys)[key])
    decreases |keys|
  {
    hide X86TesterParser.CanonicalStateKey, SnapshotOne;
    if keys != [] {
      SnapshotIs(s, keys[..|keys| - 1]);
      assert forall raw :: raw in keys <==> raw in keys[..|keys| - 1] || raw == keys[|keys| - 1];
    }
  }

  lemma {:induction false} SnapshotBytesIs(s: MachineState, keys: seq<string>)
    ensures forall key :: key in SnapshotBytes(s, keys) <==>
      GetByteRegister(s, key).Some? && exists raw :: raw in keys && X86TesterParser.CanonicalStateKey(raw) == key
    ensures forall key :: key in SnapshotBytes(s, keys) ==> GetByteRegister(s, key) == Some(SnapshotBytes(s, keys)[key])
    decreases |keys|
  {
    hide X86TesterParser.CanonicalStateKey, GetByteRegister;
    if keys != [] {
      SnapshotBytesIs(s, keys[..|keys| - 1]);
      assert forall raw :: raw in keys <==> raw in keys[..|keys| - 1] || raw == keys[|keys| - 1];
    }
  }

  // ---- The mutable state ----

  class X86State {
    var gpr: Registers
    var rflag: bv64
    var aflag: ArithFlags
    var sw: StatusBits
    var fxsaveSwd: bv16
    var fsaveSwd: bv16
    var vec: VectorFile
    var mmx: MmxFile
    var st: StackFile

    function View(): MachineState
      reads this
    {
      MachineState(gpr, rflag, aflag, sw, fxsaveSwd, fsaveSwd, vec, mmx, st)
    }

    constructor ()
      ensures View() == Reset()
    {
      var s := Reset();
      gpr, rflag, aflag, sw := s.gpr, s.rflag, s.aflag, s.sw;
      fxsaveSwd, fsaveSwd, vec, mmx, st := s.fxsaveSwd, s.fsaveSwd, s.vec, s.mmx, s.st;
    }

    /** What running lifted code on the state leaves in it. */
    method Become(s: MachineState)
      modifies this
      ensures View() == s
    {
      hide GetFlags, WithFlags, Slot;
      gpr, rflag, aflag, sw := s.gpr, s.rflag, s.aflag, s.sw;
      fxsaveSwd, fsaveSwd, vec, mmx, st := s.fxsaveSwd, s.fsaveSwd, s.vec, s.mmx, s.st;
    }

    method SetFlags(flags: u64)
      modifies this
      ensures View() == WithFlags(old(View()), flags as bv64)
    {
      var f := flags as bv64;
      rflag := f | 0x2;
      aflag := FlagsOf(f);
    }

    method SetScalarRegister(name: string, value: u64) returns (ok: bool)
      modifies this
      ensures ok == IsScalarRegister(name)
      ensures View() == if ok then WithScalar(old(View()), name, value) else old(View())
    {
      ok := IsScalarRegister(name);
      if ok {
        gpr := gpr[ToLower(name) := value];
      }
    }

    method SetX87Status(value: u64)
      modifies this
      ensures View() == WithX87Status(old(View()), StatusWord(value))
    {
      var status := StatusWord(value);
      fxsaveSwd, fsaveSwd, sw := status, status, StatusBitsOf(status);
    }

    method SetByteRegister(name: string, bytes: seq<byte>) returns (ok: bool)
      modifies this
      ensures ok == WithByteRegister(old(View()), name, bytes).Some?
      ensures View() == if ok then WithByteRegister(old(View()), name, bytes).value else old(View())
    {
      hide ParseByteRegisterName;
      var info := ParseByteRegisterName(name);
      if info.None? || |bytes| != info.value.size {
        return false;
      }
      var i := info.value.index;
      match info.value.kind {
        case Vector => vec := vec[i := bytes + vec[i][|bytes|..]];
        case Mmx => mmx := mmx[i := bytes + mmx[i][|bytes|..]];
        case X87Stack => st := st[i := bytes + st[i][|bytes|..]];
      }
      return true;
    }

    method ApplyOneScalar(rawKey: string, value: u64) returns (error: Option<ApplyError>)
      modifies this
      ensures match ApplyScalar(old(View()), rawKey, value)
              case Ok(s) => error == None && View() == s
              case Err(e) => error == Some(e)
    {
      hide IsByteRegister, IsScalarRegister, X86TesterParser.CanonicalStateKey, StatusWord, WithFlags, WithX87Status;
      var key := X86TesterParser.CanonicalStateKey(rawKey);
      if key == "flag" {
        SetFlags(value);
      } else if key == "cr0" {
      } else if key == "x87status" {
        SetX87Status(value);
      } else if IsScalarRegister(key) {
        var _ := SetScalarRegister(key, value);
      } else if IsByteRegister(key) {
      } else {
        return Some(UnsupportedScalarKey(key));
      }
      return None;
    }

    method ApplyOneBytes(rawKey: string, bytes: seq<byte>) returns (error: Option<ApplyError>)
      modifies this
      ensures match ApplyBytes(old(View()), rawKey, bytes)
              case Ok(s) => error == None && View() == s
              case Err(e) => error == Some(e)
    {
      hide ParseByteRegisterName, IsScalarRegister, X86TesterParser.CanonicalStateKey, WithByteRegister;
      var key := X86TesterParser.CanonicalStateKey(rawKey);
      if key == "flag" || key == "cr0" || key == "x87status" || IsScalarRegister(key) {
        return None;
      }
      if IsByteRegister(key) {
        var ok := SetByteRegister(key, bytes);
        if !ok {
          return Some(InvalidByteState(key));
        }
        return None;
      }
      return Some(UnsupportedByteKey(key));
    }

    method ApplyEveryScalar(values: Scalars) returns (error: Option<ApplyError>)
      modifies this
      ensures match ApplyScalars(old(View()), values, Sorted(values.Keys))
              case Ok(s) => error == None && View() == s
              case Err(e) => error == Some(e)
    {
      hide ApplyScalar, Sorted, Ascending;
      var keys := Sorted(values.Keys);
      for i := 0 to |keys|
        invariant ApplyScalars(old(View()), values, keys[..i]) == Ok(View())
      {
        assert keys[..i + 1][..i] == keys[..i];
        var e := ApplyOneScalar(keys[i], values[keys[i]]);
        if e.Some? {
          ScalarErrorPersists(old(View()), values, keys, i + 1);
          return e;
        }
      }
      assert keys[..|keys|] == keys;
      return None;
    }

    method ApplyEveryByteState(values: ByteStates) returns (error: Option<ApplyError>)
      modifies this
      ensures match ApplyAllBytes(old(View()), values, Sorted(values.Keys))
              case Ok(s) => error == None && View() == s
              case Err(e) => error == Some(e)
    {
      hide ApplyBytes, Sorted, Ascending;
      var keys := Sorted(values.Keys);
      for i := 0 to |keys|
        invariant ApplyAllBytes(old(View()), values, keys[..i]) == Ok(View())
      {
        assert keys[..i + 1][..i] == keys[..i];
        var e := ApplyOneBytes(keys[i], values[keys[i]]);
        if e.Some? {
          BytesErrorPersists(old(View()), values, keys, i + 1);
          return e;
        }
      }
      assert keys[..|keys|] == keys;
      return None;
    }

    method ApplyInitialState(initialState: Scalars, initialBytes: ByteStates) returns (error: Option<ApplyError>)
      modifies this
      ensures match Apply(old(View()), initialState, initialBytes)
              case Ok(s) => error == None && View() == s
              case Err(e) => error == Some(e)
    {
      hide ApplyScalars, ApplyAllBytes, Sorted, Ascending;
      error := ApplyEveryScalar(initialState);
      if error.None? {
        error := ApplyEveryByteState(initialBytes);
      }
    }

    method SnapshotState(keys: seq<string>) returns (snapshot: Scalars)
      ensures snapshot == Snapshot(View(), keys)
    {
      hide X86TesterParser.CanonicalStateKey, SnapshotOne;
      snapshot := map[];
      for i := 0 to |keys|
        invariant snapshot == Snapshot(View(), keys[..i])
      {
        assert keys[..i + 1][..i] == keys[..i];
        var key := X86TesterParser.CanonicalStateKey(keys[i]);
        var value := SnapshotOne(View(), key);
        if value.Some? {
          snapshot := snapshot[key := value.value];
        }
      }
      assert keys[..|keys|] == keys;
    }

    method SnapshotByteState(keys: seq<string>) returns (snapshot: ByteStates)
      ensures snapshot == SnapshotBytes(View(), keys)
    {
      hide X86TesterParser.CanonicalStateKey, GetByteRegister;
      snapshot := map[];
      for i := 0 to |keys|
        invariant snapshot == SnapshotBytes(View(), keys[..i])
      {
        assert keys[..i + 1][..i] == keys[..i];
        var key := X86TesterParser.CanonicalStateKey(keys[i]);
        var bytes := GetByteRegister(View(), key);
        if bytes.Some? {
          snapshot := snapshot[key := bytes.value];
        }
      }
      assert keys[..|keys|] == keys;
    }
  }

  lemma {:induction false} ScalarErrorPersists(s: MachineState, values: Scalars, keys: seq<string>, n: nat)
    requires forall k :: k in keys ==> k in values
    requires n <= |keys| && ApplyScalars(s, values, keys[..n]).Err?
    ensures ApplyScalars(s, values, keys) == ApplyScalars(s, values, keys[..n])
  {
    hide ApplyScalar;
    if n < |keys| {
      assert keys[..|keys| - 1][..n] == keys[..n];
      ScalarErrorPersists(s, values, keys[..|keys| - 1], n);
    } else {
      assert keys[..n] == keys;
    }
  }

  lemma {:induction false} BytesErrorPersists(s: MachineState, values: ByteStates, keys: seq<string>, n: nat)
    requires forall k :: k in keys ==> k in values
    requires n <= |keys| && ApplyAllBytes(s, values, keys[..n]).Err?
    ensures ApplyAllBytes(s, values, keys) == ApplyAllBytes(s, values, keys[..n])
  {
    hide ApplyBytes;
    if n < |keys| {
      assert keys[..|keys| - 1][..n] == keys[..n];
      BytesErrorPersists(s, values, keys[..|keys| - 1], n);
    } else {
      assert keys[..n] == keys;
    }
  }
}
