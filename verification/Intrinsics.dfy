/**
 * The memory intrinsics of `src/remill_intrinsics.cpp` and the runs of lifted code that call them,
 * first over flat memory and then over the paged store that refines it.
 */
module Intrinsics {
  import opened Wrappers
  import opened Remainders
  import opened Words
  import LE = LittleEndian
  import opened FlatMemory
  import Guest = GuestMemory

  datatype Width = W8 | W16 | W32 | W64 {
    function Bytes(): (n: nat)
      ensures n == 1 || n == 2 || n == 4 || n == 8
    {
      match this case W8 => 1 case W16 => 2 case W32 => 4 case W64 => 8
    }
  }

  /** The operator before its result is truncated to the width. */
  function Combine(op: AtomicOp, width: Width, current: nat, input: nat): int {
    if op == Add then current + input
    else if op == Sub then current - input
    else Bitwise(op, current, input, 8 * width.Bytes())
  }

  /** A call lifted code makes; the I/O port, hypercall, missing-block and error intrinsics only leave their name. */
  datatype Call =
    | ReadMemory(width: Width, address: u64)
    | WriteMemory(width: Width, address: u64, value: u64)
    | FetchAndOp(op: AtomicOp, width: Width, address: u64, value: u64)
    | CompareExchange(width: Width, address: u64, expected: u64, desired: u64)
    | MarkUnsupported(address: u64, name: string)

  datatype Stepped = Stepped(memory: Memory, reply: nat)

  function ReadWord(m: Memory, width: Width, address: u64): (r: Access)
    ensures |r.bytes| == width.Bytes()
  {
    Read(m, address, width.Bytes())
  }

  function WriteWord(m: Memory, width: Width, address: u64, value: int): Access {
    Write(m, address, LE.Decompose(value, width.Bytes()))
  }

  /** What one call does to memory and hands back: a value read, or the updated in-out argument. */
  function Step(m: Memory, call: Call): Stepped {
    match call
    case ReadMemory(width, address) =>
      var read := ReadWord(m, width, address);
      Stepped(read.memory, if read.ok then LE.Compose(read.bytes) else 0)
    case WriteMemory(width, address, value) =>
      Stepped(WriteWord(m, width, address, value).memory, 0)
    case FetchAndOp(op, width, address, value) =>
      var read := ReadWord(m, width, address);
      if !read.ok then Stepped(read.memory, value)
      else
        var current := LE.Compose(read.bytes);
        Stepped(WriteWord(read.memory, width, address, Combine(op, width, current, value)).memory, current)
    case CompareExchange(width, address, expected, desired) =>
      var read := ReadWord(m, width, address);
      if !read.ok then Stepped(read.memory, expected)
      else
        var current := LE.Compose(read.bytes);
        if current == expected
        then Stepped(WriteWord(read.memory, width, address, desired).memory, expected)
        else Stepped(read.memory, current)
    case MarkUnsupported(address, name) =>
      Stepped(Raise(m, MemoryFault(Unsupported, address, 0, UnsupportedOp, Intrinsic(name))), 0)
  }

  /**
   * Lifted code over states `S`: given the initial state and the replies so far it makes a next call
   * or returns. `bound` limits the number of calls, so a value of this type is any terminating run.
   */
  datatype Lifted<!S> = Lifted(bound: nat, next: (S, seq<nat>) -> Option<Call>, final: (S, seq<nat>) -> S)

  datatype Finished<S> = Finished(state: S, memory: Memory)

  function Run<S>(code: Lifted<S>, start: S, m: Memory, replies: seq<nat>): Finished<S>
    decreases code.bound - |replies|
  {
    if |replies| >= code.bound then Finished(code.final(start, replies), m)
    else match code.next(start, replies)
      case None => Finished(code.final(start, replies), m)
      case Some(call) =>
        var stepped := Step(m, call);
        Run(code, start, stepped.memory, replies + [stepped.reply])
  }

  // ---- The first fault ----

  function AsSeq<T>(o: Option<T>): seq<T> {
    match o case None => [] case Some(x) => [x]
  }

  /** Every fault a call runs into, whether or not one is already recorded. */
  function Attempts(cells: Cells, call: Call): seq<MemoryFault> {
    match call
    case ReadMemory(width, address) => AsSeq(AccessFault(cells, address, width.Bytes(), READ, ReadOp))
    case WriteMemory(width, address, _) => AsSeq(AccessFault(cells, address, width.Bytes(), WRITE, WriteOp))
    case FetchAndOp(_, width, address, _) =>
      var read := AccessFault(cells, address, width.Bytes(), READ, ReadOp);
      if read.Some? then [read.value] else AsSeq(AccessFault(cells, address, width.Bytes(), WRITE, WriteOp))
    case CompareExchange(width, address, expected, _) =>
      var read := AccessFault(cells, address, width.Bytes(), READ, ReadOp);
      if read.Some? then [read.value]
      else if LE.Compose(Peek(cells, address, width.Bytes())) == expected
      then
        AsSeq(AccessFault(cells, address, width.Bytes(), WRITE, WriteOp))
      else []
    case MarkUnsupported(address, name) => [MemoryFault(Unsupported, address, 0, UnsupportedOp, Intrinsic(name))]
  }

  function RunAttempts<S>(code: Lifted<S>, start: S, m: Memory, replies: seq<nat>): seq<MemoryFault>
    decreases code.bound - |replies|
  {
    if |replies| >= code.bound then []
    else match code.next(start, replies)
      case None => []
      case Some(call) =>
        var stepped := Step(m, call);
        Attempts(m.cells, call) + RunAttempts(code, start, stepped.memory, replies + [stepped.reply])
  }

  function First(recorded: Option<MemoryFault>, later: seq<MemoryFault>): Option<MemoryFault> {
    if recorded.Some? then recorded else if later == [] then None else Some(later[0])
  }

  lemma StepKeepsFirstFault(m: Memory, call: Call)
    ensures Step(m, call).memory.fault == First(m.fault, Attempts(m.cells, call))
  {
    hide LE.Compose, LE.Decompose, AccessFault, Peek, Poke, Combine;
  }

  /** After any run the recorded fault is the first one met since the memory was set up; later ones change nothing. */
  lemma {:induction false} RunKeepsFirstFault<S>(code: Lifted<S>, start: S, m: Memory, replies: seq<nat>)
    ensures Run(code, start, m, replies).memory.fault == First(m.fault, RunAttempts(code, start, m, replies))
    decreases code.bound - |replies|
  {
    hide Step, Attempts;
    if |replies| < code.bound {
      match code.next(start, replies) {
        case None =>
        case Some(call) =>
          var stepped := Step(m, call);
          StepKeepsFirstFault(m, call);
          RunKeepsFirstFault(code, start, stepped.memory, replies + [stepped.reply]);
      }
    }
  }

  // ---- Atomics over flat memory ----

  predicate ReadableAndWritable(cells: Cells, width: Width, address: u64) {
    && !Wraps(address, width.Bytes())
    && AllAccessible(cells, address, width.Bytes(), READ)
    && AllAccessible(cells, address, width.Bytes(), WRITE)
  }

  /** The word stored at an address. */
  function Word(cells: Cells, width: Width, address: u64): nat
    requires ReadableAndWritable(cells, width, address)
  {
    AccessibleIsMapped(cells, address, width.Bytes(), READ);
    LE.Compose(Peek(cells, address, width.Bytes()))
  }

  function Store(cells: Cells, width: Width, address: u64, value: int): Cells {
    Poke(cells, address, LE.Decompose(value, width.Bytes()))
  }

  lemma ReadWordIs(m: Memory, width: Width, address: u64)
    requires ReadableAndWritable(m.cells, width, address)
    ensures AllMapped(m.cells, address, width.Bytes())
    ensures ReadWord(m, width, address) == Access(m, true, Peek(m.cells, address, width.Bytes()))
  {
    AccessibleIsMapped(m.cells, address, width.Bytes(), READ);
  }

  lemma WriteWordIs(m: Memory, width: Width, address: u64, value: int)
    requires ReadableAndWritable(m.cells, width, address)
    ensures WriteWord(m, width, address, value) == Access(m.(cells := Store(m.cells, width, address, value)), true, [])
  {
  }

  /** A stored word reads back modulo its width, and exactly the bytes of the range change. */
  lemma StoreWord(cells: Cells, width: Width, address: u64, value: int)
    requires ReadableAndWritable(cells, width, address)
    ensures ReadableAndWritable(Store(cells, width, address, value), width, address)
    ensures Word(Store(cells, width, address, value), width, address) == Modulo(value, width)
    ensures forall x :: x in cells && !(address <= x < address + width.Bytes()) ==>
      Store(cells, width, address, value)[x] == cells[x]
  {
    hide LE.Compose, LE.Decompose, Modulo;
    var bytes := LE.Decompose(value, width.Bytes());
    PokeKeepsAccess(cells, address, bytes, width.Bytes(), READ);
    PokeKeepsAccess(cells, address, bytes, width.Bytes(), WRITE);
    AccessibleIsMapped(cells, address, width.Bytes(), READ);
    PeekPoke(cells, address, bytes);
    ComposeIsModulo(value, width);
  }

  /** How many words of a width there are. */
  function Limit(width: Width): (limit: nat)
    ensures limit > 0
  {
    match width case W8 => 0x100 case W16 => 0x1_0000 case W32 => 0x1_0000_0000 case W64 => 0x1_0000_0000_0000_0000
  }

  function Modulo(v: int, width: Width): nat {
    v % Limit(width)
  }

  lemma ModuloIs(width: Width, x: int, k: int, a: nat)
    requires a < Limit(width) && x == a + k * Limit(width)
    ensures Modulo(x, width) == a
  {
    hide Limit;
    RemainderIs(x, k, a, Limit(width));
  }

  lemma ComposeIsModulo(v: int, width: Width)
    ensures LE.Compose(LE.Decompose(v, width.Bytes())) == Modulo(v, width)
  {
    hide LE.Compose, LE.Decompose, LE.ShiftRight, Modulo;
    var n := width.Bytes();
    var k := LE.ShiftRight(v, n);
    LE.ComposeDecompose(v, n);
    LE.ComposeFits(LE.Decompose(v, n));
    LE.ShiftLeftValues(k);
    LE.ShiftLeftValues(1);
    assert LE.ShiftLeft(k, n) == k * Limit(width);
    ModuloIs(width, v, k, LE.Compose(LE.Decompose(v, n)));
  }

  lemma PokeKeepsAccess(cells: Cells, address: u64, bytes: seq<byte>, size: nat, required: bv8)
    requires AllAccessible(cells, address, size, required)
    ensures AllAccessible(Poke(cells, address, bytes), address, size, required)
  {
    forall x | address <= x < address + size ensures Accessible(Poke(cells, address, bytes), x, required) {
      assert Accessible(cells, x, required);
    }
  }

  lemma PeekPoke(cells: Cells, address: u64, bytes: seq<byte>)
    requires AllMapped(cells, address, |bytes|)
    ensures AllMapped(Poke(cells, address, bytes), address, |bytes|)
    ensures Peek(Poke(cells, address, bytes), address, |bytes|) == bytes
  {
  }

  lemma PokePeek(cells: Cells, address: u64, bytes: seq<byte>, size: nat)
    requires AllMapped(cells, address, size) && |bytes| == size
    ensures Poke(Poke(cells, address, bytes), address, Peek(cells, address, size)) == cells
  {
    hide Poke, Peek;
    PokeTwice(cells, address, bytes, Peek(cells, address, size));
    PokeSame(cells, address, size);
  }

  lemma PokeSame(cells: Cells, address: u64, size: nat)
    requires AllMapped(cells, address, size)
    ensures Poke(cells, address, Peek(cells, address, size)) == cells
  {
  }

  lemma PokeTwice(cells: Cells, address: u64, first: seq<byte>, second: seq<byte>)
    requires |first| == |second|
    ensures Poke(Poke(cells, address, first), address, second) == Poke(cells, address, second)
  {
  }

  /** Fetch-and-op returns the old word, stores op modulo the width, and raises nothing. */
  lemma FetchAndOpIs(m: Memory, op: AtomicOp, width: Width, address: u64, value: u64)
    requires ReadableAndWritable(m.cells, width, address)
    ensures var old' := Word(m.cells, width, address);
      Step(m, FetchAndOp(op, width, address, value))
      == Stepped(m.(cells := Store(m.cells, width, address, Combine(op, width, old', value))), old')
  {
    hide LE.Compose, LE.Decompose, Combine, ReadWord, WriteWord, ReadableAndWritable;
    ReadWordIs(m, width, address);
    WriteWordIs(m, width, address, Combine(op, width, Word(m.cells, width, address), value));
  }

  /** Compare-exchange is the sequential specification. */
  lemma CompareExchangeIs(m: Memory, width: Width, address: u64, expected: u64, desired: u64)
    requires ReadableAndWritable(m.cells, width, address)
    ensures var old' := Word(m.cells, width, address);
      Step(m, CompareExchange(width, address, expected, desired))
      == Stepped(if old' == expected then m.(cells := Store(m.cells, width, address, desired)) else m, old')
  {
    hide LE.Compose, LE.Decompose, ReadWord, WriteWord, ReadableAndWritable;
    ReadWordIs(m, width, address);
    WriteWordIs(m, width, address, desired);
  }

  /** `undo` takes back `op` on every word of a width. */
  predicate Inverse(op: AtomicOp, undo: AtomicOp) {
    (op == Add && undo == Sub) || (op == Sub && undo == Add) || (op == Xor && undo == Xor)
  }

  lemma {:induction false} BitwiseFits(op: AtomicOp, a: nat, b: nat, bits: nat)
    ensures Bitwise(op, a, b, bits) < LE.Pow2(bits)
    decreases bits
  {
    if bits > 0 {
      BitwiseFits(op, a / 2, b / 2, bits - 1);
    }
  }

  lemma {:induction false} XorTwice(a: nat, b: nat, bits: nat)
    requires a < LE.Pow2(bits)
    ensures Bitwise(Xor, Bitwise(Xor, a, b, bits), b, bits) == a
    decreases bits
  {
    if bits > 0 {
      XorTwice(a / 2, b / 2, bits - 1);
      var rest := Bitwise(Xor, a / 2, b / 2, bits - 1);
      var all := BitOf(Xor, a, b) + 2 * rest;
      assert all / 2 == rest && all % 2 == BitOf(Xor, a, b);
    }
  }

  lemma WidthValues(width: Width)
    ensures LE.Pow2(8 * width.Bytes()) == Limit(width)
  {
    LE.Pow2IsShift(width.Bytes());
    LE.ShiftLeftValues(1);
  }

  lemma QuotientOf(width: Width, x: int) returns (k: int)
    ensures x == Modulo(x, width) + k * Limit(width)
  {
    hide Limit;
    k := x / Limit(width);
  }

  lemma SumUndone(width: Width, a: nat, b: nat)
    requires a < Limit(width)
    ensures Modulo(Modulo(a + b, width) - b, width) == a
    ensures Modulo(Modulo(a - b, width) + b, width) == a
  {
    hide Modulo, Limit;
    var k := QuotientOf(width, a + b);
    ModuloIs(width, Modulo(a + b, width) - b, -k, a);
    var j := QuotientOf(width, a - b);
    ModuloIs(width, Modulo(a - b, width) + b, -j, a);
  }

  lemma ModuloSmall(a: nat, width: Width)
    requires a < Limit(width)
    ensures Modulo(a, width) == a
  {
    hide Modulo, Limit;
    ModuloIs(width, a, 0, a);
  }

  /** Undoing an operator modulo the width gives the first word back. */
  lemma CombineUndone(op: AtomicOp, undo: AtomicOp, width: Width, a: nat, b: nat)
    requires Inverse(op, undo)
    requires a < LE.Pow2(8 * width.Bytes())
    ensures Modulo(Combine(undo, width, Modulo(Combine(op, width, a, b), width), b), width) == a
  {
    hide LE.Pow2, Bitwise, Modulo;
    WidthValues(width);
    if op == Xor {
      BitwiseFits(Xor, a, b, 8 * width.Bytes());
      XorTwice(a, b, 8 * width.Bytes());
      ModuloSmall(a, width);
      ModuloSmall(Bitwise(Xor, a, b, 8 * width.Bytes()), width);
    } else {
      SumUndone(width, a, b);
    }
  }

  /** Add-then-sub, sub-then-add and xor-twice with one operand restore the whole memory, across pages too. */
  lemma FetchAndOpUndone(m: Memory, op: AtomicOp, undo: AtomicOp, width: Width, address: u64, value: u64)
    requires ReadableAndWritable(m.cells, width, address) && Inverse(op, undo)
    ensures Step(Step(m, FetchAndOp(op, width, address, value)).memory,
      FetchAndOp(undo, width, address, value)).memory == m
  {
    hide *;
    var first := Word(m.cells, width, address);
    var combined := Combine(op, width, first, value);
    var cells1 := Store(m.cells, width, address, combined);
    FetchAndOpIs(m, op, width, address, value);
    StoreWord(m.cells, width, address, combined);
    FetchAndOpIs(m.(cells := cells1), undo, width, address, value);
    WordFits(m.cells, width, address);
    CombineUndone(op, undo, width, first, value);
    var restored := Combine(undo, width, Word(cells1, width, address), value);
    SameLowBytes(m.cells, width, address, restored);
    PokePeekAgain(m.cells, width, address, combined, restored);
  }

  lemma WordFits(cells: Cells, width: Width, address: u64)
    requires ReadableAndWritable(cells, width, address)
    ensures Word(cells, width, address) < LE.Pow2(8 * width.Bytes())
  {
    hide LE.Compose;
    AccessibleIsMapped(cells, address, width.Bytes(), READ);
    LE.ComposeFits(Peek(cells, address, width.Bytes()));
    LE.Pow2IsShift(width.Bytes());
  }

  /** A value equal to the stored word modulo the width stores the same bytes. */
  lemma SameLowBytes(cells: Cells, width: Width, address: u64, v: int)
    requires ReadableAndWritable(cells, width, address)
    requires Modulo(v, width) == Word(cells, width, address)
    ensures AllMapped(cells, address, width.Bytes())
    ensures LE.Decompose(v, width.Bytes()) == Peek(cells, address, width.Bytes())
  {
    hide LE.Compose, LE.Decompose, Modulo;
    AccessibleIsMapped(cells, address, width.Bytes(), READ);
    ComposeIsModulo(v, width);
    LE.DecomposeCompose(Peek(cells, address, width.Bytes()));
    LE.DecomposeCompose(LE.Decompose(v, width.Bytes()));
  }

  lemma PokePeekAgain(cells: Cells, width: Width, address: u64, first: int, second: int)
    requires AllMapped(cells, address, width.Bytes())
    requires LE.Decompose(second, width.Bytes()) == Peek(cells, address, width.Bytes())
    ensures Store(Store(cells, width, address, first), width, address, second) == cells
  {
    hide LE.Decompose;
    PokePeek(cells, address, LE.Decompose(first, width.Bytes()), width.Bytes());
  }

  // ---- The same calls on the paged store ----

  method ReadLittleEndian(memory: Guest.GuestMemory, width: Width, address: u64) returns (ok: bool, value: nat)
    requires memory.Valid()
    modifies memory
    ensures memory.Valid()
    ensures var read := ReadWord(old(memory.Flat()), width, address);
      memory.Flat() == read.memory && ok == read.ok && value == if ok then LE.Compose(read.bytes) else 0
  {
    hide LE.Compose;
    var bytes := new byte[width.Bytes()];
    ok := memory.Read(address, bytes);
    if !ok {
      return false, 0;
    }
    value := LE.ComposeBytes(bytes[..]);
  }

  method WriteLittleEndian(memory: Guest.GuestMemory, width: Width, address: u64, value: int) returns (ok: bool)
    requires memory.Valid()
    modifies memory
    ensures memory.Valid()
    ensures Access(memory.Flat(), ok, []) == WriteWord(old(memory.Flat()), width, address, value)
  {
    hide LE.Decompose;
    var bytes := LE.DecomposeValue(value, width.Bytes());
    ok := memory.Write(address, bytes[..]);
  }

  method Execute(memory: Guest.GuestMemory, call: Call) returns (reply: nat)
    requires memory.Valid()
    modifies memory
    ensures memory.Valid()
    ensures Stepped(memory.Flat(), reply) == Step(old(memory.Flat()), call)
  {
    hide LE.Compose, LE.Decompose, ReadWord, WriteWord, Combine;
    match call {
      case ReadMemory(width, address) =>
        var _, value := ReadLittleEndian(memory, width, address);
        reply := value;
      case WriteMemory(width, address, value) =>
        var _ := WriteLittleEndian(memory, width, address, value);
        reply := 0;
      case FetchAndOp(op, width, address, value) =>
        reply := value;
        var ok, current := ReadLittleEndian(memory, width, address);
        if ok {
          reply := current;
          var _ := WriteLittleEndian(memory, width, address, Combine(op, width, current, value));
        }
      case CompareExchange(width, address, expected, desired) =>
        reply := expected;
        var ok, current := ReadLittleEndian(memory, width, address);
        if ok {
          if current == expected {
            var _ := WriteLittleEndian(memory, width, address, desired);
          } else {
            reply := current;
          }
        }
      case MarkUnsupported(address, name) =>
        memory.SetUnsupported(address, name);
        reply := 0;
    }
  }

  /** Every run of lifted code on paged memory is the run on flat memory. */
  method Invoke<S>(code: Lifted<S>, start: S, memory: Guest.GuestMemory) returns (final: S)
    requires memory.Valid()
    modifies memory
    ensures memory.Valid()
    ensures Finished(final, memory.Flat()) == Run(code, start, old(memory.Flat()), [])
  {
    hide Step;
    var replies: seq<nat> := [];
    while |replies| < code.bound
      invariant memory.Valid()
      invariant Run(code, start, memory.Flat(), replies) == Run(code, start, old(memory.Flat()), [])
      decreases code.bound - |replies|
    {
      match code.next(start, replies) {
        case None =>
          return code.final(start, replies);
        case Some(call) =>
          var reply := Execute(memory, call);
          replies := replies + [reply];
      }
    }
    return code.final(start, replies);
  }
}
