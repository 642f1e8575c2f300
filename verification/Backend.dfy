/** The batched lift and JIT cache, and the running of one row: `src/remill_backend.cpp`. */
module Backend {
  import opened Wrappers
  import opened Numbers
  import opened Expectation
  import opened StateBridge
  import opened CaseRun
  import opened OrderedKeys
  import FlatMemory
  import GuestMemory
  import I = Intrinsics

  /** Remill's decoder and lifter, as one deterministic function of address and bytes. */
  datatype Lift = NotDecoded | NotLifted | Lifted(code: Code)

  type Lifter = (u64, seq<byte>) -> Lift

  datatype CompileError = FailedToDecode(opcode: string) | FailedToLift(opcode: string) {
    function Text(): string {
      match this
      case FailedToDecode(opcode) => FAILED_TO_DECODE + " opcode " + opcode
      case FailedToLift(opcode) => FAILED_TO_LIFT + " opcode " + opcode
    }
  }

  const FAILED_TO_DECODE := "Remill failed to decode"
  const FAILED_TO_LIFT := "Remill failed to lift"

  predicate IsUnsupportedCompileError(error: string) {
    FAILED_TO_DECODE <= error || FAILED_TO_LIFT <= error
  }

  /** What compiling ends in; a malformed opcode text escapes as an exception. */
  datatype Outcome = Resolved(code: Code) | Failed(error: CompileError) | Threw(hexError: HexError)

  /** Compiling one row on its own, with nothing cached. */
  function Meaning(lift: Lifter, address: u64, opcode: string): Outcome {
    var bytes := HexBytes(opcode);
    if bytes.Err? then Threw(bytes.error)
    else match lift(address, bytes.value)
      case NotDecoded => Failed(FailedToDecode(opcode))
      case NotLifted => Failed(FailedToLift(opcode))
      case Lifted(code) => Resolved(code)
  }

  function DecodeKey(address: u64, opcode: string): string {
    Decimal(address) + ['#'] + opcode
  }

  lemma DecodeKeyInjective(a: u64, x: string, b: u64, y: string)
    requires DecodeKey(a, x) == DecodeKey(b, y)
    ensures a == b && x == y
  {
    DecimalPrefixInjective(a, b, '#', x, y);
  }

  const LIFTED := "lifted_"

  function FunctionName(id: nat, opcode: string): string {
    LIFTED + (Decimal(id) + ['_'] + opcode)
  }

  lemma FunctionNameInjective(m: nat, x: string, n: nat, y: string)
    requires FunctionName(m, x) == FunctionName(n, y)
    ensures m == n && x == y
  {
    hide Decimal;
    var a, b := Decimal(m) + ['_'] + x, Decimal(n) + ['_'] + y;
    assert (LIFTED + a)[|LIFTED|..] == a && (LIFTED + b)[|LIFTED|..] == b;
    DecimalPrefixInjective(m, n, '_', x, y);
  }

  lemma CompileErrorsAreUnsupported(e: CompileError)
    ensures IsUnsupportedCompileError(e.Text())
  {
  }

  /** One lifted instruction: its symbol, its body and, once the JIT has it, the callable entry. */
  class CompiledInstruction {
    const name: string
    const irFunction: Code
    ghost const id: nat
    ghost const opcode: string
    var entry: Option<Code>

    constructor (name: string, irFunction: Code, ghost id: nat, ghost opcode: string)
      ensures this.name == name && this.irFunction == irFunction && this.id == id
      ensures this.opcode == opcode && entry == None
    {
      this.name, this.irFunction, this.id, this.opcode, entry := name, irFunction, id, opcode, None;
    }
  }

  datatype Definition =
    | Defined(compiled: CompiledInstruction)
    | NotDefined(error: CompileError)
    | DefineThrew(hexError: HexError)

  type Cache = map<string, CompiledInstruction>

  /** Every cached entry is right for its row, and so is every cached failure. */
  ghost predicate Truthful(lift: Lifter, cache: Cache, failed: map<string, CompileError>) {
    && (forall a: u64, o: string :: DecodeKey(a, o) in cache ==>
          Meaning(lift, a, o) == Resolved(cache[DecodeKey(a, o)].irFunction))
    && (forall a: u64, o: string :: DecodeKey(a, o) in failed ==>
          Meaning(lift, a, o) == Failed(failed[DecodeKey(a, o)]))
  }

  /** Symbols are named by ids that are never reused. */
  ghost predicate NamesDistinct(cache: Cache, nextFunctionId: nat) {
    && (forall k :: k in cache ==>
          cache[k].name == FunctionName(cache[k].id, cache[k].opcode) && cache[k].id < nextFunctionId)
    && (forall j, k :: j in cache && k in cache && j != k ==> cache[j].id != cache[k].id)
  }

  /** No pending or future symbol is known to the JIT. */
  ghost predicate JitIsOlder(jitSymbols: map<string, Code>, nextFunctionId: nat, pending: seq<CompiledInstruction>) {
    && (forall id: nat, o: string :: id >= nextFunctionId ==> FunctionName(id, o) !in jitSymbols)
    && (forall c :: c in pending ==> c.name !in jitSymbols)
  }

  predicate IsEntry(c: CompiledInstruction, cache: Cache) {
    exists k :: k in cache && cache[k] == c
  }

  /** The pending list holds cached entries, each once and each defined in the pending module. */
  ghost predicate PendingListed(cache: Cache, pending: seq<CompiledInstruction>, pendingModule: Option<map<string,
      Code>>) {
    && (forall i, j :: 0 <= i < j < |pending| ==> pending[i] != pending[j])
    && (forall c :: c in pending ==> IsEntry(c, cache))
    && (pending != [] ==> pendingModule.Some?)
    && (forall c :: c in pending ==> c.name in pendingModule.value && pendingModule.value[c.name] == c.irFunction)
  }

  lemma TruthfulWithEntry(lift: Lifter, cache: Cache, failed: map<string, CompileError>, address: u64, opcode: string,
      c: CompiledInstruction)
    requires Truthful(lift, cache, failed) && Meaning(lift, address, opcode) == Resolved(c.irFunction)
    ensures Truthful(lift, cache[DecodeKey(address, opcode) := c], failed)
  {
    hide DecodeKey, Meaning;
    forall a: u64, o: string | DecodeKey(a, o) == DecodeKey(address, opcode) ensures a == address && o == opcode {
      DecodeKeyInjective(a, o, address, opcode);
    }
  }

  lemma TruthfulWithFailure(lift: Lifter, cache: Cache, failed: map<string, CompileError>, address: u64,
      opcode: string, e: CompileError)
    requires Truthful(lift, cache, failed) && Meaning(lift, address, opcode) == Failed(e)
    ensures Truthful(lift, cache, failed[DecodeKey(address, opcode) := e])
  {
    hide DecodeKey, Meaning;
    forall a: u64, o: string | DecodeKey(a, o) == DecodeKey(address, opcode) ensures a == address && o == opcode {
      DecodeKeyInjective(a, o, address, opcode);
    }
  }

  lemma NamesStayDistinct(cache: Cache, next: nat, key: string, c: CompiledInstruction)
    requires NamesDistinct(cache, next) && c.name == FunctionName(c.id, c.opcode) && c.id == next
    ensures NamesDistinct(cache[key := c], next + 1)
  {
    hide FunctionName;
  }

  lemma NewerNamesAreFree(cache: Cache, next: nat, id: nat, o: string, c: CompiledInstruction)
    requires NamesDistinct(cache, next) && IsEntry(c, cache) && id >= next
    ensures c.name != FunctionName(id, o)
  {
    hide FunctionName;
    var k :| k in cache && cache[k] == c;
    if c.name == FunctionName(id, o) {
      FunctionNameInjective(c.id, c.opcode, id, o);
    }
  }

  /** Distinct entries have distinct symbols. */
  lemma SymbolsDiffer(cache: Cache, next: nat, j: string, k: string)
    requires NamesDistinct(cache, next) && j in cache && k in cache && j != k
    ensures cache[j].name != cache[k].name && cache[j] != cache[k]
  {
    hide FunctionName;
    if cache[j].name == cache[k].name {
      FunctionNameInjective(cache[j].id, cache[j].opcode, cache[k].id, cache[k].opcode);
    }
  }

  lemma JitStaysOlder(jitSymbols: map<string, Code>, next: nat, pending: seq<CompiledInstruction>,
      c: CompiledInstruction)
    requires JitIsOlder(jitSymbols, next, pending) && c.name == FunctionName(next, c.opcode)
    ensures JitIsOlder(jitSymbols, next + 1, pending + [c])
  {
    hide FunctionName;
  }

  lemma PendingStaysListed(cache: Cache, pending: seq<CompiledInstruction>, definitions: map<string, Code>, next: nat,
      key: string, c: CompiledInstruction)
    requires PendingListed(cache, pending, Some(definitions)) && NamesDistinct(cache, next) && key !in cache
    requires c.name == FunctionName(next, c.opcode)
    ensures PendingListed(cache[key := c], pending + [c], Some(definitions[c.name := c.irFunction]))
  {
    hide FunctionName, NamesDistinct;
    forall d | d in pending ensures d.name != c.name && d != c && IsEntry(d, cache[key := c]) {
      NewerNamesAreFree(cache, next, next, c.opcode, d);
      var k :| k in cache && cache[k] == d;
      assert cache[key := c][k] == d;
    }
    assert cache[key := c][key] == c;
  }

  class RemillBackend {
    const lift: Lifter
    var nextFunctionId: nat
    var pendingModule: Option<map<string, Code>>
    var pendingCompiled: seq<CompiledInstruction>
    var cache: map<string, CompiledInstruction>
    var failedCompileCache: map<string, CompileError>
    var jitSymbols: map<string, Code>

    ghost function Entries(): set<CompiledInstruction>
      reads `cache
    {
      set k | k in cache :: cache[k]
    }

    /**
     * Exactly the pending entries lack their function; every other one has the function the JIT made of
     * its own body.
     */
    ghost predicate EntriesRight()
      reads this, Entries()
    {
      forall k :: k in cache ==>
        cache[k].entry == if cache[k] in pendingCompiled then None else Some(cache[k].irFunction)
    }

    ghost predicate AllResolved()
      reads this, Entries()
    {
      forall k :: k in cache ==> cache[k].entry == Some(cache[k].irFunction)
    }

    ghost predicate Valid()
      reads this, Entries()
    {
      && cache.Keys !! failedCompileCache.Keys
      && Truthful(lift, cache, failedCompileCache)
      && NamesDistinct(cache, nextFunctionId)
      && JitIsOlder(jitSymbols, nextFunctionId, pendingCompiled)
      && PendingListed(cache, pendingCompiled, pendingModule)
      && EntriesRight()
    }

    /** Entries stay, and an entry that has its function keeps it. */
    twostate predicate Keeps()
      reads this, Entries()
    {
      && (forall k :: k in old(cache) ==> k in cache && cache[k] == old(cache[k]))
      && (forall k :: k in old(cache) && old(cache[k].entry).Some? ==> cache[k].entry == old(cache[k].entry))
      && (forall k :: k in old(failedCompileCache) ==>
            k in failedCompileCache && failedCompileCache[k] == old(failedCompileCache[k]))
    }

    constructor (lift: Lifter)
      ensures Valid() && this.lift == lift && cache == map[] && failedCompileCache == map[]
    {
      this.lift := lift;
      nextFunctionId, pendingModule, pendingCompiled := 0, None, [];
      cache, failedCompileCache, jitSymbols := map[], map[], map[];
    }

    method EnsurePendingModule()
      requires Valid()
      modifies this`pendingModule
      ensures Valid() && pendingModule.Some?
      ensures old(pendingModule).Some? ==> pendingModule == old(pendingModule)
    {
      hide Truthful, NamesDistinct, JitIsOlder;
      if pendingModule.None? {
        pendingModule := Some(map[]);
      }
    }

    /** `PruneModuleForJit` and `addIRModule`: only the pending entries stay visible. */
    method AddModuleToJit()
      requires Valid() && pendingModule.Some?
      modifies this`jitSymbols
      ensures forall c :: c in pendingCompiled ==> c.name in jitSymbols && jitSymbols[c.name] == c.irFunction
      ensures forall id: nat, o: string :: id >= nextFunctionId ==> FunctionName(id, o) !in jitSymbols
      ensures forall n :: n in old(jitSymbols) ==> n in jitSymbols && jitSymbols[n] == old(jitSymbols[n])
    {
      hide FunctionName, DecodeKey, Meaning;
      var entryNames := set c | c in pendingCompiled :: c.name;
      var exported := map n | n in pendingModule.value && n in entryNames :: pendingModule.value[n];
      assert exported.Keys !! jitSymbols.Keys;
      forall id: nat, o: string, c | id >= nextFunctionId && c in pendingCompiled
        ensures FunctionName(id, o) != c.name
      {
        NewerNamesAreFree(cache, nextFunctionId, id, o, c);
      }
      forall c | c in pendingCompiled ensures c.name in exported {
        assert c.name in entryNames;
      }
      jitSymbols := jitSymbols + exported;
    }

    /** Looks every pending symbol up in the JIT. */
    method LookUpPending()
      requires forall i, j :: 0 <= i < j < |pendingCompiled| ==> pendingCompiled[i] != pendingCompiled[j]
      requires forall c :: c in pendingCompiled ==> c.name in jitSymbols && jitSymbols[c.name] == c.irFunction
      modifies pendingCompiled
      ensures forall c :: c in pendingCompiled ==> c.entry == Some(c.irFunction)
    {
      for i := 0 to |pendingCompiled|
        invariant forall c :: c in pendingCompiled[..i] ==> c.entry == Some(c.irFunction)
      {
        var c := pendingCompiled[i];
        c.entry := Some(jitSymbols[c.name]);
        assert pendingCompiled[..i + 1] == pendingCompiled[..i] + [c];
      }
      assert pendingCompiled[..|pendingCompiled|] == pendingCompiled;
    }

    method PublishPending()
      requires Valid() && pendingModule.Some?
      modifies this, Entries()
      ensures Valid() && Keeps() && AllResolved()
      ensures cache == old(cache) && failedCompileCache == old(failedCompileCache)
      ensures pendingCompiled == [] && pendingModule == None
    {
      hide FunctionName, DecodeKey, Meaning, Truthful, NamesDistinct;
      assert forall c :: c in pendingCompiled ==> c in Entries();
      AddModuleToJit();
      LookUpPending();
      assert AllResolved();
      pendingCompiled := [];
      pendingModule := None;
    }

    method FinalizePendingModule()
      requires Valid()
      modifies this, Entries()
      ensures Valid() && Keeps() && AllResolved()
      ensures cache == old(cache) && failedCompileCache == old(failedCompileCache)
      ensures pendingCompiled == [] && pendingModule == None
    {
      hide Truthful, NamesDistinct, JitIsOlder;
      if pendingModule.None? {
        return;
      }
      if pendingCompiled == [] {
        pendingModule := None;
        return;
      }
      PublishPending();
    }

    method RecordFailure(address: u64, opcode: string, error: CompileError)
      requires Valid() && Meaning(lift, address, opcode) == Failed(error)
      requires DecodeKey(address, opcode) !in cache && DecodeKey(address, opcode) !in failedCompileCache
      modifies `failedCompileCache
      ensures Valid() && Keeps()
      ensures failedCompileCache == old(failedCompileCache)[DecodeKey(address, opcode) := error]
    {
      hide DecodeKey, Meaning, Truthful, NamesDistinct, JitIsOlder, PendingListed;
      TruthfulWithFailure(lift, cache, failedCompileCache, address, opcode, error);
      failedCompileCache := failedCompileCache[DecodeKey(address, opcode) := error];
    }

    method RecordCompiled(address: u64, opcode: string, code: Code) returns (compiled: CompiledInstruction)
      requires Valid() && pendingModule.Some? && Meaning(lift, address, opcode) == Resolved(code)
      requires DecodeKey(address, opcode) !in cache && DecodeKey(address, opcode) !in failedCompileCache
      modifies this
      ensures Valid() && Keeps() && fresh(compiled)
      ensures cache == old(cache)[DecodeKey(address, opcode) := compiled]
    {
      hide DecodeKey, Meaning, FunctionName, Truthful, NamesDistinct, JitIsOlder, PendingListed;
      var key := DecodeKey(address, opcode);
      compiled := new CompiledInstruction(FunctionName(nextFunctionId, opcode), code, nextFunctionId, opcode);
      TruthfulWithEntry(lift, cache, failedCompileCache, address, opcode, compiled);
      NamesStayDistinct(cache, nextFunctionId, key, compiled);
      JitStaysOlder(jitSymbols, nextFunctionId, pendingCompiled, compiled);
      PendingStaysListed(cache, pendingCompiled, pendingModule.value, nextFunctionId, key, compiled);
      assert compiled !in Entries();
      nextFunctionId := nextFunctionId + 1;
      pendingModule := Some(pendingModule.value[compiled.name := code]);
      cache := cache[key := compiled];
      pendingCompiled := pendingCompiled + [compiled];
    }

    method DefineInPendingModule(address: u64, opcode: string) returns (r: Definition)
      requires Valid()
      modifies this
      ensures Valid() && Keeps() && fresh(Entries() - old(Entries()))
      ensures match r
              case Defined(c) => DecodeKey(address, opcode) in cache && cache[DecodeKey(address, opcode)] == c
              case NotDefined(e) => Meaning(lift, address, opcode) == Failed(e)
              case DefineThrew(e) => Meaning(lift, address, opcode) == Threw(e)
    {
      hide DecodeKey, FunctionName, Truthful, NamesDistinct, JitIsOlder, PendingListed;
      var key := DecodeKey(address, opcode);
      if key in cache {
        return Defined(cache[key]);
      }
      if key in failedCompileCache {
        CachedFailure(address, opcode);
        return NotDefined(failedCompileCache[key]);
      }
      EnsurePendingModule();
      var bytes := ParseHexBytes(opcode);
      if bytes.Err? {
        return DefineThrew(bytes.error);
      }
      match lift(address, bytes.value) {
        case NotDecoded =>
          RecordFailure(address, opcode, FailedToDecode(opcode));
          return NotDefined(FailedToDecode(opcode));
        case NotLifted =>
          SkipFunctionId();
          RecordFailure(address, opcode, FailedToLift(opcode));
          return NotDefined(FailedToLift(opcode));
        case Lifted(code) =>
          var c := RecordCompiled(address, opcode, code);
          return Defined(c);
      }
    }

    lemma CachedFailure(address: u64, opcode: string)
      requires Valid() && DecodeKey(address, opcode) in failedCompileCache
      ensures Meaning(lift, address, opcode) == Failed(failedCompileCache[DecodeKey(address, opcode)])
    {
      hide DecodeKey, Meaning;
    }

    lemma CachedEntry(address: u64, opcode: string)
      requires Valid() && DecodeKey(address, opcode) in cache
      ensures Meaning(lift, address, opcode) == Resolved(cache[DecodeKey(address, opcode)].irFunction)
    {
      hide DecodeKey, Meaning;
    }

    /** The name of a function that fails to lift is used up. */
    method SkipFunctionId()
      requires Valid()
      modifies `nextFunctionId
      ensures Valid()
    {
      hide DecodeKey, Meaning, FunctionName, Truthful, PendingListed;
      nextFunctionId := nextFunctionId + 1;
    }

    /** The body of the loop over rows. */
    method PrepareOne(row: ExpectationRow) returns (ok: Result<bool, HexError>)
      requires Valid()
      modifies this, Entries()
      ensures Valid() && Keeps() && fresh(Entries() - old(Entries()))
      ensures ok.Ok? ==> ok.value
      ensures ok.Err? <==> row.opcode != "" && Meaning(lift, row.address, row.opcode).Threw?
    {
      hide DecodeKey, Meaning, Truthful, NamesDistinct, JitIsOlder, PendingListed;
      if row.opcode == "" {
        return Ok(true);
      }
      var d := DefineInPendingModule(row.address, row.opcode);
      match d {
        case Defined(_) =>
          CachedEntry(row.address, row.opcode);
          return Ok(true);
        case NotDefined(e) =>
          CompileErrorsAreUnsupported(e);
          return Ok(IsUnsupportedCompileError(e.Text()));
        case DefineThrew(e) =>
          return Err(e);
      }
    }

    /** Prepares rows in one module; an exception leaves the rows before it pending. */
    method PrepareCases(rows: seq<ExpectationRow>) returns (ok: Result<bool, HexError>)
      requires Valid()
      modifies this, Entries()
      ensures Valid() && Keeps() && fresh(Entries() - old(Entries()))
      ensures ok.Ok? ==> ok.value && AllResolved()
      ensures ok.Err?
        <==> exists row :: row in rows && row.opcode != "" && Meaning(lift, row.address, row.opcode).Threw?
    {
      hide DecodeKey, Meaning, Truthful, NamesDistinct, JitIsOlder, PendingListed;
      for i := 0 to |rows|
        invariant Valid() && Keeps() && fresh(Entries() - old(Entries()))
        invariant forall row :: row in rows[..i] && row.opcode != "" ==> !Meaning(lift, row.address, row.opcode).Threw?
      {
        var prepared := PrepareOne(rows[i]);
        match prepared {
          case Err(e) =>
            return Err(e);
          case Ok(goOn) =>
            if !goOn {
              return Ok(false);
            }
        }
      }
      FinalizePendingModule();
      ok := Ok(true);
    }

    /** Whatever was prepared or compiled before, compiling a row gives what compiling it alone gives. */
    method Compile(address: u64, opcode: string) returns (r: Outcome)
      requires Valid()
      modifies this, Entries()
      ensures Valid() && Keeps() && fresh(Entries() - old(Entries()))
      ensures r == Meaning(lift, address, opcode)
    {
      hide DecodeKey, Meaning, Truthful, NamesDistinct, JitIsOlder, PendingListed;
      var key := DecodeKey(address, opcode);
      if key in cache {
        CachedEntry(address, opcode);
        var c := cache[key];
        if c.entry.None? {
          FinalizePendingModule();
        }
        return Resolved(c.entry.value);
      }
      if key in failedCompileCache {
        CachedFailure(address, opcode);
        return Failed(failedCompileCache[key]);
      }
      var d := DefineInPendingModule(address, opcode);
      match d {
        case NotDefined(e) => return Failed(e);
        case DefineThrew(e) => return Threw(e);
        case Defined(c) =>
          CachedEntry(address, opcode);
          FinalizePendingModule();
          return Resolved(c.entry.value);
      }
    }

    method RunCase(row: ExpectationRow, finalStateKeys: seq<string>) returns (r: Result<ExecutionResult, HexError>)
      requires Valid() && Representable(row)
      modifies this, Entries()
      ensures Valid() && Keeps() && fresh(Entries() - old(Entries()))
      ensures r == CaseResult(lift, row, finalStateKeys)
    {
      hide DecodeKey, HexBytes, RunCode;
      if row.opcode == "" {
        return Ok(NotRun(OutcomeClass.Unsupported, NO_OPCODE));
      }
      var compiled := Compile(row.address, row.opcode);
      match compiled {
        case Threw(e) =>
          return Err(e);
        case Failed(e) =>
          CompileErrorsAreUnsupported(e);
          var text := e.Text();
          return Ok(NotRun(if IsUnsupportedCompileError(text) then OutcomeClass.Unsupported else BackendError, text));
        case Resolved(code) =>
          var opcode := ParseHexBytes(row.opcode);
          HexBytesShort(row.opcode);
          var result := RunCompiled(code, row, opcode.value, finalStateKeys);
          return Ok(result);
      }
    }
  }

  const NO_OPCODE := "row has no opcode"

  /** What a row runs to, from nothing but its own fields. */
  function CaseResult(lift: Lifter, row: ExpectationRow, keys: seq<string>): Result<ExecutionResult, HexError>
    requires Representable(row)
  {
    HexBytesShort(row.opcode);
    if row.opcode == "" then Ok(NotRun(OutcomeClass.Unsupported, NO_OPCODE))
    else match Meaning(lift, row.address, row.opcode)
      case Threw(e) => Err(e)
      case Failed(e) => Ok(NotRun(OutcomeClass.Unsupported, e.Text()))
      case Resolved(code) => Ok(RunCode(code, row, HexBytes(row.opcode).value, keys))
  }

  lemma HexBytesShort(hex: string)
    ensures HexBytes(hex).Ok? ==> |HexBytes(hex).value| <= |hex|
  {
    HexDigitsShort(hex);
  }

  lemma {:induction false} HexDigitsShort(hex: string)
    ensures HexDigits(hex).Ok? ==> |HexDigits(hex).value| <= |hex|
  {
    if hex != "" {
      HexDigitsShort(hex[..|hex| - 1]);
    }
  }

  // ---- Whole sessions ----

  datatype Event = Prepare(rows: seq<ExpectationRow>) | CompileRow(address: u64, opcode: string)

  /** What the compile calls of a session give when every row is compiled on its own. */
  function OnDemand(lift: Lifter, events: seq<Event>): seq<Outcome> {
    if events == [] then []
    else
      var before := OnDemand(lift, events[..|events| - 1]);
      match events[|events| - 1]
      case Prepare(_) => before
      case CompileRow(address, opcode) => before + [Meaning(lift, address, opcode)]
  }

  /** Preparing in batches, in any order and any number of times, is not visible in what compiling gives. */
  method Session(lift: Lifter, events: seq<Event>) returns (outcomes: seq<Outcome>)
    ensures outcomes == OnDemand(lift, events)
  {
    hide DecodeKey, Meaning, Truthful, NamesDistinct, JitIsOlder, PendingListed;
    var backend := new RemillBackend(lift);
    outcomes := [];
    for i := 0 to |events|
      invariant fresh(backend) && fresh(backend.Entries()) && backend.Valid() && backend.lift == lift
      invariant outcomes == OnDemand(lift, events[..i])
    {
      assert events[..i + 1][..i] == events[..i];
      match events[i] {
        case Prepare(rows) =>
          var _ := backend.PrepareCases(rows);
        case CompileRow(address, opcode) =>
          var outcome := backend.Compile(address, opcode);
          outcomes := outcomes + [outcome];
      }
    }
    assert events[..|events|] == events;
  }

  // ---- Running one row ----

  method PlaceOneCell(memory: GuestMemory.GuestMemory, cell: MemoryCell)
    requires memory.Valid() && |cell.bytes| < TWO64
    modifies memory
    ensures memory.Valid() && memory.Flat() == PlaceCell(old(memory.Flat()), cell)
  {
    hide FlatMemory.MapRange, FlatMemory.Write;
    var permissions := if cell.permissions == 0 then FlatMemory.READ_WRITE else cell.permissions;
    var _ := memory.Map(cell.address, |cell.bytes|, permissions);
    var _ := memory.Write(cell.address, cell.bytes);
  }

  method PrepareMemory(address: u64, opcode: seq<byte>,
      cells: seq<MemoryCell>) returns (memory: GuestMemory.GuestMemory)
    requires |opcode| < TWO64 && forall cell :: cell in cells ==> |cell.bytes| < TWO64
    ensures fresh(memory) && memory.Valid() && memory.Flat() == SetUp(address, opcode, cells)
  {
    hide FlatMemory.MapRange, FlatMemory.Write, PlaceCell;
    memory := new GuestMemory.GuestMemory();
    PageBounds(address);
    var _ := memory.Map(FlatMemory.PageBase(address), FlatMemory.PAGE_SIZE, FlatMemory.ALL);
    var _ := memory.Write(address, opcode);
    ghost var coded := memory.Flat();
    for i := 0 to |cells|
      invariant memory.Valid() && memory.Flat() == PlaceCells(coded, cells[..i])
    {
      assert cells[..i + 1][..i] == cells[..i];
      PlaceOneCell(memory, cells[i]);
    }
    assert cells[..|cells|] == cells;
  }

  method ReadExpected(memory: GuestMemory.GuestMemory,
      expected: seq<MemoryExpectation>) returns (found: seq<MemoryExpectation>)
    requires memory.Valid() && forall e :: e in expected ==> |e.bytes| < TWO64
    modifies memory
    ensures memory.Valid()
    ensures Observed(memory.Flat(), found) == ReadBack(old(memory.Flat()), expected)
  {
    hide FlatMemory.Read;
    found := [];
    for i := 0 to |expected|
      invariant memory.Valid()
      invariant Observed(memory.Flat(), found) == ReadBack(old(memory.Flat()), expected[..i])
    {
      assert expected[..i + 1][..i] == expected[..i];
      var e := expected[i];
      var bytes := new byte[|e.bytes|];
      var _ := memory.Read(e.address, bytes);
      found := found + [MemoryExpectation(e.address, bytes[..], e.mask)];
    }
    assert expected[..|expected|] == expected;
  }

  method JudgeRun(state: X86State, memory: GuestMemory.GuestMemory, row: ExpectationRow,
      keys: seq<string>) returns (result: ExecutionResult)
    requires memory.Valid() && Representable(row)
    modifies memory
    ensures result == Judge(I.Finished(state.View(), old(memory.Flat())), row, keys)
  {
    hide ReadBack, Snapshot, SnapshotBytes, FaultText, FaultOutcome, FaultDetail, Sorted;
    var found: seq<MemoryExpectation> := [];
    if memory.lastFault.None? {
      found := ReadExpected(memory, row.expectedMemory);
    }
    if memory.lastFault.Some? {
      var fault := memory.lastFault.value;
      return ExecutionResult(FaultOutcome(fault, row.expectedExceptionKind), map[], map[], found,
                             Some(FaultDetail(fault, row.expectedExceptionKind)), None);
    }
    var finalState := state.SnapshotState(keys);
    var finalBytes := state.SnapshotByteState(Sorted(row.expectedFinalBytes.Keys));
    return ExecutionResult(Normal, finalState, finalBytes, found, None, None);
  }

  method RunCompiled(code: Code, row: ExpectationRow, opcode: seq<byte>,
      keys: seq<string>) returns (result: ExecutionResult)
    requires Representable(row) && |opcode| < TWO64
    ensures result == RunCode(code, row, opcode, keys)
  {
    hide Apply, Reset, SetUp, IsScalarRegister, I.Run, WithScalar, Judge;
    var state := new X86State();
    var error := state.ApplyInitialState(row.initialState, row.initialBytes);
    if error.Some? {
      return NotRun(OutcomeClass.Unsupported, error.value.Text());
    }
    RipIsScalar();
    if state.gpr["rip"] == 0 {
      var _ := state.SetScalarRegister("rip", row.address);
    }
    var memory := PrepareMemory(row.address, opcode, row.initialMemory);
    var final := I.Invoke(code, state.View(), memory);
    state.Become(final);
    result := JudgeRun(state, memory, row, keys);
  }
}
