/** Exactly which test cases the public converter writes in a form that the reader takes back. */
module PublicReadable {
  import opened Wrappers
  import opened Text
  import opened PooledFormat
  import opened PooledReadable
  import opened PublicItems
  import opened PublicWriter
  import opened PublicReading
  import opened PublicRoundTrip
  import opened BitTest
  import P = X86TesterParser

  // ---- Cases with delimiter-free fields ----

  predicate CleanState(state: Option<StateObject>) {
    state.Some? ==> forall j :: 0 <= j < |state.value| ==> PlainKey(StateKey(state.value[j].key))
  }

  predicate CleanRow(row: PublicRow) {
    && CleanState(row.initial)
    && (if Raises(row) then GoodKind(row.exception.value) else CleanState(row.final))
  }

  predicate CleanCase(c: PublicCase) {
    && GoodHex(ToUpper(c.opcode)) && GoodAssembly(c.instruction) && |c.rows| < TWO64
    && forall i :: 0 <= i < |c.rows| ==> CleanRow(c.rows[i])
  }

  predicate ItemsPlain(items: seq<Pair>) {
    forall k :: 0 <= k < |items| ==> PlainKey(items[k].key)
  }

  lemma StateItemsPlain(state: Option<StateObject>, mem0: int)
    requires CleanState(state)
    ensures ItemsPlain(StateItems(state, mem0))
  {
    hide PlainKey, StateKey, MemoryKey;
    MemoryKeyReads(mem0);
  }

  lemma RowItemsPlain(c: PublicCase, row: PublicRow, mem0: int)
    requires CleanRow(row)
    ensures ItemsPlain(InputItems(c, row, mem0)) && ItemsPlain(OutputItems(row, mem0))
  {
    hide PlainKey, StateKey, MemoryKey, HiddenMemory, StateItems, GoodKind, CleanState;
    StateItemsPlain(row.initial, mem0);
    if !Raises(row) {
      StateItemsPlain(row.final, mem0);
    }
    var hidden := HiddenItems(Hidden(c, row, mem0));
    forall k | 0 <= k < |hidden| ensures PlainKey(hidden[k].key) {
      MemoryKeyReads(Hidden(c, row, mem0)[k].address);
    }
  }

  lemma UnionPlain(lists: seq<seq<Pair>>)
    requires forall i :: 0 <= i < |lists| ==> ItemsPlain(lists[i])
    ensures PlainSchema(Union(lists))
  {
    hide PlainKey, Union;
    var schema := Union(lists);
    forall j | 0 <= j < |schema| ensures PlainKey(schema[j]) {
      UnionKeys(lists, schema[j]);
      var i, k := KeyAt(lists, schema[j]);
      assert ItemsPlain(lists[i]);
    }
  }

  lemma KeyAt(lists: seq<seq<Pair>>, key: string) returns (i: nat, k: nat)
    requires InSome(lists, key)
    ensures i < |lists| && k < |lists[i]| && lists[i][k].key == key
  {
    i :| 0 <= i < |lists| && HasKey(lists[i], key);
    k :| 0 <= k < |lists[i]| && lists[i][k].key == key;
  }

  lemma CleanRowWidens(c: PublicCase, w: WideCase, mem0: int, i: nat)
    requires i < |c.rows| && |w.rows| == |c.rows| && RowIsOwn(c, w, mem0, i) && CleanRow(c.rows[i])
    ensures GoodWideRow(w.rows[i], w)
    ensures w.rows[i].exception.Some? <==> Raises(c.rows[i])
  {
    hide CleanState, GoodKind, OwnOrZero, SameItems;
  }

  lemma RaisingRowsWriteNothing(c: PublicCase, w: WideCase, mem0: int)
    requires |w.rows| == |c.rows| && w.outSchema == Union(OutputLists(c.rows, mem0)) && w.outSchema != []
    requires forall i :: 0 <= i < |c.rows| ==> (w.rows[i].exception.Some? <==> Raises(c.rows[i]))
    ensures exists i :: 0 <= i < |w.rows| && w.rows[i].exception.None?
  {
    hide StateItems, Union;
    UnionKeys(OutputLists(c.rows, mem0), w.outSchema[0]);
    var i, k := KeyAt(OutputLists(c.rows, mem0), w.outSchema[0]);
    assert !Raises(c.rows[i]);
  }

  /** A clean case widens to a plain group in which every key has a value somewhere. */
  lemma CleanCaseWidens(c: PublicCase, entry: int, pageSize: int, mem0: int)
    requires CleanCase(c) && c.rows != [] && Widen(c, entry, pageSize, mem0).Ok?
    requires 0 <= Widen(c, entry, pageSize, mem0).value.address < TWO64
    ensures PlainWide(Widen(c, entry, pageSize, mem0).value) && WideUsed(Widen(c, entry, pageSize, mem0).value)
  {
    var w := Widen(c, entry, pageSize, mem0).value;
    assert w.opcode == ToUpper(c.opcode) && w.instruction == c.instruction;
    hide Widen, GoodHex, GoodAssembly, InputLists, OutputLists, CleanRow, ToUpper, PlainSchema, RowIsOwn, GoodWideRow;
    WidenedRowsAreOwn(c, entry, pageSize, mem0);
    forall i | 0 <= i < |c.rows|
      ensures GoodWideRow(w.rows[i], w) && (w.rows[i].exception.Some? <==> Raises(c.rows[i]))
    {
      CleanRowWidens(c, w, mem0, i);
    }
    CleanLists(c, mem0);
    UnionPlain(InputLists(c, c.rows, mem0));
    UnionPlain(OutputLists(c.rows, mem0));
    if w.outSchema != [] {
      RaisingRowsWriteNothing(c, w, mem0);
    }
  }

  lemma CleanLists(c: PublicCase, mem0: int)
    requires CleanCase(c)
    ensures forall i :: 0 <= i < |c.rows| ==>
      ItemsPlain(InputLists(c, c.rows, mem0)[i]) && ItemsPlain(OutputLists(c.rows, mem0)[i])
  {
    hide ItemsPlain, CleanRow, InputItems, OutputItems, GoodHex, GoodAssembly;
    forall i | 0 <= i < |c.rows|
      ensures ItemsPlain(InputLists(c, c.rows, mem0)[i]) && ItemsPlain(OutputLists(c.rows, mem0)[i])
    {
      RowItemsPlain(c, c.rows[i], mem0);
    }
  }

  // ---- Cases whose addresses are addresses ----

  /** The serialised cell needs mem0 to be a 64-bit address; another memory key must itself be readable. */
  predicate EntryReads(entry: Entry, mem0: int) {
    if StateKey(entry.key) == "mem0_value" then 0 <= mem0 < TWO64 else KeyReads(StateKey(entry.key))
  }

  predicate StateReads(state: Option<StateObject>, mem0: int) {
    state.Some? ==> forall j :: 0 <= j < |state.value| ==> EntryReads(state.value[j], mem0)
  }

  /** A materialised element lies at a 64-bit address. */
  predicate ElementReads(c: PublicCase, row: PublicRow, mem0: int) {
    var test := TestOf(c.name, c.instruction, row.initial, row.final);
    test.Some? && Materialises(test.value, mem0) ==> 0 <= ElementAddress(test.value, mem0) < TWO64
  }

  predicate PublicRowReads(c: PublicCase, row: PublicRow, mem0: int) {
    StateReads(row.initial, mem0) && ElementReads(c, row, mem0) && (!Raises(row) ==> StateReads(row.final, mem0))
  }

  predicate CaseReads(c: PublicCase, mem0: int) {
    forall i :: 0 <= i < |c.rows| ==> PublicRowReads(c, c.rows[i], mem0)
  }

  predicate ItemsRead(items: seq<Pair>) {
    forall k :: 0 <= k < |items| ==> KeyReads(items[k].key)
  }

  lemma StateItemsRead(state: Option<StateObject>, mem0: int)
    ensures ItemsRead(StateItems(state, mem0)) <==> StateReads(state, mem0)
  {
    hide StateKey, MemoryKey, P.ParseMemoryAddressKey;
    MemoryKeyReads(mem0);
    var items := StateItems(state, mem0);
    if state.Some? {
      forall j | 0 <= j < |state.value| ensures KeyReads(items[j].key) <==> EntryReads(state.value[j], mem0) {
        assert items[j] == ItemOf(state.value[j], mem0);
      }
    }
  }

  lemma HiddenItemsRead(c: PublicCase, row: PublicRow, mem0: int)
    ensures ItemsRead(HiddenItems(Hidden(c, row, mem0))) <==> ElementReads(c, row, mem0)
  {
    hide TestOf, MemoryKey, P.ParseMemoryAddressKey, Materialises, ElementAddress;
    var test := TestOf(c.name, c.instruction, row.initial, row.final);
    if test.Some? && Materialises(test.value, mem0) {
      var address := ElementAddress(test.value, mem0);
      assert Hidden(c, row, mem0) == [CellOf(test.value, mem0)] && CellOf(test.value, mem0).address == address;
      assert HiddenItems(Hidden(c, row, mem0))[0].key == MemoryKey(address);
      MemoryKeyReads(address);
    } else {
      assert Hidden(c, row, mem0) == [];
    }
  }

  lemma ItemsReadAppend(a: seq<Pair>, b: seq<Pair>)
    ensures ItemsRead(a + b) <==> ItemsRead(a) && ItemsRead(b)
  {
    hide KeyReads;
    assert forall i :: 0 <= i < |a| ==> (a + b)[i] == a[i];
    assert forall i :: 0 <= i < |b| ==> (a + b)[|a| + i] == b[i];
  }

  lemma RowItemsRead(c: PublicCase, row: PublicRow, mem0: int)
    ensures ItemsRead(InputItems(c, row, mem0)) && ItemsRead(OutputItems(row, mem0)) <==> PublicRowReads(c, row, mem0)
  {
    hide ItemsRead, StateItems, HiddenItems, Hidden, StateReads, ElementReads;
    StateItemsRead(row.initial, mem0);
    StateItemsRead(row.final, mem0);
    HiddenItemsRead(c, row, mem0);
    ItemsReadAppend(StateItems(row.initial, mem0), HiddenItems(Hidden(c, row, mem0)));
    NothingReads();
  }

  lemma NothingReads()
    ensures ItemsRead([])
  {
  }

  lemma UnionReads(lists: seq<seq<Pair>>)
    ensures SchemaReads(Union(lists)) <==> forall i :: 0 <= i < |lists| ==> ItemsRead(lists[i])
  {
    hide KeyReads, Union;
    var schema := Union(lists);
    if SchemaReads(schema) {
      forall i, k | 0 <= i < |lists| && 0 <= k < |lists[i]| ensures KeyReads(lists[i][k].key) {
        ItemInSome(lists, i, k);
        UnionKeys(lists, lists[i][k].key);
        var j :| 0 <= j < |schema| && schema[j] == lists[i][k].key;
        assert KeyReads(schema[j]);
      }
    }
    if forall i :: 0 <= i < |lists| ==> ItemsRead(lists[i]) {
      forall j | 0 <= j < |schema| ensures KeyReads(schema[j]) {
        UnionKeys(lists, schema[j]);
        var i, k := KeyAt(lists, schema[j]);
        assert ItemsRead(lists[i]);
      }
    }
  }

  /**
   * The keys of a written group are all readable exactly when mem0, wherever a row has a serialised
   * cell, and the element address of every row that materialises one are 64-bit addresses.
   */
  lemma GroupReadsExactly(c: PublicCase, entry: int, pageSize: int, mem0: int)
    requires Widen(c, entry, pageSize, mem0).Ok?
    ensures WideReads(Widen(c, entry, pageSize, mem0).value) <==> CaseReads(c, mem0)
  {
    hide Widen, SchemaReads, Union, PublicRowReads, ItemsRead, InputItems, OutputItems, RowIsOwn, NoRepeats;
    WidenedRowsAreOwn(c, entry, pageSize, mem0);
    UnionReads(InputLists(c, c.rows, mem0));
    UnionReads(OutputLists(c.rows, mem0));
    forall i | 0 <= i < |c.rows|
      ensures ItemsRead(InputLists(c, c.rows, mem0)[i]) && ItemsRead(OutputLists(c.rows, mem0)[i])
         <==> PublicRowReads(c, c.rows[i], mem0)
    {
      RowItemsRead(c, c.rows[i], mem0);
    }
  }
}
