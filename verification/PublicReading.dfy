/**
 * Reading what the public converter wrote: every row gets its own values, and zeros for the memory only
 * other rows had.
 */
module PublicReading {
  import opened Wrappers
  import opened Text
  import opened PublicItems
  import opened PublicWriter
  import P = X86TesterParser

  // ---- Union schemas ----

  predicate HasKey(items: seq<Pair>, key: string) {
    exists j :: 0 <= j < |items| && items[j].key == key
  }

  predicate InSome(lists: seq<seq<Pair>>, key: string) {
    exists i :: 0 <= i < |lists| && HasKey(lists[i], key)
  }

  predicate NoRepeats(schema: seq<string>) {
    forall i, j :: 0 <= i < j < |schema| ==> schema[i] != schema[j]
  }

  lemma HasKeySplit(items: seq<Pair>, key: string)
    requires items != []
    ensures HasKey(items, key) <==> HasKey(items[..|items| - 1], key) || items[|items| - 1].key == key
  {
    var init := items[..|items| - 1];
    if HasKey(items, key) {
      var j :| 0 <= j < |items| && items[j].key == key;
      assert j < |init| ==> init[j].key == key;
    }
    if HasKey(init, key) {
      var j :| 0 <= j < |init| && init[j].key == key;
      assert items[j].key == key;
    }
  }

  lemma InSomeSplit(lists: seq<seq<Pair>>, key: string)
    requires lists != []
    ensures InSome(lists, key) <==> InSome(lists[..|lists| - 1], key) || HasKey(lists[|lists| - 1], key)
  {
    hide HasKey;
    var init := lists[..|lists| - 1];
    if InSome(lists, key) {
      var i :| 0 <= i < |lists| && HasKey(lists[i], key);
      assert i < |init| ==> HasKey(init[i], key);
    }
    if InSome(init, key) {
      var i :| 0 <= i < |init| && HasKey(init[i], key);
      assert HasKey(lists[i], key);
    }
  }

  lemma {:induction false} AppendSchemaKeys(schema: seq<string>, items: seq<Pair>, key: string)
    requires NoRepeats(schema)
    ensures NoRepeats(AppendSchema(schema, items))
    ensures key in AppendSchema(schema, items) <==> key in schema || HasKey(items, key)
    decreases |items|
  {
    hide HasKey;
    if items == [] {
      NoKeyInNothing(key);
    } else {
      AppendSchemaKeys(schema, items[..|items| - 1], key);
      HasKeySplit(items, key);
    }
  }

  lemma NoKeyInNothing(key: string)
    ensures !HasKey([], key) && !InSome([], key)
  {
  }

  /** A union schema has each key of each list exactly once. */
  lemma {:induction false} UnionKeys(lists: seq<seq<Pair>>, key: string)
    ensures NoRepeats(Union(lists))
    ensures key in Union(lists) <==> InSome(lists, key)
    decreases |lists|
  {
    hide HasKey, InSome, AppendSchema, NoRepeats;
    if lists == [] {
      NoKeyInNothing(key);
      EmptyHasNoRepeats();
    } else {
      UnionKeys(lists[..|lists| - 1], key);
      AppendSchemaKeys(Union(lists[..|lists| - 1]), lists[|lists| - 1], key);
      InSomeSplit(lists, key);
    }
  }

  lemma EmptyHasNoRepeats()
    ensures NoRepeats([])
  {
  }

  // ---- Defaults ----

  predicate AllZero(bytes: seq<byte>) {
    forall i :: 0 <= i < |bytes| ==> bytes[i] == 0
  }

  /** Some list gives the key a value of this length. */
  ghost predicate SizedInSome(lists: seq<seq<Pair>>, key: string, size: nat) {
    exists i, j :: SizedAt(lists, key, size, i, j)
  }

  predicate SizedAt(lists: seq<seq<Pair>>, key: string, size: nat, i: int, j: int) {
    0 <= i < |lists| && 0 <= j < |lists[i]| && lists[i][j].key == key && |lists[i][j].bytes| == size
  }

  ghost predicate DefaultsFrom(defaults: Values, lists: seq<seq<Pair>>) {
    forall key :: key in defaults ==>
      IsMemoryKey(key) && AllZero(defaults[key]) && SizedInSome(lists, key, |defaults[key]|)
  }

  lemma {:induction false} AddDefaultsFrom(defaults: Values, lists: seq<seq<Pair>>, items: seq<Pair>, n: nat)
    requires n <= |items| && lists != [] && lists[|lists| - 1] == items
    requires DefaultsFrom(defaults, lists)
    ensures DefaultsFrom(AddDefaults(defaults, items[..n]), lists)
    ensures forall key :: key in AddDefaults(defaults, items[..n]) <==>
      key in defaults || (IsMemoryKey(key) && HasKey(items[..n], key))
    decreases n
  {
    hide IsMemoryKey, SizedInSome, HasKey;
    if n == 0 {
      forall key ensures !HasKey(items[..0], key) {
        NoKeyInNothing(key);
      }
    } else {
      AddDefaultsFrom(defaults, lists, items, n - 1);
      assert items[..n][..n - 1] == items[..n - 1];
      SizedHere(lists, n - 1);
      forall key ensures HasKey(items[..n], key) <==> HasKey(items[..n - 1], key) || items[n - 1].key == key {
        HasKeySplit(items[..n], key);
      }
    }
  }

  lemma SizedHere(lists: seq<seq<Pair>>, j: nat)
    requires lists != [] && j < |lists[|lists| - 1]|
    ensures SizedInSome(lists, lists[|lists| - 1][j].key, |lists[|lists| - 1][j].bytes|)
  {
    assert SizedAt(lists, lists[|lists| - 1][j].key, |lists[|lists| - 1][j].bytes|, |lists| - 1, j);
  }

  lemma SizedStays(lists: seq<seq<Pair>>, key: string, size: nat)
    requires lists != [] && SizedInSome(lists[..|lists| - 1], key, size)
    ensures SizedInSome(lists, key, size)
  {
    var init := lists[..|lists| - 1];
    var i, j :| SizedAt(init, key, size, i, j);
    assert SizedAt(lists, key, size, i, j);
  }

  /** Exactly the memory keys of the group have a default: zeros, as many as some row's value has bytes. */
  lemma {:induction false} DefaultsAre(lists: seq<seq<Pair>>)
    ensures DefaultsFrom(Defaults(lists), lists)
    ensures forall key :: key in Defaults(lists) <==> IsMemoryKey(key) && InSome(lists, key)
    decreases |lists|
  {
    hide IsMemoryKey, SizedInSome, HasKey, InSome, AddDefaults;
    if lists == [] {
      forall key ensures !InSome([], key) {
        NoKeyInNothing(key);
      }
    } else {
      var init, items := lists[..|lists| - 1], lists[|lists| - 1];
      DefaultsAre(init);
      forall key | key in Defaults(init) ensures SizedInSome(lists, key, |Defaults(init)[key]|) {
        SizedStays(lists, key, |Defaults(init)[key]|);
      }
      AddDefaultsFrom(Defaults(init), lists, items, |items|);
      assert items[..|items|] == items;
      forall key ensures InSome(lists, key) <==> InSome(init, key) || HasKey(items, key) {
        InSomeSplit(lists, key);
      }
    }
  }

  // ---- Maps and filling ----

  lemma {:induction false} ItemsMapped(items: seq<Pair>)
    requires ItemsToMap(items).Ok?
    ensures forall key :: key in ItemsToMap(items).value <==> HasKey(items, key)
    ensures forall j :: 0 <= j < |items| ==>
      items[j].key in ItemsToMap(items).value && ItemsToMap(items).value[items[j].key] == items[j].bytes
    decreases |items|
  {
    hide HasKey;
    if items == [] {
      forall key ensures !HasKey(items, key) {
        NoKeyInNothing(key);
      }
    } else {
      var init := items[..|items| - 1];
      ItemsMapped(init);
      forall key ensures HasKey(items, key) <==> HasKey(init, key) || items[|items| - 1].key == key {
        HasKeySplit(items, key);
      }
      assert forall j :: 0 <= j < |init| ==> init[j] == items[j];
    }
  }

  lemma {:induction false} Filled(schema: seq<string>, values: Values, defaults: Values)
    requires Fill(schema, values, defaults).Ok?
    ensures forall j :: 0 <= j < |schema| ==>
      Present(schema[j], values, defaults)
        && Fill(schema, values, defaults).value[j] == ValueFor(schema[j], values, defaults)
    decreases |schema|
  {
    hide Present, ValueFor;
    if schema != [] {
      var init := schema[..|schema| - 1];
      Filled(init, values, defaults);
      assert forall j :: 0 <= j < |init| ==> init[j] == schema[j];
    }
  }

  /** The key-value pairs of a filled schema. */
  function Zip(schema: seq<string>, values: seq<seq<byte>>): (pairs: seq<Pair>)
    requires |values| == |schema|
    ensures |pairs| == |schema|
  {
    seq(|schema|, i requires 0 <= i < |schema| => P.Pair(schema[i], values[i]))
  }

  /** Every pair is one of the row's own items, or zeros under a memory key that only other rows have. */
  ghost predicate OwnOrZero(pairs: seq<Pair>, items: seq<Pair>, lists: seq<seq<Pair>>) {
    && (forall j :: 0 <= j < |pairs| ==> pairs[j] in items || IsZeroFill(pairs[j], items, lists))
    && (forall k :: 0 <= k < |items| ==> items[k] in pairs)
  }

  ghost predicate IsZeroFill(pair: Pair, items: seq<Pair>, lists: seq<seq<Pair>>) {
    IsMemoryKey(pair.key) && !HasKey(items, pair.key) && AllZero(pair.bytes)
      && SizedInSome(lists, pair.key, |pair.bytes|)
  }

  lemma FilledIsOwnOrZero(lists: seq<seq<Pair>>, items: seq<Pair>, i: nat)
    requires i < |lists| && lists[i] == items && ItemsToMap(items).Ok?
    requires Fill(Union(lists), ItemsToMap(items).value, Defaults(lists)).Ok?
    ensures OwnOrZero(Zip(Union(lists), Fill(Union(lists), ItemsToMap(items).value, Defaults(lists)).value),
      items, lists)
  {
    hide IsMemoryKey, AllZero, SizedInSome, ItemsToMap, Union, Defaults, Fill, InSome;
    var values := ItemsToMap(items).value;
    var schema := Union(lists);
    var filled := Fill(schema, values, Defaults(lists)).value;
    var pairs := Zip(schema, filled);
    ItemsMapped(items);
    Filled(schema, values, Defaults(lists));
    DefaultsAre(lists);
    forall j | 0 <= j < |pairs| ensures pairs[j] in items || IsZeroFill(pairs[j], items, lists) {
      if HasKey(items, schema[j]) {
        var k :| 0 <= k < |items| && items[k].key == schema[j];
        assert pairs[j] == items[k];
      }
    }
    forall k | 0 <= k < |items| ensures items[k] in pairs {
      ItemInSome(lists, i, k);
      UnionKeys(lists, items[k].key);
      var j :| 0 <= j < |schema| && schema[j] == items[k].key;
      assert pairs[j] == items[k];
    }
  }

  lemma ItemInSome(lists: seq<seq<Pair>>, i: nat, k: nat)
    requires i < |lists| && k < |lists[i]|
    ensures HasKey(lists[i], lists[i][k].key) && InSome(lists, lists[i][k].key)
  {
    assert HasKey(lists[i], lists[i][k].key);
  }

  lemma FilledIsOwn(lists: seq<seq<Pair>>, items: seq<Pair>, i: nat)
    requires i < |lists| && lists[i] == items && ItemsToMap(items).Ok?
    requires Fill(Union(lists), ItemsToMap(items).value, map[]).Ok?
    ensures SameItems(Zip(Union(lists), Fill(Union(lists), ItemsToMap(items).value, map[]).value), items)
  {
    hide ItemsToMap, Union, Fill, InSome;
    var values := ItemsToMap(items).value;
    var schema := Union(lists);
    var pairs := Zip(schema, Fill(schema, values, map[]).value);
    ItemsMapped(items);
    Filled(schema, values, map[]);
    forall j | 0 <= j < |pairs| ensures pairs[j] in items {
      var k :| 0 <= k < |items| && items[k].key == schema[j];
      assert pairs[j] == items[k];
    }
    forall k | 0 <= k < |items| ensures items[k] in pairs {
      ItemInSome(lists, i, k);
      UnionKeys(lists, items[k].key);
      var j :| 0 <= j < |schema| && schema[j] == items[k].key;
      assert pairs[j] == items[k];
    }
  }

  predicate SameItems(pairs: seq<Pair>, items: seq<Pair>) {
    (forall j :: 0 <= j < |pairs| ==> pairs[j] in items) && (forall k :: 0 <= k < |items| ==> items[k] in pairs)
  }

  // ---- Widened cases ----

  lemma {:induction false} RowsMapped(c: PublicCase, rows: seq<PublicRow>, mem0: int, i: nat)
    requires MapRows(c, rows, mem0).Ok? && i < |rows|
    ensures MapRow(c, rows[i], mem0) == Ok(MapRows(c, rows, mem0).value[i])
    decreases |rows|
  {
    hide MapRow;
    if i < |rows| - 1 {
      RowsMapped(c, rows[..|rows| - 1], mem0, i);
    }
  }

  lemma {:induction false} RowsWidened(rows: seq<MappedRow>, inSchema: seq<string>, outSchema: seq<string>,
      defaults: Values, i: nat)
    requires WidenRows(rows, inSchema, outSchema, defaults).Ok? && i < |rows|
    ensures WidenRow(rows[i], inSchema, outSchema, defaults)
      == Ok(WidenRows(rows, inSchema, outSchema, defaults).value[i])
    decreases |rows|
  {
    hide WidenRow;
    if i < |rows| - 1 {
      RowsWidened(rows[..|rows| - 1], inSchema, outSchema, defaults, i);
    }
  }

  /** What a widened row owes to its own row and to its group. */
  ghost predicate RowIsOwn(c: PublicCase, w: WideCase, mem0: int, i: nat)
    requires i < |c.rows| && |w.rows| == |c.rows|
  {
    var row, wide := c.rows[i], w.rows[i];
    && |wide.inputs| == |w.inSchema|
    && OwnOrZero(Zip(w.inSchema, wide.inputs), InputItems(c, row, mem0), InputLists(c, c.rows, mem0))
    && (if Raises(row) then wide.exception == row.exception
        else wide.exception == None && |wide.outputs| == |w.outSchema|
             && SameItems(Zip(w.outSchema, wide.outputs), OutputItems(row, mem0)))
  }

  /** Whenever widening succeeds, each row holds its own values, and zeros where only other rows have memory. */
  lemma WidenedRowsAreOwn(c: PublicCase, entry: int, pageSize: int, mem0: int)
    requires Widen(c, entry, pageSize, mem0).Ok?
    ensures var w := Widen(c, entry, pageSize, mem0).value;
      && |w.rows| == |c.rows|
      && NoRepeats(w.inSchema) && NoRepeats(w.outSchema)
      && w.inSchema == Union(InputLists(c, c.rows, mem0)) && w.outSchema == Union(OutputLists(c.rows, mem0))
      && forall i :: 0 <= i < |c.rows| ==> RowIsOwn(c, w, mem0, i)
  {
    hide InputItems, OutputItems, Union, Defaults, OwnOrZero, SameItems, InstructionAddress, ToUpper, NoRepeats,
         ItemsToMap, Fill;
    var w := Widen(c, entry, pageSize, mem0).value;
    UnionKeys(InputLists(c, c.rows, mem0), "");
    UnionKeys(OutputLists(c.rows, mem0), "");
    forall i | 0 <= i < |c.rows| ensures RowIsOwn(c, w, mem0, i) {
      OneRowIsOwn(c, entry, pageSize, mem0, i);
    }
  }

  lemma OneRowIsOwn(c: PublicCase, entry: int, pageSize: int, mem0: int, i: nat)
    requires Widen(c, entry, pageSize, mem0).Ok? && i < |c.rows|
    ensures RowIsOwn(c, Widen(c, entry, pageSize, mem0).value, mem0, i)
  {
    hide InputItems, OutputItems, Union, Defaults, OwnOrZero, SameItems, InstructionAddress, ToUpper, ItemsToMap, Fill,
         MapRows, WidenRows;
    var ins, outs := InputLists(c, c.rows, mem0), OutputLists(c.rows, mem0);
    var mapped := MapRows(c, c.rows, mem0).value;
    RowsMapped(c, c.rows, mem0, i);
    RowsWidened(mapped, Union(ins), Union(outs), Defaults(ins), i);
    FilledIsOwnOrZero(ins, InputItems(c, c.rows[i], mem0), i);
    if !Raises(c.rows[i]) {
      FilledIsOwn(outs, OutputItems(c.rows[i], mem0), i);
    }
  }

  // ---- When widening succeeds ----

  predicate DistinctItems(items: seq<Pair>) {
    forall j, k :: 0 <= j < k < |items| ==> items[j].key != items[k].key
  }

  lemma {:induction false} MapsExactly(items: seq<Pair>)
    ensures ItemsToMap(items).Ok? <==> DistinctItems(items)
    decreases |items|
  {
    hide HasKey;
    if items != [] {
      var init, last := items[..|items| - 1], items[|items| - 1];
      MapsExactly(init);
      assert DistinctItems(items) ==> DistinctItems(init);
      if ItemsToMap(init).Ok? {
        ItemsMapped(init);
        LastIsNew(items);
      }
    }
  }

  lemma LastIsNew(items: seq<Pair>)
    requires items != [] && DistinctItems(items[..|items| - 1])
    ensures DistinctItems(items) <==> !HasKey(items[..|items| - 1], items[|items| - 1].key)
  {
    var init := items[..|items| - 1];
    assert forall j :: 0 <= j < |init| ==> init[j] == items[j];
    if HasKey(init, items[|items| - 1].key) {
      var j :| 0 <= j < |init| && init[j].key == items[|items| - 1].key;
      assert items[j].key == items[|items| - 1].key;
    }
  }

  lemma {:induction false} FillsExactly(schema: seq<string>, values: Values, defaults: Values)
    ensures Fill(schema, values, defaults).Ok?
      <==> forall j :: 0 <= j < |schema| ==> Present(schema[j], values, defaults)
    decreases |schema|
  {
    hide Present;
    if schema != [] {
      FillsExactly(schema[..|schema| - 1], values, defaults);
      assert forall j :: 0 <= j < |schema| - 1 ==> schema[..|schema| - 1][j] == schema[j];
    }
  }

  lemma {:induction false} RowsMapExactly(c: PublicCase, rows: seq<PublicRow>, mem0: int)
    ensures MapRows(c, rows, mem0).Ok? <==> forall i :: 0 <= i < |rows| ==> MapRow(c, rows[i], mem0).Ok?
    decreases |rows|
  {
    hide MapRow;
    if rows != [] {
      RowsMapExactly(c, rows[..|rows| - 1], mem0);
      assert forall i :: 0 <= i < |rows| - 1 ==> rows[..|rows| - 1][i] == rows[i];
    }
  }

  lemma {:induction false} RowsWidenExactly(rows: seq<MappedRow>, inSchema: seq<string>, outSchema: seq<string>,
      defaults: Values)
    ensures WidenRows(rows, inSchema, outSchema, defaults).Ok? <==>
      forall i :: 0 <= i < |rows| ==> WidenRow(rows[i], inSchema, outSchema, defaults).Ok?
    decreases |rows|
  {
    hide WidenRow;
    if rows != [] {
      RowsWidenExactly(rows[..|rows| - 1], inSchema, outSchema, defaults);
      assert forall i :: 0 <= i < |rows| - 1 ==> rows[..|rows| - 1][i] == rows[i];
    }
  }

  /** A row has every key of its group; memory keys may be missing where zeros can stand in. */
  ghost predicate HasAllKeys(items: seq<Pair>, lists: seq<seq<Pair>>, zerosAllowed: bool) {
    forall key :: InSome(lists, key) ==> HasKey(items, key) || (zerosAllowed && IsMemoryKey(key))
  }

  lemma FillsAll(lists: seq<seq<Pair>>, items: seq<Pair>, zerosAllowed: bool)
    requires DistinctItems(items)
    ensures ItemsToMap(items).Ok?
    ensures Fill(Union(lists), ItemsToMap(items).value, if zerosAllowed then Defaults(lists) else map[]).Ok?
       <==> HasAllKeys(items, lists, zerosAllowed)
  {
    hide IsMemoryKey, HasKey, InSome, Union, Defaults, Fill, DistinctItems;
    MapsExactly(items);
    var values, defaults := ItemsToMap(items).value, if zerosAllowed then Defaults(lists) else map[];
    ItemsMapped(items);
    DefaultsAre(lists);
    FillsExactly(Union(lists), values, defaults);
    forall key
      ensures key in Union(lists) <==> InSome(lists, key)
      ensures InSome(lists, key) ==>
        (Present(key, values, defaults) <==> HasKey(items, key) || (zerosAllowed && IsMemoryKey(key)))
    {
      UnionKeys(lists, key);
    }
    if HasAllKeys(items, lists, zerosAllowed) {
      forall j | 0 <= j < |Union(lists)| ensures Present(Union(lists)[j], values, defaults) {
        assert Union(lists)[j] in Union(lists);
      }
    } else {
      var key :| InSome(lists, key) && !(HasKey(items, key) || (zerosAllowed && IsMemoryKey(key)));
      var j :| 0 <= j < |Union(lists)| && Union(lists)[j] == key;
      assert !Present(Union(lists)[j], values, defaults);
    }
  }

  /** What `write_group` demands of one row. */
  ghost predicate RowWidens(c: PublicCase, mem0: int, i: nat)
    requires i < |c.rows|
  {
    var row := c.rows[i];
    && DistinctItems(InputItems(c, row, mem0)) && DistinctItems(OutputItems(row, mem0))
    && HasAllKeys(InputItems(c, row, mem0), InputLists(c, c.rows, mem0), true)
    && (!Raises(row) ==> HasAllKeys(OutputItems(row, mem0), OutputLists(c.rows, mem0), false))
  }

  lemma RowMapsExactly(c: PublicCase, row: PublicRow, mem0: int)
    ensures MapRow(c, row, mem0).Ok?
      <==> DistinctItems(InputItems(c, row, mem0)) && DistinctItems(OutputItems(row, mem0))
  {
    hide InputItems, OutputItems, DistinctItems, ItemsToMap;
    MapsExactly(InputItems(c, row, mem0));
    MapsExactly(OutputItems(row, mem0));
  }

  lemma RowWidensExactly(c: PublicCase, mem0: int, i: nat)
    requires i < |c.rows| && MapRow(c, c.rows[i], mem0).Ok?
    ensures var ins, outs := InputLists(c, c.rows, mem0), OutputLists(c.rows, mem0);
      WidenRow(MapRow(c, c.rows[i], mem0).value, Union(ins), Union(outs), Defaults(ins)).Ok? <==> RowWidens(c, mem0, i)
  {
    hide InputItems, OutputItems, DistinctItems, ItemsToMap, Fill, Union, Defaults, HasAllKeys, InputLists, OutputLists;
    var row := c.rows[i];
    RowMapsExactly(c, row, mem0);
    FillsAll(InputLists(c, c.rows, mem0), InputItems(c, row, mem0), true);
    FillsAll(OutputLists(c.rows, mem0), OutputItems(row, mem0), false);
  }

  /**
   * A group is written exactly when its opcode text is hex digits in pairs, no row names a key twice,
   * every row has every initial register of the group, and every row that does not raise has every
   * final key of the group.
   */
  lemma WidensExactly(c: PublicCase, entry: int, pageSize: int, mem0: int)
    ensures Widen(c, entry, pageSize, mem0).Ok? <==>
      && InstructionAddress(ToUpper(c.opcode), entry, pageSize).Ok?
      && forall i :: 0 <= i < |c.rows| ==> RowWidens(c, mem0, i)
  {
    hide InputItems, OutputItems, InputLists, OutputLists, DistinctItems, Union, Defaults, HasAllKeys,
         InstructionAddress, ToUpper, MapRow, WidenRow, MapRows, WidenRows;
    RowsMapExactly(c, c.rows, mem0);
    forall i | 0 <= i < |c.rows| ensures RowWidens(c, mem0, i) ==> MapRow(c, c.rows[i], mem0).Ok? {
      RowMapsExactly(c, c.rows[i], mem0);
    }
    if MapRows(c, c.rows, mem0).Ok? {
      var mapped := MapRows(c, c.rows, mem0).value;
      var ins, outs := InputLists(c, c.rows, mem0), OutputLists(c.rows, mem0);
      RowsWidenExactly(mapped, Union(ins), Union(outs), Defaults(ins));
      forall i | 0 <= i < |c.rows|
        ensures WidenRow(mapped[i], Union(ins), Union(outs), Defaults(ins)).Ok? <==> RowWidens(c, mem0, i)
      {
        RowsMapped(c, c.rows, mem0, i);
        RowWidensExactly(c, mem0, i);
      }
    }
  }
}
