/**
 * src/wafer/symbols.rs: one table of locals per function, each local getting
 * the next index of its function's table.
 */
module SymbolTable {
  import opened Optional

  /** The locals of one function and their indices. */
  type Table = map<string, nat>

  /** The table of `function`, or the empty table it gets on first use (`entry().or_default()`). */
  function TableOf(tables: map<string, Table>, functionName: string): (r: Table)
    ensures forall localName :: Lookup(tables, functionName, localName) == (if localName in r then Some(r[localName]) else None)
    ensures functionName !in tables ==> r == map[]
  {
    if functionName in tables then tables[functionName] else map[]
  }

  /** `get`: the index of `localName` in `functionName`'s table, if both exist. */
  function Lookup(tables: map<string, Table>, functionName: string, localName: string): (r: Option<nat>)
    ensures r.Some? <==> functionName in tables && localName in tables[functionName]
    ensures r.Some? ==> r.value == tables[functionName][localName]
  {
    if functionName in tables && localName in tables[functionName] then Some(tables[functionName][localName]) else None
  }

  /** `add`: binds `localName` to the size its function's table has before the call. */
  function AddLocal(tables: map<string, Table>, functionName: string, localName: string): (r: map<string, Table>)
    ensures r.Keys == tables.Keys + {functionName}
    ensures Lookup(r, functionName, localName) == Some(|TableOf(tables, functionName)|)
  {
    var table := TableOf(tables, functionName);
    tables[functionName := table[localName := |table|]]
  }

  /** The symbols of a program. */
  class Symbols {
    var tables: map<string, Table>

    /** `Symbols::default()`. */
    constructor ()
      ensures tables == map[]
    {
      tables := map[];
    }

    /** `add`: gives `localName` the next index of `functionName`'s table, creating the table if needed. */
    method Add(functionName: string, localName: string)
      modifies this
      ensures tables == AddLocal(old(tables), functionName, localName)
    {
      var table := if functionName in tables then tables[functionName] else map[];
      table := table[localName := |table|];
      tables := tables[functionName := table];
    }

    /** `get`: the index of `localName` in `functionName`'s table, if both exist. */
    function Get(functionName: string, localName: string): (r: Option<nat>)
      reads this
      ensures r.Some? <==> functionName in tables && localName in tables[functionName]
      ensures r.Some? ==> r.value == tables[functionName][localName]
    {
      Lookup(tables, functionName, localName)
    }
  }

  /** Adding to one function leaves every other function's table as it was. */
  lemma AddLeavesOtherFunctions(tables: map<string, Table>, functionName: string, localName: string, other: string)
    requires other != functionName
    ensures TableOf(AddLocal(tables, functionName, localName), other) == TableOf(tables, other)
    ensures forall l :: Lookup(AddLocal(tables, functionName, localName), other, l) == Lookup(tables, other, l)
  {
  }

  /** Adding a local leaves the other locals of the same function as they were. */
  lemma AddLeavesOtherLocals(tables: map<string, Table>, functionName: string, localName: string, other: string)
    requires other != localName
    ensures Lookup(AddLocal(tables, functionName, localName), functionName, other) == Lookup(tables, functionName, other)
  {
  }

  /** The first local of a function creates its table and gets index 0. */
  lemma FirstLocal(tables: map<string, Table>, functionName: string, localName: string)
    requires functionName !in tables
    ensures TableOf(AddLocal(tables, functionName, localName), functionName) == map[localName := 0]
  {
  }

  /** A new local grows its function's table by one. */
  lemma AddNewLocal(tables: map<string, Table>, functionName: string, localName: string)
    requires localName !in TableOf(tables, functionName)
    ensures |TableOf(AddLocal(tables, functionName, localName), functionName)| == |TableOf(tables, functionName)| + 1
  {
  }

  /**
   * Adding a name already in the table rebinds it to the table's size and
   * does not grow the table.
   */
  lemma Rebind(tables: map<string, Table>, functionName: string, localName: string)
    requires localName in TableOf(tables, functionName)
    ensures |TableOf(AddLocal(tables, functionName, localName), functionName)| == |TableOf(tables, functionName)|
    ensures Lookup(AddLocal(tables, functionName, localName), functionName, localName) == Some(|TableOf(tables, functionName)|)
  {
    var table := TableOf(tables, functionName);
    assert table[localName := |table|].Keys == table.Keys;
  }

  /** A table whose locals have the indices 0 to size - 1, each used once. */
  predicate Dense(table: Table)
  {
    && (forall l | l in table :: table[l] < |table|)
    && (forall l, m | l in table && m in table && l != m :: table[l] != table[m])
  }

  /** Adding only new names keeps every table dense. */
  lemma AddNewLocalKeepsDense(tables: map<string, Table>, functionName: string, localName: string)
    requires Dense(TableOf(tables, functionName))
    requires localName !in TableOf(tables, functionName)
    ensures Dense(TableOf(AddLocal(tables, functionName, localName), functionName))
  {
    AddNewLocal(tables, functionName, localName);
  }

  /**
   * A rebinding followed by a new local gives two locals the same index:
   * `a`, `b`, `a` again, then `c` leaves `a` and `c` both at index 2.
   */
  lemma RebindThenAddSharesIndex()
    ensures var t := AddLocal(AddLocal(AddLocal(AddLocal(map[], "f", "a"), "f", "b"), "f", "a"), "f", "c");
      Lookup(t, "f", "a") == Some(2) && Lookup(t, "f", "c") == Some(2)
  {
    var t1 := AddLocal(map[], "f", "a");
    assert TableOf(t1, "f") == map["a" := 0];
    var t2 := AddLocal(t1, "f", "b");
    assert TableOf(t2, "f") == map["a" := 0, "b" := 1];
    var t3 := AddLocal(t2, "f", "a");
    assert TableOf(t3, "f") == map["a" := 2, "b" := 1];
    assert |TableOf(t3, "f")| == 2 by {
      assert TableOf(t3, "f").Keys == {"a", "b"};
    }
  }

  /** The test in symbols.rs. */
  method MainAndOther() returns (mainX: Option<nat>, mainY: Option<nat>, otherX: Option<nat>, otherY: Option<nat>)
    ensures mainX == Some(1) && mainY == Some(0) && otherX == Some(0) && otherY == None
  {
    var symbols := new Symbols();
    symbols.Add("main", "y");
    symbols.Add("other", "x");
    assert symbols.tables["main"] == map["y" := 0];
    symbols.Add("main", "x");
    mainX := symbols.Get("main", "x");
    mainY := symbols.Get("main", "y");
    otherX := symbols.Get("other", "x");
    otherY := symbols.Get("other", "y");
  }
}
