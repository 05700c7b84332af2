/**
 * The declarative column schema of a foreign-key-aware table and what the
 * table model derives from it when it is built: the SELECT list, the set of
 * JOIN clauses, the map from selected columns back to schema columns, the
 * displayed-column layout with its uneditable positions, and header labels.
 * The editor and the desktop variants run the same derivation; they differ
 * in the JOIN keyword and in the editor's extra "Delete" column.
 */
module Planner {
  import opened Common

  /** A read-only column pulled in through a foreign key's join (the desktop variant calls it "additional"). */
  datatype AuxColumn = AuxColumn(columnName: string, header: string)

  datatype FkSpec = FkSpec(
    referenceTable: string,
    joinOn: string,
    displayColumns: seq<string>,
    displayFormat: string,
    auxColumns: seq<AuxColumn>)

  /** One declared column. The desktop variant has no default value and no delete flag: it uses Null and false. */
  datatype SchemaColumn = SchemaColumn(
    columnName: string,
    header: string,
    defaultValue: Value,
    fk: Option<FkSpec>,
    isDeleteBtn: bool)
  {
    function DisplayCount(): nat { if fk.Some? then |fk.value.displayColumns| else 0 }
    function AuxCount(): nat { if fk.Some? then |fk.value.auxColumns| else 0 }
  }

  /** The synthetic column the editor appends to every schema. */
  const DeleteColumn := SchemaColumn("Delete", "Delete", DeleteButton, None, true)

  const LeftJoin := "LEFT JOIN"
  const InnerJoin := "JOIN"

  /** A displayed column: the schema column it shows and, for an auxiliary sub-column, which one. */
  datatype DisplayedColumn = DisplayedColumn(schemaIndex: nat, aux: Option<nat>)

  function AuxNames(aux: seq<AuxColumn>): (r: seq<string>)
    ensures |r| == |aux| && forall k :: 0 <= k < |aux| ==> r[k] == aux[k].columnName
  {
    seq(|aux|, k requires 0 <= k < |aux| => aux[k].columnName)
  }

  /** The source columns one schema column adds to the SELECT list. */
  function Selected(col: SchemaColumn): seq<string>
  {
    (if col.isDeleteBtn then [] else [col.columnName]) +
    (if col.fk.Some? then col.fk.value.displayColumns + AuxNames(col.fk.value.auxColumns) else [])
  }

  /** How many selected columns one schema column owns. */
  function Arity(col: SchemaColumn): (n: nat)
    ensures n == (if col.isDeleteBtn then 0 else 1) + col.DisplayCount() + col.AuxCount()
    ensures n == |Selected(col)|
  {
    |Selected(col)|
  }

  function SelectList(schema: seq<SchemaColumn>): seq<string>
  {
    if |schema| == 0 then [] else SelectList(schema[..|schema| - 1]) + Selected(schema[|schema| - 1])
  }

  /** For each entry of the SELECT list, the index of the schema column that owns it. */
  function ColumnMap(schema: seq<SchemaColumn>): seq<nat>
  {
    if |schema| == 0 then []
    else ColumnMap(schema[..|schema| - 1]) + Repeat(|schema| - 1, Arity(schema[|schema| - 1]))
  }

  function JoinClause(keyword: string, fk: FkSpec): string
  {
    keyword + " " + fk.referenceTable + " ON " + fk.joinOn
  }

  function JoinSet(keyword: string, schema: seq<SchemaColumn>): set<string>
  {
    if |schema| == 0 then {}
    else
      JoinSet(keyword, schema[..|schema| - 1]) +
      (var col := schema[|schema| - 1]; if col.fk.Some? then {JoinClause(keyword, col.fk.value)} else {})
  }

  /** The displayed columns one schema column contributes: itself, then one per auxiliary column. */
  function ColumnLayout(i: nat, col: SchemaColumn): (r: seq<DisplayedColumn>)
    ensures |r| == 1 + col.AuxCount()
    ensures r[0] == DisplayedColumn(i, None)
    ensures forall a :: 0 <= a < col.AuxCount() ==> r[1 + a] == DisplayedColumn(i, Some(a))
  {
    [DisplayedColumn(i, None)] + seq(col.AuxCount(), a requires 0 <= a => DisplayedColumn(i, Some(a)))
  }

  function Layout(schema: seq<SchemaColumn>): seq<DisplayedColumn>
  {
    if |schema| == 0 then []
    else Layout(schema[..|schema| - 1]) + ColumnLayout(|schema| - 1, schema[|schema| - 1])
  }

  /** A layout entry names a schema column and, for a sub-column, one of its auxiliary columns. */
  predicate WellFormedEntry(schema: seq<SchemaColumn>, d: DisplayedColumn)
  {
    d.schemaIndex < |schema| && (d.aux.Some? ==> d.aux.value < schema[d.schemaIndex].AuxCount())
  }

  lemma {:induction false} LayoutWellFormed(schema: seq<SchemaColumn>)
    ensures forall k :: 0 <= k < |Layout(schema)| ==> WellFormedEntry(schema, Layout(schema)[k])
  {
    if |schema| > 0 {
      var p := schema[..|schema| - 1];
      LayoutWellFormed(p);
      var l := Layout(schema);
      var lp := Layout(p);
      var c := ColumnLayout(|schema| - 1, schema[|schema| - 1]);
      assert l == lp + c;
      forall k | 0 <= k < |l| ensures WellFormedEntry(schema, l[k]) {
        if k < |lp| {
          assert l[k] == lp[k];
          assert WellFormedEntry(p, lp[k]);
          assert p[lp[k].schemaIndex] == schema[lp[k].schemaIndex];
        } else {
          assert l[k] == c[k - |lp|];
          if k > |lp| {
            assert c[k - |lp|] == DisplayedColumn(|schema| - 1, Some(k - |lp| - 1));
          }
        }
      }
    }
  }

  /** The displayed positions that hold an auxiliary sub-column. */
  function AuxPositions(layout: seq<DisplayedColumn>): set<nat>
  {
    set k: nat | k < |layout| && layout[k].aux.Some?
  }

  /** Position 0 (the primary key) and every auxiliary sub-column are read-only. */
  function Uneditable(schema: seq<SchemaColumn>): set<nat>
  {
    {0} + AuxPositions(Layout(schema))
  }

  /** The total number of auxiliary sub-columns in a schema. */
  function TotalAux(schema: seq<SchemaColumn>): nat
  {
    if |schema| == 0 then 0 else TotalAux(schema[..|schema| - 1]) + schema[|schema| - 1].AuxCount()
  }

  /** Where schema column i is displayed: after every column before it and their auxiliary sub-columns. */
  function DisplayedPosition(schema: seq<SchemaColumn>, i: nat): nat
    requires i <= |schema|
  {
    i + TotalAux(schema[..i])
  }

  /** The header label of displayed column `section`. */
  function Header(schema: seq<SchemaColumn>, section: nat): string
    requires section < |Layout(schema)|
  {
    LayoutWellFormed(schema);
    var d := Layout(schema)[section];
    assert WellFormedEntry(schema, d);
    var col := schema[d.schemaIndex];
    if d.aux.None? then col.header else col.fk.value.auxColumns[d.aux.value].header
  }

  /** The editor and the desktop grid both drop ItemIsEditable for exactly the uneditable positions. */
  function IsEditable(schema: seq<SchemaColumn>, column: nat): bool
  {
    column !in Uneditable(schema)
  }

  /**
   * The constructor's first loop: walk the schema, appending each column's
   * own name (unless it is the delete column), its display columns and its
   * auxiliary columns to the SELECT list, each mapped to the column's index,
   * and adding one JOIN clause per foreign-key column.
   */
  method Plan(keyword: string, schema: seq<SchemaColumn>) returns (queryRows: seq<string>, joins: set<string>, toSchema: seq<nat>)
    ensures queryRows == SelectList(schema)
    ensures toSchema == ColumnMap(schema)
    ensures joins == JoinSet(keyword, schema)
  {
    queryRows, joins, toSchema := [], {}, [];
    var i := 0;
    while i < |schema|
      invariant 0 <= i <= |schema|
      invariant queryRows == SelectList(schema[..i])
      invariant toSchema == ColumnMap(schema[..i])
      invariant joins == JoinSet(keyword, schema[..i])
    {
      assert schema[..i + 1][..i] == schema[..i];
      var names, owners := PlanColumn(i, schema[i]);
      queryRows := queryRows + names;
      toSchema := toSchema + owners;
      if schema[i].fk.Some? {
        joins := joins + {JoinClause(keyword, schema[i].fk.value)};
      }
      i := i + 1;
    }
    assert schema[..i] == schema;
  }

  /** The body of the constructor's first loop for schema column i, without the JOIN. */
  method PlanColumn(i: nat, col: SchemaColumn) returns (names: seq<string>, owners: seq<nat>)
    ensures names == Selected(col)
    ensures owners == Repeat(i, Arity(col))
  {
    names, owners := [], [];
    if !col.isDeleteBtn {
      names := [col.columnName];
      owners := [i];
    }
    ghost var own := names;
    if col.fk.Some? {
      var fk := col.fk.value;
      var d := 0;
      while d < |fk.displayColumns|
        invariant 0 <= d <= |fk.displayColumns|
        invariant names == own + fk.displayColumns[..d]
        invariant owners == Repeat(i, |names|)
      {
        assert fk.displayColumns[..d + 1] == fk.displayColumns[..d] + [fk.displayColumns[d]];
        names := names + [fk.displayColumns[d]];
        owners := owners + [i];
        d := d + 1;
      }
      assert fk.displayColumns[..d] == fk.displayColumns;
      ghost var shown := names;
      var aux := AuxNames(fk.auxColumns);
      var a := 0;
      while a < |fk.auxColumns|
        invariant 0 <= a <= |fk.auxColumns|
        invariant names == shown + aux[..a]
        invariant owners == Repeat(i, |names|)
      {
        assert aux[..a + 1] == aux[..a] + [fk.auxColumns[a].columnName];
        names := names + [fk.auxColumns[a].columnName];
        owners := owners + [i];
        a := a + 1;
      }
      assert aux[..a] == aux;
    }
    assert names == Selected(col);
  }

  /**
   * The constructor's second loop: each schema column i contributes (i, None)
   * and then (i, a) for each auxiliary column a; every auxiliary position is
   * added to the uneditable set, which starts as {0}.
   */
  method PlanLayout(schema: seq<SchemaColumn>) returns (displayed: seq<DisplayedColumn>, uneditable: set<nat>)
    ensures displayed == Layout(schema)
    ensures uneditable == Uneditable(schema)
  {
    uneditable := {0};
    displayed := [];
    var i := 0;
    while i < |schema|
      invariant 0 <= i <= |schema|
      invariant displayed == Layout(schema[..i])
      invariant uneditable == {0} + AuxPositions(displayed)
    {
      LayoutSnoc(schema, i);
      ghost var rest := ColumnLayout(i, schema[i])[1..];
      ghost var next := displayed + [DisplayedColumn(i, None)] + rest;
      AuxPositionsAppend(displayed, DisplayedColumn(i, None));
      displayed := displayed + [DisplayedColumn(i, None)];
      if schema[i].fk.Some? && |schema[i].fk.value.auxColumns| > 0 {
        displayed, uneditable := PlanAuxColumns(i, schema[i], displayed, uneditable);
      } else {
        assert rest == [];
      }
      assert displayed == next;
      i := i + 1;
    }
    assert schema[..i] == schema;
  }

  /**
   * The inner loop of the constructor's second loop: one displayed entry per
   * auxiliary column of column i, each position added to the uneditable set.
   */
  method PlanAuxColumns(i: nat, col: SchemaColumn, displayed0: seq<DisplayedColumn>, uneditable0: set<nat>)
    returns (displayed: seq<DisplayedColumn>, uneditable: set<nat>)
    requires col.fk.Some?
    requires uneditable0 == {0} + AuxPositions(displayed0)
    ensures displayed == displayed0 + ColumnLayout(i, col)[1..]
    ensures uneditable == {0} + AuxPositions(displayed)
  {
    displayed, uneditable := displayed0, uneditable0;
    var own := ColumnLayout(i, col)[1..];
    var a := 0;
    while a < |col.fk.value.auxColumns|
      invariant 0 <= a <= |col.fk.value.auxColumns| == |own|
      invariant displayed == displayed0 + own[..a]
      invariant uneditable == {0} + AuxPositions(displayed)
    {
      assert own[a] == DisplayedColumn(i, Some(a));
      assert own[..a + 1] == own[..a] + [own[a]];
      AuxPositionsAppend(displayed, DisplayedColumn(i, Some(a)));
      displayed := displayed + [DisplayedColumn(i, Some(a))];
      uneditable := uneditable + {|displayed| - 1};
      a := a + 1;
    }
    assert own[..a] == own;
  }

  /** The layout of the first i + 1 columns extends the layout of the first i by column i's own entries. */
  lemma {:induction false} LayoutSnoc(schema: seq<SchemaColumn>, i: nat)
    requires i < |schema|
    ensures Layout(schema[..i + 1]) == Layout(schema[..i]) + ColumnLayout(i, schema[i])
    ensures ColumnLayout(i, schema[i]) == [DisplayedColumn(i, None)] + ColumnLayout(i, schema[i])[1..]
    ensures Layout(schema[..i + 1]) == Layout(schema[..i]) + [DisplayedColumn(i, None)] + ColumnLayout(i, schema[i])[1..]
  {
    assert schema[..i + 1][..i] == schema[..i];
  }

  lemma {:induction false} AuxPositionsAppend(layout: seq<DisplayedColumn>, d: DisplayedColumn)
    ensures AuxPositions(layout + [d]) == AuxPositions(layout) + (if d.aux.Some? then {|layout|} else {})
  {
    var l := layout + [d];
    forall k: nat | k < |l| ensures l[k] == if k < |layout| then layout[k] else d { }
  }

  /** Schemas whose columns are all real (not the delete column): the user part of an editor schema, any desktop schema. */
  predicate NoDeleteColumn(schema: seq<SchemaColumn>)
  {
    forall i :: 0 <= i < |schema| ==> !schema[i].isDeleteBtn
  }

  /**
   * The map has one entry per SELECT entry; it starts at 0, never decreases,
   * steps by at most 1 and ends at the last schema column, so every schema
   * column owns a non-empty run of consecutive entries.
   */
  lemma {:induction false} ColumnMapSteps(schema: seq<SchemaColumn>)
    requires NoDeleteColumn(schema)
    ensures var m := ColumnMap(schema);
      && |m| == |SelectList(schema)| >= |schema|
      && (|schema| > 0 ==> m[0] == 0 && m[|m| - 1] == |schema| - 1)
      && (forall k :: 0 <= k < |m| ==> m[k] < |schema|)
      && (forall k :: 0 < k < |m| ==> m[k] == m[k - 1] || m[k] == m[k - 1] + 1)
  {
    if |schema| > 0 {
      var p := schema[..|schema| - 1];
      ColumnMapSteps(p);
      var mp := ColumnMap(p);
      var r := Repeat(|schema| - 1, Arity(schema[|schema| - 1]));
      var m := mp + r;
      assert m == ColumnMap(schema);
      assert |r| >= 1;
      forall k | 0 < k < |m| ensures m[k] == m[k - 1] || m[k] == m[k - 1] + 1 {
        if k < |mp| {
        } else if k == |mp| {
          assert m[k] == |schema| - 1;
          assert |p| > 0 ==> m[k - 1] == |p| - 1;
        } else {
        }
      }
    }
  }

  /** The editor's delete column adds nothing to the SELECT list, the map or the joins. */
  lemma {:induction false} EditorSchemaPlan(user: seq<SchemaColumn>)
    ensures SelectList(user + [DeleteColumn]) == SelectList(user)
    ensures ColumnMap(user + [DeleteColumn]) == ColumnMap(user)
    ensures JoinSet(LeftJoin, user + [DeleteColumn]) == JoinSet(LeftJoin, user)
  {
    var schema := user + [DeleteColumn];
    assert schema[..|schema| - 1] == user;
  }

  /** The editor's delete column is displayed once, last. */
  lemma {:induction false} EditorSchemaLayout(user: seq<SchemaColumn>)
    ensures Layout(user + [DeleteColumn]) == Layout(user) + [DisplayedColumn(|user|, None)]
  {
    var schema := user + [DeleteColumn];
    assert schema[..|schema| - 1] == user;
    assert schema[|schema| - 1] == DeleteColumn;
    assert DeleteColumn.AuxCount() == 0;
    assert Layout(schema) == Layout(user) + ColumnLayout(|user|, DeleteColumn);
  }

  /** Every FK column contributes exactly its JOIN clause, and identical clauses collapse. */
  lemma {:induction false} JoinSetMembers(keyword: string, schema: seq<SchemaColumn>)
    ensures forall j :: j in JoinSet(keyword, schema) <==>
      exists i :: 0 <= i < |schema| && schema[i].fk.Some? && j == JoinClause(keyword, schema[i].fk.value)
    ensures |JoinSet(keyword, schema)| <= FkCount(schema)
  {
    if |schema| > 0 {
      var p := schema[..|schema| - 1];
      JoinSetMembers(keyword, p);
      forall i | 0 <= i < |p| ensures p[i] == schema[i] { }
    }
  }

  function FkCount(schema: seq<SchemaColumn>): nat
  {
    if |schema| == 0 then 0 else FkCount(schema[..|schema| - 1]) + (if schema[|schema| - 1].fk.Some? then 1 else 0)
  }

  lemma {:induction false} LayoutLength(schema: seq<SchemaColumn>)
    ensures |Layout(schema)| == |schema| + TotalAux(schema)
  {
    if |schema| > 0 {
      LayoutLength(schema[..|schema| - 1]);
    }
  }

  lemma {:induction false} LayoutPrefix(schema: seq<SchemaColumn>, n: nat)
    requires n <= |schema|
    ensures Layout(schema[..n]) <= Layout(schema)
  {
    if n < |schema| {
      var p := schema[..|schema| - 1];
      assert p[..n] == schema[..n];
      LayoutPrefix(p, n);
    } else {
      assert schema[..n] == schema;
    }
  }

  /** The displayed position of auxiliary sub-column a of schema column i. */
  function AuxPosition(schema: seq<SchemaColumn>, i: nat, a: nat): nat
    requires i <= |schema|
  {
    DisplayedPosition(schema, i) + 1 + a
  }

  /**
   * Interleaving: schema column i is displayed at DisplayedPosition(schema, i)
   * and its auxiliary sub-column a right after it, at AuxPosition(schema, i, a).
   */
  lemma {:induction false} LayoutInterleaving(schema: seq<SchemaColumn>, i: nat)
    requires i < |schema|
    ensures DisplayedPosition(schema, i) + schema[i].AuxCount() < |Layout(schema)|
    ensures Layout(schema)[DisplayedPosition(schema, i)] == DisplayedColumn(i, None)
    ensures forall a :: 0 <= a < schema[i].AuxCount() ==>
      Layout(schema)[AuxPosition(schema, i, a)] == DisplayedColumn(i, Some(a))
  {
    var q := schema[..i + 1];
    assert q[..i] == schema[..i];
    assert q[i] == schema[i];
    var c := ColumnLayout(i, schema[i]);
    var lp := Layout(schema[..i]);
    assert Layout(q) == lp + c;
    LayoutLength(schema[..i]);
    var pos := DisplayedPosition(schema, i);
    assert |lp| == pos;
    LayoutPrefix(schema, i + 1);
    var l := Layout(schema);
    assert l[..|lp + c|] == lp + c;
    assert l[pos] == (lp + c)[pos] == c[0];
    forall a | 0 <= a < schema[i].AuxCount() ensures l[AuxPosition(schema, i, a)] == DisplayedColumn(i, Some(a)) {
      assert l[pos + 1 + a] == (lp + c)[pos + 1 + a] == c[1 + a];
    }
  }

  /** A displayed column is editable exactly when it is a schema column's own position other than the first. */
  lemma {:induction false} EditablePositions(schema: seq<SchemaColumn>, i: nat)
    requires i < |schema|
    ensures IsEditable(schema, DisplayedPosition(schema, i)) <==> i > 0
    ensures forall a :: 0 <= a < schema[i].AuxCount() ==> !IsEditable(schema, AuxPosition(schema, i, a))
  {
    LayoutInterleaving(schema, i);
    var pos := DisplayedPosition(schema, i);
    assert Layout(schema)[pos].aux.None?;
    assert pos !in AuxPositions(Layout(schema));
    forall a | 0 <= a < schema[i].AuxCount() ensures AuxPosition(schema, i, a) in AuxPositions(Layout(schema)) {
      assert Layout(schema)[AuxPosition(schema, i, a)].aux.Some?;
    }
  }

  /** A schema column's own position shows its header, an auxiliary sub-column the auxiliary header. */
  lemma {:induction false} HeaderAtPositions(schema: seq<SchemaColumn>, i: nat)
    requires i < |schema|
    ensures DisplayedPosition(schema, i) < |Layout(schema)|
    ensures Header(schema, DisplayedPosition(schema, i)) == schema[i].header
    ensures forall a :: 0 <= a < schema[i].AuxCount() ==>
      AuxPosition(schema, i, a) < |Layout(schema)| &&
      Header(schema, AuxPosition(schema, i, a)) == schema[i].fk.value.auxColumns[a].header
  {
    LayoutInterleaving(schema, i);
  }

  /** `order` lists every element of `joins` once and nothing else, as iterating a Python set does. */
  predicate Enumerates(order: seq<string>, joins: set<string>)
  {
    && (forall k, l :: 0 <= k < l < |order| ==> order[k] != order[l])
    && (forall j :: j in joins ==> j in order)
    && (forall k :: 0 <= k < |order| ==> order[k] in joins)
  }

  /** An enumeration of a set is as long as the set has elements. */
  lemma {:induction false} EnumerationLength(order: seq<string>, joins: set<string>)
    requires Enumerates(order, joins)
    ensures |order| == |joins|
    decreases |order|
  {
    if |order| > 0 {
      var last := order[|order| - 1];
      var p := order[..|order| - 1];
      assert last in joins;
      forall j | j in joins - {last} ensures j in p {
        var k :| 0 <= k < |order| && order[k] == j;
        assert p[k] == j;
      }
      EnumerationLength(p, joins - {last});
    }
  }

  /**
   * The SELECT statement `_make_query` sends: the SELECT list joined with
   * commas, the table, then each JOIN clause after a space, in the order the
   * set of clauses happens to yield them.
   */
  function QueryText(table: string, columns: seq<string>, joins: set<string>, joinOrder: seq<string>): string
    requires Enumerates(joinOrder, joins)
  {
    "SELECT " + Join(", ", columns) + " FROM " + table
    + Concat(seq(|joinOrder|, k requires 0 <= k < |joinOrder| => " " + joinOrder[k])) + ";"
  }

  /**
   * Whatever order the set yields, the SELECT text holds one JOIN clause per
   * element of the set, each after a space, and none when the set is empty.
   */
  lemma {:induction false} QueryTextJoins(table: string, columns: seq<string>, joins: set<string>, joinOrder: seq<string>)
    requires Enumerates(joinOrder, joins)
    ensures |joinOrder| == |joins|
    ensures forall j :: j in joins ==>
      (exists p :: 0 <= p <= |QueryText(table, columns, joins, joinOrder)| && " " + j <= QueryText(table, columns, joins, joinOrder)[p..])
    ensures joins == {} ==> QueryText(table, columns, joins, joinOrder) == "SELECT " + Join(", ", columns) + " FROM " + table + ";"
  {
    EnumerationLength(joinOrder, joins);
    var head := "SELECT " + Join(", ", columns) + " FROM " + table;
    var ss := seq(|joinOrder|, k requires 0 <= k < |joinOrder| => " " + joinOrder[k]);
    var text := QueryText(table, columns, joins, joinOrder);
    assert text == head + Concat(ss) + ";";
    forall j | j in joins
      ensures exists p :: 0 <= p <= |text| && " " + j <= text[p..]
    {
      var k :| 0 <= k < |joinOrder| && joinOrder[k] == j;
      ConcatSplit(ss, k);
      var p := |head| + |Concat(ss[..k])|;
      assert text == (head + Concat(ss[..k])) + (" " + j) + (Concat(ss[k + 1..]) + ";");
      assert " " + j <= text[p..];
    }
    if joins == {} {
      assert ss == [];
    }
  }
}
