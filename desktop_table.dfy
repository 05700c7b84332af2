/**
 * The desktop viewer's table model: the same query plan and column layout
 * as the editor (inner JOINs, no delete column), the loaded rows, and an
 * `update` that writes into the stored group instead of replacing it. It
 * keeps no change flags.
 */
module DesktopModel {
  import opened Common
  import opened Planner
  import opened Materializer
  import opened ChangeTracker
  import opened CellView

  /** The rows `_make_query` builds: each result row regrouped, each group a list. */
  function Results(rows: seq<seq<Value>>, toSchema: seq<nat>): (r: seq<seq<Value>>)
    requires RowsFit(rows, toSchema)
    ensures |r| == |rows|
  {
    seq(|rows|, i requires 0 <= i < |rows| => GroupRow(Walk(rows[i], toSchema, 0, [], [])))
  }

  /** `_make_query`'s loop over the result rows. */
  method LoadResults(rows: seq<seq<Value>>, toSchema: seq<nat>) returns (results: seq<seq<Value>>)
    requires RowsFit(rows, toSchema)
    ensures results == Results(rows, toSchema)
  {
    results := [];
    var i := 0;
    while i < |rows|
      invariant 0 <= i <= |rows|
      invariant results == Results(rows[..i], toSchema)
    {
      var groups, ok := RegroupRow(rows[i], toSchema);
      assert rows[..i + 1][..i] == rows[..i];
      results := results + [GroupRow(groups)];
      i := i + 1;
    }
    assert rows[..i] == rows;
  }

  /**
   * `update` on schema column s of row r: a list value replaces the whole
   * group; any other value goes into slot 0 of the stored group, which
   * raises (None) when that group is not a list or is empty.
   */
  function Assign(results: seq<seq<Value>>, r: nat, s: nat, v: Value): (o: Option<seq<seq<Value>>>)
    requires r < |results| && s < |results[r]|
    ensures o.Some? <==> v.List? || (results[r][s].List? && |results[r][s].items| > 0)
    ensures o.Some? ==>
      && |o.value| == |results|
      && (forall q :: 0 <= q < |results| && q != r ==> o.value[q] == results[q])
      && |o.value[r]| == |results[r]|
      && (forall k :: 0 <= k < |results[r]| && k != s ==> o.value[r][k] == results[r][k])
      && o.value[r][s].List?
      && (v.List? ==> o.value[r][s] == v)
      && (!v.List? ==>
            (&& Index(o.value[r][s], 0) == Some(v)
             && |o.value[r][s].items| == |results[r][s].items|
             && o.value[r][s].items[1..] == results[r][s].items[1..]))
  {
    var group := results[r][s];
    if v.List? then Some(results[r := results[r][s := v]])
    else if group.List? && |group.items| > 0 then Some(results[r := results[r][s := List(group.items[0 := v])]])
    else None
  }

  class DesktopTable {
    const table: string
    const schema: seq<SchemaColumn>
    const queryRows: seq<string>
    const joins: set<string>
    const toSchema: seq<nat>
    const displayed: seq<DisplayedColumn>
    const uneditable: set<nat>

    var results: seq<seq<Value>>

    predicate Valid()
      reads this
    {
      && |schema| > 0 && NoDeleteColumn(schema)
      && queryRows == SelectList(schema) && toSchema == ColumnMap(schema) && joins == JoinSet(InnerJoin, schema)
      && |toSchema| == |queryRows|
      && displayed == Layout(schema) && uneditable == Uneditable(schema)
      && (forall i :: 0 <= i < |results| ==> |results[i]| == |schema|)
    }

    /** Plans the query with inner JOINs and loads the rows the SELECT returned. */
    constructor(name: string, columns: seq<SchemaColumn>, rows: seq<seq<Value>>)
      requires |columns| > 0 && NoDeleteColumn(columns)
      requires forall i :: 0 <= i < |rows| ==> |rows[i]| == |SelectList(columns)|
      ensures Valid()
      ensures table == name && schema == columns
      ensures RowsFit(rows, toSchema) && results == Results(rows, toSchema)
    {
      var q, j, m := Plan(InnerJoin, columns);
      var d, u := PlanLayout(columns);
      ColumnMapSteps(columns);
      var loaded := LoadResults(rows, m);
      forall i | 0 <= i < |loaded| ensures |loaded[i]| == |columns| {
        LoadedRowShape(columns, rows[i]);
      }
      table := name;
      schema := columns;
      queryRows := q;
      joins := j;
      toSchema := m;
      displayed := d;
      uneditable := u;
      results := loaded;
    }

    /** `rowCount`: one row per result row, each holding one group per schema column. */
    function RowCount(): (n: nat)
      reads this
      requires Valid()
      ensures n == |results| && forall i :: 0 <= i < n ==> |results[i]| == |schema|
    {
      |results|
    }

    /** `columnCount`: every displayed column while there is a row, none otherwise. */
    function ColumnCount(): (n: nat)
      reads this
      requires Valid()
      ensures |results| == 0 ==> n == 0
      ensures |results| > 0 ==> n == |schema| + TotalAux(schema)
    {
      LayoutLength(schema);
      if |results| > 0 then |displayed| else 0
    }

    /** `update(r, c, value)`; `raised` reports the IndexError or TypeError of a slot-0 write. */
    method Update(r: nat, c: nat, v: Value) returns (raised: bool)
      requires Valid() && r < |results| && c < |displayed|
      modifies this
      ensures Valid()
      ensures var o := Assign(old(results), r, SchemaIndexOf(schema, c), v);
        && raised == o.None?
        && results == if o.Some? then o.value else old(results)
    {
      LayoutWellFormed(schema);
      var s := displayed[c].schemaIndex;
      var group := results[r][s];
      raised := false;
      if v.List? {
        results := results[r := results[r][s := v]];
      } else if group.List? && |group.items| > 0 {
        results := results[r := results[r][s := List(group.items[0 := v])]];
      } else {
        raised := true;
      }
    }
  }

  /**
   * Editing a scalar into a column's own position reads back through
   * `data`: a plain column shows the value, a foreign-key column's editor
   * payload carries it as the id.
   */
  lemma {:induction false} AssignReadsBack(schema: seq<SchemaColumn>, results: seq<seq<Value>>, r: nat, i: nat, v: Value, format: Format)
    requires NoDeleteColumn(schema) && r < |results| && i < |schema| && |results[r]| == |schema|
    requires !v.List? && results[r][i].List? && |results[r][i].items| > 0
    ensures DisplayedPosition(schema, i) < |Layout(schema)|
    ensures SchemaIndexOf(schema, DisplayedPosition(schema, i)) == i
    ensures var o := Assign(results, r, i, v);
      && o.Some? && |o.value[r]| == |schema|
      && (schema[i].fk.None? ==>
            DesktopData(schema, o.value[r], DisplayedPosition(schema, i), EditRole, format) == Some(Shown(v))
            && DesktopData(schema, o.value[r], DisplayedPosition(schema, i), DisplayRole, format) == Some(Shown(v)))
      && (schema[i].fk.Some? ==>
            DesktopData(schema, o.value[r], DisplayedPosition(schema, i), EditRole, format) == Some(FkEditor(v, schema[i])))
  {
    LayoutInterleaving(schema, i);
    var o := Assign(results, r, i, v);
    CellTextAtPositions(schema, o.value[r], i, format);
  }

  /**
   * The desktop grid loads the same groups as the editor: an editor row is
   * the desktop row followed by the delete marker.
   */
  lemma {:induction false} EditorRowsExtendDesktopRows(user: seq<SchemaColumn>, rows: seq<seq<Value>>)
    requires |user| > 0 && NoDeleteColumn(user)
    requires forall i :: 0 <= i < |rows| ==> |rows[i]| == |SelectList(user)|
    ensures RowsFit(rows, ColumnMap(user)) && RowsFit(rows, ColumnMap(user + [DeleteColumn]))
    ensures forall i :: 0 <= i < |rows| ==>
      Loaded(rows, ColumnMap(user + [DeleteColumn]))[i] == Results(rows, ColumnMap(user))[i] + [List([DeleteButton])]
  {
    EditorSchemaPlan(user);
    ColumnMapSteps(user);
    forall i | 0 <= i < |rows|
      ensures Loaded(rows, ColumnMap(user + [DeleteColumn]))[i] == Results(rows, ColumnMap(user))[i] + [List([DeleteButton])]
    {
    }
  }
}
