/**
 * The editor's table model as an object: the plan and layout fixed when it
 * is built, and the loaded rows with their change flags, which `update`,
 * `appendRow`, `reset` and `save` change in place. Every method is tied to
 * the state transition of the same name in ChangeTracker and Statements;
 * the database's answers (the rows a SELECT returns, whether executing the
 * statements succeeded) are parameters.
 */
module EditorModel {
  import opened Common
  import opened Planner
  import opened Materializer
  import opened ChangeTracker
  import opened Statements

  class EditorTable {
    const table: string
    /** The user's columns followed by the delete column. */
    const schema: seq<SchemaColumn>
    const queryRows: seq<string>
    const joins: set<string>
    const toSchema: seq<nat>
    const displayed: seq<DisplayedColumn>
    const uneditable: set<nat>

    var data: seq<seq<Value>>
    var changed: seq<seq<Flags>>
    var changedRow: seq<Flags>

    function State(): Tracker
      reads this
    {
      Tracker(data, changed, changedRow)
    }

    /** The plan matches the schema and the flags are shaped like the rows. */
    predicate Valid()
      reads this
    {
      && |schema| > 1 && schema[|schema| - 1] == DeleteColumn && NoDeleteColumn(schema[..|schema| - 1])
      && queryRows == SelectList(schema) && toSchema == ColumnMap(schema) && joins == JoinSet(LeftJoin, schema)
      && |toSchema| == |queryRows|
      && displayed == Layout(schema) && uneditable == Uneditable(schema)
      && Shaped(State(), |schema|)
    }

    /**
     * Plans the query and the layout for the user's columns plus the delete
     * column, loads the rows the SELECT returned, and clears every flag.
     */
    constructor(name: string, user: seq<SchemaColumn>, rows: seq<seq<Value>>)
      requires |user| > 0 && NoDeleteColumn(user)
      requires forall i :: 0 <= i < |rows| ==> |rows[i]| == |SelectList(user)|
      ensures Valid()
      ensures table == name && schema == user + [DeleteColumn]
      ensures RowsFit(rows, toSchema) && State() == ResetChanged(Loaded(rows, toSchema))
      ensures Clean(State())
    {
      var full := user + [DeleteColumn];
      assert full[..|full| - 1] == user;
      EditorSchemaPlan(user);
      ColumnMapSteps(user);
      var q, j, m := Plan(LeftJoin, full);
      var d, u := PlanLayout(full);
      LoadedShape(user, rows);
      var loaded := LoadRows(rows, m);
      ResetChangedClean(loaded, |full|);
      table := name;
      schema := full;
      queryRows := q;
      joins := j;
      toSchema := m;
      displayed := d;
      uneditable := u;
      data := loaded;
      changed := ResetChanged(loaded).changed;
      changedRow := ResetChanged(loaded).changedRow;
    }

    /** `rowCount`. */
    function RowCount(): (n: nat)
      reads this
      requires Valid()
      ensures n == |State().data|
    {
      |data|
    }

    /** `columnCount`: every displayed column while there is a row, none otherwise. */
    function ColumnCount(): (n: nat)
      reads this
      requires Valid()
      ensures |data| == 0 ==> n == 0
      ensures |data| > 0 ==> n == |schema| + TotalAux(schema)
    {
      LayoutLength(schema);
      if |data| > 0 then |displayed| else 0
    }

    /**
     * `update(r, c, value)` for a cell of the grid; `raised` reports the
     * IndexError when the displayed index is past the row's cell flags.
     */
    method Update(r: nat, c: nat, v: Value) returns (raised: bool)
      requires Valid() && r < |data| && c < |displayed|
      modifies this
      ensures Valid()
      ensures State() == Write(old(State()), schema, r, c, v).state
      ensures raised == Write(old(State()), schema, r, c, v).raised
    {
      ghost var t := State();
      var previous: Option<Value> := None;
      if c < |data[0]| {
        previous := Some(data[r][c]);
      }
      LayoutWellFormed(schema);
      var s := displayed[c].schemaIndex;
      var isDelete := schema[s].isDeleteBtn;
      var rows, cells, rowFlags := data, changed, changedRow;
      if isDelete {
        rowFlags := rowFlags[r := rowFlags[r] ^ DELETED];
      } else {
        rows := rows[r := rows[r][s := v]];
      }
      raised := false;
      if Differs(previous, v) && !isDelete {
        if c < |cells[r]| {
          cells := cells[r := cells[r][c := cells[r][c] | UPDATED]];
          rowFlags := rowFlags[r := rowFlags[r] | UPDATED];
        } else {
          raised := true;
        }
      }
      UpdateSteps(t, schema, r, c, v, Tracker(rows, cells, rowFlags), raised);
      data, changed, changedRow := rows, cells, rowFlags;
    }

    /** `appendRow`: a default row at the end, flagged CREATED. */
    method AppendRow()
      requires Valid()
      modifies this
      ensures Valid()
      ensures State() == Append(old(State()), DefaultRow(schema))
    {
      var row := DefaultRowOf(schema);
      AppendCreates(State(), schema);
      data := data + [row];
      changedRow := changedRow + [CREATED];
      changed := changed + [Repeat(CREATED, |row|)];
    }

    /** Reloads from the rows the SELECT returned and clears every flag. */
    method Reload(rows: seq<seq<Value>>)
      requires Valid()
      requires forall i :: 0 <= i < |rows| ==> |rows[i]| == |queryRows|
      modifies this
      ensures Valid() && Clean(State())
      ensures RowsFit(rows, toSchema) && State() == ResetChanged(Loaded(rows, toSchema))
    {
      var user := schema[..|schema| - 1];
      assert schema == user + [DeleteColumn];
      EditorSchemaPlan(user);
      LoadedShape(user, rows);
      var loaded := LoadRows(rows, toSchema);
      ResetChangedClean(loaded, |schema|);
      data := loaded;
      changed := ResetChanged(loaded).changed;
      changedRow := ResetChanged(loaded).changedRow;
    }

    /** `reset`: every edit is discarded; the grid shows the table as the database has it now. */
    method Reset(rows: seq<seq<Value>>)
      requires Valid()
      requires forall i :: 0 <= i < |rows| ==> |rows[i]| == |queryRows|
      modifies this
      ensures Valid() && Clean(State())
      ensures RowsFit(rows, toSchema) && State() == ResetChanged(Loaded(rows, toSchema))
    {
      Reload(rows);
    }

    /**
     * `save`: compile every pending change into statements; when compiling
     * raises, or executing them fails (`executed` is false), the error is
     * reported and the rows and flags stay as they were; otherwise the rows
     * are reloaded and every flag cleared.
     */
    method Save(rows: seq<seq<Value>>, executed: bool) returns (statements: Option<seq<Statement>>, failed: bool)
      requires Valid()
      requires forall i :: 0 <= i < |rows| ==> |rows[i]| == |queryRows|
      modifies this
      ensures Valid()
      ensures statements == Compile(table, schema, old(State()))
      ensures failed <==> statements.None? || !executed
      ensures failed ==> State() == old(State())
      ensures !failed ==> RowsFit(rows, toSchema) && State() == ResetChanged(Loaded(rows, toSchema)) && Clean(State())
    {
      statements := FlushChanges(table, schema, State());
      failed := statements.None? || !executed;
      if !failed {
        Reload(rows);
      }
    }
  }

  /**
   * After a load, a reset or a successful save nothing is pending: saving
   * again would send no statement.
   */
  lemma {:induction false} ReloadLeavesNothingToSave(name: string, user: seq<SchemaColumn>, rows: seq<seq<Value>>)
    requires |user| > 0 && NoDeleteColumn(user)
    requires forall i :: 0 <= i < |rows| ==> |rows[i]| == |SelectList(user)|
    ensures var schema := user + [DeleteColumn];
      RowsFit(rows, ColumnMap(schema))
      && Shaped(ResetChanged(Loaded(rows, ColumnMap(schema))), |schema|)
      && Compile(name, schema, ResetChanged(Loaded(rows, ColumnMap(schema)))) == Some([])
  {
    var schema := user + [DeleteColumn];
    LoadedShape(user, rows);
    var loaded := Loaded(rows, ColumnMap(schema));
    forall i | 0 <= i < |loaded| ensures |loaded[i]| == |schema| {
      assert i < |rows|;
      assert |Loaded(rows, ColumnMap(user + [DeleteColumn]))[i]| == |user| + 1;
      assert |schema| == |user| + 1;
    }
    ResetChangedClean(loaded, |schema|);
    CleanCompilesToNothing(name, schema, ResetChanged(loaded), |loaded|);
  }

  /** Proof step of `EditorTable.Update`: its two phases, in the source's order, compose to Write. */
  lemma {:induction false} UpdateSteps(t: Tracker, schema: seq<SchemaColumn>, r: nat, c: nat, v: Value, u: Tracker, raised: bool)
    requires Shaped(t, |schema|) && r < |t.data| && c < |Layout(schema)|
    requires var s := SchemaIndexOf(schema, c);
      var previous := if c < |t.data[0]| then Some(t.data[r][c]) else None;
      var isDelete := schema[s].isDeleteBtn;
      var rows := if isDelete then t.data else t.data[r := t.data[r][s := v]];
      var rowFlags := if isDelete then t.changedRow[r := t.changedRow[r] ^ DELETED] else t.changedRow;
      if Differs(previous, v) && !isDelete && c < |t.changed[r]| then
        u == Tracker(rows, t.changed[r := t.changed[r][c := t.changed[r][c] | UPDATED]], rowFlags[r := rowFlags[r] | UPDATED]) && !raised
      else
        u == Tracker(rows, t.changed, rowFlags) && raised == (Differs(previous, v) && !isDelete)
    ensures u == Write(t, schema, r, c, v).state && raised == Write(t, schema, r, c, v).raised
    ensures Shaped(u, |schema|)
  {
    if schema[SchemaIndexOf(schema, c)].isDeleteBtn {
      WriteDeleteToggles(t, schema, r, c, v);
    } else {
      WriteStores(t, schema, r, c, v);
    }
  }
}
