/**
 * The editor's session state: the loaded rows (one value group per schema
 * column plus the delete marker), one flag word per row and one per cell.
 * Flags are the bits UPDATED=1, CREATED=2, DELETED=4 combined with OR and,
 * for the delete action, XOR. This module gives every transition as a
 * function of the old state; the table class applies them in place.
 */
module ChangeTracker {
  import opened Common
  import opened Planner
  import opened Materializer

  type Flags = bv8

  const NONE: Flags := 0
  const UPDATED: Flags := 1
  const CREATED: Flags := 2
  const DELETED: Flags := 4

  predicate Has(f: Flags, bit: Flags) { f & bit != 0 }

  /** Every bit of a is also set in b. */
  predicate Within(a: Flags, b: Flags) { a & b == a }

  datatype Tracker = Tracker(data: seq<seq<Value>>, changed: seq<seq<Flags>>, changedRow: seq<Flags>)

  /** Flag tables parallel to the data, and every row as wide as the schema. */
  predicate Shaped(t: Tracker, width: nat)
  {
    && |t.changed| == |t.data| == |t.changedRow|
    && (forall r :: 0 <= r < |t.data| ==> |t.data[r]| == width)
    && (forall r :: 0 <= r < |t.changed| ==> |t.changed[r]| == width)
  }

  /** One materialized row: each group as a list, then the single delete marker. */
  function LoadedRow(groups: seq<seq<Value>>): (r: seq<Value>)
    ensures |r| == |groups| + 1
    ensures forall k :: 0 <= k < |groups| ==> r[k] == List(groups[k])
    ensures r[|groups|] == List([DeleteButton])
  {
    GroupRow(groups) + [List([DeleteButton])]
  }

  /** The rows `_make_query` builds from a query result. */
  function Loaded(rows: seq<seq<Value>>, toSchema: seq<nat>): (r: seq<seq<Value>>)
    requires RowsFit(rows, toSchema)
    ensures |r| == |rows|
    ensures forall i :: 0 <= i < |rows| ==> r[i] == LoadedRow(Walk(rows[i], toSchema, 0, [], []))
  {
    seq(|rows|, i requires 0 <= i < |rows| => LoadedRow(Walk(rows[i], toSchema, 0, [], [])))
  }

  /** `_make_query`'s loop over the result rows, each regrouped by the inner loop. */
  method LoadRows(rows: seq<seq<Value>>, toSchema: seq<nat>) returns (data: seq<seq<Value>>)
    requires RowsFit(rows, toSchema)
    ensures data == Loaded(rows, toSchema)
  {
    data := [];
    var i := 0;
    while i < |rows|
      invariant 0 <= i <= |rows|
      invariant data == Loaded(rows[..i], toSchema)
    {
      var groups, ok := RegroupRow(rows[i], toSchema);
      assert rows[..i + 1][..i] == rows[..i];
      data := data + [LoadedRow(groups)];
      i := i + 1;
    }
    assert rows[..i] == rows;
  }

  /** `_resetChanged`: every row and cell flag NONE, shaped like the data. */
  function ResetChanged(data: seq<seq<Value>>): Tracker
  {
    Tracker(data, seq(|data|, r requires 0 <= r < |data| => Repeat(NONE, |data[r]|)), Repeat(NONE, |data|))
  }

  /** No flag is set anywhere. */
  predicate Clean(t: Tracker)
  {
    && (forall r :: 0 <= r < |t.changedRow| ==> t.changedRow[r] == NONE)
    && (forall r, c :: 0 <= r < |t.changed| && 0 <= c < |t.changed[r]| ==> t.changed[r][c] == NONE)
  }

  /** After a load, reset or successful save the flags are all NONE and shaped like the data. */
  lemma {:induction false} ResetChangedClean(data: seq<seq<Value>>, width: nat)
    requires forall r :: 0 <= r < |data| ==> |data[r]| == width
    ensures Clean(ResetChanged(data)) && Shaped(ResetChanged(data), width)
    ensures ResetChanged(data).data == data
  {
  }

  /**
   * Loading with the planner's map gives rows of one group per user column,
   * each holding exactly that column's selected values in SELECT order, then
   * the delete marker.
   */
  lemma {:induction false} LoadedShape(user: seq<SchemaColumn>, rows: seq<seq<Value>>)
    requires |user| > 0 && NoDeleteColumn(user)
    requires forall i :: 0 <= i < |rows| ==> |rows[i]| == |SelectList(user)|
    ensures RowsFit(rows, ColumnMap(user + [DeleteColumn]))
    ensures var data := Loaded(rows, ColumnMap(user + [DeleteColumn]));
      forall i :: 0 <= i < |rows| ==>
        && |data[i]| == |user| + 1
        && (forall k :: 0 <= k < |user| ==> data[i][k].List? && |data[i][k].items| == Arity(user[k]))
        && data[i][|user|] == List([DeleteButton])
  {
    EditorSchemaPlan(user);
    ColumnMapSteps(user);
    forall i | 0 <= i < |rows|
      ensures var g := Walk(rows[i], ColumnMap(user), 0, [], []);
        |g| == |user| && forall k :: 0 <= k < |user| ==> |g[k]| == Arity(user[k])
    {
      LoadedRowShape(user, rows[i]);
    }
  }

  /** The result of `update`: the new state, and whether it ended in an IndexError part-way. */
  datatype WriteOutcome = WriteOutcome(state: Tracker, raised: bool)

  /** The schema column a displayed column writes to. */
  function SchemaIndexOf(schema: seq<SchemaColumn>, c: nat): (s: nat)
    requires c < |Layout(schema)|
    ensures s < |schema|
  {
    LayoutWellFormed(schema);
    Layout(schema)[c].schemaIndex
  }

  /**
   * `update(r, c, value)` as written. The previous value is read at the
   * DISPLAYED index c (when c is below the width of row 0); the delete column
   * XOR-toggles the row's DELETED bit, any other column stores the value as
   * the whole group at the SCHEMA index; the UPDATED bit is then OR'd into the
   * cell flag at the displayed index c and into the row flag. When c is past
   * the row's flags the cell update raises after the data was written, and
   * the row flag is not touched.
   */
  function Write(t: Tracker, schema: seq<SchemaColumn>, r: nat, c: nat, v: Value): WriteOutcome
    requires Shaped(t, |schema|) && r < |t.data| && c < |Layout(schema)|
  {
    var previous := if c < |t.data[0]| then Some(t.data[r][c]) else None;
    var s := SchemaIndexOf(schema, c);
    var isDelete := schema[s].isDeleteBtn;
    var data := if isDelete then t.data else t.data[r := t.data[r][s := v]];
    var rowFlags := if isDelete then t.changedRow[r := t.changedRow[r] ^ DELETED] else t.changedRow;
    if Differs(previous, v) && !isDelete then
      if c < |t.changed[r]| then
        WriteOutcome(Tracker(data, t.changed[r := t.changed[r][c := t.changed[r][c] | UPDATED]], rowFlags[r := rowFlags[r] | UPDATED]), false)
      else
        WriteOutcome(Tracker(data, t.changed, rowFlags), true)
    else
      WriteOutcome(Tracker(data, t.changed, rowFlags), false)
  }

  /**
   * A write to the delete column flips the row's DELETED bit, leaves every
   * other bit of that row flag, every other row flag, the data and the cell
   * flags alone; a second such write restores the row flag.
   */
  lemma {:induction false} WriteDeleteToggles(t: Tracker, schema: seq<SchemaColumn>, r: nat, c: nat, v: Value)
    requires Shaped(t, |schema|) && r < |t.data| && c < |Layout(schema)|
    requires schema[SchemaIndexOf(schema, c)].isDeleteBtn
    ensures var o := Write(t, schema, r, c, v);
      && !o.raised && Shaped(o.state, |schema|)
      && o.state.data == t.data && o.state.changed == t.changed
      && |o.state.changedRow| == |t.changedRow|
      && (forall q :: 0 <= q < |t.changedRow| && q != r ==> o.state.changedRow[q] == t.changedRow[q])
      && Has(o.state.changedRow[r], DELETED) == !Has(t.changedRow[r], DELETED)
      && o.state.changedRow[r] & UPDATED == t.changedRow[r] & UPDATED
      && o.state.changedRow[r] & CREATED == t.changedRow[r] & CREATED
      && Write(o.state, schema, r, c, v).state == t
  {
    var f := t.changedRow[r];
    assert (f ^ DELETED) & DELETED != 0 <==> f & DELETED == 0;
    assert (f ^ DELETED) & UPDATED == f & UPDATED;
    assert (f ^ DELETED) & CREATED == f & CREATED;
    assert (f ^ DELETED) ^ DELETED == f;
    var o := Write(t, schema, r, c, v);
    assert o.state.changedRow == t.changedRow[r := f ^ DELETED];
    assert o.state.changedRow[r := (f ^ DELETED) ^ DELETED] == t.changedRow;
  }

  /**
   * A write to any other column stores the value as the whole group at the
   * schema index and changes no other cell of any row; it raises only when
   * it needs to flag a displayed index past the row's width.
   */
  lemma {:induction false} WriteStores(t: Tracker, schema: seq<SchemaColumn>, r: nat, c: nat, v: Value)
    requires Shaped(t, |schema|) && r < |t.data| && c < |Layout(schema)|
    requires !schema[SchemaIndexOf(schema, c)].isDeleteBtn
    ensures var o := Write(t, schema, r, c, v); var s := SchemaIndexOf(schema, c);
      && Shaped(o.state, |schema|)
      && o.state.data[r][s] == v
      && (forall q, k :: 0 <= q < |t.data| && 0 <= k < |schema| && (q, k) != (r, s) ==> o.state.data[q][k] == t.data[q][k])
      && (o.raised <==> c >= |schema|)
  {
  }

  /**
   * Flags of a non-delete write: the cell at the displayed index and the row
   * get UPDATED OR'd in exactly when the group stored now at the displayed
   * index c is None or differs from the new value under Python's `==`. That
   * is not the group the write replaces, which sits at the schema index, and
   * the baseline is the value stored now, not the load. No other flag of any
   * row changes.
   */
  lemma {:induction false} WriteFlags(t: Tracker, schema: seq<SchemaColumn>, r: nat, c: nat, v: Value)
    requires Shaped(t, |schema|) && r < |t.data| && c < |Layout(schema)|
    requires !schema[SchemaIndexOf(schema, c)].isDeleteBtn
    requires c < |schema|
    ensures var o := Write(t, schema, r, c, v); var differs := t.data[r][c] == Null || !PyEq(t.data[r][c], v);
      && !o.raised && Shaped(o.state, |schema|)
      && (differs ==> o.state.changed[r][c] == t.changed[r][c] | UPDATED && o.state.changedRow[r] == t.changedRow[r] | UPDATED)
      && (differs ==> Has(o.state.changed[r][c], UPDATED) && Has(o.state.changedRow[r], UPDATED))
      && (!differs ==> o.state.changed == t.changed && o.state.changedRow == t.changedRow)
      && (forall k :: 0 <= k < |schema| && k != c ==> o.state.changed[r][k] == t.changed[r][k])
      && (forall q :: 0 <= q < |t.changed| && q != r ==> o.state.changed[q] == t.changed[q] && o.state.changedRow[q] == t.changedRow[q])
  {
    var f := t.changed[r][c];
    assert (f | UPDATED) & UPDATED != 0;
    var g := t.changedRow[r];
    assert (g | UPDATED) & UPDATED != 0;
  }

  /** A write never clears a bit of any cell flag. */
  lemma {:induction false} WriteKeepsCellFlags(t: Tracker, schema: seq<SchemaColumn>, r: nat, c: nat, v: Value)
    requires Shaped(t, |schema|) && r < |t.data| && c < |Layout(schema)|
    ensures var o := Write(t, schema, r, c, v);
      && Shaped(o.state, |schema|)
      && forall q, k :: 0 <= q < |t.changed| && 0 <= k < |schema| ==> Within(t.changed[q][k], o.state.changed[q][k])
  {
    var o := Write(t, schema, r, c, v);
    if schema[SchemaIndexOf(schema, c)].isDeleteBtn {
      WriteDeleteToggles(t, schema, r, c, v);
    } else {
      WriteStores(t, schema, r, c, v);
      if o.state.changed != t.changed {
        var f := t.changed[r][c];
        assert o.state.changed == t.changed[r := t.changed[r][c := f | UPDATED]];
        assert f & (f | UPDATED) == f;
      }
    }
  }

  /**
   * A write clears no bit of a row flag except the DELETED bit, which only a
   * write to the delete column touches.
   */
  lemma {:induction false} WriteKeepsRowFlags(t: Tracker, schema: seq<SchemaColumn>, r: nat, c: nat, v: Value)
    requires Shaped(t, |schema|) && r < |t.data| && c < |Layout(schema)|
    ensures var o := Write(t, schema, r, c, v);
      && |o.state.changedRow| == |t.changedRow|
      && (forall q :: 0 <= q < |t.changedRow| ==> Within(t.changedRow[q] & (UPDATED | CREATED), o.state.changedRow[q]))
      && (!schema[SchemaIndexOf(schema, c)].isDeleteBtn ==> forall q :: 0 <= q < |t.changedRow| ==> Within(t.changedRow[q], o.state.changedRow[q]))
  {
    var rows := Write(t, schema, r, c, v).state.changedRow;
    var f := t.changedRow[r];
    WriteRowFlagCases(t, schema, r, c, v);
    forall q | 0 <= q < |t.changedRow|
      ensures Within(t.changedRow[q] & (UPDATED | CREATED), rows[q])
      ensures !schema[SchemaIndexOf(schema, c)].isDeleteBtn ==> Within(t.changedRow[q], rows[q])
    {
      BitsKept(t.changedRow[q]);
    }
  }

  /** The row flags after a write: unchanged, UPDATED OR'd in, or DELETED toggled by a delete write. */
  lemma {:induction false} WriteRowFlagCases(t: Tracker, schema: seq<SchemaColumn>, r: nat, c: nat, v: Value)
    requires Shaped(t, |schema|) && r < |t.data| && c < |Layout(schema)|
    ensures var rows := Write(t, schema, r, c, v).state.changedRow;
      if schema[SchemaIndexOf(schema, c)].isDeleteBtn then rows == t.changedRow[r := t.changedRow[r] ^ DELETED]
      else rows == t.changedRow || rows == t.changedRow[r := t.changedRow[r] | UPDATED]
  {
  }

  /** Bit facts about OR-ing in UPDATED and toggling DELETED. */
  lemma {:induction false} BitsKept(f: Flags)
    ensures Within(f, f) && Within(f, f | UPDATED)
    ensures Within(f & (UPDATED | CREATED), f) && Within(f & (UPDATED | CREATED), f | UPDATED)
    ensures Within(f & (UPDATED | CREATED), f ^ DELETED)
  {
  }

  /**
   * Reverting a cell: write a new value, then the value that was there; the
   * data is back as it was, yet the cell and the row stay UPDATED, because
   * the first write set the bit and flags are only ever OR'd.
   */
  lemma {:induction false} RevertKeepsUpdated(t: Tracker, schema: seq<SchemaColumn>, r: nat, c: nat, v: Value)
    requires Shaped(t, |schema|) && r < |t.data| && c < |Layout(schema)| && c < |schema|
    requires SchemaIndexOf(schema, c) == c && !schema[c].isDeleteBtn
    requires t.data[r][c] == Null || !PyEq(t.data[r][c], v)
    ensures var o1 := Write(t, schema, r, c, v);
      var o2 := Write(o1.state, schema, r, c, t.data[r][c]);
      && o2.state.data == t.data
      && Has(o2.state.changed[r][c], UPDATED) && Has(o2.state.changedRow[r], UPDATED)
  {
    var w := t.data[r][c];
    var o1 := Write(t, schema, r, c, v);
    assert o1.state.data == t.data[r := t.data[r][c := v]];
    var o2 := Write(o1.state, schema, r, c, w);
    assert o2.state.data == o1.state.data[r := o1.state.data[r][c := w]];
    assert t.data[r][c := v][c := w] == t.data[r];
    WriteFlags(t, schema, r, c, v);
    WriteKeepsCellFlags(o1.state, schema, r, c, w);
    WriteKeepsRowFlags(o1.state, schema, r, c, w);
    BitStays(o1.state.changed[r][c], o2.state.changed[r][c]);
    BitStays(o1.state.changedRow[r], o2.state.changedRow[r]);
  }

  /** A bit of a flag word is kept by any word that keeps all its bits. */
  lemma {:induction false} BitStays(a: Flags, b: Flags)
    requires Within(a, b) && Has(a, UPDATED)
    ensures Has(b, UPDATED)
  {
  }

  /** The group `_default_row` builds for one column: its default, "" per display column, None per auxiliary column. */
  function DefaultGroup(col: SchemaColumn): Value
  {
    List([col.defaultValue] + Repeat(Text(""), col.DisplayCount()) + Repeat(Null, col.AuxCount()))
  }

  function DefaultRow(schema: seq<SchemaColumn>): (row: seq<Value>)
    ensures |row| == |schema| && forall k :: 0 <= k < |schema| ==> row[k] == DefaultGroup(schema[k])
  {
    seq(|schema|, k requires 0 <= k < |schema| => DefaultGroup(schema[k]))
  }

  /** `_default_row`: one group per schema column, built value by value. */
  method DefaultRowOf(schema: seq<SchemaColumn>) returns (row: seq<Value>)
    ensures row == DefaultRow(schema)
  {
    row := [];
    var i := 0;
    while i < |schema|
      invariant 0 <= i <= |schema|
      invariant |row| == i && forall k :: 0 <= k < i ==> row[k] == DefaultGroup(schema[k])
    {
      var column := schema[i];
      var values := [column.defaultValue];
      if column.fk.Some? {
        var d := 0;
        while d < |column.fk.value.displayColumns|
          invariant 0 <= d <= |column.fk.value.displayColumns|
          invariant values == [column.defaultValue] + Repeat(Text(""), d)
        {
          values := values + [Text("")];
          d := d + 1;
        }
        var a := 0;
        while a < |column.fk.value.auxColumns|
          invariant 0 <= a <= |column.fk.value.auxColumns|
          invariant values == [column.defaultValue] + Repeat(Text(""), column.DisplayCount()) + Repeat(Null, a)
        {
          values := values + [Null];
          a := a + 1;
        }
      }
      row := row + [List(values)];
      i := i + 1;
    }
  }

  /**
   * A default row has the shape of a loaded one: each user column's group
   * holds as many values as the column selects, and the delete column's
   * group is the single marker.
   */
  lemma {:induction false} DefaultRowShape(user: seq<SchemaColumn>)
    requires NoDeleteColumn(user)
    ensures var row := DefaultRow(user + [DeleteColumn]);
      && |row| == |user| + 1
      && (forall k :: 0 <= k < |user| ==> row[k].List? && |row[k].items| == Arity(user[k]) && row[k].items[0] == user[k].defaultValue)
      && row[|user|] == List([DeleteButton])
  {
    var schema := user + [DeleteColumn];
    forall k | 0 <= k < |user| ensures schema[k] == user[k] { }
  }

  /** `appendRow`: the row is added with its row flag and every cell flag CREATED. */
  function Append(t: Tracker, row: seq<Value>): Tracker
  {
    Tracker(t.data + [row], t.changed + [Repeat(CREATED, |row|)], t.changedRow + [CREATED])
  }

  /** Appending adds one CREATED row at the end and leaves the earlier rows and their flags as they were. */
  lemma {:induction false} AppendCreates(t: Tracker, schema: seq<SchemaColumn>)
    requires Shaped(t, |schema|)
    ensures var a := Append(t, DefaultRow(schema));
      && Shaped(a, |schema|)
      && |a.data| == |t.data| + 1
      && a.data[..|t.data|] == t.data && a.changed[..|t.data|] == t.changed && a.changedRow[..|t.data|] == t.changedRow
      && a.changedRow[|t.data|] == CREATED
      && (forall k :: 0 <= k < |schema| ==> a.changed[|t.data|][k] == CREATED)
  {
    var a := Append(t, DefaultRow(schema));
    assert a.data[..|t.data|] == t.data;
    assert a.changed[..|t.data|] == t.changed;
    assert a.changedRow[..|t.data|] == t.changedRow;
  }
}
