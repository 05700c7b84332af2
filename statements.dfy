/**
 * The statement compiler of the editor's save: the row and cell flags turn
 * into an ordered list of parameterised SQL statements. The id column's name
 * goes into WHERE as the schema spells it (usually qualified); the SET and
 * INSERT column names lose their table prefix.
 */
module Statements {
  import opened Common
  import opened Planner
  import opened ChangeTracker

  /** `strip_table_name`: what follows the last '.', or the whole name when it has none. */
  function StripTableName(raw: string): string
  {
    if |raw| == 0 then ""
    else if raw[|raw| - 1] == '.' then ""
    else StripTableName(raw[..|raw| - 1]) + [raw[|raw| - 1]]
  }

  /** The stripped name is a dot-free suffix of the name, and a dot precedes it unless it is the whole name. */
  lemma {:induction false} StripTableNameSuffix(raw: string)
    ensures var r := StripTableName(raw);
      && |r| <= |raw| && r == raw[|raw| - |r|..]
      && '.' !in r
      && (|r| < |raw| ==> raw[|raw| - |r| - 1] == '.')
  {
    if |raw| > 0 && raw[|raw| - 1] != '.' {
      var init := raw[..|raw| - 1];
      StripTableNameSuffix(init);
      var r0 := StripTableName(init);
      var x := raw[|raw| - 1];
      var r := r0 + [x];
      assert StripTableName(raw) == r;
      assert init[|init| - |r0|..] + [x] == raw[|raw| - |r|..];
      assert '.' !in r by {
        forall j | 0 <= j < |r| ensures r[j] != '.' {
          if j < |r0| { assert r[j] == r0[j]; }
        }
      }
      if |r| < |raw| {
        assert raw[|raw| - |r| - 1] == init[|init| - |r0| - 1];
      }
    }
  }

  /** A name without a dot is left alone. */
  lemma {:induction false} StripUnqualified(raw: string)
    requires '.' !in raw
    ensures StripTableName(raw) == raw
  {
    StripTableNameSuffix(raw);
  }

  /** Stripping `table.column` gives the column, whatever the table part holds. */
  lemma {:induction false} StripQualified(table: string, column: string)
    requires '.' !in column
    ensures StripTableName(table + "." + column) == column
  {
    var raw := table + "." + column;
    StripTableNameSuffix(raw);
    var r := StripTableName(raw);
    assert raw[|raw| - |column|..] == column;
    assert raw[|raw| - |column| - 1] == '.';
    assert forall j :: |raw| - |column| <= j < |raw| ==> raw[j] == column[j - (|raw| - |column|)];
    assert forall j :: |raw| - |r| <= j < |raw| ==> raw[j] == r[j - (|raw| - |r|)];
  }

  /** One parameterised statement: its SQL text and its parameters in order. */
  datatype Statement = Statement(sql: string, params: seq<Value>)

  function DeleteSql(table: string, idName: string): string
  {
    "DELETE FROM " + table + " WHERE " + idName + " = ?;"
  }

  function InsertSql(table: string, names: seq<string>): string
  {
    "INSERT INTO " + table + " (" + Join(", ", names) + ") VALUES(" + Join(", ", Repeat("?", |names|)) + ");"
  }

  function Assignments(names: seq<string>): (r: seq<string>)
    ensures |r| == |names| && forall k :: 0 <= k < |names| ==> r[k] == names[k] + " = ?"
  {
    seq(|names|, k requires 0 <= k < |names| => names[k] + " = ?")
  }

  function UpdateSql(table: string, names: seq<string>, idName: string): string
  {
    "UPDATE " + table + " SET " + Join(", ", Assignments(names)) + " WHERE " + idName + " = ?;"
  }

  /** Slot 0 of every group, or None as soon as one group has no slot 0 (the subscript raises). */
  function SlotZeros(groups: seq<Value>): Option<seq<Value>>
  {
    if |groups| == 0 then Some([])
    else
      var init := SlotZeros(groups[..|groups| - 1]);
      var last := Index(groups[|groups| - 1], 0);
      if init.Some? && last.Some? then Some(init.value + [last.value]) else None
  }

  /** The slot-0 values exist exactly when every group has a slot 0, and then they are those slots in order. */
  lemma {:induction false} SlotZerosSpec(groups: seq<Value>)
    ensures var r := SlotZeros(groups);
      && (r.Some? <==> forall k :: 0 <= k < |groups| ==> Index(groups[k], 0).Some?)
      && (r.Some? ==> |r.value| == |groups| && forall k :: 0 <= k < |groups| ==> r.value[k] == Index(groups[k], 0).value)
  {
    if |groups| > 0 {
      var init := groups[..|groups| - 1];
      SlotZerosSpec(init);
      assert forall k :: 0 <= k < |init| ==> init[k] == groups[k];
    }
  }

  function Pick(row: seq<Value>, cols: seq<nat>): (r: seq<Value>)
    requires forall k :: 0 <= k < |cols| ==> cols[k] < |row|
    ensures |r| == |cols| && forall k :: 0 <= k < |cols| ==> r[k] == row[cols[k]]
  {
    seq(|cols|, k requires 0 <= k < |cols| => row[cols[k]])
  }

  function Names(schema: seq<SchemaColumn>, cols: seq<nat>): (r: seq<string>)
    requires forall k :: 0 <= k < |cols| ==> cols[k] < |schema|
    ensures |r| == |cols| && forall k :: 0 <= k < |cols| ==> r[k] == StripTableName(schema[cols[k]].columnName)
  {
    seq(|cols|, k requires 0 <= k < |cols| => StripTableName(schema[cols[k]].columnName))
  }

  /** The columns an INSERT names: every index after the id column. */
  function InsertColumns(n: nat): (r: seq<nat>)
    ensures |r| == (if n == 0 then 0 else n - 1) && forall k :: 0 <= k < |r| ==> r[k] == k + 1
  {
    if n <= 1 then [] else seq(n - 1, k requires 0 <= k < n - 1 => k + 1)
  }

  /** The cells whose UPDATED bit is set, in order. */
  function UpdatedCells(flags: seq<Flags>): seq<nat>
  {
    if |flags| == 0 then []
    else UpdatedCells(flags[..|flags| - 1]) + (if Has(flags[|flags| - 1], UPDATED) then [|flags| - 1] else [])
  }

  /** The updated cells are exactly the indices whose flag has the UPDATED bit, in increasing order. */
  lemma {:induction false} UpdatedCellsExact(flags: seq<Flags>)
    ensures var r := UpdatedCells(flags);
      && (forall k :: k in r <==> 0 <= k < |flags| && Has(flags[k], UPDATED))
      && (forall j, k :: 0 <= j < k < |r| ==> r[j] < r[k])
      && (forall j :: 0 <= j < |r| ==> r[j] < |flags|)
  {
    if |flags| > 0 {
      var init := flags[..|flags| - 1];
      UpdatedCellsExact(init);
      assert forall k :: 0 <= k < |init| ==> init[k] == flags[k];
    }
  }

  /** `_delete_statement_for_row`. */
  function DeleteStatement(table: string, schema: seq<SchemaColumn>, row: seq<Value>): Option<Statement>
    requires |schema| > 0
  {
    if |row| == 0 || Index(row[0], 0).None? then None
    else Some(Statement(DeleteSql(table, schema[0].columnName), [Index(row[0], 0).value]))
  }

  /** `_insert_statement_for_row`. */
  function InsertStatement(table: string, schema: seq<SchemaColumn>, row: seq<Value>): Option<Statement>
    requires |row| <= |schema|
  {
    var cols := InsertColumns(|row|);
    var values := SlotZeros(Pick(row, cols));
    if values.None? then None else Some(Statement(InsertSql(table, Names(schema, cols)), values.value))
  }

  /** `_update_statement_for_row`. */
  function UpdateStatement(table: string, schema: seq<SchemaColumn>, row: seq<Value>, flags: seq<Flags>): Option<Statement>
    requires |row| <= |schema| && |row| <= |flags|
  {
    if |row| == 0 || Index(row[0], 0).None? then None
    else
      UpdatedCellsExact(flags[..|row|]);
      var cols := UpdatedCells(flags[..|row|]);
      var values := SlotZeros(Pick(row, cols));
      if values.None? then None
      else Some(Statement(UpdateSql(table, Names(schema, cols), schema[0].columnName), values.value + [Index(row[0], 0).value]))
  }

  /** The statements `cond` adds: none when it is false, the statement when it builds, failure when it raises. */
  function Emit(cond: bool, s: Option<Statement>): Option<seq<Statement>>
  {
    if !cond then Some([]) else if s.None? then None else Some([s.value])
  }

  function Then(a: Option<seq<Statement>>, b: Option<seq<Statement>>): Option<seq<Statement>>
  {
    if a.Some? && b.Some? then Some(a.value + b.value) else None
  }

  /** One row of `_flush_changes`: nothing for a created-and-deleted row, else DELETE, INSERT, UPDATE as flagged. */
  function RowStatements(table: string, schema: seq<SchemaColumn>, row: seq<Value>, rowFlag: Flags, flags: seq<Flags>): Option<seq<Statement>>
    requires 0 < |schema| && |row| <= |schema| && |row| <= |flags|
  {
    if Has(rowFlag, CREATED) && Has(rowFlag, DELETED) then Some([])
    else
      Then(Then(Emit(Has(rowFlag, DELETED), DeleteStatement(table, schema, row)),
                Emit(Has(rowFlag, CREATED), InsertStatement(table, schema, row))),
           Emit(Has(rowFlag, UPDATED), UpdateStatement(table, schema, row, flags)))
  }

  /** The statements of the first n rows, in row order; None when building one of them raises. */
  function Batch(table: string, schema: seq<SchemaColumn>, t: Tracker, n: nat): Option<seq<Statement>>
    requires |schema| > 0 && Shaped(t, |schema|) && n <= |t.data|
  {
    if n == 0 then Some([])
    else Then(Batch(table, schema, t, n - 1), RowStatements(table, schema, t.data[n - 1], t.changedRow[n - 1], t.changed[n - 1]))
  }

  /** All statements `_flush_changes` would execute. */
  function Compile(table: string, schema: seq<SchemaColumn>, t: Tracker): Option<seq<Statement>>
    requires |schema| > 0 && Shaped(t, |schema|)
  {
    Batch(table, schema, t, |t.data|)
  }

  lemma {:induction false} BatchFails(table: string, schema: seq<SchemaColumn>, t: Tracker, n: nat, m: nat)
    requires |schema| > 0 && Shaped(t, |schema|) && n <= m <= |t.data|
    requires Batch(table, schema, t, n).None?
    ensures Batch(table, schema, t, m).None?
    decreases m - n
  {
    if n < m {
      BatchFails(table, schema, t, n + 1, m);
    }
  }

  /** `_insert_statement_for_row`'s loop. */
  method BuildInsert(table: string, schema: seq<SchemaColumn>, row: seq<Value>) returns (s: Option<Statement>)
    requires |row| <= |schema|
    ensures s == InsertStatement(table, schema, row)
  {
    var names: seq<string> := [];
    var values: seq<Value> := [];
    var i := 0;
    while i < |row|
      invariant 0 <= i <= |row|
      invariant names == Names(schema, InsertColumns(i))
      invariant SlotZeros(Pick(row, InsertColumns(i))) == Some(values)
    {
      if i == 0 {
        i := i + 1;
        continue;
      }
      InsertColumnsSnoc(i);
      PickSnoc(schema, row, InsertColumns(i), i);
      var v := Index(row[i], 0);
      if v.None? {
        SlotZerosMissing(row, InsertColumns(|row|), i - 1);
        return None;
      }
      names := names + [StripTableName(schema[i].columnName)];
      values := values + [v.value];
      i := i + 1;
    }
    s := Some(Statement(InsertSql(table, names), values));
  }

  lemma {:induction false} InsertColumnsSnoc(i: nat)
    requires i >= 1
    ensures InsertColumns(i + 1) == InsertColumns(i) + [i]
  {
  }

  /** Picking one more column extends the names and the slot-0 values by that column's. */
  lemma {:induction false} PickSnoc(schema: seq<SchemaColumn>, row: seq<Value>, cols: seq<nat>, i: nat)
    requires i < |row| <= |schema| && forall k :: 0 <= k < |cols| ==> cols[k] < |row|
    ensures Names(schema, cols + [i]) == Names(schema, cols) + [StripTableName(schema[i].columnName)]
    ensures var z := SlotZeros(Pick(row, cols)); var v := Index(row[i], 0);
      SlotZeros(Pick(row, cols + [i])) == if z.Some? && v.Some? then Some(z.value + [v.value]) else None
  {
    assert Pick(row, cols + [i])[..|cols|] == Pick(row, cols);
  }

  /** One group without a slot 0 makes the whole pick fail. */
  lemma {:induction false} SlotZerosMissing(row: seq<Value>, cols: seq<nat>, k: nat)
    requires forall j :: 0 <= j < |cols| ==> cols[j] < |row|
    requires k < |cols| && Index(row[cols[k]], 0).None?
    ensures SlotZeros(Pick(row, cols)).None?
  {
    SlotZerosSpec(Pick(row, cols));
  }

  /** `_update_statement_for_row`'s loop. */
  method BuildUpdate(table: string, schema: seq<SchemaColumn>, row: seq<Value>, flags: seq<Flags>) returns (s: Option<Statement>)
    requires |row| <= |schema| && |row| <= |flags|
    ensures s == UpdateStatement(table, schema, row, flags)
  {
    if |row| == 0 {
      return None;
    }
    var id := Index(row[0], 0);
    if id.None? {
      return None;
    }
    var names: seq<string> := [];
    var values: seq<Value> := [];
    var i := 0;
    UpdatedCellsExact(flags[..0]);
    while i < |row|
      invariant 0 <= i <= |row|
      invariant forall k :: 0 <= k < |UpdatedCells(flags[..i])| ==> UpdatedCells(flags[..i])[k] < i
      invariant names == Names(schema, UpdatedCells(flags[..i]))
      invariant SlotZeros(Pick(row, UpdatedCells(flags[..i]))) == Some(values)
    {
      UpdateStep(schema, row, flags, i);
      if Has(flags[i], UPDATED) {
        var v := Index(row[i], 0);
        if v.None? {
          UpdatedMissing(row, flags, i);
          return None;
        }
        names := names + [StripTableName(schema[i].columnName)];
        values := values + [v.value];
      }
      i := i + 1;
    }
    assert flags[..|row|] == flags[..i];
    s := Some(Statement(UpdateSql(table, names, schema[0].columnName), values + [id.value]));
  }

  /** One step of the UPDATE loop: an updated cell adds its name and its slot-0 value, any other cell nothing. */
  lemma {:induction false} UpdateStep(schema: seq<SchemaColumn>, row: seq<Value>, flags: seq<Flags>, i: nat)
    requires i < |row| <= |schema| && |row| <= |flags|
    ensures var cols, next := UpdatedCells(flags[..i]), UpdatedCells(flags[..i + 1]);
      && (forall k :: 0 <= k < |cols| ==> cols[k] < i)
      && (forall k :: 0 <= k < |next| ==> next[k] < i + 1)
      && (!Has(flags[i], UPDATED) ==> next == cols)
      && (Has(flags[i], UPDATED) ==>
            && Names(schema, next) == Names(schema, cols) + [StripTableName(schema[i].columnName)]
            && var z, v := SlotZeros(Pick(row, cols)), Index(row[i], 0);
               SlotZeros(Pick(row, next)) == if z.Some? && v.Some? then Some(z.value + [v.value]) else None)
  {
    UpdatedCellsExact(flags[..i]);
    UpdatedCellsExact(flags[..i + 1]);
    UpdatedCellsSnoc(flags, i);
    var cols := UpdatedCells(flags[..i]);
    if Has(flags[i], UPDATED) {
      PickSnoc(schema, row, cols, i);
    } else {
      assert cols + [] == cols;
    }
  }

  lemma {:induction false} UpdatedCellsSnoc(flags: seq<Flags>, i: nat)
    requires i < |flags|
    ensures UpdatedCells(flags[..i + 1]) == UpdatedCells(flags[..i]) + (if Has(flags[i], UPDATED) then [i] else [])
  {
    assert flags[..i + 1][..i] == flags[..i];
  }

  /** An updated cell without a slot 0 makes the UPDATE fail. */
  lemma {:induction false} UpdatedMissing(row: seq<Value>, flags: seq<Flags>, i: nat)
    requires i < |row| <= |flags| && Has(flags[i], UPDATED) && Index(row[i], 0).None?
    ensures var cols := UpdatedCells(flags[..|row|]);
      && (forall k :: 0 <= k < |cols| ==> cols[k] < |row|)
      && SlotZeros(Pick(row, cols)).None?
  {
    var f := flags[..|row|];
    UpdatedCellsExact(f);
    var cols := UpdatedCells(f);
    assert f[i] == flags[i];
    assert i in cols;
    var k :| 0 <= k < |cols| && cols[k] == i;
    SlotZerosMissing(row, cols, k);
  }

  /** `_flush_changes`'s loop over the rows (the statements are built before any runs). */
  method FlushChanges(table: string, schema: seq<SchemaColumn>, t: Tracker) returns (batch: Option<seq<Statement>>)
    requires |schema| > 0 && Shaped(t, |schema|)
    ensures batch == Compile(table, schema, t)
  {
    var statements: seq<Statement> := [];
    var i := 0;
    while i < |t.data|
      invariant 0 <= i <= |t.data|
      invariant Batch(table, schema, t, i) == Some(statements)
    {
      var part := RowStatementsOf(table, schema, t.data[i], t.changedRow[i], t.changed[i]);
      if part.None? {
        BatchFails(table, schema, t, i + 1, |t.data|);
        return None;
      }
      statements := statements + part.value;
      i := i + 1;
    }
    batch := Some(statements);
  }

  /** The body of `_flush_changes`'s loop for one row: independent checks of DELETED, CREATED and UPDATED. */
  method RowStatementsOf(table: string, schema: seq<SchemaColumn>, row: seq<Value>, rowFlag: Flags, flags: seq<Flags>)
    returns (part: Option<seq<Statement>>)
    requires 0 < |schema| && |row| <= |schema| && |row| <= |flags|
    ensures part == RowStatements(table, schema, row, rowFlag, flags)
  {
    if Has(rowFlag, CREATED) && Has(rowFlag, DELETED) {
      return Some([]);
    }
    var del := Emit(Has(rowFlag, DELETED), DeleteStatement(table, schema, row));
    var ins: Option<seq<Statement>> := Some([]);
    if Has(rowFlag, CREATED) {
      var s := BuildInsert(table, schema, row);
      ins := if s.None? then None else Some([s.value]);
    }
    var upd: Option<seq<Statement>> := Some([]);
    if Has(rowFlag, UPDATED) {
      var s := BuildUpdate(table, schema, row, flags);
      upd := if s.None? then None else Some([s.value]);
    }
    part := Then(Then(del, ins), upd);
  }

  /** With no flag set anywhere, a save sends nothing. */
  lemma {:induction false} CleanCompilesToNothing(table: string, schema: seq<SchemaColumn>, t: Tracker, n: nat)
    requires |schema| > 0 && Shaped(t, |schema|) && Clean(t) && n <= |t.data|
    ensures Batch(table, schema, t, n) == Some([])
  {
    if n > 0 {
      CleanCompilesToNothing(table, schema, t, n - 1);
      QuietRow(table, schema, t.data[n - 1], t.changedRow[n - 1], t.changed[n - 1]);
      var e: seq<Statement> := [];
      assert e + e == e;
    }
  }

  /** A row whose flag has none of the three bits emits nothing. */
  lemma {:induction false} QuietRow(table: string, schema: seq<SchemaColumn>, row: seq<Value>, rowFlag: Flags, flags: seq<Flags>)
    requires 0 < |schema| && |row| <= |schema| && |row| <= |flags|
    requires rowFlag == NONE
    ensures RowStatements(table, schema, row, rowFlag, flags) == Some([])
  {
    assert !Has(NONE, CREATED) && !Has(NONE, DELETED) && !Has(NONE, UPDATED);
    var e: seq<Statement> := [];
    assert e + e == e;
  }

  /** The batch of a prefix of the rows depends on those rows only. */
  lemma {:induction false} BatchPrefix(table: string, schema: seq<SchemaColumn>, t: Tracker, u: Tracker, n: nat)
    requires |schema| > 0 && Shaped(t, |schema|) && Shaped(u, |schema|) && n <= |t.data| && n <= |u.data|
    requires t.data[..n] == u.data[..n] && t.changed[..n] == u.changed[..n] && t.changedRow[..n] == u.changedRow[..n]
    ensures Batch(table, schema, t, n) == Batch(table, schema, u, n)
  {
    if n > 0 {
      assert t.data[..n - 1] == t.data[..n][..n - 1] && u.data[..n - 1] == u.data[..n][..n - 1];
      assert t.changed[..n - 1] == t.changed[..n][..n - 1] && u.changed[..n - 1] == u.changed[..n][..n - 1];
      assert t.changedRow[..n - 1] == t.changedRow[..n][..n - 1] && u.changedRow[..n - 1] == u.changedRow[..n][..n - 1];
      BatchPrefix(table, schema, t, u, n - 1);
      assert t.data[n - 1] == t.data[..n][n - 1];
      assert t.changed[n - 1] == t.changed[..n][n - 1];
      assert t.changedRow[n - 1] == t.changedRow[..n][n - 1];
    }
  }

  /**
   * A row that is appended and then marked for deletion before a save adds
   * nothing to the batch: the flags CREATED and DELETED cancel out.
   */
  lemma {:induction false} AppendThenDeleteCancels(table: string, schema: seq<SchemaColumn>, t: Tracker, c: nat, v: Value)
    requires |schema| > 0 && Shaped(t, |schema|) && c < |Layout(schema)|
    requires schema[SchemaIndexOf(schema, c)].isDeleteBtn
    ensures var a := Append(t, DefaultRow(schema));
      var d := Write(a, schema, |t.data|, c, v).state;
      Shaped(d, |schema|) && Compile(table, schema, d) == Compile(table, schema, t)
  {
    var n := |t.data|;
    AppendCreates(t, schema);
    var a := Append(t, DefaultRow(schema));
    WriteDeleteToggles(a, schema, n, c, v);
    var d := Write(a, schema, n, c, v).state;
    DeleteCreatedRow(table, schema, a, n, c, v);
    assert RowStatements(table, schema, d.data[n], d.changedRow[n], d.changed[n]) == Some([]);
    assert d.data[..n] == t.data[..n] && d.changed[..n] == t.changed[..n] && d.changedRow[..n] == t.changedRow[..n];
    BatchPrefix(table, schema, t, d, n);
    ThenNothing(Batch(table, schema, d, n));
  }

  /** Appending no statements to a batch leaves it as it was. */
  lemma {:induction false} ThenNothing(b: Option<seq<Statement>>)
    ensures Then(b, Some([])) == b
  {
    if b.Some? {
      assert b.value + [] == b.value;
    }
  }

  /**
   * Deleting a row that was appended and not yet deleted leaves both its
   * CREATED and DELETED bits set, so the row emits no statement at all.
   */
  lemma {:induction false} DeleteCreatedRow(table: string, schema: seq<SchemaColumn>, t: Tracker, r: nat, c: nat, v: Value)
    requires |schema| > 0 && Shaped(t, |schema|) && r < |t.data| && c < |Layout(schema)|
    requires schema[SchemaIndexOf(schema, c)].isDeleteBtn
    requires Has(t.changedRow[r], CREATED) && !Has(t.changedRow[r], DELETED)
    ensures var u := Write(t, schema, r, c, v).state;
      && Shaped(u, |schema|)
      && Has(u.changedRow[r], CREATED) && Has(u.changedRow[r], DELETED)
      && RowStatements(table, schema, u.data[r], u.changedRow[r], u.changed[r]) == Some([])
  {
    WriteDeleteToggles(t, schema, r, c, v);
    var f, g := t.changedRow[r], Write(t, schema, r, c, v).state.changedRow[r];
    assert g & CREATED == f & CREATED;
  }
}
