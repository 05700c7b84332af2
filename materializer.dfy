/**
 * The row materializer: one flat result row of the planned SELECT is split
 * into one value group per schema column by walking the column map left to
 * right. A change of mapped index closes the current group and starts the
 * next one (the walk counts schema columns up by one, whatever the map says).
 */
module Materializer {
  import opened Common
  import opened Planner

  /**
   * The walk over the rest of a row: `curr` is the schema column being
   * collected, `acc` its values so far, `out` the groups already closed.
   */
  function Walk(row: seq<Value>, toSchema: seq<nat>, curr: nat, acc: seq<Value>, out: seq<seq<Value>>): seq<seq<Value>>
    requires |row| <= |toSchema|
    decreases |row|
  {
    if |row| == 0 then out + [acc]
    else if toSchema[0] == curr then Walk(row[1..], toSchema[1..], curr, acc + [row[0]], out)
    else Walk(row[1..], toSchema[1..], curr + 1, [row[0]], out + [acc])
  }

  /** The groups of one row, or None when the row is longer than the map (an IndexError). */
  function Regroup(row: seq<Value>, toSchema: seq<nat>): Option<seq<seq<Value>>>
  {
    if |row| > |toSchema| then None else Some(Walk(row, toSchema, 0, [], []))
  }

  /** Every result row fits the map (no IndexError while regrouping). */
  predicate RowsFit(rows: seq<seq<Value>>, toSchema: seq<nat>)
  {
    forall i :: 0 <= i < |rows| ==> |rows[i]| <= |toSchema|
  }

  /** A row as the models store it: each group as a list. */
  function GroupRow(groups: seq<seq<Value>>): (r: seq<Value>)
    ensures |r| == |groups| && forall k :: 0 <= k < |groups| ==> r[k] == List(groups[k])
  {
    seq(|groups|, k requires 0 <= k < |groups| => List(groups[k]))
  }

  /** The inner loop of the load: regroup one flat row; `ok` is false when the map runs out. */
  method RegroupRow(row: seq<Value>, toSchema: seq<nat>) returns (groups: seq<seq<Value>>, ok: bool)
    ensures ok <==> Regroup(row, toSchema).Some?
    ensures ok ==> groups == Regroup(row, toSchema).value
  {
    groups := [];
    var curr: nat := 0;
    var acc: seq<Value> := [];
    var i := 0;
    while i < |row|
      invariant 0 <= i <= |row| && i <= |toSchema|
      invariant |row| <= |toSchema| ==> Walk(row[i..], toSchema[i..], curr, acc, groups) == Walk(row, toSchema, 0, [], [])
    {
      if i == |toSchema| {
        return [], false;
      }
      assert row[i..][1..] == row[i + 1..] && toSchema[i..][1..] == toSchema[i + 1..];
      if toSchema[i] == curr {
        acc := acc + [row[i]];
      } else {
        groups := groups + [acc];
        curr := curr + 1;
        acc := [row[i]];
      }
      i := i + 1;
    }
    groups := groups + [acc];
    ok := true;
  }

  /** The sum of counts[from..]. */
  function Sum(counts: seq<nat>, from: nat): nat
    decreases |counts| - from
  {
    if from >= |counts| then 0 else counts[from] + Sum(counts, from + 1)
  }

  /** The map that gives column j a run of counts[j] entries, for j from `from` on. */
  function Runs(counts: seq<nat>, from: nat): seq<nat>
    decreases |counts| - from
  {
    if from >= |counts| then [] else Repeat(from, counts[from]) + Runs(counts, from + 1)
  }

  /** A row cut into consecutive pieces of the given lengths. */
  function Chunks(row: seq<Value>, counts: seq<nat>, from: nat): seq<seq<Value>>
    requires |row| == Sum(counts, from)
    decreases |counts| - from
  {
    if from >= |counts| then [] else [row[..counts[from]]] + Chunks(row[counts[from]..], counts, from + 1)
  }

  lemma {:induction false} RunsLength(counts: seq<nat>, from: nat)
    ensures |Runs(counts, from)| == Sum(counts, from)
    decreases |counts| - from
  {
    if from < |counts| {
      RunsLength(counts, from + 1);
    }
  }

  /** Cutting a row into chunks loses nothing and gives each piece its count. */
  lemma {:induction false} ChunksShape(row: seq<Value>, counts: seq<nat>, from: nat)
    requires from <= |counts| && |row| == Sum(counts, from)
    ensures |Chunks(row, counts, from)| == |counts| - from
    ensures forall k :: 0 <= k < |counts| - from ==> |Chunks(row, counts, from)[k]| == counts[from + k]
    ensures Concat(Chunks(row, counts, from)) == row
    decreases |counts| - from
  {
    if from < |counts| {
      var rest := row[counts[from]..];
      ChunksShape(rest, counts, from + 1);
      var c := Chunks(row, counts, from);
      assert c[1..] == Chunks(rest, counts, from + 1);
      assert row == row[..counts[from]] + rest;
    }
  }

  /**
   * The walk in the middle of column `curr` (k entries of its run still
   * ahead) finishes the current group with the next k values and then cuts
   * the rest of the row into the following columns' chunks.
   */
  lemma {:induction false} WalkChunks(r: seq<Value>, m: seq<nat>, counts: seq<nat>, curr: nat, k: nat, acc: seq<Value>, out: seq<seq<Value>>)
    requires curr < |counts|
    requires forall j :: 0 <= j < |counts| ==> counts[j] >= 1
    requires m == Repeat(curr, k) + Runs(counts, curr + 1)
    requires |acc| + k == counts[curr]
    requires |r| == |m|
    ensures |r| == k + Sum(counts, curr + 1)
    ensures Walk(r, m, curr, acc, out) == out + [acc + r[..k]] + Chunks(r[k..], counts, curr + 1)
    decreases |r|
  {
    RunsLength(counts, curr + 1);
    if k > 0 {
      assert m[0] == curr;
      assert m[1..] == Repeat(curr, k - 1) + Runs(counts, curr + 1);
      WalkChunks(r[1..], m[1..], counts, curr, k - 1, acc + [r[0]], out);
      assert acc + [r[0]] + r[1..][..k - 1] == acc + r[..k];
      assert r[1..][k - 1..] == r[k..];
    } else if curr + 1 == |counts| {
      assert m == [] && r == [];
      assert acc + r[..0] == acc && r[0..] == [];
      assert Chunks(r[0..], counts, curr + 1) == [];
    } else {
      var n := counts[curr + 1];
      assert m == Repeat(curr + 1, n) + Runs(counts, curr + 2);
      assert m[0] == curr + 1;
      assert m[1..] == Repeat(curr + 1, n - 1) + Runs(counts, curr + 2);
      WalkChunks(r[1..], m[1..], counts, curr + 1, n - 1, [r[0]], out + [acc]);
      assert [r[0]] + r[1..][..n - 1] == r[..n];
      assert r[1..][n - 1..] == r[n..];
      assert r[..0] == [] && r[0..] == r;
      assert |r| > 0;
      assert Walk(r, m, curr, acc, out) == Walk(r[1..], m[1..], curr + 1, [r[0]], out + [acc]);
      assert Chunks(r, counts, curr + 1) == [r[..n]] + Chunks(r[n..], counts, curr + 2);
      assert acc + r[..0] == acc;
    }
  }

  /**
   * Materializer round trip: on a map of non-empty consecutive runs, a row of
   * matching width is cut into exactly one group per run, of the run's
   * length, and the groups concatenate back to the row.
   */
  lemma {:induction false} RegroupRuns(row: seq<Value>, counts: seq<nat>)
    requires |counts| > 0 && forall j :: 0 <= j < |counts| ==> counts[j] >= 1
    requires |row| == Sum(counts, 0)
    ensures Regroup(row, Runs(counts, 0)) == Some(Chunks(row, counts, 0))
    ensures |Chunks(row, counts, 0)| == |counts|
    ensures forall k :: 0 <= k < |counts| ==> |Chunks(row, counts, 0)[k]| == counts[k]
    ensures Concat(Chunks(row, counts, 0)) == row
  {
    var m := Runs(counts, 0);
    RunsLength(counts, 0);
    assert m == Repeat(0, counts[0]) + Runs(counts, 1);
    WalkChunks(row, m, counts, 0, counts[0], [], []);
    assert [] + row[..counts[0]] == row[..counts[0]];
    assert Walk(row, m, 0, [], []) == [row[..counts[0]]] + Chunks(row[counts[0]..], counts, 1);
    assert Chunks(row, counts, 0) == [row[..counts[0]]] + Chunks(row[counts[0]..], counts, 1);
    ChunksShape(row, counts, 0);
  }

  /** The number of selected columns each schema column owns. */
  function Counts(schema: seq<SchemaColumn>): (r: seq<nat>)
    ensures |r| == |schema| && forall j :: 0 <= j < |schema| ==> r[j] == Arity(schema[j])
  {
    seq(|schema|, j requires 0 <= j < |schema| => Arity(schema[j]))
  }

  lemma {:induction false} RunsAppend(counts: seq<nat>, x: nat, from: nat)
    requires from <= |counts|
    ensures Runs(counts + [x], from) == Runs(counts, from) + Repeat(|counts|, x)
    decreases |counts| - from
  {
    if from < |counts| {
      RunsAppend(counts, x, from + 1);
      assert (counts + [x])[from] == counts[from];
    } else {
      assert Runs(counts + [x], from + 1) == [];
    }
  }

  /** The planner's map is the run map of the schema's arities. */
  lemma {:induction false} ColumnMapIsRuns(schema: seq<SchemaColumn>)
    ensures ColumnMap(schema) == Runs(Counts(schema), 0)
  {
    if |schema| > 0 {
      var p := schema[..|schema| - 1];
      ColumnMapIsRuns(p);
      assert Counts(schema) == Counts(p) + [Arity(schema[|schema| - 1])];
      RunsAppend(Counts(p), Arity(schema[|schema| - 1]), 0);
    }
  }

  /**
   * A row of the SELECT list's width regroups into one group per schema
   * column, holding that column's id, display and auxiliary values in order;
   * the groups concatenate back to the row.
   */
  lemma {:induction false} LoadedRowShape(schema: seq<SchemaColumn>, row: seq<Value>)
    requires |schema| > 0 && NoDeleteColumn(schema)
    requires |row| == |SelectList(schema)|
    ensures Regroup(row, ColumnMap(schema)).Some?
    ensures var g := Regroup(row, ColumnMap(schema)).value;
      && |g| == |schema|
      && (forall k :: 0 <= k < |schema| ==> |g[k]| == Arity(schema[k]))
      && Concat(g) == row
  {
    ColumnMapIsRuns(schema);
    ColumnMapSteps(schema);
    RunsLength(Counts(schema), 0);
    RegroupRuns(row, Counts(schema));
  }
}
