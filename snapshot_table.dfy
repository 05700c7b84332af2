/**
 * The example grid model that tracks edits against a snapshot: the rows
 * shown, the rows as last saved, and one "changed" flag per cell. `update`
 * flags a cell by comparing the new value with the snapshot, `reset` goes
 * back to the snapshot, `save` makes the current rows the snapshot.
 * Rows may have different lengths; an index past a row raises.
 */
module SnapshotModel {
  import opened Common
  import opened CellView

  datatype Sheet = Sheet(data: seq<seq<Value>>, snapshot: seq<seq<Value>>, changed: seq<seq<bool>>)

  /** One flag per cell of every row. */
  predicate Shaped(s: Sheet)
  {
    && |s.changed| == |s.data|
    && (forall r :: 0 <= r < |s.data| ==> |s.changed[r]| == |s.data[r]|)
  }

  /** `_resetChanged()`: a false flag for every cell of the rows. */
  function Unflagged(data: seq<seq<Value>>): (f: seq<seq<bool>>)
    ensures |f| == |data| && forall r :: 0 <= r < |data| ==> f[r] == Repeat(false, |data[r]|)
  {
    seq(|data|, r requires 0 <= r < |data| => Repeat(false, |data[r]|))
  }

  /**
   * The snapshot value `update` compares with: present only when the row is
   * in the snapshot and the column is within the snapshot's first row (and
   * within the row itself).
   */
  function Baseline(s: Sheet, r: nat, c: nat): Option<Value>
  {
    if r < |s.snapshot| && |s.snapshot| > 0 && c < |s.snapshot[0]| && c < |s.snapshot[r]| then Some(s.snapshot[r][c]) else None
  }

  /** The constructor: data and snapshot are copies of the rows, nothing flagged. */
  function Initial(rows: seq<seq<Value>>): (s: Sheet)
    ensures s.data == rows && s.snapshot == rows && Shaped(s)
    ensures forall r, c :: 0 <= r < |s.changed| && 0 <= c < |s.changed[r]| ==> !s.changed[r][c]
  {
    Sheet(rows, rows, Unflagged(rows))
  }

  /**
   * `update(r, c, value)`: None when it raises, which happens before any
   * change (reading a snapshot row shorter than its first row, or writing
   * past the end of row r).
   */
  function UpdateSheet(s: Sheet, r: nat, c: nat, v: Value): Option<Sheet>
    requires Shaped(s) && r < |s.data|
  {
    if r < |s.snapshot| && c < |s.snapshot[0]| && c >= |s.snapshot[r]| then None
    else if c >= |s.data[r]| then None
    else Some(Sheet(s.data[r := s.data[r][c := v]], s.snapshot, s.changed[r := s.changed[r][c := Differs(Baseline(s, r, c), v)]]))
  }

  /** `reset`: back to the snapshot, nothing flagged. */
  function ResetSheet(s: Sheet): Sheet
  {
    Sheet(s.snapshot, s.snapshot, Unflagged(s.snapshot))
  }

  /** `save`: the rows become the snapshot, nothing flagged. */
  function SaveSheet(s: Sheet): Sheet
  {
    Sheet(s.data, s.data, Unflagged(s.data))
  }

  /** `appendRow(row)`: the row is added with every cell flagged. */
  function AppendSheet(s: Sheet, row: seq<Value>): Sheet
  {
    Sheet(s.data + [row], s.snapshot, s.changed + [Repeat(true, |row|)])
  }

  /**
   * What the flags mean: every row in the snapshot has the snapshot row's
   * length and rows past the snapshot were appended; a cell that is not
   * flagged holds a value Python finds equal to its saved value; and a cell
   * whose saved value `update` can read and which is not None is flagged
   * exactly when Python finds it different from that value.
   */
  predicate Tracks(s: Sheet)
  {
    && Shaped(s)
    && |s.snapshot| <= |s.data|
    && (forall r :: 0 <= r < |s.snapshot| ==> |s.data[r]| == |s.snapshot[r]|)
    && (forall r, c :: 0 <= r < |s.data| && 0 <= c < |s.data[r]| && !s.changed[r][c] ==>
          r < |s.snapshot| && PyEq(s.snapshot[r][c], s.data[r][c]))
    && (forall r, c :: 0 <= r < |s.data| && 0 <= c < |s.data[r]| && Baseline(s, r, c).Some? && Baseline(s, r, c).value != Null ==>
          (s.changed[r][c] <==> !PyEq(Baseline(s, r, c).value, s.data[r][c])))
  }

  lemma {:induction false} InitialTracks(rows: seq<seq<Value>>)
    ensures Tracks(Initial(rows))
  {
    forall r, c | 0 <= r < |rows| && 0 <= c < |rows[r]| ensures PyEq(rows[r][c], rows[r][c]) {
      PyEqReflexive(rows[r][c]);
    }
  }

  /**
   * Under the invariant an update raises exactly when the column is past the
   * row's end; otherwise it changes cell (r, c) of the data and of the flags
   * and nothing else, and keeps the invariant.
   */
  lemma {:induction false} UpdateTracks(s: Sheet, r: nat, c: nat, v: Value)
    requires Tracks(s) && r < |s.data|
    ensures UpdateSheet(s, r, c, v).Some? <==> c < |s.data[r]|
    ensures var o := UpdateSheet(s, r, c, v);
      o.Some? ==>
        && Tracks(o.value)
        && o.value.snapshot == s.snapshot
        && |o.value.data| == |s.data|
        && o.value.data[r][c] == v
        && o.value.changed[r][c] == Differs(Baseline(s, r, c), v)
        && (forall q, k :: 0 <= q < |s.data| && 0 <= k < |s.data[q]| && (q, k) != (r, c) ==>
              o.value.data[q][k] == s.data[q][k] && o.value.changed[q][k] == s.changed[q][k])
  {
    var o := UpdateSheet(s, r, c, v);
    if o.Some? {
      var u := o.value;
      assert forall q, k :: Baseline(u, q, k) == Baseline(s, q, k);
    }
  }

  /** Writing the saved value back into a cell clears its highlight, unless that value is None. */
  lemma {:induction false} WriteBackClears(s: Sheet, r: nat, c: nat, v: Value)
    requires Tracks(s) && r < |s.data| && c < |s.data[r]|
    requires r < |s.snapshot| && c < |s.snapshot[0]|
    ensures c < |s.snapshot[r]|
    ensures var u1 := UpdateSheet(s, r, c, v);
      u1.Some? && UpdateSheet(u1.value, r, c, s.snapshot[r][c]).Some?
      && var u2 := UpdateSheet(u1.value, r, c, s.snapshot[r][c]).value;
      u2.changed[r][c] == (s.snapshot[r][c] == Null)
  {
    UpdateTracks(s, r, c, v);
    var u1 := UpdateSheet(s, r, c, v).value;
    UpdateTracks(u1, r, c, s.snapshot[r][c]);
    PyEqReflexive(s.snapshot[r][c]);
  }

  /** After a reset the rows equal the snapshot and nothing is highlighted; a second reset changes nothing. */
  lemma {:induction false} ResetIdempotent(s: Sheet)
    ensures ResetSheet(s).data == s.snapshot && ResetSheet(s).snapshot == s.snapshot
    ensures Tracks(ResetSheet(s))
    ensures forall r, c :: 0 <= r < |ResetSheet(s).changed| && 0 <= c < |ResetSheet(s).changed[r]| ==> !ResetSheet(s).changed[r][c]
    ensures ResetSheet(ResetSheet(s)) == ResetSheet(s)
  {
    InitialTracks(s.snapshot);
    assert ResetSheet(s) == Initial(s.snapshot);
  }

  /** A save followed straight away by a reset keeps the rows that were saved. */
  lemma {:induction false} SaveThenReset(s: Sheet)
    ensures SaveSheet(s).snapshot == s.data && Tracks(SaveSheet(s))
    ensures ResetSheet(SaveSheet(s)) == SaveSheet(s)
    ensures ResetSheet(SaveSheet(s)).data == s.data
  {
    InitialTracks(s.data);
    assert SaveSheet(s) == Initial(s.data);
  }

  /** Appending keeps the invariant and the existing rows; the new row is fully highlighted. */
  lemma {:induction false} AppendTracks(s: Sheet, row: seq<Value>)
    requires Tracks(s)
    ensures var a := AppendSheet(s, row);
      && Tracks(a)
      && |a.data| == |s.data| + 1
      && a.data[..|s.data|] == s.data && a.changed[..|s.data|] == s.changed
      && a.data[|s.data|] == row
      && (forall c :: 0 <= c < |row| ==> a.changed[|s.data|][c])
  {
    var a := AppendSheet(s, row);
    assert a.data[..|s.data|] == s.data;
    assert a.changed[..|s.data|] == s.changed;
    assert forall q, k :: Baseline(a, q, k) == Baseline(s, q, k);
  }

  /** The highlight colour of a changed cell. */
  const Highlight := Brush(223, 255, 0)

  /**
   * `data(index, role)` for a sheet; None when the column is past the row's
   * end. Under the invariant, a cell without the highlight shows a value
   * equal to its saved value under Python's `==`, and a cell with a
   * readable, non-None saved value is highlighted exactly when it differs
   * from it.
   */
  function Data(s: Sheet, r: nat, c: nat, role: Role): (o: Option<Shown>)
    requires Shaped(s) && r < |s.data|
    ensures o.None? <==> c >= |s.data[r]| && (role.DisplayRole? || role.EditRole? || role.BackgroundRole?)
    ensures c < |s.data[r]| && (role.DisplayRole? || role.EditRole?) ==> o == Some(Shown(s.data[r][c]))
    ensures c < |s.data[r]| && role.BackgroundRole? ==> o == Some(Nothing) || o == Some(Paint(Highlight))
    ensures Tracks(s) && c < |s.data[r]| && role.BackgroundRole? ==>
      && (o == Some(Nothing) ==> r < |s.snapshot| && PyEq(s.snapshot[r][c], s.data[r][c]))
      && (Baseline(s, r, c).Some? && Baseline(s, r, c).value != Null ==>
            (o == Some(Paint(Highlight)) <==> !PyEq(Baseline(s, r, c).value, s.data[r][c])))
  {
    match role
    case DisplayRole => if c < |s.data[r]| then Some(Shown(s.data[r][c])) else None
    case EditRole => if c < |s.data[r]| then Some(Shown(s.data[r][c])) else None
    case BackgroundRole => if c < |s.data[r]| then Some(if s.changed[r][c] then Paint(Highlight) else Nothing) else None
    case OtherRole => Some(Nothing)
  }

  /** `flags`: every column but the first can be edited. */
  predicate Editable(c: nat)
  {
    c > 0
  }

  class SnapshotTable {
    var data: seq<seq<Value>>
    var snapshot: seq<seq<Value>>
    var changed: seq<seq<bool>>

    function State(): Sheet
      reads this
    {
      Sheet(data, snapshot, changed)
    }

    predicate Valid()
      reads this
    {
      Tracks(State())
    }

    constructor(rows: seq<seq<Value>>)
      ensures Valid() && State() == Initial(rows)
    {
      data := rows;
      snapshot := rows;
      changed := Unflagged(rows);
      InitialTracks(rows);
    }

    /** `rowCount`. */
    function RowCount(): (n: nat)
      reads this
      ensures n == |State().data|
    {
      |data|
    }

    /** `columnCount`: the length of the first row, or 0 when there is none. */
    function ColumnCount(): (n: nat)
      reads this
      ensures |data| == 0 ==> n == 0
      ensures |data| > 0 ==> n == |State().data[0]|
    {
      if |data| > 0 then |data[0]| else 0
    }

    /** `update(r, c, value)`; `raised` when it raises, and then nothing changed. */
    method Update(r: nat, c: nat, v: Value) returns (raised: bool)
      requires Valid() && r < |data|
      modifies this
      ensures Valid()
      ensures raised <==> UpdateSheet(old(State()), r, c, v).None?
      ensures State() == if raised then old(State()) else UpdateSheet(old(State()), r, c, v).value
    {
      UpdateTracks(State(), r, c, v);
      var previous: Option<Value> := None;
      if r < |snapshot| && c < |snapshot[0]| {
        if c >= |snapshot[r]| {
          return true;
        }
        previous := Some(snapshot[r][c]);
      }
      if c >= |data[r]| {
        return true;
      }
      data := data[r := data[r][c := v]];
      changed := changed[r := changed[r][c := Differs(previous, v)]];
      raised := false;
    }

    method Reset()
      requires Valid()
      modifies this
      ensures Valid() && State() == ResetSheet(old(State()))
    {
      ResetIdempotent(State());
      data := snapshot;
      changed := Unflagged(data);
    }

    method Save()
      requires Valid()
      modifies this
      ensures Valid() && State() == SaveSheet(old(State()))
    {
      SaveThenReset(State());
      snapshot := data;
      changed := Unflagged(data);
    }

    method AppendRow(row: seq<Value>)
      requires Valid()
      modifies this
      ensures Valid() && State() == AppendSheet(old(State()), row)
    {
      AppendTracks(State(), row);
      data := data + [row];
      var flags := [];
      var k := 0;
      while k < |row|
        invariant 0 <= k <= |row| && flags == Repeat(true, k)
      {
        flags := flags + [true];
        k := k + 1;
      }
      changed := changed + [flags];
    }
  }
}
