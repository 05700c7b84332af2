/**
 * What the grids show for one cell: the text or value for the display and
 * edit roles, and the background brush that marks deleted, created, updated
 * and read-only cells. Both table models share the text rules; the editor
 * colours cells from its change flags, the desktop grid only greys out the
 * read-only columns.
 */
module CellView {
  import opened Common
  import opened Planner
  import opened ChangeTracker

  datatype Role = DisplayRole | EditRole | BackgroundRole | OtherRole

  datatype Brush = Brush(red: int, green: int, blue: int)

  /**
   * A cell's answer: an empty variant, a value, the foreign-key editor
   * payload (the stored id and its schema column), or a background brush.
   */
  datatype Shown =
    | Nothing
    | Shown(v: Value)
    | FkEditor(id: Value, column: SchemaColumn)
    | Paint(brush: Brush)

  /** `display_format.format(*values)`; None when formatting raises. */
  type Format = (string, seq<Value>) -> Option<string>

  /** How a row or cell is marked, in the order the background checks it. */
  datatype Mark = DeletedRow | CreatedRow | UpdatedCell | Untouched

  const DeletedLocked := Brush(0xbc, 0x54, 0x4b)
  const DeletedOpen := Brush(0xff, 0x00, 0x00)
  const CreatedLocked := Brush(0x3d, 0xed, 0x97)
  const CreatedOpen := Brush(0x99, 0xed, 0xc3)
  const UpdatedLocked := Brush(0x99, 0xbf, 0x00)
  const UpdatedOpen := Brush(0xdf, 0xff, 0x00)
  const Locked := Brush(0xe6, 0xe6, 0xe6)

  /** A Python value or the exception it raised, as a cell answer. */
  function Answer(v: Option<Value>): (r: Option<Shown>)
    ensures r.Some? <==> v.Some?
    ensures v.Some? ==> r.value == Shown(v.value)
  {
    if v.Some? then Some(Shown(v.value)) else None
  }

  /**
   * The display (edit == false) or edit (edit == true) answer for displayed
   * column c of a row; None when indexing or formatting the stored group
   * raises.
   */
  function CellText(schema: seq<SchemaColumn>, row: seq<Value>, c: nat, edit: bool, format: Format): Option<Shown>
    requires |row| == |schema| && c < |Layout(schema)|
  {
    LayoutWellFormed(schema);
    var d := Layout(schema)[c];
    var col := schema[d.schemaIndex];
    var raw := row[d.schemaIndex];
    if col.fk.Some? then
      var shown := col.DisplayCount();
      if d.aux.Some? then
        Answer(Index(raw, 1 + shown + d.aux.value))
      else if edit then
        var id := Index(raw, 0);
        if id.Some? then Some(FkEditor(id.value, col)) else None
      else
        var args := Slice(raw, 1, shown + 1);
        if args.None? then None
        else
          var text := format(col.fk.value.displayFormat, args.value);
          if text.Some? then Some(Shown(Text(text.value))) else None
    else if col.isDeleteBtn && !edit then
      Some(Shown(Text("Delete")))
    else
      Answer(Index(raw, 0))
  }

  /**
   * The mark a cell shows: a deleted row wins over a created row, which wins
   * over the cell's own updated bit.
   */
  function CellMark(rowFlag: Flags, cellFlag: Flags): (m: Mark)
    ensures m == DeletedRow <==> Has(rowFlag, DELETED)
    ensures m == CreatedRow <==> Has(rowFlag, CREATED) && !Has(rowFlag, DELETED)
    ensures m == UpdatedCell <==> Has(cellFlag, UPDATED) && !Has(rowFlag, CREATED) && !Has(rowFlag, DELETED)
  {
    if Has(rowFlag, DELETED) then DeletedRow
    else if Has(rowFlag, CREATED) then CreatedRow
    else if Has(cellFlag, UPDATED) then UpdatedCell
    else Untouched
  }

  /** The brush for a mark, a darker tone for read-only columns; an editable untouched cell has none. */
  function Shade(m: Mark, locked: bool): Shown
  {
    match m
    case DeletedRow => Paint(if locked then DeletedLocked else DeletedOpen)
    case CreatedRow => Paint(if locked then CreatedLocked else CreatedOpen)
    case UpdatedCell => Paint(if locked then UpdatedLocked else UpdatedOpen)
    case Untouched => if locked then Paint(Locked) else Nothing
  }

  /** Every mark and lock state has its own colour, so the background tells them apart. */
  lemma {:induction false} ShadeDistinct(m1: Mark, l1: bool, m2: Mark, l2: bool)
    requires Shade(m1, l1) == Shade(m2, l2)
    ensures m1 == m2 && l1 == l2
  {
    match m1
    case DeletedRow =>
    case CreatedRow =>
    case UpdatedCell =>
    case Untouched =>
  }

  /**
   * The editor's background for row r, displayed column c: the row flag and
   * the cell flag read at the column's SCHEMA index.
   */
  function EditorBackground(t: Tracker, schema: seq<SchemaColumn>, r: nat, c: nat): Shown
    requires Shaped(t, |schema|) && r < |t.data| && c < |Layout(schema)|
  {
    Shade(CellMark(t.changedRow[r], t.changed[r][SchemaIndexOf(schema, c)]), !IsEditable(schema, c))
  }

  /** The editor's `data(index, role)`; None when the answer raises. */
  function EditorData(t: Tracker, schema: seq<SchemaColumn>, r: nat, c: nat, role: Role, format: Format): Option<Shown>
    requires Shaped(t, |schema|) && r < |t.data| && c < |Layout(schema)|
  {
    match role
    case DisplayRole => CellText(schema, t.data[r], c, false, format)
    case EditRole => CellText(schema, t.data[r], c, true, format)
    case BackgroundRole => Some(EditorBackground(t, schema, r, c))
    case OtherRole => Some(Nothing)
  }

  /** The desktop grid's background: grey for read-only columns, nothing otherwise. */
  function DesktopBackground(schema: seq<SchemaColumn>, c: nat): Shown
  {
    if IsEditable(schema, c) then Nothing else Paint(Locked)
  }

  /** The desktop grid's `data(index, role)` for a row; its schema has no delete column. */
  function DesktopData(schema: seq<SchemaColumn>, row: seq<Value>, c: nat, role: Role, format: Format): Option<Shown>
    requires |row| == |schema| && c < |Layout(schema)|
  {
    match role
    case DisplayRole => CellText(schema, row, c, false, format)
    case EditRole => CellText(schema, row, c, true, format)
    case BackgroundRole => Some(DesktopBackground(schema, c))
    case OtherRole => Some(Nothing)
  }

  /**
   * Where each value of a row shows up. Schema column i is displayed at
   * DisplayedPosition(schema, i): a plain column shows the first value of its
   * group, the delete column the word "Delete" (its marker when edited), a
   * foreign-key column the formatted display values (its id when edited).
   * Its auxiliary value a shows at AuxPosition(schema, i, a), taken from the
   * group after the id and the display values.
   */
  lemma {:induction false} CellTextAtPositions(schema: seq<SchemaColumn>, row: seq<Value>, i: nat, format: Format)
    requires |row| == |schema| && i < |schema|
    ensures DisplayedPosition(schema, i) < |Layout(schema)|
    ensures var p, col, raw := DisplayedPosition(schema, i), schema[i], row[i];
      && (col.fk.None? && !col.isDeleteBtn ==>
            CellText(schema, row, p, false, format) == Answer(Index(raw, 0))
            && CellText(schema, row, p, true, format) == Answer(Index(raw, 0)))
      && (col.fk.None? && col.isDeleteBtn ==>
            CellText(schema, row, p, false, format) == Some(Shown(Text("Delete")))
            && CellText(schema, row, p, true, format) == Answer(Index(raw, 0)))
      && (col.fk.Some? && Index(raw, 0).Some? ==>
            CellText(schema, row, p, true, format) == Some(FkEditor(Index(raw, 0).value, col)))
      && (col.fk.Some? && raw.List? && col.DisplayCount() < |raw.items| ==>
            var text := format(col.fk.value.displayFormat, raw.items[1..col.DisplayCount() + 1]);
            CellText(schema, row, p, false, format) == if text.Some? then Some(Shown(Text(text.value))) else None)
    ensures forall a :: 0 <= a < schema[i].AuxCount() ==>
      AuxPosition(schema, i, a) < |Layout(schema)|
      && CellText(schema, row, AuxPosition(schema, i, a), false, format)
         == Answer(Index(row[i], 1 + schema[i].DisplayCount() + a))
  {
    LayoutInterleaving(schema, i);
    LayoutWellFormed(schema);
  }

  /**
   * Every cell of a freshly appended row shows the created colour (the row
   * was not deleted yet), the darker tone in read-only columns.
   */
  lemma {:induction false} AppendedRowShowsCreated(t: Tracker, schema: seq<SchemaColumn>, c: nat)
    requires Shaped(t, |schema|) && c < |Layout(schema)|
    ensures var a := Append(t, DefaultRow(schema));
      Shaped(a, |schema|) && |t.data| < |a.data|
      && EditorBackground(a, schema, |t.data|, c) == Paint(if IsEditable(schema, c) then CreatedOpen else CreatedLocked)
  {
    AppendCreates(t, schema);
    assert Has(CREATED, CREATED) && !Has(CREATED, DELETED);
  }

  /**
   * Toggling the delete column of row r paints every cell of that row in
   * the deleted colour when the row was not deleted, and leaves every other
   * row's background as it was.
   */
  lemma {:induction false} DeleteToggleShows(t: Tracker, schema: seq<SchemaColumn>, r: nat, c: nat, v: Value, q: nat, d: nat)
    requires Shaped(t, |schema|) && r < |t.data| && c < |Layout(schema)|
    requires schema[SchemaIndexOf(schema, c)].isDeleteBtn
    requires q < |t.data| && d < |Layout(schema)|
    ensures var u := Write(t, schema, r, c, v).state;
      && Shaped(u, |schema|)
      && (q == r && !Has(t.changedRow[r], DELETED) ==>
            EditorBackground(u, schema, q, d) == Paint(if IsEditable(schema, d) then DeletedOpen else DeletedLocked))
      && (q != r ==> EditorBackground(u, schema, q, d) == EditorBackground(t, schema, q, d))
  {
    WriteDeleteToggles(t, schema, r, c, v);
  }

  /**
   * Before any edit every cell looks as it does in the desktop grid: grey
   * in the read-only columns, no brush elsewhere.
   */
  lemma {:induction false} CleanShowsNoMarks(t: Tracker, schema: seq<SchemaColumn>, r: nat, c: nat)
    requires Shaped(t, |schema|) && Clean(t) && r < |t.data| && c < |Layout(schema)|
    ensures EditorBackground(t, schema, r, c) == DesktopBackground(schema, c)
  {
    var s := SchemaIndexOf(schema, c);
    assert t.changedRow[r] == NONE && t.changed[r][s] == NONE;
    assert !Has(NONE, DELETED) && !Has(NONE, CREATED) && !Has(NONE, UPDATED);
  }

  /**
   * The editor stores an edited value as the whole group, so a plain
   * column afterwards shows the value's first element: a list's first item,
   * a text's first character, and an error for a number.
   */
  lemma {:induction false} EditedPlainCellShows(t: Tracker, schema: seq<SchemaColumn>, r: nat, i: nat, v: Value, format: Format)
    requires Shaped(t, |schema|) && r < |t.data| && i < |schema|
    requires schema[i].fk.None? && !schema[i].isDeleteBtn
    ensures DisplayedPosition(schema, i) < |Layout(schema)|
    ensures var p := DisplayedPosition(schema, i); var u := Write(t, schema, r, p, v).state;
      && Shaped(u, |schema|) && r < |u.data|
      && CellText(schema, u.data[r], p, false, format) == Answer(Index(v, 0))
      && CellText(schema, u.data[r], p, true, format) == Answer(Index(v, 0))
      && (v.Text? && |v.s| > 0 ==> CellText(schema, u.data[r], p, false, format) == Some(Shown(Text([v.s[0]]))))
      && (v.Int? ==> CellText(schema, u.data[r], p, false, format).None?)
  {
    LayoutInterleaving(schema, i);
    var p := DisplayedPosition(schema, i);
    assert SchemaIndexOf(schema, p) == i;
    WriteStores(t, schema, r, p, v);
    var u := Write(t, schema, r, p, v).state;
    CellTextAtPositions(schema, u.data[r], i, format);
  }

  /**
   * An edit of a column that has auxiliary columns before it leaves the
   * edited cell unmarked: `update` sets the UPDATED bit at the displayed
   * index, `data` reads the bit at the schema index, and the two differ
   * there. When the displayed index is past the row's flags the edit
   * raises instead.
   */
  lemma {:induction false} EditBehindAuxStaysUnmarked(t: Tracker, schema: seq<SchemaColumn>, r: nat, i: nat, v: Value)
    requires Shaped(t, |schema|) && Clean(t) && r < |t.data| && i < |schema|
    requires !schema[i].isDeleteBtn && TotalAux(schema[..i]) > 0
    ensures DisplayedPosition(schema, i) < |Layout(schema)|
    ensures var p := DisplayedPosition(schema, i); var o := Write(t, schema, r, p, v);
      && Shaped(o.state, |schema|)
      && o.state.data[r][i] == v
      && EditorBackground(o.state, schema, r, p) == EditorBackground(t, schema, r, p)
      && (o.raised <==> p >= |schema|)
  {
    LayoutInterleaving(schema, i);
    var p := DisplayedPosition(schema, i);
    assert SchemaIndexOf(schema, p) == i;
    WriteStores(t, schema, r, p, v);
    WriteRowFlagCases(t, schema, r, p, v);
    var o := Write(t, schema, r, p, v);
    assert o.state.changed[r][i] == t.changed[r][i];
    assert t.changedRow[r] == NONE && t.changed[r][i] == NONE;
    assert !Has(NONE | UPDATED, DELETED) && !Has(NONE | UPDATED, CREATED) && !Has(NONE, DELETED) && !Has(NONE, CREATED);
  }
}
