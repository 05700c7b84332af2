# transport-sim table models in Dafny

This project models the data layer of the transport-sim editor and desktop
viewer. That layer lets users browse and edit database tables in a grid.

**Foreign-key-aware table model.** The core is the model in
`editor/FkTableModel.py` and its read-only sibling in
`desktop/FkTableModel.py`. From a declarative column schema the model:

- plans one SELECT with its JOINs;
- cuts every flat result row into one value group per schema column;
- lays the groups out as displayed columns, with auxiliary sub-columns after
  their foreign-key column;
- tracks edits with UPDATED / CREATED / DELETED bit flags per row and per
  cell;
- compiles the flags into DELETE, INSERT and UPDATE statements on save.

**Smaller pieces, also modelled:**

- the snapshot-based example grid model (`desktop/examples/models.py`);
- the CREATE TABLE and truncate text of the database layer (`editor/db.py`);
- the star-rating widget's integer state and hit test
  (`desktop/examples/star_delegate.py`).

**Modules:**

| module | what it holds |
|---|---|
| `Common` | Python values and sequence helpers |
| `Planner` | the constructor's two loops, as methods proved equal to their specification functions |
| `Materializer` | the row walk of `_make_query` and its round trip |
| `ChangeTracker` | `update`, `appendRow` and `_resetChanged` as state transitions |
| `Statements` | `strip_table_name`, the three statement builders and `_flush_changes` |
| `CellView` | `data`, including the background colours |
| `EditorModel` and `DesktopModel` | the two table classes |
| `SnapshotModel` | the example grid model |
| `Ddl` | the DDL text |
| `StarDelegate` | `StarRating` and `StarEditor` |

**The database.** The database is never called. The rows a SELECT returns
are a parameter, and so is whether executing the statements succeeded. The
`display_format` string formatting is a parameter function, so it may fail.

**Where the code does something other than the evident intent, the model follows the code:**

- `update` reads the previous value at the displayed column index. It stores
  the new value as the whole group at the schema index. It sets the cell's
  UPDATED bit at the displayed index, but `data` reads that bit at the schema
  index. A str value stored as a group shows its first character.
  `CellView.EditedPlainCellShows` and `CellView.EditBehindAuxStaysUnmarked`
  state these effects.
- The INSERT lists every column after the id, the delete column included.
  The UPDATE and DELETE match on the schema's first column name as written,
  so a qualified id stays qualified in the WHERE clause.
- A cell is flagged by comparing the new value with the value it replaces,
  rather than with the value loaded from the database. The comparison is
  Python's `old is None or old != value`, so 1, 1.0 and True count as
  equal (`Common.PyEq`).
- In the example grid model, a None baseline always flags the cell.

## Model

| member | source | states |
|---|---|---|
| Common.PyEq | editor/FkTableModel.py:153 | Python's `==` on stored values: None only equals None, numbers of any type compare by value, strings and lists by content |
| Common.PyEqReflexive | editor/FkTableModel.py:153 | every value equals itself under Python's `==` |
| Common.PyEqSymmetric | editor/FkTableModel.py:153 | Python's `==` is symmetric on stored values |
| Common.PyEqAcrossTypes | editor/FkTableModel.py:153 | 1, 1.0 and True are equal, lists of them too; None is not 0 and "1" is not 1 |
| Common.Differs | desktop/examples/models.py:28 | `old is None or old != value`: a missing previous value, a stored None, or a value Python finds different |
| Planner.Arity | editor/FkTableModel.py:78-89 | a schema column owns 1 (0 for the delete column) + its display columns + its auxiliary columns SELECT entries, exactly the names it adds |
| Planner.SelectList | editor/FkTableModel.py:78-89 | the SELECT list: each column's id (the delete column has none), then its display columns, then its auxiliary columns; its properties are `Planner.Plan` and `Planner.ColumnMapSteps` |
| Planner.ColumnMap | editor/FkTableModel.py:78-89 | for each SELECT entry, the schema column that owns it; shape in `Planner.ColumnMapSteps`, runs in `Materializer.ColumnMapIsRuns` |
| Planner.JoinSet | editor/FkTableModel.py:86-89 | the JOIN clauses, one per foreign-key column, as a set; characterised by `Planner.JoinSetMembers` |
| Planner.Layout | editor/FkTableModel.py:91-100 | the displayed columns in order; characterised by `Planner.LayoutInterleaving` and `Planner.LayoutLength` |
| Planner.Uneditable | editor/FkTableModel.py:91-100 | position 0 and every auxiliary position are read-only; `Planner.EditablePositions` states what it means per column |
| Planner.Header | editor/FkTableModel.py:132-140 | the header label of a displayed column, as `Planner.HeaderAtPositions` states it per column |
| Planner.IsEditable | editor/FkTableModel.py:313-316 | `flags` allows editing exactly outside the uneditable positions |
| Planner.QueryText | editor/FkTableModel.py:110 | the SELECT text: the list joined with commas, the table, then each JOIN after a space, for any order that lists the JOIN set once |
| Planner.Enumerates | editor/FkTableModel.py:110 | iterating the JOIN set yields each clause once and nothing else |
| Planner.EnumerationLength | editor/FkTableModel.py:110 | an iteration of the set yields as many clauses as the set holds |
| Planner.QueryTextJoins | editor/FkTableModel.py:76-110 | in any iteration order the text holds every clause of the JOIN set after a space, as many clauses as the set has, and no JOIN when the set is empty |
| Planner.ColumnLayout | editor/FkTableModel.py:91-100 | a column contributes its own position followed by one position per auxiliary column, in order |
| Planner.Plan | editor/FkTableModel.py:72-89 | the first constructor loop builds exactly the SELECT list, the SELECT-to-schema map and the set of JOIN clauses of the schema |
| Planner.PlanColumn | editor/FkTableModel.py:79-89 | one column adds its id, display and auxiliary names, all mapped to its own index |
| Planner.PlanLayout | editor/FkTableModel.py:91-100 | the second loop builds exactly the layout and the uneditable set {0} plus every auxiliary position |
| Planner.PlanAuxColumns | editor/FkTableModel.py:96-100 | the inner loop appends one entry per auxiliary column and marks each new position uneditable |
| Planner.LayoutSnoc | editor/FkTableModel.py:91-100 | the layout of i+1 columns is the layout of i columns followed by column i's own entry and its auxiliary entries |
| Planner.AuxPositionsAppend | editor/FkTableModel.py:98-100 | appending an auxiliary entry adds exactly its position to the uneditable positions |
| Planner.LayoutWellFormed | editor/FkTableModel.py:91-100 | every layout entry names an existing schema column and, for a sub-column, one of its auxiliary columns |
| Planner.ColumnMapSteps | editor/FkTableModel.py:78-89 | the map is as long as the SELECT list, starts at 0, ends at the last column and steps by 0 or 1 |
| Planner.EditorSchemaPlan | editor/FkTableModel.py:70-89 | the appended delete column adds no SELECT entry, no map entry and no JOIN |
| Planner.EditorSchemaLayout | editor/FkTableModel.py:70-100 | the delete column is displayed exactly once, as the last column |
| Planner.JoinSetMembers | editor/FkTableModel.py:86-89 | the JOINs are exactly one clause per foreign-key column, with duplicates collapsed |
| Planner.LayoutLength | editor/FkTableModel.py:164-170 | the layout has one entry per schema column plus one per auxiliary column, which is what columnCount reports |
| Planner.LayoutPrefix | editor/FkTableModel.py:91-100 | the layout of a prefix of the schema is a prefix of the layout |
| Planner.LayoutInterleaving | editor/FkTableModel.py:91-100 | column i is shown at its displayed position and its auxiliary column a right after it, at the a-th following position |
| Planner.EditablePositions | editor/FkTableModel.py:313-316 | a column's own position is editable exactly when it is not column 0; auxiliary positions never are |
| Planner.HeaderAtPositions | editor/FkTableModel.py:132-140 | a column's own position shows its header and an auxiliary position the auxiliary column's header |
| Materializer.GroupRow | editor/FkTableModel.py:111-126 | a row is stored as one list per group, in order |
| Materializer.Walk | editor/FkTableModel.py:113-124 | the walk of `_make_query`: a change of mapped index closes the group; proved to cut a row into runs by `Materializer.WalkChunks` |
| Materializer.Regroup | editor/FkTableModel.py:111-124 | the groups of one result row, or failure when the row is longer than the map; `Materializer.RegroupRuns` is its round trip |
| Materializer.RegroupRow | editor/FkTableModel.py:111-124 | the inner loop of _make_query yields the groups of the walk, and fails exactly when the row is longer than the map |
| Materializer.RunsLength | editor/FkTableModel.py:78-89 | a run map has one entry per counted column value |
| Materializer.ChunksShape | editor/FkTableModel.py:111-124 | cutting a row into runs gives one piece per column, of its count, concatenating back to the row |
| Materializer.WalkChunks | editor/FkTableModel.py:113-124 | the walk finishes the current group and then cuts the rest of the row into the following columns' runs |
| Materializer.RegroupRuns | editor/FkTableModel.py:111-124 | on a map of non-empty runs, regrouping gives exactly the runs' chunks, which concatenate back to the row |
| Materializer.Counts | editor/FkTableModel.py:78-89 | one count per schema column, equal to its arity |
| Materializer.RunsAppend | editor/FkTableModel.py:78-89 | one more column extends the run map by its run |
| Materializer.ColumnMapIsRuns | editor/FkTableModel.py:78-89 | the planner's map is the run map of the columns' arities |
| Materializer.LoadedRowShape | editor/FkTableModel.py:107-126 | a result row of the SELECT's width regroups into one group per column, each of that column's arity, concatenating back to the row |
| ChangeTracker.LoadedRow | editor/FkTableModel.py:123-126 | a loaded row holds each group as a list and then the single delete marker |
| ChangeTracker.Loaded | editor/FkTableModel.py:107-126 | one loaded row per result row, each built from that row's walk |
| ChangeTracker.LoadRows | editor/FkTableModel.py:107-126 | the load loop builds exactly the loaded rows |
| ChangeTracker.ResetChangedClean | editor/FkTableModel.py:128-130 | after _resetChanged no flag is set and the flags are shaped like the rows |
| ChangeTracker.LoadedShape | editor/FkTableModel.py:107-126 | every loaded row has one group per user column, of that column's arity, then the delete marker |
| ChangeTracker.SchemaIndexOf | editor/FkTableModel.py:142-145 | a displayed column maps to an existing schema column |
| ChangeTracker.Write | editor/FkTableModel.py:142-156 | `update` as a transition; its effects are stated by `ChangeTracker.WriteStores`, `ChangeTracker.WriteFlags`, `ChangeTracker.WriteDeleteToggles` and the keep lemmas |
| ChangeTracker.ResetChanged | editor/FkTableModel.py:128-130 | every row and cell flag NONE, shaped like the rows; see `ChangeTracker.ResetChangedClean` |
| ChangeTracker.WriteDeleteToggles | editor/FkTableModel.py:142-156 | an edit of the delete column flips only the row's DELETED bit, touches no data, and two such edits cancel |
| ChangeTracker.WriteStores | editor/FkTableModel.py:142-156 | an edit of another column stores the value as the whole group at the schema index, changes no other cell, and raises exactly when the displayed index is past the row's flags |
| ChangeTracker.WriteFlags | editor/FkTableModel.py:142-156 | the cell flag at the displayed index c and the row flag get UPDATED OR'd in exactly when the group stored now at the displayed index c (not the group the write replaces at the schema index) is None or differs from the value under Python's `==`; otherwise no flag changes; no other cell flag of row r and no flag of another row changes |
| ChangeTracker.WriteKeepsCellFlags | editor/FkTableModel.py:151-156 | an edit never clears a bit of any cell flag |
| ChangeTracker.WriteKeepsRowFlags | editor/FkTableModel.py:146-156 | an edit clears no row bit except DELETED, which only the delete column touches |
| ChangeTracker.WriteRowFlagCases | editor/FkTableModel.py:146-156 | the row flags after an edit are unchanged, have UPDATED OR-ed in, or have DELETED toggled |
| ChangeTracker.RevertKeepsUpdated | editor/FkTableModel.py:142-156 | writing a different value and then the original back restores the data but leaves the cell and the row UPDATED |
| ChangeTracker.DefaultRow | editor/FkTableModel.py:234-245 | one default group per schema column |
| ChangeTracker.DefaultGroup | editor/FkTableModel.py:237-244 | a column's default value, then "" per display column and None per auxiliary column; see `ChangeTracker.DefaultRowShape` |
| ChangeTracker.Append | editor/FkTableModel.py:247-255 | `appendRow` as a transition; see `ChangeTracker.AppendCreates` |
| ChangeTracker.DefaultRowOf | editor/FkTableModel.py:234-245 | _default_row's loops build exactly the default row |
| ChangeTracker.DefaultRowShape | editor/FkTableModel.py:234-245 | a default row has each column's arity, starts each group with the column default, and ends with the delete marker |
| ChangeTracker.AppendCreates | editor/FkTableModel.py:247-255 | appending adds one row flagged CREATED with every cell CREATED and keeps earlier rows and flags |
| Statements.StripTableNameSuffix | editor/FkTableModel.py:62-63 | the stripped name is the text after the last dot, or the whole name when there is none |
| Statements.StripTableName | editor/FkTableModel.py:62-63 | `strip_table_name`; its meaning is `Statements.StripTableNameSuffix` |
| Statements.DeleteStatement | editor/FkTableModel.py:179-182 | DELETE by the first schema column's name as written and the row's id, or failure when the id group is empty |
| Statements.InsertStatement | editor/FkTableModel.py:184-192 | INSERT of every column after the id with each group's first value; built by `Statements.BuildInsert` |
| Statements.UpdateStatement | editor/FkTableModel.py:194-203 | UPDATE of the UPDATED cells, the id last; built by `Statements.BuildUpdate`, cells by `Statements.UpdatedCellsExact` |
| Statements.RowStatements | editor/FkTableModel.py:207-215 | the statements of one row, in the order DELETE, INSERT, UPDATE; built by `Statements.RowStatementsOf` |
| Statements.Batch | editor/FkTableModel.py:205-216 | the statements of the first n rows in row order, failing as soon as one row fails (`Statements.BatchFails`, `Statements.BatchPrefix`) |
| Statements.Compile | editor/FkTableModel.py:205-216 | every statement `_flush_changes` executes; built by `Statements.FlushChanges`, empty when clean (`Statements.CleanCompilesToNothing`) |
| Statements.StripUnqualified | editor/FkTableModel.py:62-63 | a name without a dot is kept as it is |
| Statements.StripQualified | editor/FkTableModel.py:62-63 | a table-qualified name loses its qualifier |
| Statements.Assignments | editor/FkTableModel.py:194-203 | one "name = ?" per updated column, in order |
| Statements.SlotZerosSpec | editor/FkTableModel.py:184-203 | the parameters exist exactly when every picked group has a first value, and are those values in order |
| Statements.Pick | editor/FkTableModel.py:184-203 | the picked groups are the row's groups at the given columns |
| Statements.Names | editor/FkTableModel.py:184-203 | the statement names the stripped column names of the picked columns |
| Statements.InsertColumns | editor/FkTableModel.py:184-192 | an INSERT covers every column after the id |
| Statements.UpdatedCellsExact | editor/FkTableModel.py:194-203 | the updated cells are exactly the UPDATED cells, in increasing order |
| Statements.BatchFails | editor/FkTableModel.py:205-220 | once building a row's statements raises, the whole batch fails |
| Statements.BuildInsert | editor/FkTableModel.py:184-192 | the INSERT loop builds exactly the specified INSERT, or fails when a group has no value |
| Statements.InsertColumnsSnoc | editor/FkTableModel.py:184-192 | one more column adds its index to the INSERT columns |
| Statements.PickSnoc | editor/FkTableModel.py:184-203 | one more picked column adds its name and first value |
| Statements.SlotZerosMissing | editor/FkTableModel.py:184-203 | a picked group with no value makes the statement fail |
| Statements.BuildUpdate | editor/FkTableModel.py:194-203 | the UPDATE loop builds exactly the specified UPDATE over the UPDATED cells with the id last |
| Statements.UpdateStep | editor/FkTableModel.py:197-201 | an UPDATED cell adds its name and value, any other cell nothing |
| Statements.UpdatedCellsSnoc | editor/FkTableModel.py:197-201 | one more cell joins the updated cells exactly when its UPDATED bit is set |
| Statements.UpdatedMissing | editor/FkTableModel.py:194-203 | an UPDATED cell with no value makes the UPDATE fail |
| Statements.FlushChanges | editor/FkTableModel.py:205-220 | the flush loop builds exactly the compiled batch, row by row |
| Statements.RowStatementsOf | editor/FkTableModel.py:208-218 | a row emits nothing when CREATED and DELETED, otherwise a DELETE, INSERT and UPDATE as flagged |
| Statements.CleanCompilesToNothing | editor/FkTableModel.py:205-220 | with no flag set, a save sends no statement |
| Statements.QuietRow | editor/FkTableModel.py:208-218 | a row with no flag emits nothing |
| Statements.BatchPrefix | editor/FkTableModel.py:205-220 | the statements of the first n rows depend only on those rows and their flags |
| Statements.AppendThenDeleteCancels | editor/FkTableModel.py:208-210 | a row appended and then deleted before saving adds nothing to the batch |
| Statements.DeleteCreatedRow | editor/FkTableModel.py:146-148 | deleting a CREATED row that is not yet deleted leaves both bits set, so the row emits no statement |
| CellView.CellMark | editor/FkTableModel.py:283-309 | a deleted row wins over a created row, which wins over an updated cell |
| CellView.Shade | editor/FkTableModel.py:290-309 | the brush for a mark, darker for read-only columns; distinct per case by `CellView.ShadeDistinct` |
| CellView.CellText | editor/FkTableModel.py:260-281 | the display and edit answers per kind of column; stated per position by `CellView.CellTextAtPositions` |
| CellView.EditorBackground | editor/FkTableModel.py:283-309 | the mark of the row flag and of the cell flag read at the schema index, shaded by lock state; see `CellView.CleanShowsNoMarks`, `CellView.DeleteToggleShows` |
| CellView.EditorData | editor/FkTableModel.py:257-311 | `data` by role: text for display and edit, the background brush, nothing for other roles |
| CellView.DesktopBackground | desktop/FkTableModel.py:186-192 | grey exactly for read-only columns |
| CellView.DesktopData | desktop/FkTableModel.py:165-192 | the desktop `data` by role, with the shared text rules; see `DesktopModel.AssignReadsBack` |
| CellView.ShadeDistinct | editor/FkTableModel.py:283-309 | every mark and lock state has its own colour |
| CellView.CellTextAtPositions | editor/FkTableModel.py:257-281 | a plain column shows its first value, the delete column "Delete", a foreign-key column its formatted display values (its id when edited), and an auxiliary column its own value |
| CellView.AppendedRowShowsCreated | editor/FkTableModel.py:283-309 | every cell of an appended row shows the created colour, darker when read-only |
| CellView.DeleteToggleShows | editor/FkTableModel.py:283-309 | deleting a row paints all its cells in the deleted colour and no other row changes |
| CellView.CleanShowsNoMarks | editor/FkTableModel.py:283-309 | with no flag set the editor's background equals the desktop grid's |
| CellView.EditedPlainCellShows | editor/FkTableModel.py:142-156 | after an edit a plain cell shows the value's first element: a text's first character, an error for a number |
| CellView.EditBehindAuxStaysUnmarked | editor/FkTableModel.py:142-156 | an edit of a column with auxiliary columns before it stores the value but leaves the cell's colour unchanged, or raises past the row's flags |
| EditorModel.EditorTable.constructor | editor/FkTableModel.py:69-105 | the table is planned for the user's columns plus the delete column, loaded, and has no flag set |
| EditorModel.EditorTable.RowCount | editor/FkTableModel.py:164-165 | the row count is the number of loaded rows |
| EditorModel.EditorTable.ColumnCount | editor/FkTableModel.py:167-170 | 0 without rows, otherwise every schema column plus every auxiliary column |
| EditorModel.EditorTable.Update | editor/FkTableModel.py:142-156 | the new state and the raised flag are those of the update transition |
| EditorModel.EditorTable.AppendRow | editor/FkTableModel.py:247-255 | the state becomes the old state with a CREATED default row appended |
| EditorModel.EditorTable.Reload | editor/FkTableModel.py:107-130 | the rows become the loaded result and every flag is cleared |
| EditorModel.EditorTable.Reset | editor/FkTableModel.py:172-177 | every edit is discarded: the rows are reloaded and no flag is set |
| EditorModel.EditorTable.Save | editor/FkTableModel.py:222-232 | the compiled statements are sent; on failure nothing changes, on success the rows are reloaded with no flag set |
| EditorModel.ReloadLeavesNothingToSave | editor/FkTableModel.py:222-232 | right after a load, reset or successful save, saving sends nothing |
| DesktopModel.Results | desktop/FkTableModel.py:85-103 | one stored row per result row |
| DesktopModel.LoadResults | desktop/FkTableModel.py:85-103 | the load loop builds exactly the regrouped rows, each group a list |
| DesktopModel.Assign | desktop/FkTableModel.py:118-128 | a list replaces the group; any other value goes into the group's first slot, and that raises unless the group is a non-empty list; nothing else changes |
| DesktopModel.DesktopTable.constructor | desktop/FkTableModel.py:50-83 | the table is planned with inner JOINs and no delete column, then loaded |
| DesktopModel.DesktopTable.RowCount | desktop/FkTableModel.py:138-139 | the number of result rows, each with one group per schema column |
| DesktopModel.DesktopTable.ColumnCount | desktop/FkTableModel.py:141-144 | 0 without rows, otherwise every schema column plus every auxiliary column |
| DesktopModel.DesktopTable.Update | desktop/FkTableModel.py:118-128 | the rows become the assignment's result, or stay as they were when it raises |
| DesktopModel.AssignReadsBack | desktop/FkTableModel.py:165-184 | a scalar written into a column's first slot reads back through data, as the id for a foreign-key column |
| DesktopModel.EditorRowsExtendDesktopRows | desktop/FkTableModel.py:85-103 | an editor row is the desktop row followed by the delete marker |
| SnapshotModel.Unflagged | desktop/examples/models.py:20-21 | one false flag per cell of every row |
| SnapshotModel.Initial | desktop/examples/models.py:14-18 | data and snapshot are the given rows and no cell is flagged |
| SnapshotModel.UpdateSheet | desktop/examples/models.py:23-28 | `update` as a transition, failing when an index raises; stated by `SnapshotModel.UpdateTracks` |
| SnapshotModel.ResetSheet | desktop/examples/models.py:44-48 | `reset`: back to the snapshot with no flag; see `SnapshotModel.ResetIdempotent` |
| SnapshotModel.SaveSheet | desktop/examples/models.py:50-54 | `save`: the rows become the snapshot with no flag; see `SnapshotModel.SaveThenReset` |
| SnapshotModel.AppendSheet | desktop/examples/models.py:56-61 | `appendRow`: the row added with every cell flagged; see `SnapshotModel.AppendTracks` |
| SnapshotModel.Tracks | desktop/examples/models.py:14-61 | the meaning of the flags, kept by every operation: an unflagged cell equals its saved value and a readable non-None saved value is flagged exactly when the cell differs |
| SnapshotModel.Editable | desktop/examples/models.py:74-77 | every column but the first can be edited |
| SnapshotModel.InitialTracks | desktop/examples/models.py:14-21 | a new model keeps the flag invariant |
| SnapshotModel.UpdateTracks | desktop/examples/models.py:23-28 | an update raises exactly past the row's end; otherwise only cell (r, c) changes, its flag is set exactly when the snapshot value is missing, None or different under Python's `==`, and the invariant holds |
| SnapshotModel.WriteBackClears | desktop/examples/models.py:23-28 | writing the snapshot value back clears the cell's flag, unless that value is None |
| SnapshotModel.ResetIdempotent | desktop/examples/models.py:44-48 | a reset restores the snapshot with no flag set, and a second reset changes nothing |
| SnapshotModel.SaveThenReset | desktop/examples/models.py:50-54 | a save makes the rows the snapshot, so a reset right after keeps them |
| SnapshotModel.AppendTracks | desktop/examples/models.py:56-61 | appending keeps earlier rows and flags, adds the row and flags all of its cells |
| SnapshotModel.Data | desktop/examples/models.py:63-72 | a cell shows its value; an unhighlighted cell equals its saved value under Python's `==`, and a cell with a readable, non-None saved value is highlighted exactly when it differs from it |
| SnapshotModel.SnapshotTable.constructor | desktop/examples/models.py:14-18 | the new object holds the initial sheet |
| SnapshotModel.SnapshotTable.RowCount | desktop/examples/models.py:36-37 | the number of rows |
| SnapshotModel.SnapshotTable.ColumnCount | desktop/examples/models.py:39-42 | the length of the first row, 0 without rows |
| SnapshotModel.SnapshotTable.Update | desktop/examples/models.py:23-28 | the state becomes the updated sheet, or is unchanged when the update raises |
| SnapshotModel.SnapshotTable.Reset | desktop/examples/models.py:44-48 | the state becomes the reset sheet |
| SnapshotModel.SnapshotTable.Save | desktop/examples/models.py:50-54 | the state becomes the saved sheet |
| SnapshotModel.SnapshotTable.AppendRow | desktop/examples/models.py:56-61 | the state becomes the sheet with the row appended and flagged |
| Ddl.Resolve | editor/db.py:67-76 | a table exists exactly when the class names its table and columns; clauses default to none |
| Ddl.Spaced | editor/db.py:63-65 | each constraint is preceded by one space |
| Ddl.ColumnText | editor/db.py:63-65 | `ColumnDefinition.__str__`; see `Ddl.ColumnTextAppend` and `Ddl.BareColumnText` |
| Ddl.SchemaText | editor/db.py:78-86 | the CREATE TABLE text; its lines are stated by `Ddl.SchemaLines` |
| Ddl.ForeignKey | editor/db.py:133-136 | a table's foreign-key constraint clause, as the tables write theirs |
| Ddl.ColumnTextAppend | editor/db.py:63-65 | each further constraint renders after the earlier ones, separated by a space |
| Ddl.BareColumnText | editor/db.py:63-65 | a column with no constraints renders as its name, a space and its type |
| Ddl.ColumnTexts | editor/db.py:79-81 | one rendered definition per column, in order |
| Ddl.Schema | editor/db.py:78-86 | the statement exists exactly when the table resolves, and is that table's CREATE TABLE text |
| Ddl.TruncateText | editor/db.py:101 | the statement is DELETE FROM, the table name and a semicolon |
| Ddl.Truncate | editor/db.py:98-104 | the truncate statement exists exactly when the class names its table |
| Ddl.LinesNoBreak | editor/db.py:78-86 | text without a line break is one line |
| Ddl.LinesBreak | editor/db.py:78-86 | splitting at a line break splits the two sides |
| Ddl.LinesSnoc | editor/db.py:78-86 | a character other than a line break extends the last line |
| Ddl.BodyLines | editor/db.py:79-84 | one body line per part |
| Ddl.BodySplits | editor/db.py:79-84 | the joined body splits into the parts, each indented by two spaces and all but the last followed by a comma |
| Ddl.IndentedLine | editor/db.py:79-84 | an indented part is one line |
| Ddl.JoinIndented | editor/db.py:79-84 | one more part adds a comma, a line break and the indented part |
| Ddl.BodyLinesSnoc | editor/db.py:79-84 | one more part gives the previous last line its comma |
| Ddl.HeadLine | editor/db.py:82-83 | the CREATE TABLE line is one line |
| Ddl.SchemaLines | editor/db.py:78-86 | the statement's lines are the CREATE TABLE line, one per column definition and then per clause, and the closing line |
| Ddl.Key | editor/db.py:115 | the key column renders as its name followed by SERIAL PRIMARY KEY |
| Ddl.TablesStartWithKey | editor/db.py:109-185 | every table's first column is its SERIAL PRIMARY KEY, and the base class resolves to no table |
| StarDelegate.FloorDiv | desktop/examples/star_delegate.py:100-101 | the quotient is rounded towards minus infinity |
| StarDelegate.StarRating.constructor | desktop/examples/star_delegate.py:29-31 | a rating holds the given count and maximum |
| StarDelegate.StarRating.Default | desktop/examples/star_delegate.py:29-31 | the default rating is one star out of five |
| StarDelegate.StarRating.SetStarCount | desktop/examples/star_delegate.py:63-64 | the count reads back as set and the maximum is kept |
| StarDelegate.StarRating.SetMaxStarCount | desktop/examples/star_delegate.py:66-67 | the maximum reads back as set and the count is kept |
| StarDelegate.StarRating.SizeHint | desktop/examples/star_delegate.py:54-55 | one scaled square high, and as wide as one square per possible star |
| StarDelegate.StarRating.Paint | desktop/examples/star_delegate.py:46-51 | one slot per possible star: a star exactly below the count, otherwise a diamond when editing and nothing when read-only |
| StarDelegate.StarAt | desktop/examples/star_delegate.py:100-104 | raises exactly on a zero divisor; otherwise -1 or a star in 1..max |
| StarDelegate.ScaledWidth | desktop/examples/star_delegate.py:100-101 | the size hint's width divided by the maximum is one square |
| StarDelegate.StarAtSquares | desktop/examples/star_delegate.py:100-104 | for a rating's own width, star k is hit exactly in the k-th 20-pixel square, -1 outside all squares, and a zero maximum raises |
| StarDelegate.StarEditor.constructor | desktop/examples/star_delegate.py:72-76 | a new editor holds a fresh default rating |
| StarDelegate.StarEditor.SetStarRating | desktop/examples/star_delegate.py:94-98 | the rating set is the one read back |
| StarDelegate.StarEditor.StarAtPosition | desktop/examples/star_delegate.py:100-104 | the hit test uses the edited rating's size hint and maximum |
| StarDelegate.StarEditor.MouseMove | desktop/examples/star_delegate.py:82-86 | a hit on a star sets the count to it, a miss keeps it, the maximum never changes, and a zero maximum raises |

## Left out

- The database: connecting, querying, committing and creating tables are not modelled. The rows a SELECT returns are a parameter, and so is whether executing the statements succeeded. The DDL text is not executed.
- The SELECT text: `Planner.QueryText` renders it for any order that lists each JOIN clause of the set once (`Planner.Enumerates`). Which such order a Python set yields is not modelled.
- EditorModel.EditorTable.Save: a reload that fails after the statements ran is not modelled. `_make_query` empties the rows before its query can raise, and `_resetChanged` is then skipped, so such a save leaves an empty grid with the old flag lists. A failed reload in `reset` empties the rows in the same way.
- Qt plumbing: signals, the begin/end reset notifications, `setData`'s role check, model indexes and the error callbacks are not modelled. `Planner.Header` is the horizontal display-role answer of `headerData`; the Qt default for other orientations and roles is not modelled.
- Python's `display_format.format(*values)` is a parameter function that may fail. Its string formatting is not modelled.
- The desktop model's `reset` and `save` do nothing, so they have no member. Its `appendRow` refers to an attribute the class does not have and always raises, so it has no member either. Its `headerData` and `flags` share the editor's rules (`Planner.Header`, `Planner.IsEditable`).
- The star polygons use cos/sin, and the painter calls draw them; neither is modelled. `StarDelegate.StarRating.Paint` records which shape each slot gets. `mouseReleaseEvent`, `paintEvent` and the `StarDelegate` item delegate are plumbing and are not modelled.
- Ddl.SchemaText: the closed form equals `textwrap.dedent(...).strip()` of the template only for inputs without line breaks in the name or the parts with at least one part (with no column and no clause, `textwrap.dedent` empties the body line, which the closed form keeps as two spaces), and with a non-blank last part. `Ddl.SchemaLines` is stated for exactly those inputs.
- `BaseTable.table_name()` and `BaseTable._columns()` raise an exception saying they are not implemented; `Ddl.Resolve` models that as `None`.
- The concrete tables' full CREATE TABLE texts are not spelled out as literals. Their column lists and clauses are modelled as values (`Ddl.ModelTable` and the others), and `Ddl.TablesStartWithKey` states their keys.
- Integer widths are unbounded. Python integers do not overflow, and star counts and pixel positions are Python ints.
- Aliasing is not modelled. `appendRow` in the example grid model stores the caller's list itself, and a later change to that list would show in the grid; the model stores a value. The rating handed to a star editor is modelled as a shared object.
- The vehicle schema that `editor/mainEditor.py` builds is not part of this model. Any schema is a parameter.
- Common.PyEq: every delete marker is treated as one object. In the editor `old` is a deep copy, so Python would find a stored marker different from any other marker; only a written value that contains a marker could show the difference.
- Common.PyEq: floats are modelled as reals, so NaN, infinities and rounding are not modelled.
