/**
 * The CREATE TABLE and truncate statements of the database layer: a column
 * definition renders as its name, its type and its constraints separated by
 * spaces; a table's statement lists its column definitions and then its
 * table constraints, one per line.
 */
module Ddl {
  import opened Common

  datatype ColumnDefinition = ColumnDefinition(name: string, dataType: string, constraints: seq<string>)

  /** A table with everything resolved: its name, its columns and its extra DDL clauses. */
  datatype TableDef = TableDef(name: string, columns: seq<ColumnDefinition>, clauses: seq<string>)

  /**
   * A subclass of `BaseTable`: which of `table_name`, `_columns` and
   * `_ddl_clauses` it overrides (None: the base class's version).
   */
  datatype TableClass = TableClass(tableName: Option<string>, columns: Option<seq<ColumnDefinition>>, ddlClauses: Option<seq<string>>)

  /** `BaseTable` itself: nothing overridden. */
  const BaseTable := TableClass(None, None, None)

  /**
   * The table a class describes: the base `table_name` and `_columns` raise
   * (None); the base `_ddl_clauses` is the empty list.
   */
  function Resolve(c: TableClass): (t: Option<TableDef>)
    ensures t.Some? <==> c.tableName.Some? && c.columns.Some?
    ensures t.Some? ==> t.value.name == c.tableName.value && t.value.columns == c.columns.value
    ensures t.Some? && c.ddlClauses.None? ==> t.value.clauses == []
    ensures t.Some? && c.ddlClauses.Some? ==> t.value.clauses == c.ddlClauses.value
  {
    if c.tableName.None? || c.columns.None? then None
    else Some(TableDef(c.tableName.value, c.columns.value, if c.ddlClauses.Some? then c.ddlClauses.value else []))
  }

  /** Each constraint preceded by a space. */
  function Spaced(constraints: seq<string>): (r: seq<string>)
    ensures |r| == |constraints| && forall k :: 0 <= k < |r| ==> r[k] == " " + constraints[k]
  {
    seq(|constraints|, k requires 0 <= k < |constraints| => " " + constraints[k])
  }

  /** `ColumnDefinition.__str__`. */
  function ColumnText(col: ColumnDefinition): string
  {
    col.name + " " + col.dataType + Concat(Spaced(col.constraints))
  }

  /** Each constraint added at the end renders after the ones before it. */
  lemma {:induction false} ColumnTextAppend(name: string, dataType: string, constraints: seq<string>, c: string)
    ensures ColumnText(ColumnDefinition(name, dataType, constraints + [c]))
         == ColumnText(ColumnDefinition(name, dataType, constraints)) + " " + c
  {
    assert Spaced(constraints + [c]) == Spaced(constraints) + [" " + c];
    ConcatAppend(Spaced(constraints), " " + c);
  }

  /** A column without constraints renders as exactly its name and type. */
  lemma {:induction false} BareColumnText(name: string, dataType: string)
    ensures ColumnText(ColumnDefinition(name, dataType, [])) == name + " " + dataType
  {
  }

  function ColumnTexts(columns: seq<ColumnDefinition>): (r: seq<string>)
    ensures |r| == |columns| && forall k :: 0 <= k < |columns| ==> r[k] == ColumnText(columns[k])
  {
    seq(|columns|, k requires 0 <= k < |columns| => ColumnText(columns[k]))
  }

  /** The lines of the statement's body: column definitions first, then the clauses. */
  function Parts(t: TableDef): seq<string>
  {
    ColumnTexts(t.columns) + t.clauses
  }

  /**
   * The inputs for which the closed form below is exactly what
   * `textwrap.dedent` and `strip` make of the template: no line break inside
   * the name or a part, at least one part (dedent would empty the body line
   * of a table with none), and a last part that is not blank (dedent would
   * empty a blank last line).
   */
  predicate Dedentable(t: TableDef)
  {
    var parts := Parts(t);
    && '\n' !in t.name
    && |parts| > 0
    && (forall k :: 0 <= k < |parts| ==> '\n' !in parts[k])
    && !Blank(parts[|parts| - 1])
  }

  /** Only spaces and tabs: the lines `textwrap.dedent` empties. */
  predicate Blank(s: string)
  {
    forall j :: 0 <= j < |s| ==> s[j] == ' ' || s[j] == '\t'
  }

  const Head := "CREATE TABLE IF NOT EXISTS "

  /**
   * `_schema`: the template with its common six-space margin removed and
   * the surrounding blank lines stripped, so the parts sit on their own
   * lines indented by two spaces.
   */
  function SchemaText(t: TableDef): string
  {
    (Head + t.name + " (") + "\n" + ("  " + Join(",\n  ", Parts(t))) + "\n" + ");"
  }

  /** The statement `truncate` executes. */
  function TruncateText(name: string): (r: string)
    ensures |r| == |name| + 13 && r[..12] == "DELETE FROM " && r[12..|r| - 1] == name && r[|r| - 1] == ';'
  {
    "DELETE FROM " + name + ";"
  }

  /** `_schema` of a table class: it raises (None) when the class does not name its table and columns. */
  function Schema(c: TableClass): (r: Option<string>)
    ensures r.Some? <==> Resolve(c).Some?
    ensures r.Some? ==> r.value == SchemaText(Resolve(c).value)
  {
    match Resolve(c)
    case None => None
    case Some(t) => Some(SchemaText(t))
  }

  /** `truncate`'s statement for a table class; it raises (None) when the class does not name its table. */
  function Truncate(c: TableClass): (r: Option<string>)
    ensures r.Some? <==> c.tableName.Some?
    ensures r.Some? ==> r.value == TruncateText(c.tableName.value)
  {
    if c.tableName.Some? then Some(TruncateText(c.tableName.value)) else None
  }

  /** `s.split("\n")`. */
  function Lines(s: string): (r: seq<string>)
    ensures |r| >= 1
    decreases |s|
  {
    if |s| == 0 then [""]
    else
      var rest := Lines(s[1..]);
      if s[0] == '\n' then [""] + rest else [[s[0]] + rest[0]] + rest[1..]
  }

  lemma {:induction false} LinesNoBreak(s: string)
    requires '\n' !in s
    ensures Lines(s) == [s]
    decreases |s|
  {
    if |s| > 0 {
      assert '\n' !in s[1..] by {
        forall j | 0 <= j < |s[1..]| ensures s[1..][j] != '\n' { assert s[1..][j] == s[j + 1]; }
      }
      LinesNoBreak(s[1..]);
      assert [s[0]] + s[1..] == s;
    }
  }

  /** Splitting at a line break splits the text before it and the text after it. */
  lemma {:induction false} LinesBreak(a: string, b: string)
    ensures Lines(a + "\n" + b) == Lines(a) + Lines(b)
    decreases |a|
  {
    var s := a + "\n" + b;
    if |a| == 0 {
      assert s[1..] == b;
    } else {
      assert s[1..] == a[1..] + "\n" + b;
      LinesBreak(a[1..], b);
    }
  }

  /** A character other than a line break added at the end joins the last line. */
  lemma {:induction false} LinesSnoc(s: string, ch: char)
    requires ch != '\n'
    ensures var l := Lines(s); Lines(s + [ch]) == l[..|l| - 1] + [l[|l| - 1] + [ch]]
    decreases |s|
  {
    if |s| == 0 {
      assert s + [ch] == [ch] && [ch][1..] == "";
      assert Lines([ch]) == [[ch] + ""];
      assert [ch] + "" == [ch] == "" + [ch];
    } else {
      assert (s + [ch])[1..] == s[1..] + [ch];
      LinesSnoc(s[1..], ch);
      var l, t := Lines(s), Lines(s[1..]);
      var n := |t|;
      if s[0] == '\n' {
        assert l == [""] + t;
        assert l[..|l| - 1] == [""] + t[..n - 1];
      } else if n == 1 {
        assert l == [[s[0]] + t[0]];
        assert [s[0]] + (t[0] + [ch]) == ([s[0]] + t[0]) + [ch];
      } else {
        assert l == [[s[0]] + t[0]] + t[1..];
        assert l[..|l| - 1] == [[s[0]] + t[0]] + t[1..n - 1];
      }
    }
  }

  /** The body lines: each part indented by two spaces, every one but the last followed by a comma. */
  function BodyLines(parts: seq<string>): (r: seq<string>)
    ensures |r| == |parts|
  {
    seq(|parts|, k requires 0 <= k < |parts| => "  " + parts[k] + (if k + 1 < |parts| then "," else ""))
  }

  lemma {:induction false} BodySplits(parts: seq<string>)
    requires |parts| > 0 && forall k :: 0 <= k < |parts| ==> '\n' !in parts[k]
    ensures Lines("  " + Join(",\n  ", parts)) == BodyLines(parts)
    decreases |parts|
  {
    var n := |parts|;
    var x := parts[n - 1];
    IndentedLine(x);
    if n == 1 {
      assert parts == [x];
      JoinSingle(",\n  ", x);
      assert BodyLines(parts) == ["  " + x];
    } else {
      var init := parts[..n - 1];
      assert init + [x] == parts;
      var y := "  " + Join(",\n  ", init);
      JoinIndented(init, x);
      LinesBreak(y + [','], "  " + x);
      BodySplits(init);
      LinesSnoc(y, ',');
      BodyLinesSnoc(init, x);
    }
  }

  /** A part without a line break, indented, is one line. */
  lemma {:induction false} IndentedLine(x: string)
    requires '\n' !in x
    ensures Lines("  " + x) == ["  " + x]
    ensures BodyLines([x]) == ["  " + x]
  {
    assert '\n' !in "  " + x by {
      forall j | 0 <= j < |"  " + x| ensures ("  " + x)[j] != '\n' {
        if j >= 2 { assert ("  " + x)[j] == x[j - 2]; }
      }
    }
    LinesNoBreak("  " + x);
    assert "  " + x + "" == "  " + x;
  }

  /** Joining one more part: the text so far gets its comma, then a line break and the indented part. */
  lemma {:induction false} JoinIndented(init: seq<string>, x: string)
    requires |init| > 0
    ensures "  " + Join(",\n  ", init + [x]) == (("  " + Join(",\n  ", init)) + [',']) + "\n" + ("  " + x)
  {
    JoinAppend(",\n  ", init, x);
  }

  /** One more part: the previous last line gets its comma and the new part follows. */
  lemma {:induction false} BodyLinesSnoc(init: seq<string>, x: string)
    requires |init| > 0
    ensures var l := BodyLines(init);
      BodyLines(init + [x]) == l[..|l| - 1] + [l[|l| - 1] + [',']] + ["  " + x]
  {
    var l := BodyLines(init);
    var m := BodyLines(init + [x]);
    var n := |init|;
    assert "  " + x + "" == "  " + x;
    assert m[n] == "  " + x;
    assert m[n - 1] == "  " + init[n - 1] + "," == l[n - 1] + [','];
    assert m[..n - 1] == l[..n - 1];
  }

  lemma {:induction false} HeadLine(name: string)
    requires '\n' !in name
    ensures Lines(Head + name + " (") == [Head + name + " ("]
  {
    assert '\n' !in Head;
    LinesNoBreak(Head + name + " (");
  }

  /**
   * The statement splits into exactly these lines: the CREATE TABLE line,
   * one line per column definition and then per clause, in order, and the
   * closing line.
   */
  lemma {:induction false} SchemaLines(t: TableDef)
    requires Dedentable(t)
    ensures Lines(SchemaText(t)) == [Head + t.name + " ("] + BodyLines(Parts(t)) + [");"]
  {
    var first := Head + t.name + " (";
    var body := "  " + Join(",\n  ", Parts(t));
    assert SchemaText(t) == first + "\n" + (body + "\n" + ");");
    LinesBreak(first, body + "\n" + ");");
    LinesBreak(body, ");");
    HeadLine(t.name);
    LinesNoBreak(");");
    BodySplits(Parts(t));
  }

  /** The surrogate key every table starts with. */
  function Key(name: string): (col: ColumnDefinition)
    ensures ColumnText(col) == name + " SERIAL PRIMARY KEY"
  {
    var col := ColumnDefinition(name, "SERIAL", ["PRIMARY KEY"]);
    ColumnTextAppend(name, "SERIAL", [], "PRIMARY KEY");
    assert [] + ["PRIMARY KEY"] == ["PRIMARY KEY"];
    col
  }

  /** A foreign-key table constraint, as the tables spell theirs. */
  function ForeignKey(name: string, column: string, table: string, refColumn: string): string
  {
    "CONSTRAINT " + name + " FOREIGN KEY(" + column + ") REFERENCES " + table + "(" + refColumn + ")"
  }

  const ModelTable := TableClass(Some("model"), Some( [
    Key("model_id"),
    ColumnDefinition("label", "TEXT", []),
    ColumnDefinition("type_id", "INTEGER", ["NOT NULL"]),
    ColumnDefinition("speed", "FLOAT", ["NOT NULL"])]), None)

  const VehicleTable := TableClass(Some("vehicle"), Some( [
    Key("vehicle_id"),
    ColumnDefinition("label", "TEXT", []),
    ColumnDefinition("model_id", "INTEGER", ["NOT NULL"]),
    ColumnDefinition("owner_id", "INTEGER", [])]),
    Some([ForeignKey("fk_vehicle_model", "model_id", "model", "model_id")]))

  const HubTable := TableClass(Some("hub"), Some( [
    Key("hub_id"),
    ColumnDefinition("label", "TEXT", []),
    ColumnDefinition("posX", "FLOAT", ["NOT NULL"]),
    ColumnDefinition("posY", "FLOAT", ["NOT NULL"])]), None)

  const PathTable := TableClass(Some("path"), Some( [
    Key("path_id"),
    ColumnDefinition("start_hub_id", "INTEGER", ["NOT NULL"]),
    ColumnDefinition("end_hub_id", "INTEGER", ["NOT NULL"])]),
    Some([ForeignKey("fk_path_start_hub", "start_hub_id", "hub", "hub_id"),
          ForeignKey("fk_path_end_hub", "end_hub_id", "hub", "hub_id")]))

  const MovementTable := TableClass(Some("movement"), Some( [
    Key("movement_id"),
    ColumnDefinition("ts", "BIGINT", ["NOT NULL"]),
    ColumnDefinition("vehicle_id", "INTEGER", ["NOT NULL"]),
    ColumnDefinition("path_id", "INTEGER", ["NOT NULL"])]),
    Some([ForeignKey("fk_movement_vehicle", "vehicle_id", "vehicle", "vehicle_id"),
          ForeignKey("fk_movement_path", "path_id", "path", "path_id")]))

  /** A resolved table whose first column renders as its name followed by SERIAL PRIMARY KEY. */
  predicate KeyedFirst(c: TableClass)
  {
    && Resolve(c).Some?
    && |Resolve(c).value.columns| > 0
    && var first := Resolve(c).value.columns[0];
       ColumnText(first) == first.name + " SERIAL PRIMARY KEY"
  }

  /** Every table of the database starts with its surrogate key; the base class names no table. */
  lemma {:induction false} TablesStartWithKey()
    ensures KeyedFirst(ModelTable) && KeyedFirst(VehicleTable) && KeyedFirst(HubTable)
    ensures KeyedFirst(PathTable) && KeyedFirst(MovementTable)
    ensures Resolve(BaseTable).None? && Truncate(BaseTable).None?
  {
  }
}
