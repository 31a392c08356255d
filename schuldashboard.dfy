/**
 * CoronaSchuldashboard: collects the Corona figures of Schleswig-Holstein's
 * schools from the school dashboard's data interface into one CSV file per
 * dataset. Daily tables are flattened into (date, row label, column, value)
 * rows; weekly test counts become one row of three numbers per week. Each run
 * walks back from the current day or week to the last one the existing file
 * already holds, then appends the existing lines.
 *
 * The downloads are a parameter `fetch` from the request address to the JSON
 * object received (None where the server does not answer 200); the clock gives
 * the current day and calendar week; the existing file is given as its lines.
 */
module CoronaSchuldashboard {
  import opened Wrappers
  import opened Text
  import opened Json
  import opened Dates

  const CodeSchuleGeschlossen: string := "9ecdbfe5e3"
  const CodeSchuleBeeintraechtigt: string := "e38957a614"
  const CodeFaelleKreis: string := "7b869c37b7"
  const CodeFaelleSchulart: string := "9518e0539f"
  const CodeTestArt: string := "1f99d72f38"
  const CodeTestPositiv: string := "1b75fec02d"
  const CodeTestInSchule: string := "e9e1a89fb2"
  const EarliestDate: string := "2020-08-10"
  const EarliestWeek: string := "2021-W16"
  const ApiBase: string := "https://api.public.polyteia.de/data/"

  /** A flattened table: rows of (date, row label, column name, value). */
  type Flat = seq<seq<string>>

  // ---------------------------------------------------------------- tables

  /** One cell: getJSONObject(i).get("value").toString(). */
  function CellText(cell: Json): (r: Result<string>)
    ensures r.Ok? <==> cell.JObj? && "value" in cell.fields
    ensures r.Ok? ==> r.value == ToText(cell.fields["value"])
  {
    if !cell.JObj? then Err("JSONArray[i] is not a JSONObject.")
    else
      var v :- Get(cell.fields, "value");
      Ok(ToText(v))
  }

  /** readRow as a function of the cells. */
  function Cells(cells: seq<Json>): Result<seq<string>>
  {
    MapAll(cells, CellText)
  }

  /** readRow: the array of the cells' texts, filled one position at a time. */
  method ReadRow(cells: seq<Json>) returns (r: Result<seq<string>>)
    ensures r == Cells(cells)
    ensures r.Ok? ==> |r.value| == |cells|
  {
    var result := new string[|cells|];
    assert cells[..0] == [];
    for i := 0 to |cells|
      invariant Cells(cells[..i]) == Ok(result[..i])
    {
      var t := CellText(cells[i]);
      if t.Err? {
        assert cells[..i + 1][..i] == cells[..i];
        MapAllFailedPrefix(cells, i + 1, CellText);
        return Err(t.error);
      }
      MapAllStep(cells, i, CellText);
      result[i] := t.value;
      assert result[..i + 1] == result[..i] + [t.value];
    }
    assert cells[..|cells|] == cells;
    assert result[..] == result[..|cells|];
    r := Ok(result[..]);
  }

  /** A column's name: getJSONObject(i).getString("name"). */
  function ColumnName(column: Json): (r: Result<string>)
    ensures r.Ok? <==> column.JObj? && "name" in column.fields && column.fields["name"].JStr?
  {
    if !column.JObj? then Err("JSONArray[i] is not a JSONObject.")
    else GetString(column.fields, "name")
  }

  /** The names of all columns but the first, which labels the rows. */
  function ColumnNames(columns: seq<Json>): Result<seq<string>>
  {
    if |columns| <= 1 then Ok([]) else MapAll(columns[1..], ColumnName)
  }

  /** The loop of convertTable that collects the column names. */
  method ReadColumnNames(columns: seq<Json>) returns (r: Result<seq<string>>)
    ensures r == ColumnNames(columns)
    ensures r.Ok? ==> |r.value| == if |columns| <= 1 then 0 else |columns| - 1
  {
    var names: seq<string> := [];
    if |columns| <= 1 {
      return Ok([]);
    }
    var tail := columns[1..];
    MapAllEntries(tail, ColumnName);
    assert tail[..0] == [];
    for i := 1 to |columns|
      invariant MapAll(tail[..i - 1], ColumnName) == Ok(names)
    {
      var c := ColumnName(columns[i]);
      assert tail[i - 1] == columns[i];
      if c.Err? {
        assert tail[..i][..i - 1] == tail[..i - 1];
        MapAllFailedPrefix(tail, i, ColumnName);
        return Err(c.error);
      }
      MapAllStep(tail, i - 1, ColumnName);
      names := names + [c.value];
    }
    assert tail[..|columns| - 1] == tail;
    r := Ok(names);
  }

  /**
   * Whether a row is skipped: it has a "type" that is "summary". A "type" that
   * is there but is no string throws.
   */
  function Summary(row: Object): (r: Result<bool>)
    ensures "type" !in row ==> r == Ok(false)
    ensures "type" in row ==> (r.Ok? <==> row["type"].JStr?)
    ensures r.Ok? ==> (r.value <==> "type" in row && row["type"] == JStr("summary"))
  {
    if !Has(row, "type") then Ok(false)
    else
      var t :- GetString(row, "type");
      Ok(t == "summary")
  }

  /**
   * The rows one table row yields for its columns 1 .. j-1: one per column that
   * is not the ignored one, in column order.
   */
  function RowEntries(date: string, cells: seq<string>, names: seq<string>, ignore: string, j: nat): (r: Flat)
    requires 1 <= j <= |cells| && |cells| == |names| + 1
    ensures forall k :: 0 <= k < |r| ==>
      |r[k]| == 4 && r[k][0] == date && r[k][1] == cells[0] && r[k][2] in names[..j - 1] && r[k][2] != ignore
    ensures ignore !in names ==> |r| == j - 1
    decreases j
  {
    if j == 1 then []
    else
      var init := RowEntries(date, cells, names, ignore, j - 1);
      assert names[..j - 1] == names[..j - 2] + [names[j - 2]];
      init + if names[j - 2] == ignore then [] else [[date, cells[0], names[j - 2], cells[j - 1]]]
  }

  /** A row that is not a summary: its cells must match the columns, or the table is rejected. */
  function ConvertRow(date: string, row: Json, names: seq<string>, ignore: string, i: nat): (r: Result<Flat>)
    ensures row.JObj? && Summary(row.fields) == Ok(true) ==> r == Ok([])
    ensures (row.JObj? && Summary(row.fields) == Ok(false) && "cells" in row.fields && row.fields["cells"].JArr? &&
      Cells(row.fields["cells"].items).Ok?) ==>
        (r.Ok? <==> |Cells(row.fields["cells"].items).value| == |names| + 1)
    ensures r.Ok? ==> forall k :: 0 <= k < |r.value| ==>
      |r.value[k]| == 4 && r.value[k][0] == date && r.value[k][2] in names && r.value[k][2] != ignore
    ensures r.Ok? && ignore !in names ==> |r.value| == if row.JObj? && Summary(row.fields) == Ok(true) then 0 else |names|
  {
    if !row.JObj? then Err("JSONArray[i] is not a JSONObject.")
    else
      var skip :- Summary(row.fields);
      if skip then Ok([])
      else
        var cellsJson :- GetArray(row.fields, "cells");
        var cells :- Cells(cellsJson);
        if |cells| != |names| + 1 then Err("ungleiche Anzahl Spalten in in Reihe " + IntText(i + 1))
        else
          assert names[..|cells| - 1] == names;
          Ok(RowEntries(date, cells, names, ignore, |cells|))
  }

  /** The number of rows that are not summaries. */
  function DataRows(rows: seq<Json>): nat
  {
    if rows == [] then 0
    else
      var last := rows[|rows| - 1];
      DataRows(rows[..|rows| - 1]) +
        if last.JObj? && Summary(last.fields) == Ok(true) then 0 else 1
  }

  /** All rows in order, each row's entries after those of the rows before it. */
  function ConvertRows(date: string, rows: seq<Json>, names: seq<string>, ignore: string): (r: Result<Flat>)
    ensures r.Ok? ==> forall k :: 0 <= k < |r.value| ==>
      |r.value[k]| == 4 && r.value[k][0] == date && r.value[k][2] in names && r.value[k][2] != ignore
    ensures r.Ok? && ignore !in names ==> |r.value| == DataRows(rows) * |names|
  {
    if rows == [] then Ok([])
    else
      var n := |rows| - 1;
      var init :- ConvertRows(date, rows[..n], names, ignore);
      var last :- ConvertRow(date, rows[n], names, ignore, n);
      assert (DataRows(rows[..n]) + 1) * |names| == DataRows(rows[..n]) * |names| + |names|;
      Ok(init + last)
  }

  /**
   * convertTable as a function: no object, no table; otherwise the column
   * names, then every row that is not a summary.
   */
  function Table(date: string, json: Option<Object>, ignore: string): (r: Result<Option<Flat>>)
    ensures json.None? ==> r == Ok(None)
    ensures json.Some? && r.Ok? ==> r.value.Some?
    ensures r.Ok? && r.value.Some? ==> forall k :: 0 <= k < |r.value.value| ==>
      |r.value.value[k]| == 4 && r.value.value[k][0] == date && r.value.value[k][2] != ignore
  {
    if json.None? then Ok(None)
    else
      var columns :- GetArray(json.value, "columns");
      var names :- ColumnNames(columns);
      var rows :- GetArray(json.value, "rows");
      var table :- ConvertRows(date, rows, names, ignore);
      Ok(Some(table))
  }

  /** A row that cannot be converted rejects the whole table. */
  lemma {:induction false} AnyRowFails(date: string, rows: seq<Json>, names: seq<string>, ignore: string, k: nat)
    requires k < |rows| && ConvertRow(date, rows[k], names, ignore, k).Err?
    ensures ConvertRows(date, rows, names, ignore).Err?
  {
    var n := |rows| - 1;
    if k < n {
      assert rows[..n][k] == rows[k];
      AnyRowFails(date, rows[..n], names, ignore, k);
    }
  }

  /** The inner loop of convertTable: the entries of one row appended to the result. */
  method AddRowEntries(result: Flat, date: string, cells: seq<string>, names: seq<string>, ignore: string)
    returns (out: Flat)
    requires |cells| == |names| + 1
    ensures out == result + RowEntries(date, cells, names, ignore, |cells|)
  {
    out := result;
    for j := 1 to |cells|
      invariant out == result + RowEntries(date, cells, names, ignore, j)
    {
      var value := cells[j];
      var columnName := names[j - 1];
      if ignore != columnName {
        out := out + [[date, cells[0], columnName, value]];
      }
    }
  }

  /** convertTable: the loops over the columns, the rows and each row's cells. */
  method ConvertTable(date: string, json: Option<Object>, ignore: string) returns (r: Result<Option<Flat>>)
    ensures r == Table(date, json, ignore)
  {
    if json.None? {
      return Ok(None);
    }
    var columns := GetArray(json.value, "columns");
    if columns.Err? {
      return Err(columns.error);
    }
    var names := ReadColumnNames(columns.value);
    if names.Err? {
      return Err(names.error);
    }
    var rows := GetArray(json.value, "rows");
    if rows.Err? {
      return Err(rows.error);
    }
    var table := ConvertAllRows(date, rows.value, names.value, ignore);
    if table.Err? {
      return Err(table.error);
    }
    r := Ok(Some(table.value));
  }

  /** The loop of convertTable over the rows. */
  method ConvertAllRows(date: string, all: seq<Json>, names: seq<string>, ignore: string) returns (r: Result<Flat>)
    ensures r == ConvertRows(date, all, names, ignore)
  {
    var result: Flat := [];
    assert all[..0] == [];
    for i := 0 to |all|
      invariant ConvertRows(date, all[..i], names, ignore) == Ok(result)
    {
      assert all[..i + 1][..i] == all[..i];
      var row := all[i];
      var next := ConvertRow(date, row, names, ignore, i);
      if next.Err? {
        RowsFailWith(date, all, names, ignore, i);
        return Err(next.error);
      }
      ghost var before := result;
      if !(row.JObj? && Summary(row.fields) == Ok(true)) {
        DataRow(date, row, names, ignore, i);
        var cells := ReadRow(row.fields["cells"].items);
        result := AddRowEntries(result, date, cells.value, names, ignore);
      } else {
        assert next.value == [];
      }
      assert result == before + next.value;
      assert all[..i + 1][i] == row;
    }
    assert all[..|all|] == all;
    r := Ok(result);
  }

  /** A row converted without error that is no summary: its cells read, as many as the columns and the label. */
  lemma DataRow(date: string, row: Json, names: seq<string>, ignore: string, i: nat)
    requires ConvertRow(date, row, names, ignore, i).Ok?
    requires !(row.JObj? && Summary(row.fields) == Ok(true))
    ensures row.JObj? && "cells" in row.fields && row.fields["cells"].JArr?
    ensures var cells := Cells(row.fields["cells"].items);
      cells.Ok? && |cells.value| == |names| + 1 &&
      ConvertRow(date, row, names, ignore, i).value == RowEntries(date, cells.value, names, ignore, |cells.value|)
  {
  }

  /** The first row that fails decides the error of the whole table. */
  lemma {:induction false} RowsFailWith(date: string, rows: seq<Json>, names: seq<string>, ignore: string, i: nat)
    requires i < |rows| && ConvertRows(date, rows[..i], names, ignore).Ok?
    requires ConvertRow(date, rows[i], names, ignore, i).Err?
    ensures ConvertRows(date, rows, names, ignore) == Err(ConvertRow(date, rows[i], names, ignore, i).error)
    decreases |rows|
  {
    var n := |rows| - 1;
    var e := ConvertRow(date, rows[i], names, ignore, i).error;
    if i < n {
      assert ConvertRows(date, rows[..n], names, ignore) == Err(e) by {
        assert rows[..n][..i] == rows[..i];
        assert rows[..n][i] == rows[i];
        RowsFailWith(date, rows[..n], names, ignore, i);
      }
    } else {
      assert ConvertRows(date, rows[..n], names, ignore).Ok? by {
        assert rows[..n] == rows[..i];
      }
    }
  }

  // ---------------------------------------------------------------- test counts

  /** numberAtPosition: the "number" text of the entry, its first dot removed, read with NumberUtils.toInt. */
  function NumberAtPosition(data: seq<Json>, position: nat): (r: Result<int>)
    ensures r.Ok? <==> (position < |data| && data[position].JObj? &&
      "number" in data[position].fields && data[position].fields["number"].JStr?)
    ensures r.Ok? ==> IntMin <= r.value <= IntMax
  {
    if position >= |data| || !data[position].JObj? then Err("JSONArray[" + IntText(position) + "] is not a JSONObject.")
    else
      var number :- GetString(data[position].fields, "number");
      Ok(ToInt(Some(RemoveFirst(number, '.'))))
  }

  /** The value of digits followed by more digits. */
  lemma {:induction false} ValueAppend(a: string, b: string)
    requires AllDigits(a) && AllDigits(b)
    ensures AllDigits(a + b) && Value(a + b) == Value(a) * Power10(|b|) + Value(b)
  {
    if b != [] {
      var n := |b| - 1;
      var init := b[..n];
      var d := b[n] as int - 48;
      assert AllDigits(init) && IsDigit(b[n]);
      assert AllDigits(a + b) by {
        forall k | 0 <= k < |a + b| ensures IsDigit((a + b)[k]) {
          if k < |a| { assert (a + b)[k] == a[k]; } else { assert (a + b)[k] == b[k - |a|]; }
        }
      }
      assert (a + b)[..|a + b| - 1] == a + init && (a + b)[|a + b| - 1] == b[n];
      ValueAppend(a, init);
      assert Value(a + b) == Value(a + init) * 10 + d;
      assert Value(b) == Value(init) * 10 + d;
      ShiftDigit(Value(a), Power10(n), Value(init), d);
    } else {
      assert a + b == a;
    }
  }

  /** Shifting x * p + y one digit to the left and adding d. */
  lemma ShiftDigit(x: int, p: int, y: int, d: int)
    ensures (x * p + y) * 10 + d == x * (10 * p) + (y * 10 + d)
  {
    calc {
      (x * p + y) * 10 + d;
      x * p * 10 + y * 10 + d;
      x * (10 * p) + (y * 10 + d);
    }
  }

  function Power10(n: nat): nat
  {
    if n == 0 then 1 else 10 * Power10(n - 1)
  }

  /** Removing the first dot of digits, a dot and digits joins the two runs of digits. */
  lemma {:induction false} RemoveSeparator(a: string, b: string)
    requires '.' !in a
    ensures RemoveFirst(a + "." + b, '.') == a + b
  {
    if a != [] {
      assert (a + "." + b)[1..] == a[1..] + "." + b;
      RemoveSeparator(a[1..], b);
      assert [a[0]] + (a[1..] + b) == a + b;
    }
  }

  /**
   * A figure printed with a thousands separator, like "1.234", is read as the
   * number it stands for.
   */
  lemma Thousands(data: seq<Json>, position: nat, a: string, b: string)
    requires position < |data| && data[position] == JObj(map["number" := JStr(a + "." + b)])
    requires a != [] && AllDigits(a) && AllDigits(b) && |b| == 3
    requires Value(a) * 1000 + Value(b) <= IntMax
    ensures NumberAtPosition(data, position) == Ok(Value(a) * 1000 + Value(b))
  {
    NumberOf(data, position, a + "." + b);
    ThousandsText(a, b);
  }

  /** An entry with only a "number" text is read through that text. */
  lemma NumberOf(data: seq<Json>, position: nat, number: string)
    requires position < |data| && data[position] == JObj(map["number" := JStr(number)])
    ensures NumberAtPosition(data, position) == Ok(ToInt(Some(RemoveFirst(number, '.'))))
  {
  }

  /** The text of a figure with a thousands separator, read without its dot. */
  lemma ThousandsText(a: string, b: string)
    requires a != [] && AllDigits(a) && AllDigits(b) && |b| == 3
    requires Value(a) * 1000 + Value(b) <= IntMax
    ensures ToInt(Some(RemoveFirst(a + "." + b, '.'))) == Value(a) * 1000 + Value(b)
  {
    assert '.' !in a by {
      forall k | 0 <= k < |a| ensures a[k] != '.' {
        assert IsDigit(a[k]);
      }
    }
    var t := RemoveFirst(a + "." + b, '.');
    assert t == a + b by {
      RemoveSeparator(a, b);
    }
    assert AllDigits(t) && Value(t) == Value(a) * 1000 + Value(b) by {
      ValueAppend(a, b);
      assert Power10(3) == 1000;
    }
    ToIntDigits(t);
  }

  /** Digits without a sign, within the int range, are read as their value. */
  lemma ToIntDigits(t: string)
    requires t != [] && AllDigits(t) && Value(t) <= IntMax
    ensures ToInt(Some(t)) == Value(t)
  {
    assert IsDigit(t[0]);
  }

  /** A text that still holds a dot once its first dot is gone, like "1.234.567", is read as 0. */
  lemma SecondDotGivesZero(data: seq<Json>, position: nat, number: string)
    requires position < |data| && data[position] == JObj(map["number" := JStr(number)])
    requires '.' in RemoveFirst(number, '.')
    ensures NumberAtPosition(data, position) == Ok(0)
  {
    var t := RemoveFirst(number, '.');
    var k :| 0 <= k < |t| && t[k] == '.';
    var digits := if t[0] == '-' || t[0] == '+' then t[1..] else t;
    if t[0] == '-' || t[0] == '+' {
      assert k > 0 && digits[k - 1] == '.';
    } else {
      assert digits[k] == '.';
    }
    assert !AllDigits(digits);
  }

  /**
   * The header check of convertTestungen: with an expected text, the header
   * must be a string that starts with it.
   */
  function Checked(o: Object, verification: Option<string>): (r: Result<()>)
    ensures verification.None? ==> r.Ok?
    ensures verification.Some? ==> (r.Ok? <==> (GetString(o, "header").Ok? &&
      StartsWith(GetString(o, "header").value, verification.value)))
    ensures verification.Some? && GetString(o, "header").Ok? && !StartsWith(GetString(o, "header").value, verification.value) ==>
      r == Err("ungültiger header: " + GetString(o, "header").value)
  {
    if verification.None? then Ok(())
    else
      var header :- GetString(o, "header");
      if !StartsWith(header, verification.value) then Err("ungültiger header: " + header) else Ok(())
  }

  /**
   * convertTestungen: the header checked against the expected text when there
   * is one, then the numbers at positions 0, 1 and 2. Without an object (the
   * download failed) the calls on it throw.
   */
  function ConvertTestungen(json: Option<Object>, verification: Option<string>): (r: Result<seq<int>>)
    ensures json.None? ==> r.Err?
    ensures json.Some? ==> (Checked(json.value, verification).Err? ==> r == Err(Checked(json.value, verification).error))
    ensures r.Ok? ==> (json.Some? && Checked(json.value, verification).Ok? && GetArray(json.value, "data").Ok?)
    ensures r.Ok? ==> (|r.value| == 3 &&
      forall k :: 0 <= k < 3 ==> NumberAtPosition(GetArray(json.value, "data").value, k) == Ok(r.value[k]))
    ensures (json.Some? && Checked(json.value, verification).Ok? && GetArray(json.value, "data").Ok?) ==>
      (r.Ok? <==> forall k :: 0 <= k < 3 ==> NumberAtPosition(GetArray(json.value, "data").value, k).Ok?)
  {
    if json.None? then Err("NullPointerException")
    else
      var o := json.value;
      var checked :- Checked(o, verification);
      var data :- GetArray(o, "data");
      var n0 :- NumberAtPosition(data, 0);
      var n1 :- NumberAtPosition(data, 1);
      var n2 :- NumberAtPosition(data, 2);
      Ok([n0, n1, n2])
  }

  // ---------------------------------------------------------------- the last date stored

  /** The lexicographically greatest of the dates, the first of equal ones; none for no dates. */
  function MaxOf(dates: seq<string>): (r: Option<string>)
    ensures r.Some? <==> dates != []
    ensures r.Some? ==> r.value in dates && forall d :: d in dates ==> LexLe(d, r.value)
  {
    if dates == [] then None
    else
      var m := MaxOf(dates[..|dates| - 1]);
      var d := dates[|dates| - 1];
      assert dates == dates[..|dates| - 1] + [d];
      if m.None? || !LexLe(d, m.value) then
        assert m.Some? ==> LexLe(m.value, d) by {
          if m.Some? { LexLeTotal(d, m.value); }
        }
        assert forall e :: e in dates[..|dates| - 1] ==> LexLe(e, d) by {
          forall e | e in dates[..|dates| - 1] ensures LexLe(e, d) {
            LexLeTransitive(e, m.value, d);
          }
        }
        LexLeReflexive(d);
        Some(d)
      else m
  }

  /** One more date: it becomes the maximum unless it is not above the maximum so far. */
  lemma MaxOfStep(dates: seq<string>, i: nat, m: Option<string>, d: string)
    requires i < |dates| && m == MaxOf(dates[..i]) && d == dates[i]
    ensures MaxOf(dates[..i + 1]) == if m.None? || !LexLe(d, m.value) then Some(d) else m
  {
    assert dates[..i + 1][..i] == dates[..i];
    assert dates[..i + 1][i] == dates[i];
  }

  /** The first comma-separated field of each line. */
  function FirstFields(lines: seq<string>): (r: seq<string>)
    ensures |r| == |lines|
  {
    seq(|lines|, i requires 0 <= i < |lines| => SubstringBefore(lines[i], ","))
  }

  /** The configuration a generator is made with, and the lines of its target file when that file exists. */
  datatype Settings = Settings(code: Option<string>, frequency: Option<string>, existing: Option<seq<string>>)

  /** The lines after the header: the data lines of the existing file. */
  function DataLines(existing: Option<seq<string>>): seq<string>
  {
    if existing.None? || existing.value == [] then [] else existing.value[1..]
  }

  /**
   * readLastDateFromTargetFile: the greatest first field of the data lines, or
   * the earliest day or week the dashboard offers when there is none.
   */
  function LastDate(s: Settings): (r: string)
    ensures DataLines(s.existing) == [] ==> r == if s.frequency == Some("daily") then EarliestDate else EarliestWeek
    ensures DataLines(s.existing) != [] ==>
      r in FirstFields(DataLines(s.existing)) && forall d :: d in FirstFields(DataLines(s.existing)) ==> LexLe(d, r)
  {
    match MaxOf(FirstFields(DataLines(s.existing)))
    case None => if s.frequency == Some("daily") then EarliestDate else EarliestWeek
    case Some(m) => m
  }

  /** The loop of readLastDateFromTargetFile: the header skipped, the maximum kept line by line. */
  method ReadLastDateFromTargetFile(s: Settings) returns (last: string)
    ensures last == LastDate(s)
  {
    var max: Option<string> := None;
    var lines := DataLines(s.existing);
    ghost var fields := FirstFields(lines);
    assert fields[..0] == [];
    for i := 0 to |lines|
      invariant max == MaxOf(fields[..i])
    {
      var date := SubstringBefore(lines[i], ",");
      MaxOfStep(fields, i, max, date);
      if max.None? || !LexLe(date, max.value) {
        max := Some(date);
      }
    }
    assert fields[..|lines|] == fields;
    if max.None? {
      if s.frequency == Some("daily") {
        last := EarliestDate;
      } else {
        last := EarliestWeek;
      }
    } else {
      last := max.value;
    }
  }

  // ---------------------------------------------------------------- weeks

  /** A calendar week as the clock reports it: the year and the week of the year. */
  datatype Week = Week(year: int, week: int)

  /** The text of a week: the year, "-W" and the week with at least two digits. */
  function WeekText(w: Week): string
    requires w.week >= 0
  {
    IntText(w.year) + "-W" + ZeroPad(w.week, 2)
  }

  /** Whether week a comes before week b. */
  predicate Before(a: Week, b: Week)
  {
    a.year < b.year || (a.year == b.year && a.week < b.week)
  }

  /** The step back of the weekly loop: the week before, where week 1 is followed by week 51 of the year before. */
  function PreviousWeek(w: Week): (r: Week)
    requires w.week >= 1
    ensures 1 <= r.week && Before(r, w)
    ensures r.year == w.year ==> r.week == w.week - 1
    ensures r.year != w.year ==> r == Week(w.year - 1, 51)
  {
    var week := w.week - 1;
    if week < 1 then Week(w.year - 1, 51) else Week(w.year, week)
  }

  /** The week the weekly loop stands at after k steps back from the start. */
  function WeekAt(start: Week, k: nat): (r: Week)
    requires start.week >= 1
    ensures r.week >= 1
    ensures k > 0 ==> Before(r, start)
  {
    if k == 0 then start else PreviousWeek(WeekAt(start, k - 1))
  }

  /** Taking the first step back first. */
  lemma {:induction false} WeekAtShift(start: Week, k: nat)
    requires start.week >= 1
    ensures WeekAt(start, k + 1) == WeekAt(PreviousWeek(start), k)
  {
    if k > 0 {
      WeekAtShift(start, k - 1);
    }
  }

  /** The weeks of every earlier year the loop visits are weeks 1 to 51: weeks 52 and 53 are never requested. */
  lemma {:induction false} EarlierYearsEndAt51(start: Week, k: nat)
    requires start.week >= 1
    ensures WeekAt(start, k).year < start.year ==> WeekAt(start, k).week <= 51
  {
    if k > 0 {
      EarlierYearsEndAt51(start, k - 1);
    }
  }

  /** Every week 1 to 51 at or before the start is reached by stepping back. */
  lemma {:induction false} WeeksReached(start: Week, target: Week)
    requires start.week >= 1 && 1 <= target.week <= 51
    requires target == start || Before(target, start)
    ensures exists k: nat :: WeekAt(start, k) == target
    decreases (start.year - target.year) * 100 + start.week - target.week
  {
    if start == target {
      assert WeekAt(start, 0) == target;
    } else {
      var p := PreviousWeek(start);
      WeeksReached(p, target);
      var k: nat :| WeekAt(p, k) == target;
      WeekAtShift(start, k);
    }
  }

  // ---------------------------------------------------------------- school days

  /** Days counted from 1970-01-01: those that fall on Monday to Friday. */
  predicate SchoolDayAt(e: int)
  {
    (e + 3) % 7 < 5
  }

  /** Monday to Friday. */
  predicate SchoolDay(d: Date)
    requires Valid(d)
  {
    SchoolDayAt(EpochDay(d))
  }

  /**
   * getPreviousDate as written: three days back from a Monday, two from a
   * Saturday, one from any other day.
   */
  function PreviousDateAsWritten(d: Date): (r: Date)
    requires Valid(d)
    ensures Valid(r) && EpochDay(r) < EpochDay(d)
    ensures DayOfWeek(d) == Sunday ==> EpochDay(r) == EpochDay(d) - 1 && DayOfWeek(r) == Saturday
    ensures DayOfWeek(d) == Saturday ==> EpochDay(r) == EpochDay(d) - 2
  {
    var n := if DayOfWeek(d) == Monday then 3 else if DayOfWeek(d) == Saturday then 2 else 1;
    AsWrittenStep(d, n);
    MinusDays(d, n)
  }

  lemma AsWrittenStep(d: Date, n: nat)
    requires Valid(d) && n == if DayOfWeek(d) == Monday then 3 else if DayOfWeek(d) == Saturday then 2 else 1
    ensures Valid(MinusDays(d, n)) && EpochDay(MinusDays(d, n)) == EpochDay(d) - n
    ensures DayOfWeek(d) == Sunday ==> DayOfWeek(MinusDays(d, n)) == Saturday
  {
    EpochDayOfMinusDays(d, n);
    if DayOfWeek(d) == Sunday {
      assert n == 1;
      assert DayOfWeek(MinusDays(d, 1)) - 1 == (Sunday - 1 - 1) % 7 by {
        DayOfWeekOfMinusDays(d, 1);
      }
    }
  }

  /** The day the daily loop as written stands at after k steps back. */
  function WalkAsWritten(start: Date, k: nat): (r: Date)
    requires Valid(start)
    ensures Valid(r) && EpochDay(r) <= EpochDay(start) - k
  {
    if k == 0 then start else PreviousDateAsWritten(WalkAsWritten(start, k - 1))
  }

  /** From a Sunday, two steps of the loop as written already lie three days back. */
  lemma {:induction false} AsWrittenPastThursday(start: Date, k: nat)
    requires Valid(start) && DayOfWeek(start) == Sunday && k >= 2
    ensures EpochDay(WalkAsWritten(start, k)) <= EpochDay(start) - 3
  {
    if k == 2 {
      WalkAsWrittenStep(start, 0);
      WalkAsWrittenStep(start, 1);
      var saturday := WalkAsWritten(start, 1);
      assert EpochDay(saturday) == EpochDay(start) - 1 && DayOfWeek(saturday) == Saturday;
    } else {
      AsWrittenPastThursday(start, k - 1);
      WalkAsWrittenStep(start, k - 1);
    }
  }

  lemma WalkAsWrittenStep(start: Date, k: nat)
    requires Valid(start)
    ensures WalkAsWritten(start, 0) == start
    ensures WalkAsWritten(start, k + 1) == PreviousDateAsWritten(WalkAsWritten(start, k))
  {
  }

  /** From a Sunday, no step of the loop as written lands two days back. */
  lemma NotTwoBack(start: Date, k: nat)
    requires Valid(start) && DayOfWeek(start) == Sunday
    ensures Iso(WalkAsWritten(start, k)) != Iso(MinusDays(start, 2))
  {
    EpochDayOfMinusDays(start, 2);
    if k >= 2 {
      AsWrittenPastThursday(start, k);
    } else if k == 1 {
      assert WalkAsWritten(start, 1) == PreviousDateAsWritten(start);
    }
    if Iso(WalkAsWritten(start, k)) == Iso(MinusDays(start, 2)) {
      IsoInjective(WalkAsWritten(start, k), MinusDays(start, 2));
    }
  }

  /**
   * A walk that passes a Sunday (the run on a Sunday or a Monday starts on
   * Saturday or Sunday) never requests the Friday before: Saturday steps back
   * to Thursday. A target file whose last day is that Friday therefore never
   * stops the loop.
   */
  lemma FridayNeverRequested(start: Date)
    requires Valid(start) && DayOfWeek(start) == Sunday
    ensures DayOfWeek(MinusDays(start, 2)) == 5
    ensures forall k: nat :: Iso(WalkAsWritten(start, k)) != Iso(MinusDays(start, 2))
  {
    TwoBeforeSunday(start);
    forall k: nat ensures Iso(WalkAsWritten(start, k)) != Iso(MinusDays(start, 2)) {
      NotTwoBack(start, k);
    }
  }

  /** Two days before a Sunday is a Friday. */
  lemma TwoBeforeSunday(start: Date)
    requires Valid(start) && DayOfWeek(start) == Sunday
    ensures DayOfWeek(MinusDays(start, 2)) == 5
  {
    DayOfWeekOfMinusDays(start, 2);
    var w := DayOfWeek(MinusDays(start, 2));
    assert w - 1 == 4 % 7;
  }

  /**
   * The previous school day: three days back from a Monday, two from a Sunday,
   * one from any other day. Saturday steps back to Friday.
   */
  function PreviousDate(d: Date): (r: Date)
    requires Valid(d)
    ensures Valid(r) && SchoolDay(r) && EpochDay(r) < EpochDay(d)
  {
    var n := if DayOfWeek(d) == Monday then 3 else if DayOfWeek(d) == Sunday then 2 else 1;
    PreviousStep(d, n);
    MinusDays(d, n)
  }

  lemma PreviousStep(d: Date, n: nat)
    requires Valid(d) && n == if DayOfWeek(d) == Monday then 3 else if DayOfWeek(d) == Sunday then 2 else 1
    ensures Valid(MinusDays(d, n)) && EpochDay(MinusDays(d, n)) == EpochDay(d) - n
    ensures SchoolDay(MinusDays(d, n))
    ensures forall e :: EpochDay(d) - n < e < EpochDay(d) ==> !SchoolDayAt(e)
  {
    EpochDayOfMinusDays(d, n);
    SchoolDayStep(EpochDay(d), n);
  }

  /** No school day lies strictly between a day and the previous school day. */
  lemma NoSchoolDaySkipped(d: Date)
    requires Valid(d)
    ensures forall e :: EpochDay(PreviousDate(d)) < e < EpochDay(d) ==> !SchoolDayAt(e)
  {
    var n := if DayOfWeek(d) == Monday then 3 else if DayOfWeek(d) == Sunday then 2 else 1;
    PreviousStep(d, n);
  }

  /** The step of PreviousDate on days counted from 1970-01-01. */
  lemma SchoolDayStep(e: int, n: int)
    requires n == if (e + 3) % 7 == 0 then 3 else if (e + 3) % 7 == 6 then 2 else 1
    ensures SchoolDayAt(e - n)
    ensures forall j :: e - n < j < e ==> !SchoolDayAt(j)
  {
    ModSub(e + 3, 1);
    ModSub(e + 3, 2);
    ModSub(e + 3, 3);
  }

  /** The day the daily loop stands at after k steps back. */
  function Walk(start: Date, k: nat): (r: Date)
    requires Valid(start)
    ensures Valid(r) && EpochDay(r) <= EpochDay(start) - k
    ensures k > 0 ==> SchoolDay(r)
  {
    if k == 0 then start else PreviousDate(Walk(start, k - 1))
  }

  /** Taking the first step back first. */
  lemma {:induction false} WalkShift(start: Date, k: nat)
    requires Valid(start)
    ensures Walk(start, k + 1) == Walk(PreviousDate(start), k)
  {
    var p := PreviousDate(start);
    assert Walk(start, k + 1) == PreviousDate(Walk(start, k)) by {
      WalkStep(start, k);
    }
    if k == 0 {
      assert Walk(start, 0) == start && Walk(p, 0) == p by {
        WalkStep(start, 0);
        WalkStep(p, 0);
      }
    } else {
      assert Walk(start, k) == Walk(p, k - 1) by {
        WalkShift(start, k - 1);
      }
      assert Walk(p, k) == PreviousDate(Walk(p, k - 1)) by {
        WalkStep(p, k - 1);
      }
    }
  }

  /** Every school day before the start is visited by the corrected walk. */
  lemma {:induction false} VisitsEverySchoolDay(start: Date, t: Date)
    requires Valid(start) && Valid(t) && SchoolDay(t) && EpochDay(t) < EpochDay(start)
    ensures exists k: nat :: k >= 1 && EpochDay(Walk(start, k)) == EpochDay(t)
    decreases EpochDay(start) - EpochDay(t)
  {
    var p := PreviousDate(start);
    NoSchoolDaySkipped(start);
    assert Walk(start, 1) == p;
    if EpochDay(p) != EpochDay(t) {
      assert SchoolDayAt(EpochDay(t));
      VisitsEverySchoolDay(p, t);
      var k: nat :| k >= 1 && EpochDay(Walk(p, k)) == EpochDay(t);
      WalkShift(start, k);
    }
  }

  // ---------------------------------------------------------------- output

  /**
   * The expected header of a weekly dataset's download: none to check for the
   * tests by kind, a text for the tests in schools and their positive results;
   * None for a code that has no weekly tests.
   */
  function TestVerification(code: Option<string>): (r: Option<Option<string>>)
    ensures r.Some? ==> code.Some?
  {
    if code == Some(CodeTestArt) then Some(None)
    else if code == Some(CodeTestInSchule) then Some(Some("Anzahl durchgeführter Testungen in der Schule "))
    else if code == Some(CodeTestPositiv) then Some(Some("Testungen in der Schule mit einem positiven Testergebnis"))
    else None
  }

  /** The column a daily table leaves out; None for a code that has no daily tables. */
  function DailyIgnore(code: Option<string>): (r: Option<string>)
    ensures r.Some? ==> code.Some?
  {
    if code == Some(CodeSchuleGeschlossen) || code == Some(CodeSchuleBeeintraechtigt) then Some("Gesamt")
    else if code == Some(CodeFaelleSchulart) || code == Some(CodeFaelleKreis) then Some("Neue Fälle insgesamt")
    else None
  }

  function WeekUrl(code: string, w: Week): string
    requires w.week >= 0
  {
    ApiBase + code + "/?week=" + WeekText(w)
  }

  function DayUrl(code: string, day: string): string
  {
    ApiBase + code + "/?schultag=" + day
  }

  /** The figures printed as decimal numbers. */
  function Texts(data: seq<int>): (r: seq<string>)
    ensures |r| == |data| && forall i :: 0 <= i < |data| ==> r[i] == IntText(data[i])
  {
    seq(|data|, i requires 0 <= i < |data| => IntText(data[i]))
  }

  /** The flattened table printed as comma-separated lines. */
  function Lines(table: Flat): (r: seq<string>)
    ensures |r| == |table| && forall i :: 0 <= i < |table| ==> r[i] == Join(table[i], ",")
  {
    seq(|table|, i requires 0 <= i < |table| => Join(table[i], ","))
  }

  /** The lines of several steps in order; the first step that failed decides the error. */
  function Joined(parts: seq<Result<seq<string>>>): (r: Result<seq<string>>)
    ensures r.Ok? <==> forall i :: 0 <= i < |parts| ==> parts[i].Ok?
  {
    if parts == [] then Ok([])
    else
      var n := |parts| - 1;
      assert forall i :: 0 <= i < n ==> parts[..n][i] == parts[i];
      var init :- Joined(parts[..n]);
      var last :- parts[n];
      Ok(init + last)
  }

  /** The steps before one that fails all succeeded: the run ends with its error. */
  lemma {:induction false} JoinedFailWith(parts: seq<Result<seq<string>>>, i: nat)
    requires i < |parts| && Joined(parts[..i]).Ok? && parts[i].Err?
    ensures Joined(parts) == Err(parts[i].error)
    decreases |parts|
  {
    var n := |parts| - 1;
    if i < n {
      assert parts[..n][..i] == parts[..i];
      assert parts[..n][i] == parts[i];
      JoinedFailWith(parts[..n], i);
    } else {
      assert parts[..n] == parts[..i];
    }
  }

  /** The next step of a run that succeeded so far: its error ends the run, its lines are appended. */
  lemma JoinedNext(parts: seq<Result<seq<string>>>, i: nat, out: seq<string>)
    requires i < |parts| && Joined(parts[..i]) == Ok(out)
    ensures parts[i].Err? ==> Joined(parts) == Err(parts[i].error)
    ensures parts[i].Ok? ==> Joined(parts[..i + 1]) == Ok(out + parts[i].value)
  {
    if parts[i].Err? {
      JoinedFailWith(parts, i);
    } else {
      JoinedStep(parts, i);
    }
  }

  /** One more successful step appends its lines. */
  lemma JoinedStep(parts: seq<Result<seq<string>>>, i: nat)
    requires i < |parts| && Joined(parts[..i]).Ok? && parts[i].Ok?
    ensures Joined(parts[..i + 1]) == Ok(Joined(parts[..i]).value + parts[i].value)
  {
    assert parts[..i + 1][..i] == parts[..i];
    assert parts[..i + 1][i] == parts[i];
  }

  /** Steps of one line each give one line per step, in order. */
  lemma {:induction false} JoinedSingles(parts: seq<Result<seq<string>>>)
    requires forall i :: 0 <= i < |parts| ==> parts[i].Ok? && |parts[i].value| == 1
    ensures Joined(parts).Ok? && |Joined(parts).value| == |parts|
    ensures forall k :: 0 <= k < |parts| ==> Joined(parts).value[k] == parts[k].value[0]
  {
    if parts != [] {
      var n := |parts| - 1;
      assert forall i :: 0 <= i < n ==> parts[..n][i] == parts[i];
      JoinedSingles(parts[..n]);
    }
  }

  /** The first position of a text in a sequence that holds it. */
  function FirstIndex(texts: seq<string>, last: string): (n: nat)
    requires last in texts
    ensures n < |texts| && texts[n] == last
    ensures forall j :: 0 <= j < n ==> texts[j] != last
  {
    if texts[0] == last then 0 else 1 + FirstIndex(texts[1..], last)
  }

  /**
   * The line one week adds: the week and its three figures. A failed download
   * or an unexpected header aborts the run; a code without weekly tests adds
   * nothing.
   */
  function WeekRow(code: Option<string>, fetch: string -> Option<Object>, w: Week): Result<seq<string>>
    requires w.week >= 0
  {
    match TestVerification(code)
    case None => Ok([])
    case Some(verification) =>
      var data :- ConvertTestungen(fetch(WeekUrl(code.value, w)), verification);
      Ok([WeekText(w) + "," + Join(Texts(data), ",")])
  }

  /**
   * What a week adds: nothing for a code without weekly tests; otherwise an
   * error exactly when the figures cannot be read (always when the download
   * failed), else one line that starts with the week.
   */
  lemma WeekRowShape(code: Option<string>, fetch: string -> Option<Object>, w: Week)
    requires w.week >= 0
    ensures TestVerification(code).None? ==> WeekRow(code, fetch, w) == Ok([])
    ensures TestVerification(code).Some? && fetch(WeekUrl(code.value, w)).None? ==> WeekRow(code, fetch, w).Err?
    ensures TestVerification(code).Some? ==>
      (WeekRow(code, fetch, w).Ok? <==> ConvertTestungen(fetch(WeekUrl(code.value, w)), TestVerification(code).value).Ok?)
    ensures var r := WeekRow(code, fetch, w);
      r.Ok? && TestVerification(code).Some? ==> |r.value| == 1 && StartsWith(r.value[0], WeekText(w) + ",")
  {
    var r := WeekRow(code, fetch, w);
    if r.Ok? && TestVerification(code).Some? {
      var line := r.value[0];
      assert line[..|WeekText(w) + ","|] == WeekText(w) + ",";
    }
  }

  /** What each of the first n weeks of the walk back from the start adds. */
  function WeekParts(code: Option<string>, fetch: string -> Option<Object>, start: Week, n: nat): (r: seq<Result<seq<string>>>)
    requires start.week >= 1
    ensures |r| == n
  {
    seq(n, k requires 0 <= k < n => WeekRow(code, fetch, WeekAt(start, k)))
  }

  /** The texts of the weeks the loop stands at in its first m steps. */
  function WeekTexts(start: Week, m: nat): (r: seq<string>)
    requires start.week >= 1
    ensures |r| == m
  {
    seq(m, k requires 0 <= k < m => WeekText(WeekAt(start, k)))
  }

  /** A weekly run that succeeds writes one line per week, each starting with its week, newest first. */
  lemma WeeklyLines(code: Option<string>, fetch: string -> Option<Object>, start: Week, n: nat)
    requires start.week >= 1 && TestVerification(code).Some?
    requires Joined(WeekParts(code, fetch, start, n)).Ok?
    ensures var lines := Joined(WeekParts(code, fetch, start, n)).value;
      |lines| == n && forall k :: 0 <= k < n ==> StartsWith(lines[k], WeekText(WeekAt(start, k)) + ",")
  {
    var parts := WeekParts(code, fetch, start, n);
    forall i | 0 <= i < n
      ensures parts[i].Ok? && |parts[i].value| == 1 && StartsWith(parts[i].value[0], WeekText(WeekAt(start, i)) + ",")
    {
      WeekRowShape(code, fetch, WeekAt(start, i));
    }
    JoinedSingles(parts);
  }

  /** The lines a day adds: its table, flattened; nothing when the download fails or the code has no daily tables. */
  function DayRows(code: Option<string>, fetch: string -> Option<Object>, d: Date): Result<seq<string>>
    requires Valid(d)
  {
    match DailyIgnore(code)
    case None => Ok([])
    case Some(ignore) =>
      var table :- Table(Iso(d), fetch(DayUrl(code.value, Iso(d))), ignore);
      if table.None? then Ok([]) else Ok(Lines(table.value))
  }

  /**
   * What a day adds: nothing for a code without daily tables or when the
   * download failed; otherwise an error exactly when the table cannot be
   * converted, else one line per entry of the table.
   */
  lemma DayRowsShape(code: Option<string>, fetch: string -> Option<Object>, d: Date)
    requires Valid(d)
    ensures DailyIgnore(code).None? ==> DayRows(code, fetch, d) == Ok([])
    ensures DailyIgnore(code).Some? && fetch(DayUrl(code.value, Iso(d))).None? ==> DayRows(code, fetch, d) == Ok([])
    ensures DailyIgnore(code).Some? ==>
      var t := Table(Iso(d), fetch(DayUrl(code.value, Iso(d))), DailyIgnore(code).value);
      (DayRows(code, fetch, d).Ok? <==> t.Ok?) &&
      (t.Ok? && t.value.Some? ==> |DayRows(code, fetch, d).value| == |t.value.value|)
  {
  }

  /** What each of the first n days of the walk back from the start adds. */
  function DayParts(code: Option<string>, fetch: string -> Option<Object>, start: Date, n: nat): (r: seq<Result<seq<string>>>)
    requires Valid(start)
    ensures |r| == n
  {
    seq(n, k requires 0 <= k < n => DayRows(code, fetch, WalkAsWritten(start, k)))
  }

  lemma WeekPartAt(code: Option<string>, fetch: string -> Option<Object>, start: Week, n: nat, i: nat)
    requires start.week >= 1 && i < n
    ensures WeekParts(code, fetch, start, n)[i] == WeekRow(code, fetch, WeekAt(start, i))
  {
  }

  lemma DayPartAt(code: Option<string>, fetch: string -> Option<Object>, start: Date, n: nat, i: nat)
    requires Valid(start) && i < n
    ensures DayParts(code, fetch, start, n)[i] == DayRows(code, fetch, WalkAsWritten(start, i))
  {
  }

  lemma WalkStep(start: Date, i: nat)
    requires Valid(start)
    ensures Walk(start, 0) == start
    ensures Walk(start, i + 1) == PreviousDate(Walk(start, i))
  {
  }

  /** The texts of the days the loop stands at in its first m steps. */
  function DayTexts(start: Date, m: nat): (r: seq<string>)
    requires Valid(start)
    ensures |r| == m
  {
    seq(m, k requires 0 <= k < m => Iso(WalkAsWritten(start, k)))
  }

  /**
   * The first line of the target file when it exists; a file without lines
   * gives the text "null".
   */
  function Header(existing: Option<seq<string>>): (r: seq<string>)
    ensures existing.None? ==> r == []
    ensures existing.Some? ==> |r| == 1
    ensures existing.Some? && existing.value != [] ==> r == [existing.value[0]]
  {
    if existing.None? then []
    else if existing.value == [] then ["null"]
    else [existing.value[0]]
  }

  /** The new file: the old header, the new lines, the old data lines. */
  function Output(existing: Option<seq<string>>, rows: Result<seq<string>>): (r: Result<seq<string>>)
    ensures r.Ok? <==> rows.Ok?
    ensures r.Ok? ==> |r.value| == |Header(existing)| + |rows.value| + |DataLines(existing)|
    ensures r.Ok? ==> r.value[..|Header(existing)|] == Header(existing)
    ensures r.Ok? ==> r.value[|Header(existing)|..|r.value| - |DataLines(existing)|] == rows.value
    ensures r.Ok? ==> r.value[|r.value| - |DataLines(existing)|..] == DataLines(existing)
  {
    var lines :- rows;
    var out := Header(existing) + lines + DataLines(existing);
    assert out[..|Header(existing)|] == Header(existing);
    assert out[|Header(existing)|..|out| - |DataLines(existing)|] == lines;
    assert out[|out| - |DataLines(existing)|..] == DataLines(existing);
    Ok(out)
  }

  /** The weekly run: the weeks from the current one back to, not including, the last one stored. */
  function Weekly(s: Settings, fetch: string -> Option<Object>, start: Week, reach: nat): Result<seq<string>>
    requires start.week >= 1 && WeekText(WeekAt(start, reach)) == LastDate(s)
  {
    var texts := WeekTexts(start, reach + 1);
    assert texts[reach] == LastDate(s);
    Output(s.existing, Joined(WeekParts(s.code, fetch, start, FirstIndex(texts, LastDate(s)))))
  }

  /**
   * The daily run: the days getPreviousDate steps through from yesterday back
   * to, not including, the last one stored.
   */
  function Daily(s: Settings, fetch: string -> Option<Object>, today: Date, reach: nat): Result<seq<string>>
    requires Valid(today) && Iso(WalkAsWritten(MinusDays(today, 1), reach)) == LastDate(s)
  {
    var start := MinusDays(today, 1);
    var texts := DayTexts(start, reach + 1);
    assert texts[reach] == LastDate(s);
    Output(s.existing, Joined(DayParts(s.code, fetch, start, FirstIndex(texts, LastDate(s)))))
  }

  /** The remaining lines of the target file copied after the new ones. */
  method CopyLines(out: seq<string>, lines: seq<string>) returns (res: seq<string>)
    ensures res == out + lines
  {
    res := out;
    for j := 0 to |lines|
      invariant res == out + lines[..j]
    {
      assert lines[..j + 1] == lines[..j] + [lines[j]];
      res := res + [lines[j]];
    }
    assert lines[..|lines|] == lines;
  }

  /** One pass of the weekly loop: the download of the week and its line. */
  method FetchWeek(code: Option<string>, fetch: string -> Option<Object>, w: Week, weekString: string)
    returns (r: Result<seq<string>>)
    requires w.week >= 1 && weekString == WeekText(w)
    ensures r == WeekRow(code, fetch, w)
  {
    var verification := TestVerification(code);
    if verification.None? {
      return Ok([]);
    }
    var json := fetch(WeekUrl(code.value, w));
    var data := ConvertTestungen(json, verification.value);
    if data.Err? {
      return Err(data.error);
    }
    r := Ok([weekString + "," + Join(Texts(data.value), ",")]);
  }

  /** A pass of the weekly loop on the lines so far: an error ends the run, the week's line is appended. */
  method WeekPass(code: Option<string>, fetch: string -> Option<Object>, w: Week, weekString: string,
                  ghost start: Week, ghost n: nat, ghost i: nat, out: seq<string>)
    returns (r: Result<seq<string>>)
    requires start.week >= 1 && i < n && w == WeekAt(start, i) && weekString == WeekText(w)
    requires Joined(WeekParts(code, fetch, start, n)[..i]) == Ok(out)
    ensures r.Err? ==> r == Joined(WeekParts(code, fetch, start, n))
    ensures r.Ok? ==> r == Joined(WeekParts(code, fetch, start, n)[..i + 1])
  {
    ghost var parts := WeekParts(code, fetch, start, n);
    WeekPartAt(code, fetch, start, n, i);
    var part := FetchWeek(code, fetch, w, weekString);
    JoinedNext(parts, i, out);
    if part.Err? {
      return Err(part.error);
    }
    r := Ok(out + part.value);
  }

  /** The end of a pass of the weekly loop: one week back, from week 1 to week 51 of the year before. */
  method StepBackWeek(year: int, week: int) returns (year': int, week': int)
    requires week >= 1
    ensures Week(year', week') == PreviousWeek(Week(year, week))
  {
    year', week' := year, week - 1;
    if week' < 1 {
      week' := 51;
      year' := year' - 1;
    }
  }

  /** The step back at the end of a pass of the weekly loop, and the text of the week it reaches. */
  method NextWeek(year: int, week: int, ghost start: Week, ghost i: nat) returns (year': int, week': int, weekString: string)
    requires start.week >= 1 && Week(year, week) == WeekAt(start, i)
    ensures Week(year', week') == WeekAt(start, i + 1) && weekString == WeekText(Week(year', week'))
  {
    year', week' := StepBackWeek(year, week);
    weekString := WeekText(Week(year', week'));
  }

  /**
   * The loop of generateDistributionForWeeklyDatasets: from the start back to
   * the first week whose text is the last one stored, n steps back.
   */
  method WriteWeeks(code: Option<string>, fetch: string -> Option<Object>, start: Week, lastDate: string, ghost n: nat)
    returns (r: Result<seq<string>>)
    requires start.week >= 1
    requires WeekText(WeekAt(start, n)) == lastDate && forall j :: 0 <= j < n ==> WeekText(WeekAt(start, j)) != lastDate
    ensures r == Joined(WeekParts(code, fetch, start, n))
  {
    var year, week := start.year, start.week;
    var weekString := WeekText(Week(year, week));
    var out: seq<string> := [];
    ghost var parts := WeekParts(code, fetch, start, n);
    ghost var i := 0;
    assert parts[..0] == [];
    while weekString != lastDate
      invariant i <= n && Week(year, week) == WeekAt(start, i) && weekString == WeekText(Week(year, week))
      invariant Joined(parts[..i]) == Ok(out)
      decreases n - i
    {
      assert i < n;
      var next := WeekPass(code, fetch, Week(year, week), weekString, start, n, i, out);
      if next.Err? {
        return next;
      }
      out := next.value;
      year, week, weekString := NextWeek(year, week, start, i);
      i := i + 1;
    }
    assert i == n;
    assert parts[..i] == parts;
    r := Ok(out);
  }

  /**
   * generateDistributionForWeeklyDatasets: the header of the target file, the
   * lines of the weeks back to the last one stored, the rest of the target
   * file. `reach` is a number of steps after which the walk has reached the
   * last stored week.
   */
  method GenerateWeekly(s: Settings, fetch: string -> Option<Object>, start: Week, ghost reach: nat)
    returns (r: Result<seq<string>>)
    requires start.week >= 1 && WeekText(WeekAt(start, reach)) == LastDate(s)
    ensures r == Weekly(s, fetch, start, reach)
  {
    var lastDate := ReadLastDateFromTargetFile(s);
    var out := Header(s.existing);
    ghost var texts := WeekTexts(start, reach + 1);
    assert texts[reach] == lastDate;
    ghost var n := FirstIndex(texts, lastDate);
    forall j | 0 <= j < n
      ensures WeekText(WeekAt(start, j)) != lastDate
    {
      assert texts[j] != lastDate;
    }
    assert texts[n] == WeekText(WeekAt(start, n));
    var rows := WriteWeeks(s.code, fetch, start, lastDate, n);
    if rows.Err? {
      return Err(rows.error);
    }
    out := CopyLines(out + rows.value, DataLines(s.existing));
    r := Ok(out);
  }

  /** The lines of a table appended one row at a time. */
  method PrintRows(out: seq<string>, table: Flat) returns (res: seq<string>)
    ensures res == out + Lines(table)
  {
    res := out;
    for j := 0 to |table|
      invariant res == out + Lines(table[..j])
    {
      assert Lines(table[..j + 1]) == Lines(table[..j]) + [Join(table[j], ",")];
      res := res + [Join(table[j], ",")];
    }
    assert table[..|table|] == table;
  }

  /** One pass of the daily loop: the download of the day and its table's lines. */
  method FetchDay(code: Option<string>, fetch: string -> Option<Object>, d: Date, dateString: string)
    returns (r: Result<seq<string>>)
    requires Valid(d) && dateString == Iso(d)
    ensures r == DayRows(code, fetch, d)
  {
    var ignore := DailyIgnore(code);
    if ignore.None? {
      return Ok([]);
    }
    var json := fetch(DayUrl(code.value, dateString));
    var table := ConvertTable(dateString, json, ignore.value);
    if table.Err? {
      return Err(table.error);
    }
    if table.value.None? {
      return Ok([]);
    }
    var lines := PrintRows([], table.value.value);
    assert lines == Lines(table.value.value);
    r := Ok(lines);
  }

  /** A pass of the daily loop on the lines so far: an error ends the run, the day's lines are appended. */
  method DayPass(code: Option<string>, fetch: string -> Option<Object>, d: Date, dateString: string,
                 ghost start: Date, ghost n: nat, ghost i: nat, out: seq<string>)
    returns (r: Result<seq<string>>)
    requires Valid(start) && i < n && d == WalkAsWritten(start, i) && dateString == Iso(d)
    requires Joined(DayParts(code, fetch, start, n)[..i]) == Ok(out)
    ensures r.Err? ==> r == Joined(DayParts(code, fetch, start, n))
    ensures r.Ok? ==> r == Joined(DayParts(code, fetch, start, n)[..i + 1])
  {
    ghost var parts := DayParts(code, fetch, start, n);
    DayPartAt(code, fetch, start, n, i);
    var part := FetchDay(code, fetch, d, dateString);
    JoinedNext(parts, i, out);
    if part.Err? {
      return Err(part.error);
    }
    r := Ok(out + part.value);
  }

  /** The step back at the end of a pass of the daily loop, and the text of the day it reaches. */
  method NextDay(d: Date, ghost start: Date, ghost i: nat) returns (d': Date, dateString: string)
    requires Valid(start) && d == WalkAsWritten(start, i)
    ensures Valid(d') && d' == WalkAsWritten(start, i + 1) && dateString == Iso(d')
  {
    WalkAsWrittenStep(start, i);
    d' := PreviousDateAsWritten(d);
    dateString := Iso(d');
  }

  /**
   * The loop of generateDistributionForDailyDatasets: from the start back to
   * the first day whose text is the last one stored, n steps back.
   */
  method WriteDays(code: Option<string>, fetch: string -> Option<Object>, start: Date, lastDate: string, ghost n: nat)
    returns (r: Result<seq<string>>)
    requires Valid(start)
    requires Iso(WalkAsWritten(start, n)) == lastDate && forall j :: 0 <= j < n ==> Iso(WalkAsWritten(start, j)) != lastDate
    ensures r == Joined(DayParts(code, fetch, start, n))
  {
    var dateObject := start;
    var dateString := Iso(dateObject);
    var out: seq<string> := [];
    ghost var parts := DayParts(code, fetch, start, n);
    ghost var i := 0;
    assert parts[..0] == [];
    while dateString != lastDate
      invariant i <= n && dateObject == WalkAsWritten(start, i) && dateString == Iso(dateObject)
      invariant Joined(parts[..i]) == Ok(out)
      decreases n - i
    {
      assert i < n;
      var next := DayPass(code, fetch, dateObject, dateString, start, n, i, out);
      if next.Err? {
        return next;
      }
      out := next.value;
      dateObject, dateString := NextDay(dateObject, start, i);
      i := i + 1;
    }
    assert i == n;
    assert parts[..i] == parts;
    r := Ok(out);
  }

  /** The day of the last stored text is reached; the loop stops at the first day with that text. */
  lemma DayReached(start: Date, lastDate: string, reach: nat)
    requires Valid(start) && Iso(WalkAsWritten(start, reach)) == lastDate
    ensures lastDate in DayTexts(start, reach + 1)
    ensures var n := FirstIndex(DayTexts(start, reach + 1), lastDate);
      Iso(WalkAsWritten(start, n)) == lastDate && forall j :: 0 <= j < n ==> Iso(WalkAsWritten(start, j)) != lastDate
  {
    var texts := DayTexts(start, reach + 1);
    assert texts[reach] == lastDate;
    var n := FirstIndex(texts, lastDate);
    forall j | 0 <= j < n
      ensures Iso(WalkAsWritten(start, j)) != lastDate
    {
      assert texts[j] != lastDate;
    }
    assert texts[n] == Iso(WalkAsWritten(start, n));
  }

  /**
   * generateDistributionForDailyDatasets: the header of the target file, the
   * lines of the days getPreviousDate steps through from yesterday back to the
   * last one stored, the
   * rest of the target file. `reach` is a number of steps after which the
   * walk has reached the last stored day.
   */
  method GenerateDaily(s: Settings, fetch: string -> Option<Object>, today: Date, ghost reach: nat)
    returns (r: Result<seq<string>>)
    requires Valid(today) && Iso(WalkAsWritten(MinusDays(today, 1), reach)) == LastDate(s)
    ensures r == Daily(s, fetch, today, reach)
  {
    var lastDate := ReadLastDateFromTargetFile(s);
    var start := MinusDays(today, 1);
    var out := Header(s.existing);
    DayReached(start, lastDate, reach);
    ghost var n := FirstIndex(DayTexts(start, reach + 1), lastDate);
    var rows := WriteDays(s.code, fetch, start, lastDate, n);
    if rows.Err? {
      return Err(rows.error);
    }
    out := CopyLines(out + rows.value, DataLines(s.existing));
    r := Ok(out);
  }

  /**
   * generateDistributions: the daily run or the weekly run by the configured
   * frequency, the new file's lines; None (the generator reports false) for
   * any other frequency.
   */
  function Distributions(s: Settings, fetch: string -> Option<Object>, today: Date, start: Week, dayReach: nat, weekReach: nat)
    : Result<Option<seq<string>>>
    requires Valid(today) && start.week >= 1
    requires s.frequency == Some("daily") ==> Iso(WalkAsWritten(MinusDays(today, 1), dayReach)) == LastDate(s)
    requires s.frequency == Some("weekly") ==> WeekText(WeekAt(start, weekReach)) == LastDate(s)
  {
    if s.frequency == Some("daily") then
      var lines :- Daily(s, fetch, today, dayReach);
      Ok(Some(lines))
    else if s.frequency == Some("weekly") then
      var lines :- Weekly(s, fetch, start, weekReach);
      Ok(Some(lines))
    else Ok(None)
  }

  /**
   * A run that writes a file keeps the target file: its first line leads the
   * new file and its data lines close it, unchanged; an unknown frequency
   * writes nothing.
   */
  lemma KeepsStoredLines(s: Settings, fetch: string -> Option<Object>, today: Date, start: Week, dayReach: nat, weekReach: nat)
    requires Valid(today) && start.week >= 1
    requires s.frequency == Some("daily") ==> Iso(WalkAsWritten(MinusDays(today, 1), dayReach)) == LastDate(s)
    requires s.frequency == Some("weekly") ==> WeekText(WeekAt(start, weekReach)) == LastDate(s)
    ensures s.frequency != Some("daily") && s.frequency != Some("weekly") ==>
      Distributions(s, fetch, today, start, dayReach, weekReach) == Ok(None)
    ensures var r := Distributions(s, fetch, today, start, dayReach, weekReach);
      r.Ok? && r.value.Some? ==>
        |r.value.value| >= |Header(s.existing)| + |DataLines(s.existing)| &&
        r.value.value[..|Header(s.existing)|] == Header(s.existing) &&
        r.value.value[|r.value.value| - |DataLines(s.existing)|..] == DataLines(s.existing)
  {
  }

  /** generateDistributions. */
  method GenerateDistributions(s: Settings, fetch: string -> Option<Object>, today: Date, start: Week,
                               ghost dayReach: nat, ghost weekReach: nat)
    returns (r: Result<Option<seq<string>>>)
    requires Valid(today) && start.week >= 1
    requires s.frequency == Some("daily") ==> Iso(WalkAsWritten(MinusDays(today, 1), dayReach)) == LastDate(s)
    requires s.frequency == Some("weekly") ==> WeekText(WeekAt(start, weekReach)) == LastDate(s)
    ensures r == Distributions(s, fetch, today, start, dayReach, weekReach)
  {
    if s.frequency == Some("daily") {
      var lines := GenerateDaily(s, fetch, today, dayReach);
      if lines.Err? {
        return Err(lines.error);
      }
      r := Ok(Some(lines.value));
    } else if s.frequency == Some("weekly") {
      var lines := GenerateWeekly(s, fetch, start, weekReach);
      if lines.Err? {
        return Err(lines.error);
      }
      r := Ok(Some(lines.value));
    } else {
      r := Ok(None);
    }
  }
}
