/**
 * Excel2CsvGenerator: downloads a workbook and writes one of its sheets as
 * comma-separated text. Reading the workbook is left to the library; a sheet
 * here is what its row and cell iterators yield, each cell already formatted
 * to text (DataFormatter.formatCellValue).
 */
module Excel2Csv {
  import opened Wrappers
  import opened Text
  import opened CsvText

  type Row = seq<string>
  type Sheet = seq<Row>
  type Workbook = seq<Sheet>

  /** The constructor: the `sheet` argument as NumberUtils.toInt reads it when the job has arguments, else 0. */
  function SheetNumber(args: Option<map<string, string>>): (n: int)
    ensures args.None? || args.value == map[] ==> n == 0
    ensures args.Some? && "sheet" !in args.value ==> n == 0
    ensures args.Some? && "sheet" in args.value ==> n == ToInt(Some(args.value["sheet"]))
  {
    if args.Some? && |args.value| > 0 then ToInt(if "sheet" in args.value then Some(args.value["sheet"]) else None)
    else 0
  }

  /** A sheet number written out in decimal is the sheet taken. */
  lemma SheetNumberOfText(args: map<string, string>, k: int)
    requires "sheet" in args && args["sheet"] == IntText(k) && IntMin <= k <= IntMax
    ensures SheetNumber(Some(args)) == k
  {
    ParseIntText(k, IntMin, IntMax);
  }

  /** A cell's text with each line break replaced by a blank, then trimmed. */
  function CleanCell(v: string): string
  {
    Trim(ReplaceChar(v, '\n', ' '))
  }

  /** A cleaned cell holds no line feed and neither starts nor ends with a blank or a control character. */
  lemma CleanCellShape(v: string, c: char)
    requires c != ' ' && (c != '\n' ==> c !in v)
    ensures c !in CleanCell(v)
    ensures var r := CleanCell(v); r == [] || (r[0] > ' ' && r[|r| - 1] > ' ')
  {
    var replaced := ReplaceChar(v, '\n', ' ');
    assert forall i :: 0 <= i < |replaced| ==> replaced[i] != c;
    TrimKeeps(replaced, c);
  }

  function CleanRow(cells: Row): (r: seq<string>)
    ensures |r| == |cells|
  {
    if cells == [] then [] else CleanRow(cells[..|cells| - 1]) + [CleanCell(cells[|cells| - 1])]
  }

  lemma CleanRowAll(cells: Row)
    ensures forall k {:trigger CleanCell(cells[k])} :: 0 <= k < |cells| ==> CleanRow(cells)[k] == CleanCell(cells[k])
  {
    forall k | 0 <= k < |cells| ensures CleanRow(cells)[k] == CleanCell(cells[k]) {
      CleanRowAt(cells, k);
    }
  }

  lemma {:induction false} CleanRowAt(cells: Row, j: nat)
    requires j < |cells|
    ensures CleanRow(cells)[j] == CleanCell(cells[j])
  {
    if j < |cells| - 1 {
      CleanRowAt(cells[..|cells| - 1], j);
    }
  }

  lemma CleanRowSnoc(cells: Row, j: nat)
    requires j < |cells|
    ensures CleanRow(cells[..j + 1]) == CleanRow(cells[..j]) + [CleanCell(cells[j])]
  {
    assert cells[..j + 1][..j] == cells[..j];
  }

  /** One row of the output, without its line break: the cleaned cells, each quoted if it holds a comma, a comma between two. */
  function RowText(cells: Row): string
  {
    CsvLine(CleanRow(cells))
  }

  function RowTexts(rows: Sheet): (r: seq<string>)
    ensures |r| == |rows|
  {
    seq(|rows|, i requires 0 <= i < |rows| => RowText(rows[i]))
  }

  /** The whole output: every row followed by "\n". */
  function SheetText(rows: Sheet): string
  {
    Printed(RowTexts(rows))
  }

  /** excel2csv: Workbook.getSheetAt throws for a sheet number out of range. */
  method Excel2Csv(wb: Workbook, sheetNumber: int) returns (r: Result<string>)
    ensures r.Ok? <==> 0 <= sheetNumber < |wb|
    ensures r.Ok? ==> r.value == SheetText(wb[sheetNumber])
  {
    if !(0 <= sheetNumber < |wb|) {
      return Err("IllegalArgumentException: Sheet index (" + IntText(sheetNumber) + ") is out of range");
    }
    var sheet := wb[sheetNumber];
    var csv := "";
    for i := 0 to |sheet|
      invariant csv == Printed(RowTexts(sheet)[..i])
    {
      csv := WriteLine(csv, sheet[i]);
      assert RowTexts(sheet)[..i + 1] == RowTexts(sheet)[..i] + [RowText(sheet[i])];
      PrintedSnoc(RowTexts(sheet)[..i], RowText(sheet[i]));
    }
    assert RowTexts(sheet)[..|sheet|] == RowTexts(sheet);
    return Ok(csv);
  }

  /** One row and its line break. */
  method WriteLine(before: string, cells: Row) returns (csv: string)
    ensures csv == before + RowText(cells) + "\n"
  {
    CleanRowAll(cells);
    csv := WriteRow(before, cells, CleanRow(cells));
    csv := csv + "\n";
  }

  /**
   * The inner loop of excel2csv: each cell cleaned and quoted, a delimiter
   * between two cells (the source appends it after every cell that has a
   * successor, which writes the same text).
   */
  method WriteRow(before: string, cells: Row, ghost clean: seq<string>) returns (csv: string)
    requires |clean| == |cells|
    requires forall k {:trigger CleanCell(cells[k])} :: 0 <= k < |cells| ==> clean[k] == CleanCell(cells[k])
    ensures csv == before + CsvLine(clean)
  {
    csv := before;
    for j := 0 to |cells|
      invariant csv == before + CsvLine(clean[..j])
    {
      var value := CleanCell(cells[j]);
      CsvLineSnoc(clean, j);
      if j > 0 {
        csv := csv + ",";
      }
      csv := AppendCell(csv, value);
    }
    assert clean[..|cells|] == clean;
  }

  /** One cell: enclosed in quotes when it holds the delimiter. */
  method AppendCell(before: string, value: string) returns (csv: string)
    ensures csv == before + QuoteIfComma(value)
  {
    if ',' in value {
      csv := before + ("\"" + value + "\"");
    } else {
      csv := before + value;
    }
  }

  lemma RowTextNoBreak(cells: Row)
    requires forall j :: 0 <= j < |cells| ==> '\r' !in cells[j]
    ensures NoLineBreak(RowText(cells))
  {
    var clean := CleanRow(cells);
    forall j | 0 <= j < |clean| ensures NoLineBreak(QuoteIfComma(clean[j])) {
      CleanRowAt(cells, j);
      CleanCellShape(cells[j], '\n');
      CleanCellShape(cells[j], '\r');
    }
    CsvLineNoBreak(clean);
  }

  /** Trimming only drops characters. */
  lemma TrimKeeps(s: string, c: char)
    requires c !in s
    ensures c !in Trim(s)
  {
    var a := TrimStartIndex(s, 0);
    assert Trim(s) == s[a..TrimEndIndex(s, a, |s|)];
  }

  lemma {:induction false} CsvLineNoBreak(fields: seq<string>)
    requires forall j :: 0 <= j < |fields| ==> NoLineBreak(QuoteIfComma(fields[j]))
    ensures NoLineBreak(CsvLine(fields))
  {
    if |fields| > 1 {
      CsvLineNoBreak(fields[..|fields| - 1]);
    }
  }

  /**
   * Reading the CSV text back, line by line and field by field, gives the
   * cleaned cells, as long as no cell holds a quote or a carriage return and
   * no row is empty (an empty row reads back as one empty field).
   */
  lemma ReadBack(rows: Sheet)
    requires forall i :: 0 <= i < |rows| ==> |rows[i]| > 0
    requires forall i, j :: 0 <= i < |rows| && 0 <= j < |rows[i]| ==> '"' !in rows[i][j] && '\r' !in rows[i][j]
    ensures ReadLines(SheetText(rows)) == RowTexts(rows)
    ensures forall i :: 0 <= i < |rows| ==> ParseFields(ReadLines(SheetText(rows))[i]) == Some(CleanRow(rows[i]))
  {
    forall i | 0 <= i < |rows| ensures NoLineBreak(RowTexts(rows)[i]) {
      RowTextNoBreak(rows[i]);
    }
    ReadPrinted(RowTexts(rows));
    forall i | 0 <= i < |rows| ensures ParseFields(RowText(rows[i])) == Some(CleanRow(rows[i])) {
      var clean := CleanRow(rows[i]);
      forall j | 0 <= j < |clean| ensures '"' !in clean[j] {
        CleanRowAt(rows[i], j);
        CleanCellShape(rows[i][j], '"');
      }
      ParseCsvLine(clean);
    }
  }

  datatype Generated = Generated(result: bool, csvName: string, csv: Option<string>)

  /**
   * generateDistributions: when the download fails it returns false and writes
   * nothing; otherwise the chosen sheet goes to `distributionName + ".csv"`.
   */
  method GenerateDistributions(distributionName: string, sheetNumber: int, download: Option<Workbook>)
    returns (r: Result<Generated>)
    ensures download.None? ==> r == Ok(Generated(false, distributionName + ".csv", None))
    ensures download.Some? ==> (r.Ok? <==> 0 <= sheetNumber < |download.value|)
    ensures download.Some? && r.Ok? ==>
      r.value == Generated(true, distributionName + ".csv", Some(SheetText(download.value[sheetNumber])))
  {
    if download.None? {
      return Ok(Generated(false, distributionName + ".csv", None));
    }
    var csv :- Excel2Csv(download.value, sheetNumber);
    return Ok(Generated(true, distributionName + ".csv", Some(csv)));
  }
}
