/**
 * Reading back what the generators write: the lines BufferedReader.readLine
 * returns for a text, and the comma-separated fields of one line as these
 * generators write them. A field may be enclosed in double quotes, which lets
 * it hold commas; a quote inside a field is never escaped.
 */
module CsvText {
  import opened Wrappers
  import opened Text

  // ---------------------------------------------------------------- lines

  /** The text a PrintStream or PrintWriter produces for println of each line in turn. */
  function Printed(lines: seq<string>): string
  {
    if lines == [] then "" else lines[0] + "\n" + Printed(lines[1..])
  }

  /** Printing one more line appends that line and its terminator. */
  lemma {:induction false} PrintedSnoc(lines: seq<string>, x: string)
    ensures Printed(lines + [x]) == Printed(lines) + x + "\n"
  {
    if lines != [] {
      assert (lines + [x])[1..] == lines[1..] + [x];
      PrintedSnoc(lines[1..], x);
    } else {
      assert Printed([x]) == x + "\n" + Printed([]);
    }
  }

  predicate IsLineBreak(c: char)
  {
    c == '\n' || c == '\r'
  }

  predicate NoLineBreak(s: string)
  {
    '\n' !in s && '\r' !in s
  }

  /** The first line terminator at or after `from`, or the end of the text. */
  function BreakIndex(s: string, from: nat): (r: nat)
    requires from <= |s|
    ensures from <= r <= |s|
    ensures forall j :: from <= j < r ==> !IsLineBreak(s[j])
    ensures r < |s| ==> IsLineBreak(s[r])
    decreases |s| - from
  {
    if from == |s| || IsLineBreak(s[from]) then from else BreakIndex(s, from + 1)
  }

  /**
   * BufferedReader.readLine until it returns null: a line ends at "\n", "\r"
   * or "\r\n"; a last line without a terminator is returned, an empty rest is not.
   */
  function ReadLines(s: string): (r: seq<string>)
    ensures forall i :: 0 <= i < |r| ==> NoLineBreak(r[i])
    decreases |s|
  {
    if s == [] then []
    else
      var k := BreakIndex(s, 0);
      assert NoLineBreak(s[..k]);
      if k == |s| then [s]
      else if s[k] == '\r' && k + 1 < |s| && s[k + 1] == '\n' then [s[..k]] + ReadLines(s[k + 2..])
      else [s[..k]] + ReadLines(s[k + 1..])
  }

  /** Reading a printed text gives back the printed lines, provided none of them holds a line break. */
  lemma {:induction false} ReadPrinted(lines: seq<string>)
    requires forall i :: 0 <= i < |lines| ==> NoLineBreak(lines[i])
    ensures ReadLines(Printed(lines)) == lines
  {
    if lines != [] {
      var a := lines[0];
      var s := Printed(lines);
      assert s == a + "\n" + Printed(lines[1..]);
      assert s[|a|] == '\n';
      assert forall j :: 0 <= j < |a| ==> s[j] == a[j];
      assert forall j :: 0 <= j < |a| ==> !IsLineBreak(s[j]);
      var k := BreakIndex(s, 0);
      assert k == |a|;
      assert s[..k] == a;
      assert s[k + 1..] == Printed(lines[1..]);
      ReadPrinted(lines[1..]);
      assert lines == [a] + lines[1..];
    }
  }

  // ---------------------------------------------------------------- fields

  /** The first occurrence of `c` at or after `from`. */
  function CharIndex(s: string, c: char, from: nat): (r: Option<nat>)
    ensures r.Some? ==> from <= r.value < |s| && s[r.value] == c
    ensures r.Some? ==> forall j :: from <= j < r.value ==> s[j] != c
    ensures r.None? ==> forall j :: from <= j < |s| ==> s[j] != c
    decreases |s| - from
  {
    if from >= |s| then None
    else if s[from] == c then Some(from)
    else CharIndex(s, c, from + 1)
  }

  /** A field written bare: it holds neither a comma nor a quote. */
  predicate Plain(f: string)
  {
    ',' !in f && '"' !in f
  }

  /**
   * The fields of a line: a field that starts with a quote runs to the next
   * quote, any other field to the next comma. None for a line no writer here
   * produces (an unclosed quote, a quote inside a bare field, text after a
   * closing quote).
   */
  function ParseFields(s: string): (r: Option<seq<string>>)
    ensures r.Some? ==> |r.value| >= 1
    decreases |s|
  {
    if |s| > 0 && s[0] == '"' then
      match CharIndex(s, '"', 1)
      case None => None
      case Some(k) =>
        if k + 1 == |s| then Some([s[1..k]])
        else if s[k + 1] != ',' then None
        else match ParseFields(s[k + 2..])
          case None => None
          case Some(rest) => Some([s[1..k]] + rest)
    else
      match CharIndex(s, ',', 0)
      case None => if '"' in s then None else Some([s])
      case Some(k) =>
        if '"' in s[..k] then None
        else match ParseFields(s[k + 1..])
          case None => None
          case Some(rest) => Some([s[..k]] + rest)
  }

  /** A bare field followed by a comma contributes itself and leaves the rest of the line. */
  lemma ParsePlainThen(f: string, rest: string)
    requires Plain(f)
    ensures ParseFields(f + "," + rest) ==
      (match ParseFields(rest) case None => None case Some(fs) => Some([f] + fs))
  {
    var s := f + "," + rest;
    assert s[|f|] == ',';
    assert forall j :: 0 <= j < |f| ==> s[j] == f[j];
    assert forall j :: 0 <= j < |f| ==> s[j] != ',' && s[j] != '"';
    if |f| > 0 { assert s[0] == f[0]; }
    assert CharIndex(s, ',', 0) == Some(|f|);
    assert s[..|f|] == f;
    assert s[|f| + 1..] == rest;
  }

  /** A bare field that ends the line. */
  lemma ParsePlainLast(f: string)
    requires Plain(f)
    ensures ParseFields(f) == Some([f])
  {
    if |f| > 0 { assert f[0] in f; }
  }

  /** A quoted field followed by a comma contributes its inside and leaves the rest of the line. */
  lemma ParseQuotedThen(f: string, rest: string)
    requires '"' !in f
    ensures ParseFields("\"" + f + "\"," + rest) ==
      (match ParseFields(rest) case None => None case Some(fs) => Some([f] + fs))
  {
    var s := "\"" + f + "\"," + rest;
    assert s[|f| + 1] == '"' && s[|f| + 2] == ',';
    assert forall j :: 1 <= j < |f| + 1 ==> s[j] == f[j - 1];
    assert forall j :: 1 <= j < |f| + 1 ==> s[j] != '"';
    assert CharIndex(s, '"', 1) == Some(|f| + 1);
    assert s[1..|f| + 1] == f;
    assert s[|f| + 3..] == rest;
  }

  /** A quoted field that ends the line. */
  lemma ParseQuotedLast(f: string)
    requires '"' !in f
    ensures ParseFields("\"" + f + "\"") == Some([f])
  {
    var s := "\"" + f + "\"";
    assert s[|f| + 1] == '"';
    assert forall j :: 1 <= j < |f| + 1 ==> s[j] == f[j - 1];
    assert forall j :: 1 <= j < |f| + 1 ==> s[j] != '"';
    assert CharIndex(s, '"', 1) == Some(|f| + 1);
    assert s[1..|f| + 1] == f;
  }

  // ---------------------------------------------------------------- one writer

  /** A field as Excel2CsvGenerator writes it: in quotes iff it contains the delimiter. */
  function QuoteIfComma(v: string): string
  {
    if ',' in v then "\"" + v + "\"" else v
  }

  /** The fields written one after the other, a comma between two of them. */
  function CsvLine(fields: seq<string>): string
  {
    if fields == [] then ""
    else if |fields| == 1 then QuoteIfComma(fields[0])
    else CsvLine(fields[..|fields| - 1]) + "," + QuoteIfComma(fields[|fields| - 1])
  }

  /** Writing one more field appends the delimiter, unless it is the first, and that field. */
  lemma CsvLineSnoc(fields: seq<string>, j: nat)
    requires j < |fields|
    ensures CsvLine(fields[..j + 1]) == CsvLine(fields[..j]) + (if j == 0 then "" else ",") + QuoteIfComma(fields[j])
  {
    assert fields[..j + 1][..j] == fields[..j];
  }

  /** Read from the front: the first field, the delimiter, the rest of the line. */
  lemma {:induction false} CsvLineCons(fields: seq<string>)
    requires |fields| >= 2
    ensures CsvLine(fields) == QuoteIfComma(fields[0]) + "," + CsvLine(fields[1..])
  {
    var n := |fields|;
    var init := fields[..n - 1];
    assert fields[1..][..n - 2] == init[1..];
    if n > 2 {
      CsvLineCons(init);
    } else {
      assert init == [fields[0]] && fields[1..] == [fields[1]];
    }
  }

  /**
   * The quoting is enough to read the fields back, as long as no field holds
   * a quote: with one, the line may read back differently (section 2 of
   * RFC 4180 would double it).
   */
  lemma {:induction false} ParseCsvLine(fields: seq<string>)
    requires |fields| >= 1
    requires forall i :: 0 <= i < |fields| ==> '"' !in fields[i]
    ensures ParseFields(CsvLine(fields)) == Some(fields)
  {
    var f := fields[0];
    if |fields| == 1 {
      assert fields == [f];
      if ',' in f { ParseQuotedLast(f); } else { ParsePlainLast(f); }
    } else {
      var rest := CsvLine(fields[1..]);
      assert ParseFields(rest) == Some(fields[1..]) by { ParseCsvLine(fields[1..]); }
      assert CsvLine(fields) == QuoteIfComma(f) + "," + rest by { CsvLineCons(fields); }
      if ',' in f {
        assert QuoteIfComma(f) + "," + rest == "\"" + f + "\"," + rest;
        ParseQuotedThen(f, rest);
      } else {
        ParsePlainThen(f, rest);
      }
      assert fields == [f] + fields[1..];
    }
  }
}
