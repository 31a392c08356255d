/**
 * WappenrolleGenerator: the municipal roll of arms of Schleswig-Holstein. The
 * export is an XML document, read here as the stream of events a pull parser
 * delivers; every record becomes a coat of arms, a flag, or both, each as a
 * JSON object and as an RDF/XML fragment. The generator writes either the
 * coats of arms or the flags, as a JSON array and as an RDF file. The table
 * from roll number to municipality URI is a list of lines.
 */
module WappenrolleGenerator {
  import opened Wrappers
  import opened Text
  import opened Json
  import opened CsvText

  // ---------------------------------------------------------------- splitting

  /** The pieces of `s` between the occurrences of `c`, empty ones included. */
  function Pieces(s: string, c: char): (r: seq<string>)
    ensures |r| >= 1
    ensures forall i :: 0 <= i < |r| ==> c !in r[i]
  {
    if s == [] then [""]
    else
      var rest := Pieces(s[1..], c);
      if s[0] == c then [""] + rest
      else
        assert c !in rest[0];
        [[s[0]] + rest[0]] + rest[1..]
  }

  /** A text without the separator is a single piece. */
  lemma {:induction false} PiecesOfPlain(s: string, c: char)
    requires c !in s
    ensures Pieces(s, c) == [s]
  {
    if s != [] {
      assert c !in s[1..];
      PiecesOfPlain(s[1..], c);
      assert [s[0]] + s[1..] == s;
    }
  }

  /** A separator splits the text into the pieces before it and the pieces after it. */
  lemma {:induction false} PiecesAround(a: string, c: char, b: string)
    ensures Pieces(a + [c] + b, c) == Pieces(a, c) + Pieces(b, c)
  {
    var s := a + [c] + b;
    if a == [] {
      assert s == [c] + b && s[0] == c && s[1..] == b;
      PiecesUnfold(s, c);
    } else {
      assert s[0] == a[0] && s[1..] == a[1..] + [c] + b;
      PiecesAround(a[1..], c, b);
      PiecesUnfold(s, c);
      PiecesUnfold(a, c);
      if a[0] != c {
        PiecesCons(a[0], Pieces(a[1..], c), Pieces(b, c));
      }
    }
  }

  lemma PiecesUnfold(s: string, c: char)
    requires s != []
    ensures var rest := Pieces(s[1..], c);
      Pieces(s, c) == if s[0] == c then [""] + rest else [[s[0]] + rest[0]] + rest[1..]
  {
  }

  lemma PiecesCons(x: char, p: seq<string>, q: seq<string>)
    requires p != []
    ensures [[x] + (p + q)[0]] + (p + q)[1..] == [[x] + p[0]] + p[1..] + q
  {
    assert (p + q)[0] == p[0] && (p + q)[1..] == p[1..] + q;
  }

  /** The pieces with the trailing empty ones removed. */
  function DropTrailingEmpty(ps: seq<string>): (r: seq<string>)
    ensures r <= ps
    ensures r != [] ==> r[|r| - 1] != ""
    ensures forall i :: |r| <= i < |ps| ==> ps[i] == ""
  {
    if ps != [] && ps[|ps| - 1] == "" then DropTrailingEmpty(ps[..|ps| - 1]) else ps
  }

  /**
   * String.split with a one-character pattern: the text itself when the
   * character does not occur, otherwise its pieces without the trailing empty ones.
   */
  function Split(s: string, c: char): (r: seq<string>)
    ensures c !in s ==> r == [s]
    ensures c in s ==> r <= Pieces(s, c) && (r != [] ==> r[|r| - 1] != "")
    ensures c in s ==> forall i :: |r| <= i < |Pieces(s, c)| ==> Pieces(s, c)[i] == ""
  {
    if c !in s then [s] else DropTrailingEmpty(Pieces(s, c))
  }

  // ---------------------------------------------------------------- dates

  /**
   * convertDate: null for a null or blank text; otherwise the trimmed text split
   * at its dots, printed as the third, second and first piece joined by
   * hyphens. Fewer than three pieces throw an ArrayIndexOutOfBoundsException.
   */
  function ConvertDate(german: Option<string>): (r: Result<Option<string>>)
    ensures r == Ok(None) <==> TrimToNull(german).None?
    ensures r.Err? <==> TrimToNull(german).Some? && |Split(Trim(german.value), '.')| < 3
    ensures r.Ok? && r.value.Some? ==>
      var parts := Split(Trim(german.value), '.');
      |parts| >= 3 && r.value.value == parts[2] + "-" + parts[1] + "-" + parts[0]
  {
    if TrimToNull(german).None? then Ok(None)
    else
      var parts := Split(Trim(german.value), '.');
      if |parts| < 3 then Err("ArrayIndexOutOfBoundsException: Index " + IntText(|parts|) + " out of bounds for length " + IntText(|parts|))
      else Ok(Some(parts[2] + "-" + parts[1] + "-" + parts[0]))
  }

  /** A text whose first and last characters are above the space is its own trim, and not null. */
  lemma TrimKeeps(s: string)
    requires s != [] && s[0] > ' ' && s[|s| - 1] > ' '
    ensures Trim(s) == s && TrimToNull(Some(s)) == Some(s)
  {
  }

  /** "d.m.y" splits into its three pieces when none holds a dot and the last is not empty. */
  lemma SplitDate(d: string, m: string, y: string)
    requires '.' !in d && '.' !in m && '.' !in y && y != []
    ensures Split(d + "." + m + "." + y, '.') == [d, m, y]
  {
    var s := d + "." + m + "." + y;
    assert s == d + ['.'] + (m + ['.'] + y);
    PiecesAround(d, '.', m + ['.'] + y);
    PiecesAround(m, '.', y);
    PiecesOfPlain(d, '.');
    PiecesOfPlain(m, '.');
    PiecesOfPlain(y, '.');
    assert s[|d|] == '.';
  }

  /**
   * A German date "d.m.y" becomes the ISO order "y-m-d", as long as no piece holds
   * a dot, the year is not empty and the text has nothing to trim.
   */
  lemma GermanDateToIso(d: string, m: string, y: string)
    requires '.' !in d && '.' !in m && '.' !in y
    requires y != [] && y[|y| - 1] > ' ' && (d != [] ==> d[0] > ' ')
    ensures ConvertDate(Some(d + "." + m + "." + y)) == Ok(Some(y + "-" + m + "-" + d))
  {
    var s := d + "." + m + "." + y;
    assert s[|s| - 1] == y[|y| - 1];
    assert s[0] == if d == [] then '.' else d[0];
    TrimKeeps(s);
    SplitDate(d, m, y);
  }

  /** The examples the generator's tests check: null, empty and blank dates are null... */
  lemma ConvertDateBlank()
    ensures ConvertDate(None) == Ok(None)
    ensures ConvertDate(Some("")) == Ok(None)
    ensures ConvertDate(Some("   ")) == Ok(None)
  {
    assert TrimStartIndex("   ", 0) == 3;
  }

  /** ...and "08.05.2020" is "2020-05-08". */
  lemma ConvertDateExample()
    ensures ConvertDate(Some("08.05.2020")) == Ok(Some("2020-05-08"))
  {
    GermanDateToIso("08", "05", "2020");
    ExampleTexts();
  }

  lemma ExampleTexts()
    ensures "08" + "." + "05" + "." + "2020" == "08.05.2020"
    ensures "2020" + "-" + "05" + "-" + "08" == "2020-05-08"
  {
  }

  /** A date without two dots, or one whose year is missing, throws. */
  lemma ConvertDateThrows()
    ensures ConvertDate(Some("2020")).Err?
    ensures ConvertDate(Some("08.05.")).Err?
  {
    NoDotThrows("2020");
    MissingYearThrows("08", "05");
    assert "08" + "." + "05" + "." == "08.05.";
  }

  /** A text with nothing to trim and no dot at all throws. */
  lemma NoDotThrows(s: string)
    requires s != [] && s[0] > ' ' && s[|s| - 1] > ' ' && '.' !in s
    ensures ConvertDate(Some(s)).Err?
  {
    TrimKeeps(s);
  }

  /** "d.m." throws: the empty year is dropped, which leaves two pieces. */
  lemma MissingYearThrows(d: string, m: string)
    requires '.' !in d && '.' !in m && m != [] && (d != [] ==> d[0] > ' ')
    ensures ConvertDate(Some(d + "." + m + ".")).Err?
  {
    var s := d + "." + m + ".";
    assert s[|s| - 1] == '.';
    assert s[0] == if d == [] then '.' else d[0];
    TrimKeeps(s);
    assert s == d + ['.'] + (m + ['.'] + "");
    PiecesAround(d, '.', m + ['.'] + "");
    PiecesAround(m, '.', "");
    PiecesOfPlain(d, '.');
    PiecesOfPlain(m, '.');
    assert Pieces(s, '.') == [d, m, ""];
    assert s[|d|] == '.';
    assert DropTrailingEmpty([d, m, ""]) == [d, m] by {
      assert [d, m, ""][..2] == [d, m];
    }
  }

  // ---------------------------------------------------------------- XML escaping

  /** The two escapings of Commons Text: escapeXml10 and escapeXml11. */
  datatype XmlVersion = Xml10 | Xml11

  /** Characters the escaping removes: those the XML version does not allow. */
  predicate Removed(c: char, v: XmlVersion)
  {
    match v
    case Xml10 =>
      c <= '\U{0008}' || c == '\U{000B}' || c == '\U{000C}' || ('\U{000E}' <= c <= '\U{001F}')
      || c == '\U{FFFE}' || c == '\U{FFFF}'
    case Xml11 => c == '\0' || c == '\U{FFFE}' || c == '\U{FFFF}'
  }

  /** Characters the escaping writes as a decimal character reference. */
  predicate Referenced(c: char, v: XmlVersion)
  {
    ('\U{007F}' <= c <= '\U{0084}') || ('\U{0086}' <= c <= '\U{009F}') ||
    (v == Xml11 && (('\U{0001}' <= c <= '\U{0008}') || c == '\U{000B}' || c == '\U{000C}' || ('\U{000E}' <= c <= '\U{001F}')))
  }

  function EscapeChar(c: char, v: XmlVersion): string
  {
    if c == '"' then "&quot;"
    else if c == '&' then "&amp;"
    else if c == '<' then "&lt;"
    else if c == '>' then "&gt;"
    else if c == '\'' then "&apos;"
    else if Removed(c, v) then ""
    else if Referenced(c, v) then "&#" + Digits(c as int) + ";"
    else [c]
  }

  /** StringEscapeUtils.escapeXml10 / escapeXml11 on a non-null text. */
  function Escape(s: string, v: XmlVersion): (r: string)
    ensures forall i :: 0 <= i < |r| ==> r[i] !in "<>\"'"
  {
    if s == [] then "" else EscapeChar(s[0], v) + Escape(s[1..], v)
  }

  /** The escaping of a possibly null text: null stays null. */
  function EscapeOpt(s: Option<string>, v: XmlVersion): Option<string>
  {
    if s.None? then None else Some(Escape(s.value, v))
  }

  /** The first index at or after `from` that is not a digit. */
  function DigitsEnd(s: string, from: nat): (r: nat)
    requires from <= |s|
    ensures from <= r <= |s| && AllDigits(s[from..r])
    ensures r < |s| ==> !IsDigit(s[r])
    decreases |s| - from
  {
    if from < |s| && IsDigit(s[from]) then
      var r := DigitsEnd(s, from + 1);
      assert s[from..r] == [s[from]] + s[from + 1..r];
      r
    else from
  }

  /** A Unicode scalar value. */
  predicate IsScalar(n: int)
  {
    0 <= n < 0xD800 || 0xE000 <= n < 0x11_0000
  }

  /** The character a leading entity or decimal reference of `t` stands for, and its length. */
  function Entity(t: string): (r: Option<(char, nat)>)
    ensures r.Some? ==> 0 < r.value.1 <= |t|
  {
    if StartsWith(t, "&quot;") then Some(('"', 6))
    else if StartsWith(t, "&amp;") then Some(('&', 5))
    else if StartsWith(t, "&lt;") then Some(('<', 4))
    else if StartsWith(t, "&gt;") then Some(('>', 4))
    else if StartsWith(t, "&apos;") then Some(('\'', 6))
    else if StartsWith(t, "&#") then
      var e := DigitsEnd(t, 2);
      if 2 < e < |t| && t[e] == ';' && IsScalar(Value(t[2..e])) then Some((Value(t[2..e]) as char, e + 1))
      else None
    else None
  }

  /** An XML reader's view of escaped text: the five entities and decimal references become characters again. */
  function Unescape(t: string): string
    decreases |t|
  {
    if t == [] then ""
    else match Entity(t)
      case Some((c, n)) => [c] + Unescape(t[n..])
      case None => [t[0]] + Unescape(t[1..])
  }

  /** A text that differs from `p` at some index does not start with `p`. */
  lemma NotStart(t: string, p: string, k: nat)
    requires k < |p| && k < |t| && t[k] != p[k]
    ensures !StartsWith(t, p)
  {
    if |p| <= |t| {
      assert t[0..|p|][k] == t[k];
    }
  }

  /** A decimal reference is read as the character it numbers. */
  lemma ReferenceEntity(c: char, rest: string)
    ensures Entity("&#" + Digits(c as int) + ";" + rest) == Some((c, |Digits(c as int)| + 3))
  {
    var d := Digits(c as int);
    var t := "&#" + d + ";" + rest;
    var e := 2 + |d|;
    assert t[0] == '&' && t[1] == '#' && t[e] == ';';
    assert t[2..e] == d;
    assert DigitsEnd(t, 2) == e by {
      DigitsEndAt(t, d);
    }
    assert Value(d) == c as int by {
      ValueOfDigits(c as int);
    }
    EntityOfReference(t, e);
  }

  /** A text starting with "&#", digits up to `e` and a ';' there is the reference to the character they number. */
  lemma EntityOfReference(t: string, e: nat)
    requires 2 < e < |t| && t[0] == '&' && t[1] == '#' && t[e] == ';'
    requires DigitsEnd(t, 2) == e && IsScalar(Value(t[2..e]))
    ensures Entity(t) == Some((Value(t[2..e]) as char, e + 1))
  {
    NoNamedEntity(t);
    assert t[..2] == "&#";
  }

  /** A text whose second character is '#' starts with none of the five named entities. */
  lemma NoNamedEntity(t: string)
    requires |t| >= 2 && t[1] == '#'
    ensures !StartsWith(t, "&quot;") && !StartsWith(t, "&amp;") && !StartsWith(t, "&lt;")
    ensures !StartsWith(t, "&gt;") && !StartsWith(t, "&apos;")
  {
    NotStart(t, "&quot;", 1);
    NotStart(t, "&amp;", 1);
    NotStart(t, "&lt;", 1);
    NotStart(t, "&gt;", 1);
    NotStart(t, "&apos;", 1);
  }

  /** The digits after "&#" run up to the ';' that follows them. */
  lemma DigitsEndAt(t: string, d: string)
    requires |d| > 0 && AllDigits(d) && 2 + |d| < |t| && t[2..2 + |d|] == d && t[2 + |d|] == ';'
    ensures DigitsEnd(t, 2) == 2 + |d|
  {
    var e := DigitsEnd(t, 2);
    assert forall k :: 2 <= k < e ==> IsDigit(t[k]) by {
      forall k | 2 <= k < e ensures IsDigit(t[k]) {
        assert t[2..e][k - 2] == t[k];
      }
    }
    assert forall k :: 2 <= k < 2 + |d| ==> IsDigit(t[k]) by {
      forall k | 2 <= k < 2 + |d| ensures IsDigit(t[k]) {
        assert t[2..2 + |d|][k - 2] == t[k];
      }
    }
  }

  /** The leading entity of an escaped character is that character. */
  lemma EscapedEntity(c: char, v: XmlVersion, rest: string)
    requires !Removed(c, v)
    ensures var t := EscapeChar(c, v) + rest;
      t != [] &&
      (Entity(t).Some? ==> Entity(t).value == (c, |EscapeChar(c, v)|)) &&
      (Entity(t).None? ==> EscapeChar(c, v) == [c])
  {
    var t := EscapeChar(c, v) + rest;
    if c == '"' {
    } else if c == '&' {
      NotStart(t, "&quot;", 1);
    } else if c == '<' {
      NotStart(t, "&quot;", 1);
      NotStart(t, "&amp;", 1);
    } else if c == '>' {
      NotStart(t, "&quot;", 1);
      NotStart(t, "&amp;", 1);
      NotStart(t, "&lt;", 1);
    } else if c == '\'' {
      NotStart(t, "&quot;", 1);
      NotStart(t, "&amp;", 2);
      NotStart(t, "&lt;", 1);
      NotStart(t, "&gt;", 1);
    } else if Referenced(c, v) {
      ReferenceEntity(c, rest);
    } else {
      assert t[0] == c;
      assert !StartsWith(t, "&#") && !StartsWith(t, "&quot;") && !StartsWith(t, "&amp;") by {
        assert t[0] != '&';
        NotStart(t, "&quot;", 0);
        NotStart(t, "&amp;", 0);
        NotStart(t, "&#", 0);
      }
      NotStart(t, "&lt;", 0);
      NotStart(t, "&gt;", 0);
      NotStart(t, "&apos;", 0);
    }
  }

  /** Unescaping one escaped character gives it back, whatever follows. */
  lemma UnescapeChar(c: char, v: XmlVersion, rest: string)
    requires !Removed(c, v)
    ensures Unescape(EscapeChar(c, v) + rest) == [c] + Unescape(rest)
  {
    var t := EscapeChar(c, v) + rest;
    EscapedEntity(c, v, rest);
    assert t[|EscapeChar(c, v)|..] == rest;
  }

  /**
   * Escaped text reads back as the original, as long as it holds no character
   * the escaping removes.
   */
  lemma {:induction false} UnescapeEscape(s: string, v: XmlVersion)
    requires forall i :: 0 <= i < |s| ==> !Removed(s[i], v)
    ensures Unescape(Escape(s, v)) == s
  {
    if s != [] {
      UnescapeEscape(s[1..], v);
      UnescapeChar(s[0], v, Escape(s[1..], v));
      assert [s[0]] + s[1..] == s;
    }
  }

  // ---------------------------------------------------------------- geocoding

  /** The roll number of a line of the geocoding table: the text before the first comma, 0 when it is no number. */
  function LineId(line: string): int
  {
    ToInt(Some(SubstringBefore(line, ",")))
  }

  /** The municipality URI of a line: the text after the first comma. */
  function LineUri(line: string): string
  {
    SubstringAfter(line, ",")
  }

  predicate Kept(line: string)
  {
    LineId(line) > 0 && LineUri(line) != ""
  }

  /** readId2Geocoding as a function of the lines read: a later line for the same number wins. */
  function Geocoding(lines: seq<string>): (r: map<int, string>)
    ensures forall k :: k in r ==> k > 0 && r[k] != ""
  {
    if lines == [] then map[]
    else
      var g := Geocoding(lines[..|lines| - 1]);
      var line := lines[|lines| - 1];
      if Kept(line) then g[LineId(line) := LineUri(line)] else g
  }

  /** One more line read into a table that already holds some entries. */
  lemma GeocodingSnoc(m: map<int, string>, lines: seq<string>, i: nat)
    requires i < |lines|
    ensures var g := m + Geocoding(lines[..i]);
      m + Geocoding(lines[..i + 1]) == if Kept(lines[i]) then g[LineId(lines[i]) := LineUri(lines[i])] else g
  {
    assert lines[..i + 1][..i] == lines[..i];
  }

  /** Line `line` names `k` and is kept. */
  predicate Names(line: string, k: int)
  {
    Kept(line) && LineId(line) == k
  }

  /** A line of the table as the loop uses it: its number and URI when it is kept. */
  function LineEntry(line: string): Option<(int, string)>
  {
    if Kept(line) then Some((LineId(line), LineUri(line))) else None
  }

  function LineEntries(lines: seq<string>): (r: seq<Option<(int, string)>>)
    ensures |r| == |lines| && forall i :: 0 <= i < |lines| ==> r[i] == LineEntry(lines[i])
  {
    seq(|lines|, i requires 0 <= i < |lines| => LineEntry(lines[i]))
  }

  /** The table built from entries already parsed, a later entry winning. */
  function Table(es: seq<Option<(int, string)>>): map<int, string>
  {
    if es == [] then map[]
    else
      var g := Table(es[..|es| - 1]);
      match es[|es| - 1]
      case None => g
      case Some(p) => g[p.0 := p.1]
  }

  lemma {:induction false} GeocodingTable(lines: seq<string>)
    ensures Geocoding(lines) == Table(LineEntries(lines))
  {
    if lines != [] {
      var n := |lines| - 1;
      GeocodingTable(lines[..n]);
      assert LineEntries(lines)[..n] == LineEntries(lines[..n]);
    }
  }

  /** Entry `i` names `k`. */
  predicate EntryNames(es: seq<Option<(int, string)>>, i: int, k: int)
    requires 0 <= i < |es|
  {
    es[i].Some? && es[i].value.0 == k
  }

  lemma {:induction false} TableHas(es: seq<Option<(int, string)>>, k: int)
    ensures k in Table(es) <==> exists i :: 0 <= i < |es| && EntryNames(es, i, k)
  {
    if es != [] {
      var n := |es| - 1;
      var init := es[..n];
      TableHas(init, k);
      if k in Table(es) && !EntryNames(es, n, k) {
        var i :| 0 <= i < |init| && EntryNames(init, i, k);
        assert EntryNames(es, i, k);
      }
      if exists i :: 0 <= i < |es| && EntryNames(es, i, k) {
        var i :| 0 <= i < |es| && EntryNames(es, i, k);
        if i < n {
          assert EntryNames(init, i, k);
        }
      }
    }
  }

  lemma {:induction false} TableLastWins(es: seq<Option<(int, string)>>, i: nat, k: int)
    requires i < |es| && EntryNames(es, i, k)
    requires forall j :: i < j < |es| ==> !EntryNames(es, j, k)
    ensures k in Table(es) && Table(es)[k] == es[i].value.1
  {
    var n := |es| - 1;
    var init := es[..n];
    if i < n {
      assert !EntryNames(es, n, k);
      forall j | i < j < |init|
        ensures !EntryNames(init, j, k)
      {
        assert !EntryNames(es, j, k);
      }
      TableLastWins(init, i, k);
    }
  }

  /** A number is in the table iff some kept line names it. */
  lemma GeocodingHas(lines: seq<string>, k: int)
    ensures k in Geocoding(lines) <==> exists i :: 0 <= i < |lines| && Names(lines[i], k)
  {
    var es := LineEntries(lines);
    GeocodingTable(lines);
    TableHas(es, k);
    if k in Geocoding(lines) {
      var i :| 0 <= i < |es| && EntryNames(es, i, k);
      assert Names(lines[i], k);
    }
    if exists i :: 0 <= i < |lines| && Names(lines[i], k) {
      var i :| 0 <= i < |lines| && Names(lines[i], k);
      assert EntryNames(es, i, k);
    }
  }

  /** Line `i` is the last kept line naming `k`. */
  predicate LastFor(lines: seq<string>, i: nat, k: int)
    requires i < |lines|
  {
    Names(lines[i], k) && forall j :: i < j < |lines| ==> !Names(lines[j], k)
  }

  /** The number then maps to the URI of the last kept line that names it. */
  lemma GeocodingLastWins(lines: seq<string>, i: nat, k: int)
    requires i < |lines| && LastFor(lines, i, k)
    ensures k in Geocoding(lines) && Geocoding(lines)[k] == LineUri(lines[i])
  {
    var es := LineEntries(lines);
    GeocodingTable(lines);
    forall j | i < j < |es|
      ensures !EntryNames(es, j, k)
    {
      assert !Names(lines[j], k);
    }
    TableLastWins(es, i, k);
  }

  // ---------------------------------------------------------------- parser events

  /** The parser events the generator looks at; every other kind is ignored. */
  datatype Event =
    | StartElement(name: string)
    | EndElement
    | Characters(text: string)
    | OtherEvent

  /** XMLStreamReader.isWhiteSpace: character data made of XML white space only. */
  predicate WhiteSpace(text: string)
  {
    forall i :: 0 <= i < |text| ==> text[i] in " \t\n\r"
  }

  /** A record of the export: its element texts by element name. */
  type Entry = map<string, string>

  /**
   * The variables of the event loop: the record being assembled, the name of
   * the last element started, the text gathered since then, and the records
   * already complete.
   */
  datatype Reader = Reader(entry: Option<Entry>, tag: Option<string>, text: string, done: seq<Entry>)

  const Begin: Reader := Reader(None, None, "", [])

  /** The records complete once the current one is closed too. */
  function Closed(st: Reader): seq<Entry>
  {
    if st.entry.Some? then st.done + [st.entry.value] else st.done
  }

  /**
   * One event: an ID start element closes the current record and opens an empty
   * one; an end element stores the gathered text under the last started name;
   * character data that is not white space is gathered.
   */
  function Step(st: Reader, e: Event): Reader
  {
    match e
    case StartElement(name) =>
      if name == "ID" then Reader(Some(map[]), Some(name), "", Closed(st))
      else st.(tag := Some(name), text := "")
    case EndElement =>
      if st.tag.Some? && st.entry.Some? then st.(entry := Some(st.entry.value[st.tag.value := st.text])) else st
    case Characters(t) =>
      if WhiteSpace(t) then st else st.(text := st.text + t)
    case OtherEvent => st
  }

  function ReadFrom(st: Reader, events: seq<Event>): Reader
  {
    if events == [] then st else Step(ReadFrom(st, events[..|events| - 1]), events[|events| - 1])
  }

  /** The records of the whole document, the last one closed after the loop. */
  function Entries(events: seq<Event>): seq<Entry>
  {
    Closed(ReadFrom(Begin, events))
  }

  lemma {:induction false} ReadFromAppend(st: Reader, a: seq<Event>, b: seq<Event>)
    ensures ReadFrom(st, a + b) == ReadFrom(ReadFrom(st, a), b)
  {
    if b != [] {
      assert (a + b)[..|a + b| - 1] == a + b[..|b| - 1];
      ReadFromAppend(st, a, b[..|b| - 1]);
    } else {
      assert a + b == a;
    }
  }

  lemma ReadFromSplit(st: Reader, events: seq<Event>, a: seq<Event>, b: seq<Event>)
    requires events == a + b
    ensures ReadFrom(st, events) == ReadFrom(ReadFrom(st, a), b)
  {
    ReadFromAppend(st, a, b);
  }

  /** The number of ID start elements. */
  function IdCount(events: seq<Event>): nat
  {
    if events == [] then 0
    else IdCount(events[..|events| - 1]) + if events[|events| - 1] == StartElement("ID") then 1 else 0
  }

  /** There is one record per ID start element. */
  lemma {:induction false} OneEntryPerId(events: seq<Event>)
    ensures |Entries(events)| == IdCount(events)
    ensures ReadFrom(Begin, events).entry.None? <==> IdCount(events) == 0
  {
    if events != [] {
      OneEntryPerId(events[..|events| - 1]);
    }
  }

  /** Records, once complete, stay complete and in order. */
  lemma {:induction false} DoneGrows(events: seq<Event>, i: nat)
    requires i <= |events|
    ensures ReadFrom(Begin, events[..i]).done <= ReadFrom(Begin, events).done
    decreases |events| - i
  {
    if i < |events| {
      var n := |events| - 1;
      if i < n {
        assert events[..n][..i] == events[..i];
        DoneGrows(events[..n], i);
      } else {
        assert events[..n] == events[..i];
      }
    } else {
      assert events[..i] == events;
    }
  }

  // ---------------------------------------------------------------- documents

  /** One field of a record as (element name, text). */
  type Field = (string, string)

  /** A record as the export lays it out: its ID first, no second ID, and texts that are not white space. */
  predicate WellFormed(r: seq<Field>)
  {
    |r| >= 1 && r[0].0 == "ID" &&
    (forall i :: 1 <= i < |r| ==> r[i].0 != "ID") &&
    forall i :: 0 <= i < |r| ==> !WhiteSpace(r[i].1)
  }

  /** The map of a record's fields, a later field of the same name winning. */
  function Build(r: seq<Field>): (m: Entry)
    ensures r != [] ==> r[|r| - 1].0 in m && m[r[|r| - 1].0] == r[|r| - 1].1
  {
    if r == [] then map[] else Build(r[..|r| - 1])[r[|r| - 1].0 := r[|r| - 1].1]
  }

  function FieldEvents(f: Field): seq<Event>
  {
    [StartElement(f.0), Characters(f.1), EndElement]
  }

  function FieldsEvents(r: seq<Field>): seq<Event>
  {
    if r == [] then [] else FieldsEvents(r[..|r| - 1]) + FieldEvents(r[|r| - 1])
  }

  /** A record's events: the record element around its fields. */
  function RecordEvents(record: string, r: seq<Field>): seq<Event>
  {
    [StartElement(record)] + FieldsEvents(r) + [EndElement]
  }

  function RecordsEvents(record: string, rs: seq<seq<Field>>): seq<Event>
  {
    if rs == [] then [] else RecordsEvents(record, rs[..|rs| - 1]) + RecordEvents(record, rs[|rs| - 1])
  }

  /** The events of a document: the root element around its records. */
  function Document(root: string, record: string, rs: seq<seq<Field>>): seq<Event>
  {
    [StartElement(root)] + RecordsEvents(record, rs) + [EndElement]
  }

  function Builds(rs: seq<seq<Field>>): (r: seq<Entry>)
    ensures |r| == |rs|
  {
    if rs == [] then [] else Builds(rs[..|rs| - 1]) + [Build(rs[|rs| - 1])]
  }

  lemma ReadOne(st: Reader, e: Event)
    ensures ReadFrom(st, [e]) == Step(st, e)
  {
    assert [e][..0] == [];
  }

  lemma ReadThree(st: Reader, a: Event, b: Event, c: Event)
    ensures ReadFrom(st, [a, b, c]) == Step(Step(Step(st, a), b), c)
  {
    assert [a, b, c][..2] == [a, b];
    assert [a, b][..1] == [a];
    ReadOne(st, a);
  }

  /** An ID field closes the current record and opens one holding only the ID. */
  lemma IdField(st: Reader, t: string)
    requires !WhiteSpace(t)
    ensures ReadFrom(st, FieldEvents(("ID", t))) == Reader(Some(map["ID" := t]), Some("ID"), t, Closed(st))
  {
    ReadThree(st, StartElement("ID"), Characters(t), EndElement);
    var s1 := Step(st, StartElement("ID"));
    assert s1 == Reader(Some(map[]), Some("ID"), "", Closed(st));
    assert Step(s1, Characters(t)) == s1.(text := t) by {
      assert "" + t == t;
    }
  }

  /** Any other field is stored in the open record. */
  lemma OtherField(st: Reader, f: Field)
    requires st.entry.Some? && f.0 != "ID" && !WhiteSpace(f.1)
    ensures ReadFrom(st, FieldEvents(f)) ==
      st.(entry := Some(st.entry.value[f.0 := f.1]), tag := Some(f.0), text := f.1)
  {
    ReadThree(st, StartElement(f.0), Characters(f.1), EndElement);
    var s1 := Step(st, StartElement(f.0));
    assert s1 == st.(tag := Some(f.0), text := "");
    assert Step(s1, Characters(f.1)) == s1.(text := f.1) by {
      assert "" + f.1 == f.1;
    }
  }

  /** The state after a record's fields: that record open, the one before it closed. */
  lemma {:induction false} ReadFields(st: Reader, r: seq<Field>)
    requires WellFormed(r)
    ensures ReadFrom(st, FieldsEvents(r)) ==
      Reader(Some(Build(r)), Some(r[|r| - 1].0), r[|r| - 1].1, Closed(st))
  {
    var n := |r| - 1;
    var f := r[n];
    if n == 0 {
      assert r[..0] == [];
      assert FieldsEvents(r) == FieldEvents(f) by {
        assert FieldsEvents(r) == FieldsEvents([]) + FieldEvents(f);
      }
      assert Build(r) == map[][f.0 := f.1] by {
        assert Build(r) == Build(r[..0])[f.0 := f.1];
      }
      IdField(st, f.1);
    } else {
      var init := r[..n];
      assert WellFormed(init);
      ReadFields(st, init);
      var mid := ReadFrom(st, FieldsEvents(init));
      assert FieldsEvents(r) == FieldsEvents(init) + FieldEvents(f);
      ReadFromAppend(st, FieldsEvents(init), FieldEvents(f));
      OtherField(mid, f);
      assert Build(r) == Build(init)[f.0 := f.1];
    }
  }

  /** Closing the record element stores the last field's text again, which changes nothing. */
  lemma {:induction false} ReadRecord(st: Reader, record: string, r: seq<Field>)
    requires WellFormed(r) && record != "ID"
    ensures ReadFrom(st, RecordEvents(record, r)) ==
      Reader(Some(Build(r)), Some(r[|r| - 1].0), r[|r| - 1].1, Closed(st))
  {
    var open := Step(st, StartElement(record));
    var fields := [StartElement(record)] + FieldsEvents(r);
    var mid := ReadFrom(open, FieldsEvents(r));
    assert mid == Reader(Some(Build(r)), Some(r[|r| - 1].0), r[|r| - 1].1, Closed(st)) by {
      assert Closed(open) == Closed(st);
      ReadFields(open, r);
    }
    assert ReadFrom(st, fields) == mid by {
      ReadOne(st, StartElement(record));
      ReadFromAppend(st, [StartElement(record)], FieldsEvents(r));
    }
    assert RecordEvents(record, r) == fields + [EndElement];
    ReadFromAppend(st, fields, [EndElement]);
    ReadOne(mid, EndElement);
    assert Step(mid, EndElement) == mid by {
      var last := r[|r| - 1];
      assert Build(r)[last.0 := last.1] == Build(r);
    }
  }

  /** After the records the last one is open and the ones before it are closed. */
  lemma {:induction false} ReadRecords(root: string, record: string, rs: seq<seq<Field>>)
    requires root != "ID" && record != "ID"
    requires forall i :: 0 <= i < |rs| ==> WellFormed(rs[i])
    ensures var st := ReadFrom(Begin.(tag := Some(root)), RecordsEvents(record, rs));
      Closed(st) == Builds(rs) &&
      (rs == [] ==> st == Begin.(tag := Some(root))) &&
      (rs != [] ==>
        st.entry.Some? && st.tag.Some? && st.tag.value in st.entry.value && st.entry.value[st.tag.value] == st.text)
  {
    if rs != [] {
      var n := |rs| - 1;
      var init := rs[..n];
      var start := Begin.(tag := Some(root));
      assert forall i :: 0 <= i < |init| ==> init[i] == rs[i];
      ReadRecords(root, record, init);
      var r := rs[n];
      var a, b := RecordsEvents(record, init), RecordEvents(record, r);
      var before := ReadFrom(start, a);
      ReadFromSplit(start, RecordsEvents(record, rs), a, b);
      ReadRecord(before, record, r);
      var last := r[|r| - 1];
      assert last.0 in Build(r) && Build(r)[last.0] == last.1;
      assert Builds(rs) == Builds(init) + [Build(r)];
    }
  }

  /**
   * Reading a document gives back its records, one entry per record with its
   * fields, whatever the names of the root and record elements (other than ID).
   */
  lemma {:induction false} DocumentEntries(root: string, record: string, rs: seq<seq<Field>>)
    requires root != "ID" && record != "ID"
    requires forall i :: 0 <= i < |rs| ==> WellFormed(rs[i])
    ensures Entries(Document(root, record, rs)) == Builds(rs)
  {
    var start := Begin.(tag := Some(root));
    ReadOne(Begin, StartElement(root));
    ReadRecords(root, record, rs);
    ReadFromAppend(Begin, [StartElement(root)], RecordsEvents(record, rs));
    ReadFromAppend(Begin, [StartElement(root)] + RecordsEvents(record, rs), [EndElement]);
    var st := ReadFrom(start, RecordsEvents(record, rs));
    ReadOne(st, EndElement);
    if rs != [] {
      assert st.entry.value[st.tag.value := st.text] == st.entry.value;
    }
  }

  // ---------------------------------------------------------------- one record

  const FlagBase: string := "https://opendata.schleswig-holstein.de/lod/wr/flagge/"
  const ArmsBase: string := "https://opendata.schleswig-holstein.de/lod/wr/wappen/"
  const ImageBase: string := "https://efi2.schleswig-holstein.de/wr/images/"
  const DateAttribute: string := " rdf:datatype=\"http://www.w3.org/2001/XMLSchema#date\">"

  const AuthorKeys: seq<string> :=
    ["EntwurfsautorI", "EntwurfsautorII", "EntwurfsautorIII", "EntwurfsautorIV", "EntwurfsautorV"]
  const FigureKeys: seq<string> :=
    ["Wappenfigur1", "Wappenfigur2", "Wappenfigur3", "Wappenfigur4", "Wappenfigur5", "Wappenfigur6", "Wappenfigur7"]

  /** entry.get(k): null for a missing element. */
  function Lookup(e: Entry, k: string): Option<string>
  {
    if k in e then Some(e[k]) else None
  }

  /** StringUtils.isNotEmpty(entry.get(k)). */
  predicate Filled(e: Entry, k: string)
  {
    k in e && e[k] != ""
  }

  /** StringUtils.isNotBlank(entry.get(k)). */
  predicate Shown(e: Entry, k: string)
  {
    k in e && !Blank(e[k])
  }

  /** Integer.parseInt(entry.get("ID")): a NumberFormatException for a missing or malformed number. */
  function EntryId(e: Entry): (r: Result<int>)
    ensures r.Ok? <==> "ID" in e && ParseInt(e["ID"]).Some?
    ensures r.Ok? ==> ParseInt(e["ID"]) == Some(r.value)
  {
    if "ID" !in e then Err("NumberFormatException: Cannot parse null string")
    else match ParseInt(e["ID"])
      case None => Err("NumberFormatException: For input string: \"" + e["ID"] + "\"")
      case Some(id) => Ok(id)
  }

  /** The non-empty texts under `keys`, in the order of the keys. */
  function FilledValues(e: Entry, keys: seq<string>): (r: seq<string>)
    ensures forall v :: v in r <==> exists k :: k in keys && Filled(e, k) && e[k] == v
  {
    if keys == [] then []
    else
      var init := FilledValues(e, keys[..|keys| - 1]);
      var k := keys[|keys| - 1];
      assert forall j :: j in keys <==> j in keys[..|keys| - 1] || j == k;
      init + if Filled(e, k) then [e[k]] else []
  }

  /** The same texts taken from the front. */
  lemma {:induction false} FilledValuesFront(e: Entry, keys: seq<string>)
    requires keys != []
    ensures FilledValues(e, keys) == (if Filled(e, keys[0]) then [e[keys[0]]] else []) + FilledValues(e, keys[1..])
  {
    if |keys| > 1 {
      var n := |keys| - 1;
      FilledValuesFront(e, keys[..n]);
      assert keys[..n][1..] == keys[1..][..n - 1];
      assert keys[..n][0] == keys[0];
    } else {
      assert keys[1..] == [] && keys[..0] == [];
    }
  }

  function Strings(vs: seq<string>): (r: seq<Json>)
    ensures |r| == |vs| && forall i :: 0 <= i < |vs| ==> r[i] == JStr(vs[i])
  {
    seq(|vs|, i requires 0 <= i < |vs| => JStr(vs[i]))
  }

  /** The first author is given and not "unbekannt" (in any case). */
  predicate KnownAuthor(e: Entry)
  {
    Filled(e, "EntwurfsautorI") && !EqualsIgnoreCase(e["EntwurfsautorI"], "unbekannt")
  }

  /** The members commonJson may produce. */
  const CommonKeys: set<string> :=
    {"id", "municipalityName", "municipality", "historicalJustification", "author", "figure", "cancellation", "cancellationReason"}

  /** The members a flag or coat of arms adds to them are not among them. */
  lemma ItemKeysNotCommon()
    ensures "uri" !in CommonKeys && "acceptance" !in CommonKeys && "description" !in CommonKeys && "img" !in CommonKeys
  {
  }

  /** The members every record has: number, municipality's name and URI, historical justification. */
  function BaseJson(geo: map<int, string>, e: Entry, id: int): (o: Object)
    ensures "id" in o && o["id"] == JNum(id)
    ensures "municipality" in o <==> id in geo
    ensures id in geo ==> o["municipality"] == JStr(geo[id])
    ensures "municipalityName" in o <==> "Kommune" in e
    ensures "author" !in o && "figure" !in o && "cancellation" !in o && "cancellationReason" !in o
    ensures o.Keys <= CommonKeys
  {
    var o0 := map["id" := JNum(id)];
    var o1 := if "Kommune" in e then o0["municipalityName" := JStr(e["Kommune"])] else o0;
    var o2 := if id in geo then o1["municipality" := JStr(geo[id])] else o1;
    if "HistorischeBegruendung" in e then o2["historicalJustification" := JStr(e["HistorischeBegruendung"])] else o2
  }

  /** The members only a record with a known author has are apart from the members every record has. */
  lemma AuthorOnlyApart(keys: set<string>)
    requires keys <= {"author", "figure", "cancellation", "cancellationReason"}
    ensures "id" !in keys && "municipality" !in keys && "municipalityName" !in keys
    ensures keys <= CommonKeys
  {
  }

  /** The members added for a known author: authors, figures, cancellation date and reason. */
  function AuthorMembers(e: Entry): (r: Result<Object>)
    requires KnownAuthor(e)
    ensures r.Ok? <==> (Filled(e, "LoeschDat") ==> ConvertDate(Some(e["LoeschDat"])).Ok?)
    ensures r.Ok? ==> r.value.Keys <= {"author", "figure", "cancellation", "cancellationReason"}
    ensures r.Ok? ==>
      "author" in r.value && r.value["author"] == JArr(Strings(FilledValues(e, AuthorKeys))) &&
      "figure" in r.value && r.value["figure"] == JArr(Strings(FilledValues(e, FigureKeys)))
    ensures r.Ok? ==> ("cancellation" in r.value ==> Filled(e, "LoeschDat"))
    ensures r.Ok? ==> ("cancellationReason" in r.value <==> Filled(e, "LoeschGrund"))
  {
    FilledValuesFront(e, AuthorKeys);
    var authors := [e["EntwurfsautorI"]] + FilledValues(e, AuthorKeys[1..]);
    assert authors == FilledValues(e, AuthorKeys);
    var cancellation :- if Filled(e, "LoeschDat") then ConvertDate(Some(e["LoeschDat"])) else Ok(None);
    var reason := if Filled(e, "LoeschGrund") then Some(e["LoeschGrund"]) else None;
    var a, f := JArr(Strings(authors)), JArr(Strings(FilledValues(e, FigureKeys)));
    AuthorMapKeys(a, f, cancellation, reason);
    Ok(AuthorMap(a, f, cancellation, reason))
  }

  /** The author members from their values; an absent date or reason adds no member. */
  function AuthorMap(authors: Json, figures: Json, cancellation: Option<string>, reason: Option<string>): Object
  {
    var m0 := map["author" := authors, "figure" := figures];
    var m1 := if cancellation.Some? then m0["cancellation" := JStr(cancellation.value)] else m0;
    if reason.Some? then m1["cancellationReason" := JStr(reason.value)] else m1
  }

  lemma AuthorMapKeys(authors: Json, figures: Json, cancellation: Option<string>, reason: Option<string>)
    ensures var m := AuthorMap(authors, figures, cancellation, reason);
      m.Keys <= {"author", "figure", "cancellation", "cancellationReason"} &&
      "author" in m && m["author"] == authors && "figure" in m && m["figure"] == figures &&
      ("cancellation" in m <==> cancellation.Some?) && ("cancellationReason" in m <==> reason.Some?)
  {
    assert "author" != "figure" by { assert "author"[0] != "figure"[0]; }
  }

  /**
   * commonJson: the number, the municipality's name and URI, the historical
   * justification and, only for a known first author, the authors, the figures
   * and the cancellation.
   */
  function CommonJson(geo: map<int, string>, e: Entry): (r: Result<Object>)
    ensures r.Ok? <==> EntryId(e).Ok? && (KnownAuthor(e) && Filled(e, "LoeschDat") ==> ConvertDate(Some(e["LoeschDat"])).Ok?)
    ensures r.Ok? ==> "id" in r.value && r.value["id"] == JNum(EntryId(e).value)
    ensures r.Ok? ==> r.value.Keys <= CommonKeys
    ensures r.Ok? ==> ("municipality" in r.value <==> EntryId(e).value in geo)
    ensures r.Ok? && EntryId(e).value in geo ==> r.value["municipality"] == JStr(geo[EntryId(e).value])
    ensures r.Ok? ==> ("municipalityName" in r.value <==> "Kommune" in e)
    ensures r.Ok? ==> ("author" in r.value <==> KnownAuthor(e)) && ("figure" in r.value <==> KnownAuthor(e))
    ensures r.Ok? ==> ("cancellation" in r.value ==> KnownAuthor(e) && Filled(e, "LoeschDat"))
    ensures r.Ok? ==> ("cancellationReason" in r.value <==> KnownAuthor(e) && Filled(e, "LoeschGrund"))
    ensures r.Ok? && KnownAuthor(e) ==>
      r.value["author"] == JArr(Strings(FilledValues(e, AuthorKeys))) &&
      r.value["figure"] == JArr(Strings(FilledValues(e, FigureKeys)))
  {
    var id :- EntryId(e);
    var o := BaseJson(geo, e, id);
    if !KnownAuthor(e) then Ok(o)
    else
      var x :- AuthorMembers(e);
      AuthorOnlyApart(x.Keys);
      Ok(o + x)
  }

  /** Each text between an opening and a closing tag. */
  function Tagged(open: string, vs: seq<string>, close: string): (r: seq<string>)
    ensures |r| == |vs|
  {
    seq(|vs|, i requires 0 <= i < |vs| => open + vs[i] + close)
  }

  /** The municipality's URI as a resource, when the table has the number. */
  function MunicipalityXml(geo: map<int, string>, id: int): string
  {
    if id in geo then "<wr:municipality rdf:resource=\"" + geo[id] + "\" />" else ""
  }

  /** The cancellation element; its date is converted whoever the author is. */
  function CancellationXml(e: Entry): (r: Result<string>)
    ensures r.Ok? <==> (Filled(e, "LoeschDat") ==> ConvertDate(Some(e["LoeschDat"])).Ok?)
  {
    if !Filled(e, "LoeschDat") then Ok("")
    else
      var date :- ConvertDate(Some(e["LoeschDat"]));
      Ok("<wr:cancellation " + DateAttribute + NullText(date) + "</wr:cancellation>")
  }

  /** The elements after the municipality, other than the cancellation. */
  function DetailsXml(e: Entry): string
  {
    "<wr:municipalityName>" + NullText(Lookup(e, "Kommune")) + "</wr:municipalityName>" +
    "<wr:historicalJustification>" + NullText(EscapeOpt(Lookup(e, "HistorischeBegruendung"), Xml11)) + "</wr:historicalJustification>" +
    Concat(Tagged("<wr:author><foaf:Person><foaf:name>", FilledValues(e, AuthorKeys), "</foaf:name></foaf:Person></wr:author>")) +
    Concat(Tagged("<wr:figure>", FilledValues(e, FigureKeys), "</wr:figure>"))
  }

  function ReasonXml(e: Entry): string
  {
    if Filled(e, "LoeschGrund") then "<wr:cancellationReason>" + e["LoeschGrund"] + "</wr:cancellationReason>" else ""
  }

  /**
   * appendCommonXml: the municipality, its name, the escaped historical
   * justification, every author and figure given, and the cancellation.
   */
  function CommonXml(geo: map<int, string>, e: Entry): (r: Result<string>)
    ensures r.Ok? <==> EntryId(e).Ok? && (Filled(e, "LoeschDat") ==> ConvertDate(Some(e["LoeschDat"])).Ok?)
  {
    var id :- EntryId(e);
    var cancel :- CancellationXml(e);
    Ok(MunicipalityXml(geo, id) + DetailsXml(e) + cancel + ReasonXml(e))
  }

  // ---------------------------------------------------------------- flags and coats of arms

  /** What a record is published as. */
  datatype Kind = FlagKind | ArmsKind

  /** The element holding the description; a record is published as this kind iff it is not empty. */
  function TextKey(k: Kind): string
  {
    if k == FlagKind then "Flaggenbeschreibung" else "Wappenbeschreibung"
  }

  function ApprovalKey(k: Kind): string
  {
    if k == FlagKind then "Flaggengenehmigung" else "Wappengenehmigung"
  }

  function ImageKey(k: Kind): string
  {
    if k == FlagKind then "txtBILD-F" else "txtBILD-W"
  }

  function Base(k: Kind): string
  {
    if k == FlagKind then FlagBase else ArmsBase
  }

  function Element(k: Kind): string
  {
    if k == FlagKind then "wr:Flag" else "wr:CoatOfArms"
  }

  /** The escaping of the description: XML 1.0 for flags, XML 1.1 for coats of arms. */
  function Version(k: Kind): XmlVersion
  {
    if k == FlagKind then Xml10 else Xml11
  }

  /** Whether the approval date is written: a flag's when it is not empty, a coat of arms' when it is not blank. */
  predicate Approved(k: Kind, e: Entry)
  {
    if k == FlagKind then Filled(e, ApprovalKey(k)) else Shown(e, ApprovalKey(k))
  }

  /** A flag or coat of arms: its JSON object and its RDF fragment. */
  datatype Item = Item(json: Object, xml: string)

  /** The JSON object: the common members, the URI, the approval date, the description and the image. */
  function ItemJson(k: Kind, e: Entry, common: Object, accepted: Option<string>): (j: Object)
    requires "ID" in e && TextKey(k) in e
    ensures "uri" in j && j["uri"] == JStr(Base(k) + e["ID"])
    ensures "description" in j && j["description"] == JStr(e[TextKey(k)])
    ensures "img" in j <==> Shown(e, ImageKey(k)) || "img" in common
    ensures "acceptance" in j ==> (Approved(k, e) && accepted.Some?) || "acceptance" in common
    ensures "id" in common ==> "id" in j && j["id"] == common["id"]
  {
    var j0 := common["uri" := JStr(Base(k) + e["ID"])];
    var j1 := if Approved(k, e) && accepted.Some? then j0["acceptance" := JStr(accepted.value)] else j0;
    var j2 := j1["description" := JStr(e[TextKey(k)])];
    if Shown(e, ImageKey(k)) then j2["img" := JStr(ImageBase + e[ImageKey(k)])] else j2
  }

  /** The start tag of the RDF fragment, naming the record's URI. */
  function OpenTag(k: Kind, id: string): string
  {
    "<" + Element(k) + " rdf:about=\"" + Base(k) + id + "\">\n"
  }

  function CloseTag(k: Kind): string
  {
    "</" + Element(k) + ">"
  }

  /**
   * The RDF fragment: a flag's approval date, description and image, or a coat
   * of arms' image, approval date and description, then the common elements.
   */
  function ItemXml(k: Kind, e: Entry, accepted: Option<string>, common: string): (x: string)
    requires "ID" in e && TextKey(k) in e
    ensures StartsWith(x, OpenTag(k, e["ID"]))
  {
    var acceptance := if Approved(k, e) then "<wr:acceptance " + DateAttribute + NullText(accepted) + "</wr:acceptance>" else "";
    var description := "<wr:description>" + Escape(e[TextKey(k)], Version(k)) + "</wr:description>";
    var image := if Shown(e, ImageKey(k)) then "<foaf:img rdf:resource=\"" + ImageBase + e[ImageKey(k)] + "\" />" else "";
    var body := if k == FlagKind then acceptance + description + image else image + acceptance + description;
    var x := OpenTag(k, e["ID"]) + (body + common + CloseTag(k));
    assert x[..|OpenTag(k, e["ID"])|] == OpenTag(k, e["ID"]);
    x
  }

  /**
   * The flag or coat of arms of a record (processEntry): none when its
   * description is empty; otherwise the common JSON, the approval date and the
   * common XML, the first of them that throws failing the record.
   */
  function ItemOf(geo: map<int, string>, e: Entry, k: Kind): (r: Result<Option<Item>>)
    ensures !Filled(e, TextKey(k)) ==> r == Ok(None)
    ensures Filled(e, TextKey(k)) ==> (r.Ok? <==>
      CommonJson(geo, e).Ok? && CommonXml(geo, e).Ok? && (Approved(k, e) ==> ConvertDate(Some(e[ApprovalKey(k)])).Ok?))
    ensures r.Ok? && Filled(e, TextKey(k)) ==> r.value.Some?
  {
    if !Filled(e, TextKey(k)) then Ok(None)
    else
      var common :- CommonJson(geo, e);
      var accepted :- if Approved(k, e) then ConvertDate(Some(e[ApprovalKey(k)])) else Ok(None);
      var tail :- CommonXml(geo, e);
      ItemKeysNotCommon();
      Ok(Some(Item(ItemJson(k, e, common, accepted), ItemXml(k, e, accepted, tail))))
  }

  /**
   * A published item carries the record's number, its URI under the kind's
   * base, its description, and its image exactly when the image name is not
   * blank; its RDF fragment is about that URI.
   */
  lemma ItemContents(geo: map<int, string>, e: Entry, k: Kind)
    requires ItemOf(geo, e, k).Ok? && Filled(e, TextKey(k))
    ensures "ID" in e && ItemOf(geo, e, k).value.Some?
    ensures var j := ItemOf(geo, e, k).value.value.json;
      "uri" in j && j["uri"] == JStr(Base(k) + e["ID"]) &&
      "description" in j && j["description"] == JStr(e[TextKey(k)]) &&
      "id" in j && j["id"] == JNum(EntryId(e).value) &&
      ("img" in j <==> Shown(e, ImageKey(k))) &&
      ("acceptance" in j ==> Approved(k, e))
    ensures StartsWith(ItemOf(geo, e, k).value.value.xml, OpenTag(k, e["ID"]))
  {
    ItemKeysNotCommon();
  }

  /** What processEntry adds for a record: its flag and its coat of arms, each possibly absent. */
  datatype Outcome = Outcome(flag: Option<Item>, arms: Option<Item>)

  /** processEntry: the flag first, then the coat of arms; a record yields both when both descriptions are given. */
  function Process(geo: map<int, string>, e: Entry): (r: Result<Outcome>)
    ensures r.Ok? ==> (r.value.flag.Some? <==> Filled(e, TextKey(FlagKind)))
    ensures r.Ok? ==> (r.value.arms.Some? <==> Filled(e, TextKey(ArmsKind)))
    ensures !Filled(e, TextKey(FlagKind)) && !Filled(e, TextKey(ArmsKind)) ==> r == Ok(Outcome(None, None))
  {
    var flag :- ItemOf(geo, e, FlagKind);
    var arms :- ItemOf(geo, e, ArmsKind);
    Ok(Outcome(flag, arms))
  }

  /**
   * appendCommonXml converts the cancellation date whoever the author is, while
   * commonJson does so only for a known author: a record with an unknown author
   * and a cancellation date without two dots has its JSON object but fails in
   * its XML, and so fails the run.
   */
  lemma CancellationAlwaysConverted(geo: map<int, string>, e: Entry, k: Kind)
    requires EntryId(e).Ok? && !KnownAuthor(e) && Filled(e, TextKey(k))
    requires Filled(e, "LoeschDat") && ConvertDate(Some(e["LoeschDat"])).Err?
    ensures CommonJson(geo, e).Ok? && CommonXml(geo, e).Err?
    ensures ItemOf(geo, e, k).Err? && Process(geo, e).Err?
  {
  }

  // ---------------------------------------------------------------- the whole roll

  function ProcessWith(geo: map<int, string>): Entry -> Result<Outcome>
  {
    e => Process(geo, e)
  }

  function Pick(o: Outcome, k: Kind): Option<Item>
  {
    if k == FlagKind then o.flag else o.arms
  }

  /** What one item adds to its kind's JSON array and RDF list. */
  function JsonOf(item: Option<Item>): seq<Json>
  {
    if item.Some? then [JObj(item.value.json)] else []
  }

  function XmlOf(item: Option<Item>): seq<string>
  {
    if item.Some? then [item.value.xml] else []
  }

  /** The JSON array of one kind: the objects of the records that have that kind, in record order. */
  function JsonsOf(outs: seq<Outcome>, k: Kind): seq<Json>
  {
    if outs == [] then []
    else
      var last := Pick(outs[|outs| - 1], k);
      JsonsOf(outs[..|outs| - 1], k) + JsonOf(last)
  }

  /** The RDF fragments of one kind, in record order. */
  function XmlsOf(outs: seq<Outcome>, k: Kind): seq<string>
  {
    if outs == [] then []
    else
      var last := Pick(outs[|outs| - 1], k);
      XmlsOf(outs[..|outs| - 1], k) + XmlOf(last)
  }

  /** The number of records whose description of that kind is not empty. */
  function CountOf(entries: seq<Entry>, k: Kind): nat
  {
    if entries == [] then 0
    else CountOf(entries[..|entries| - 1], k) + if Filled(entries[|entries| - 1], TextKey(k)) then 1 else 0
  }

  /**
   * When every record is processed, each kind's JSON array and RDF list hold one
   * item per record with that kind's description, and no other.
   */
  lemma OnePerDescription(geo: map<int, string>, entries: seq<Entry>, outs: seq<Outcome>, k: Kind)
    requires MapAll(entries, ProcessWith(geo)) == Ok(outs)
    ensures |JsonsOf(outs, k)| == CountOf(entries, k) && |XmlsOf(outs, k)| == CountOf(entries, k)
  {
    forall e | ProcessWith(geo)(e).Ok?
      ensures Counts(e, ProcessWith(geo)(e).value, k)
    {
    }
    CountedItems(ProcessWith(geo), entries, outs, k);
  }

  /** A record's outcome has one item of a kind exactly when its description of that kind is not empty. */
  predicate Counts(e: Entry, o: Outcome, k: Kind)
  {
    |JsonOf(Pick(o, k))| == |XmlOf(Pick(o, k))| == if Filled(e, TextKey(k)) then 1 else 0
  }

  lemma {:induction false} CountedItems(f: Entry -> Result<Outcome>, entries: seq<Entry>, outs: seq<Outcome>, k: Kind)
    requires forall e :: f(e).Ok? ==> Counts(e, f(e).value, k)
    requires MapAll(entries, f) == Ok(outs)
    ensures |JsonsOf(outs, k)| == CountOf(entries, k) && |XmlsOf(outs, k)| == CountOf(entries, k)
  {
    if entries != [] {
      var n := |entries| - 1;
      MapAllSnoc(entries, f);
      var init := MapAll(entries[..n], f).value;
      var last := f(entries[n]).value;
      CountedItems(f, entries[..n], init, k);
      KindsSnoc(init, last, k);
    }
  }

  /** The items of one more record follow those of the records before it. */
  lemma KindsSnoc(init: seq<Outcome>, o: Outcome, k: Kind)
    ensures JsonsOf(init + [o], k) == JsonsOf(init, k) + JsonOf(Pick(o, k))
    ensures XmlsOf(init + [o], k) == XmlsOf(init, k) + XmlOf(Pick(o, k))
  {
    assert (init + [o])[..|init|] == init;
  }

  const XmlDeclaration: string := "<?xml version=\"1.0\" encoding=\"UTF-8\"?>"
  const RdfOpen: string :=
    "<rdf:RDF xmlns:wr=\"https://efi2.schleswig-holstein.de/wr/\" xmlns:rdf=\"http://www.w3.org/1999/02/22-rdf-syntax-ns#\" xmlns:foaf=\"http://xmlns.com/foaf/0.1/\">"
  const RdfClose: string := "</rdf:RDF>"

  /** The lines of an RDF file: the declaration, the root element's start, one fragment per line, its end. */
  function RdfLines(xmls: seq<string>): seq<string>
  {
    [XmlDeclaration, RdfOpen] + xmls + [RdfClose]
  }

  function Rdf(xmls: seq<string>): string
  {
    Printed(RdfLines(xmls))
  }

  /** writeToFile for the RDF list: each line printed in turn. */
  method WriteRdf(xmls: seq<string>) returns (text: string)
    ensures text == Rdf(xmls)
  {
    ghost var lines: seq<string> := [];
    text := "";
    PrintedSnoc(lines, XmlDeclaration);
    text, lines := text + XmlDeclaration + "\n", lines + [XmlDeclaration];
    PrintedSnoc(lines, RdfOpen);
    text, lines := text + RdfOpen + "\n", lines + [RdfOpen];
    for i := 0 to |xmls|
      invariant lines == [XmlDeclaration, RdfOpen] + xmls[..i]
      invariant text == Printed(lines)
    {
      PrintedSnoc(lines, xmls[i]);
      text, lines := text + xmls[i] + "\n", lines + [xmls[i]];
      assert xmls[..i + 1] == xmls[..i] + [xmls[i]];
    }
    assert xmls[..|xmls|] == xmls;
    PrintedSnoc(lines, RdfClose);
    text := text + RdfClose + "\n";
  }

  /** The lines of all fragments, each fragment cut at its line feeds. */
  function LinesOf(xmls: seq<string>): seq<string>
  {
    if xmls == [] then [] else Pieces(xmls[0], '\n') + LinesOf(xmls[1..])
  }

  /** A line without terminators, then a line feed: that line, then whatever follows. */
  lemma ReadLineThen(a: string, u: string)
    requires NoLineBreak(a)
    ensures ReadLines(a + "\n" + u) == [a] + ReadLines(u)
  {
    var s := a + "\n" + u;
    assert s[|a|] == '\n';
    assert forall j :: 0 <= j < |a| ==> s[j] == a[j];
    assert forall j :: 0 <= j < |a| ==> !IsLineBreak(s[j]);
    assert BreakIndex(s, 0) == |a|;
    assert s[..|a|] == a;
    assert s[|a| + 1..] == u;
  }

  /** A printed line holding line feeds but no carriage return reads back as its pieces. */
  lemma {:induction false} ReadPrintedLine(x: string, t: string)
    requires '\r' !in x
    ensures ReadLines(x + "\n" + t) == Pieces(x, '\n') + ReadLines(t)
    decreases |x|
  {
    var k := CharIndex(x, '\n', 0);
    if k.None? {
      PiecesOfPlain(x, '\n');
      ReadLineThen(x, t);
    } else {
      var a := x[..k.value];
      var b := x[k.value + 1..];
      assert x == a + ['\n'] + b;
      assert '\n' !in a && '\r' !in a && '\r' !in b by {
        assert forall j :: 0 <= j < |a| ==> a[j] == x[j];
        assert forall j :: 0 <= j < |b| ==> b[j] == x[k.value + 1 + j];
      }
      ReadPrintedLine(b, t);
      ReadPrintedPiece(x, t, a, b);
    }
  }

  /** One step of ReadPrintedLine: the text up to the first line feed is a line of its own. */
  lemma ReadPrintedPiece(x: string, t: string, a: string, b: string)
    requires x == a + ['\n'] + b && '\n' !in a && '\r' !in a
    requires ReadLines(b + "\n" + t) == Pieces(b, '\n') + ReadLines(t)
    ensures ReadLines(x + "\n" + t) == Pieces(x, '\n') + ReadLines(t)
  {
    var u := b + "\n" + t;
    Rejoin(x, t, a, b);
    ReadFirstLine(x + "\n" + t, a, u);
    PiecesFirst(x, a, b);
    LinesAssoc([a], Pieces(b, '\n'), ReadLines(t));
  }

  lemma Rejoin(x: string, t: string, a: string, b: string)
    requires x == a + ['\n'] + b
    ensures x + "\n" + t == a + "\n" + (b + "\n" + t)
  {
  }

  lemma LinesAssoc(p: seq<string>, q: seq<string>, r: seq<string>)
    ensures p + (q + r) == p + q + r
  {
  }

  /** A text that is a line without terminators, a line feed and a rest reads as that line, then the rest. */
  lemma ReadFirstLine(s: string, a: string, u: string)
    requires s == a + "\n" + u && NoLineBreak(a)
    ensures ReadLines(s) == [a] + ReadLines(u)
  {
    ReadLineThen(a, u);
  }

  /** The pieces of a text with a first line feed after `a`. */
  lemma PiecesFirst(x: string, a: string, b: string)
    requires x == a + ['\n'] + b && '\n' !in a
    ensures Pieces(x, '\n') == [a] + Pieces(b, '\n')
  {
    PiecesAround(a, '\n', b);
    PiecesOfPlain(a, '\n');
  }

  /** Printing two runs of lines one after the other prints their concatenation. */
  lemma {:induction false} PrintedAppend(a: seq<string>, b: seq<string>)
    ensures Printed(a + b) == Printed(a) + Printed(b)
  {
    if a != [] {
      assert (a + b)[1..] == a[1..] + b;
      PrintedAppend(a[1..], b);
    } else {
      assert a + b == b;
    }
  }

  /**
   * The RDF file: the declaration and the root element's start each on a line,
   * then every fragment followed by a line feed, then the root element's end.
   */
  lemma RdfShape(xmls: seq<string>)
    ensures Rdf(xmls) == XmlDeclaration + "\n" + RdfOpen + "\n" + Printed(xmls) + RdfClose + "\n"
  {
    Framed(XmlDeclaration, RdfOpen, xmls, RdfClose);
  }

  lemma Framed(first: string, second: string, xs: seq<string>, last: string)
    ensures Printed([first, second] + xs + [last]) == first + "\n" + second + "\n" + Printed(xs) + last + "\n"
  {
    PrintedSnoc([first, second] + xs, last);
    PrintedAppend([first, second], xs);
    TwoPrinted(first, second);
  }

  lemma TwoPrinted(first: string, second: string)
    ensures Printed([first, second]) == first + "\n" + second + "\n"
  {
    assert [first, second][1..] == [second];
    assert [second][1..] == [];
    assert Printed([second]) == second + "\n" + "";
    assert second + "\n" + "" == second + "\n";
    assert first + "\n" + (second + "\n") == first + "\n" + second + "\n";
  }

  /** Printed lines without carriage returns read back as their pieces. */
  lemma {:induction false} ReadPrintedAll(lines: seq<string>)
    requires forall i :: 0 <= i < |lines| ==> '\r' !in lines[i]
    ensures ReadLines(Printed(lines)) == LinesOf(lines)
  {
    if lines != [] {
      ReadPrintedAll(lines[1..]);
      ReadPrintedLine(lines[0], Printed(lines[1..]));
    }
  }

  /** The files written: the JSON array and the RDF file of the kind the "type" argument selects. */
  datatype Files = Files(jsonName: string, json: Json, rdfName: string, rdf: string)

  /** "wappen" selects the coats of arms; any other type, or none, the flags. */
  function Selected(kind: Option<string>): Kind
  {
    if kind == Some("wappen") then ArmsKind else FlagKind
  }

  function Written(kind: Option<string>, outs: seq<Outcome>): Files
  {
    var k := Selected(kind);
    var name := if k == ArmsKind then "wappen" else "flaggen";
    Files(name + ".json", JArr(JsonsOf(outs, k)), name + ".rdf", Rdf(XmlsOf(outs, k)))
  }

  /**
   * generateDistributions as a function of the geocoding table's lines and the
   * export's events: every record processed in order, the first exception
   * ending the run before anything is written.
   */
  function Generate(kind: Option<string>, lines: seq<string>, events: seq<Event>): Result<Files>
  {
    var outs :- MapAll(Entries(events), ProcessWith(Geocoding(lines)));
    Ok(Written(kind, outs))
  }

  /** The generator object: its arguments, the geocoding table and the lists processEntry fills. */
  class Generator {
    const kind: Option<string>
    const url: string
    var geocoding: map<int, string>
    var wappen: seq<Json>
    var flaggen: seq<Json>
    var xmlWappen: seq<string>
    var xmlFlaggen: seq<string>

    /** Fresh: the "type" argument and the export's address kept, every table empty. */
    constructor(generatorArgs: map<string, string>, originalUrl: string)
      ensures kind == (if "type" in generatorArgs then Some(generatorArgs["type"]) else None)
      ensures url == originalUrl
      ensures geocoding == map[] && wappen == [] && flaggen == [] && xmlWappen == [] && xmlFlaggen == []
    {
      kind := if "type" in generatorArgs then Some(generatorArgs["type"]) else None;
      url := originalUrl;
      geocoding := map[];
      wappen, flaggen, xmlWappen, xmlFlaggen := [], [], [], [];
    }

    /** readId2Geocoding: every kept line of the table put into the map, a later line replacing an earlier one. */
    method ReadId2Geocoding(lines: seq<string>)
      modifies this
      ensures geocoding == old(geocoding) + Geocoding(lines)
      ensures wappen == old(wappen) && flaggen == old(flaggen)
      ensures xmlWappen == old(xmlWappen) && xmlFlaggen == old(xmlFlaggen)
    {
      for i := 0 to |lines|
        invariant geocoding == old(geocoding) + Geocoding(lines[..i])
        invariant wappen == old(wappen) && flaggen == old(flaggen)
        invariant xmlWappen == old(xmlWappen) && xmlFlaggen == old(xmlFlaggen)
      {
        GeocodingSnoc(old(geocoding), lines, i);
        var line := lines[i];
        var id := LineId(line);
        var uri := LineUri(line);
        if Kept(line) {
          geocoding := geocoding[id := uri];
        }
      }
      assert lines[..|lines|] == lines;
    }

    /**
     * processEntry: the flag first, then the coat of arms, each appended to its
     * JSON array and RDF list when the record has that description; the first
     * exception is returned as the error.
     */
    method ProcessEntry(entry: Entry) returns (r: Result<()>)
      modifies this
      ensures r.Ok? <==> Process(geocoding, entry).Ok?
      ensures r.Err? ==> r.error == Process(geocoding, entry).error
      ensures geocoding == old(geocoding)
      ensures r.Ok? ==>
        var o := Process(geocoding, entry).value;
        flaggen == old(flaggen) + JsonOf(o.flag) && xmlFlaggen == old(xmlFlaggen) + XmlOf(o.flag) &&
        wappen == old(wappen) + JsonOf(o.arms) && xmlWappen == old(xmlWappen) + XmlOf(o.arms)
    {
      var outcome := Process(geocoding, entry);
      if outcome.Err? {
        return Err(outcome.error);
      }
      flaggen, xmlFlaggen := flaggen + JsonOf(outcome.value.flag), xmlFlaggen + XmlOf(outcome.value.flag);
      wappen, xmlWappen := wappen + JsonOf(outcome.value.arms), xmlWappen + XmlOf(outcome.value.arms);
      r := Ok(());
    }

    /** The lists hold exactly what the processed records produced. */
    ghost predicate Holds(outs: seq<Outcome>)
      reads this
    {
      flaggen == JsonsOf(outs, FlagKind) && xmlFlaggen == XmlsOf(outs, FlagKind) &&
      wappen == JsonsOf(outs, ArmsKind) && xmlWappen == XmlsOf(outs, ArmsKind)
    }

    /**
     * processEntry on the record that just closed, seen against the records
     * processed before it: the lists grow by its items, or the run fails with
     * the error the whole walk over the records would fail with.
     */
    method Flush(entry: Entry, ghost done: seq<Entry>, ghost outs: seq<Outcome>) returns (r: Result<()>, ghost outs': seq<Outcome>)
      requires MapAll(done, ProcessWith(geocoding)) == Ok(outs) && Holds(outs)
      modifies this
      ensures geocoding == old(geocoding)
      ensures r.Ok? ==> MapAll(done + [entry], ProcessWith(geocoding)) == Ok(outs') && Holds(outs')
      ensures r.Err? ==> MapAll(done + [entry], ProcessWith(geocoding)) == Err(r.error)
    {
      outs' := outs;
      r := ProcessEntry(entry);
      if r.Err? {
        FailedLast(ProcessWith(geocoding), done, entry);
        return;
      }
      var o := Process(geocoding, entry).value;
      Processed(ProcessWith(geocoding), done, outs, entry, o);
      outs' := outs + [o];
    }

    /** writeToFile for the selected kind: the JSON array and the RDF file. */
    method Write(ghost outs: seq<Outcome>) returns (files: Files)
      requires Holds(outs)
      ensures files == Written(kind, outs)
    {
      if kind == Some("wappen") {
        var rdf := WriteRdf(xmlWappen);
        files := Files("wappen.json", JArr(wappen), "wappen.rdf", rdf);
      } else {
        var rdf := WriteRdf(xmlFlaggen);
        files := Files("flaggen.json", JArr(flaggen), "flaggen.rdf", rdf);
      }
    }

    /**
     * generateDistributions on a fresh generator: the geocoding table read, the
     * export's events run through the loop that assembles the records, each
     * record processed when the next one starts and the last after the loop,
     * and the selected kind written; the first exception ends the run.
     */
    method GenerateDistributions(lines: seq<string>, events: seq<Event>) returns (r: Result<Files>)
      requires geocoding == map[] && wappen == [] && flaggen == [] && xmlWappen == [] && xmlFlaggen == []
      modifies this
      ensures r == Generate(kind, lines, events)
    {
      ReadId2Geocoding(lines);
      assert geocoding == Geocoding(lines);
      var entry: Option<Entry> := None;
      var tag: Option<string> := None;
      var text: string := "";
      ghost var done: seq<Entry> := [];
      ghost var outs: seq<Outcome> := [];
      assert events[..0] == [];
      for i := 0 to |events|
        invariant geocoding == Geocoding(lines)
        invariant ReadFrom(Begin, events[..i]) == Reader(entry, tag, text, done)
        invariant MapAll(done, ProcessWith(geocoding)) == Ok(outs)
        invariant Holds(outs)
      {
        assert events[..i + 1][..i] == events[..i];
        match events[i]
        case StartElement(name) =>
          tag := Some(name);
          text := "";
          if name == "ID" {
            if entry.Some? {
              var res;
              res, outs := Flush(entry.value, done, outs);
              if res.Err? {
                FailedAt(events, i + 1, ProcessWith(geocoding), done + [entry.value]);
                return Err(res.error);
              }
              done := done + [entry.value];
            }
            entry := Some(map[]);
          }
        case EndElement =>
          if tag.Some? && entry.Some? {
            entry := Some(entry.value[tag.value := text]);
          }
        case Characters(t) =>
          if !WhiteSpace(t) {
            text := text + t;
          }
        case OtherEvent =>
      }
      assert events[..|events|] == events;
      if entry.Some? {
        var res;
        res, outs := Flush(entry.value, done, outs);
        if res.Err? {
          return Err(res.error);
        }
        done := done + [entry.value];
      }
      assert done == Entries(events);
      var files := Write(outs);
      r := Ok(files);
    }
  }

  /** One more record processed without an exception extends the outcomes and every list by its items. */
  lemma Processed(f: Entry -> Result<Outcome>, done: seq<Entry>, outs: seq<Outcome>, e: Entry, o: Outcome)
    requires MapAll(done, f) == Ok(outs) && f(e) == Ok(o)
    ensures MapAll(done + [e], f) == Ok(outs + [o])
    ensures forall k :: JsonsOf(outs + [o], k) == JsonsOf(outs, k) + JsonOf(Pick(o, k))
    ensures forall k :: XmlsOf(outs + [o], k) == XmlsOf(outs, k) + XmlOf(Pick(o, k))
  {
    assert (done + [e])[..|done|] == done;
    assert (outs + [o])[..|outs|] == outs;
  }

  /** A record that fails when the next one starts fails the whole run with its error. */
  lemma FailedAt(events: seq<Event>, i: nat, f: Entry -> Result<Outcome>, closed: seq<Entry>)
    requires i <= |events|
    requires ReadFrom(Begin, events[..i]).done == closed
    requires MapAll(closed, f).Err?
    ensures MapAll(Entries(events), f) == MapAll(closed, f)
  {
    DoneGrows(events, i);
    var all := Entries(events);
    assert closed <= all;
    assert all[..|closed|] == closed;
    MapAllFailedPrefix(all, |closed|, f);
  }

  /** The last record failing after the loop fails the whole run with its error. */
  lemma FailedLast(f: Entry -> Result<Outcome>, done: seq<Entry>, e: Entry)
    requires MapAll(done, f).Ok? && f(e).Err?
    ensures MapAll(done + [e], f) == Err(f(e).error)
  {
    assert (done + [e])[..|done|] == done;
  }
}
