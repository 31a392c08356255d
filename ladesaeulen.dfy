/**
 * Ladesaeulenregister: the register of public charging points of the
 * Bundesnetzagentur. The start page names the current Excel file; its first
 * sheet, converted to CSV, is cut down to the header line and the rows of
 * Schleswig-Holstein. The "Stand:" date above the header is the date of the data.
 */
module Ladesaeulenregister {
  import opened Wrappers
  import opened Text
  import opened CsvText
  import opened Dates
  import Excel2Csv

  // ---------------------------------------------------------------- the Excel file's URL

  /** A line of the start page that links the register's Excel file. */
  predicate LinksExcel(line: string)
  {
    Contains(line, "Ladesaeulenregister.xlsx") && Contains(line, "blob=publicationFile")
  }

  /** The link of one such line: the text between href=" and the next quote, null when that is missing. */
  function Href(line: string): Option<string>
  {
    SubstringBetween(line, "href=\"", "\"")
  }

  /** The link of the last line that links the Excel file; null if there is none. */
  function LastLink(lines: seq<string>): Option<string>
  {
    if lines == [] then None
    else if LinksExcel(lines[|lines| - 1]) then Href(lines[|lines| - 1])
    else LastLink(lines[..|lines| - 1])
  }

  /** Without a line that links the Excel file the link is null. */
  lemma {:induction false} NoLinkingLine(lines: seq<string>)
    requires forall k :: 0 <= k < |lines| ==> !LinksExcel(lines[k])
    ensures LastLink(lines).None?
  {
    if lines != [] {
      NoLinkingLine(lines[..|lines| - 1]);
    }
  }

  /** Otherwise the last linking line decides, whatever the lines before it say. */
  lemma {:induction false} LastLinkingLine(lines: seq<string>, k: nat)
    requires k < |lines| && LinksExcel(lines[k])
    requires forall j :: k < j < |lines| ==> !LinksExcel(lines[j])
    ensures LastLink(lines) == Href(lines[k])
  {
    if k < |lines| - 1 {
      LastLinkingLine(lines[..|lines| - 1], k);
    }
  }

  /** scheme://hostPort of the start URL, where a part that cannot be found prints as in Java. */
  function Origin(url: string): string
  {
    SubstringBefore(url, "://") + "://" + NullText(SubstringBetween(url, "://", "/"))
  }

  /**
   * determineExcelFileURL over the lines of the start page: the link of the
   * last line naming both "Ladesaeulenregister.xlsx" and "blob=publicationFile",
   * after the scheme and host of the start URL.
   */
  method DetermineExcelFileUrl(startUrl: string, page: seq<string>) returns (r: string)
    ensures r == Origin(startUrl) + NullText(LastLink(page))
  {
    var url: Option<string> := None;
    for i := 0 to |page|
      invariant url == LastLink(page[..i])
    {
      assert page[..i + 1][..i] == page[..i];
      if Contains(page[i], "Ladesaeulenregister.xlsx") && Contains(page[i], "blob=publicationFile") {
        url := SubstringBetween(page[i], "href=\"", "\"");
      }
    }
    assert page[..|page|] == page;
    var scheme := SubstringBefore(startUrl, "://");
    var hostPort := SubstringBetween(startUrl, "://", "/");
    r := scheme + "://" + NullText(hostPort) + NullText(url);
  }

  /** The first occurrence of a pattern is where it occurs with none before. */
  lemma FirstOccurrence(s: string, p: string, from: nat, i: nat)
    requires from <= i && At(s, p, i) && forall j :: from <= j < i ==> !At(s, p, j)
    ensures IndexOfFrom(s, p, from) == Some(i)
  {
  }

  /**
   * For a start URL scheme://host/path, with no colon in the scheme and no
   * slash in the host, the origin is exactly scheme://host.
   */
  lemma OriginOf(scheme: string, host: string, path: string)
    requires ':' !in scheme && '/' !in host
    ensures Origin(scheme + "://" + host + "/" + path) == scheme + "://" + host
  {
    var u := scheme + "://" + host + "/" + path;
    var n := |scheme|;
    assert u[..n] == scheme && u[n..n + 3] == "://";
    forall j | 0 <= j < n ensures !At(u, "://", j) {
      assert u[j] == scheme[j];
    }
    FirstOccurrence(u, "://", 0, n);
    var h := n + 3 + |host|;
    assert u[n + 3..h] == host && u[h] == '/';
    assert At(u, "/", h);
    forall j | n + 3 <= j < h ensures !At(u, "/", j) {
      assert u[j] == host[j - n - 3];
    }
    FirstOccurrence(u, "/", n + 3, h);
  }

  // ---------------------------------------------------------------- the line filter

  predicate IsHeader(line: string) { StartsWith(line, "Betreiber,Straße") }

  predicate InState(line: string) { Contains(line, ",Schleswig-Holstein,") }

  predicate IsStand(line: string) { StartsWith(line, "Stand:") }

  /** The first header line, if any. */
  function HeaderIndex(lines: seq<string>): (r: Option<nat>)
    ensures r.Some? ==>
      r.value < |lines| && IsHeader(lines[r.value]) && forall j :: 0 <= j < r.value ==> !IsHeader(lines[j])
    ensures r.None? ==> forall j :: 0 <= j < |lines| ==> !IsHeader(lines[j])
  {
    if lines == [] then None
    else if IsHeader(lines[0]) then Some(0)
    else match HeaderIndex(lines[1..])
      case None => None
      case Some(k) => Some(k + 1)
  }

  /** The lines of Schleswig-Holstein, in their order. */
  function InStateLines(lines: seq<string>): seq<string>
  {
    if lines == [] then []
    else InStateLines(lines[..|lines| - 1]) + (if InState(lines[|lines| - 1]) then [lines[|lines| - 1]] else [])
  }

  /** The date a "Stand:" line gives, in dd.MM.yyyy after the label. */
  function StandDate(line: string): Result<Date>
  {
    ParseGermanDate(Trim(SubstringAfter(line, "Stand:")))
  }

  /** The date of the last "Stand:" line; the first one that does not parse throws. */
  function Stand(lines: seq<string>): (r: Result<Option<Date>>)
    ensures r.Ok? && r.value.Some? ==> Valid(r.value.value)
  {
    if lines == [] then Ok(None)
    else
      var before :- Stand(lines[..|lines| - 1]);
      var last := lines[|lines| - 1];
      if IsStand(last) then
        var d :- StandDate(last);
        Ok(Some(d))
      else Ok(before)
  }

  /** What the filter writes: the target file's lines and the date written as ISO text, if any. */
  datatype Filtered = Filtered(target: seq<string>, stand: Option<string>)

  function IsoOpt(d: Option<Date>): Option<string>
    requires d.Some? ==> Valid(d.value)
  {
    if d.None? then None else Some(Iso(d.value))
  }

  /**
   * The filter over the whole CSV: up to the first header line only "Stand:"
   * lines count; the header line is kept and after it only the lines of
   * Schleswig-Holstein.
   */
  function Filter(lines: seq<string>): Result<Filtered>
  {
    match HeaderIndex(lines)
    case None =>
      var d :- Stand(lines);
      Ok(Filtered([], IsoOpt(d)))
    case Some(h) =>
      var d :- Stand(lines[..h]);
      Ok(Filtered([lines[h]] + InStateLines(lines[h + 1..]), IsoOpt(d)))
  }

  /** The loop of generateDistributions with its inData flag, over the lines of raw.csv. */
  method FilterLines(lines: seq<string>) returns (r: Result<Filtered>)
    ensures r == Filter(lines)
  {
    var out: seq<string> := [];
    var stand: Option<string> := None;
    var inData := false;
    ghost var h := 0;
    for i := 0 to |lines|
      invariant !inData ==>
        HeaderIndex(lines[..i]).None? && out == [] &&
        Stand(lines[..i]).Ok? && stand == IsoOpt(Stand(lines[..i]).value)
      invariant inData ==>
        h < i && HeaderIndex(lines[..i]) == Some(h) && HeaderIndex(lines) == Some(h) &&
        out == [lines[h]] + InStateLines(lines[h + 1..i]) &&
        Stand(lines[..h]).Ok? && stand == IsoOpt(Stand(lines[..h]).value)
    {
      var line := lines[i];
      if inData {
        DataStep(lines, h, i);
        if Contains(line, ",Schleswig-Holstein,") {
          out := out + [line];
        }
      } else if StartsWith(line, "Betreiber,Straße") {
        HeaderStep(lines, i);
        out := out + [line];
        inData := true;
        h := i;
      } else {
        PreambleStep(lines, i);
        if StartsWith(line, "Stand:") {
          var date := ParseGermanDate(Trim(SubstringAfter(line, "Stand:")));
          if date.Err? {
            StandStopsAt(lines, i + 1);
            return Err(date.error);
          }
          stand := Some(Iso(date.value));
        }
      }
    }
    assert lines[..|lines|] == lines;
    r := Ok(Filtered(out, stand));
  }

  /** In data mode one more line: it is kept iff it is a line of Schleswig-Holstein. */
  lemma DataStep(lines: seq<string>, h: nat, i: nat)
    requires h < i < |lines|
    requires HeaderIndex(lines[..i]) == Some(h)
    ensures HeaderIndex(lines[..i + 1]) == Some(h)
    ensures InStateLines(lines[h + 1..i + 1]) ==
      InStateLines(lines[h + 1..i]) + (if InState(lines[i]) then [lines[i]] else [])
  {
    assert lines[h + 1..i + 1][..i - h - 1] == lines[h + 1..i];
    HeaderOfLonger(lines[..i + 1], h);
  }

  /** The first header line: the filter switches to data mode at it. */
  lemma HeaderStep(lines: seq<string>, i: nat)
    requires i < |lines| && HeaderIndex(lines[..i]).None? && IsHeader(lines[i])
    ensures HeaderIndex(lines[..i + 1]) == Some(i) && HeaderIndex(lines) == Some(i)
    ensures [lines[i]] == [lines[i]] + InStateLines(lines[i + 1..i + 1])
  {
    var before := lines[..i];
    var upto := lines[..i + 1];
    forall j | 0 <= j < i
      ensures !IsHeader(lines[j]) && !IsHeader(upto[j])
    {
      assert !IsHeader(before[j]);
      assert before[j] == lines[j] && upto[j] == lines[j];
    }
    assert upto[i] == lines[i];
    HeaderOfLonger(upto, i);
    HeaderOfLonger(lines, i);
    assert lines[i + 1..i + 1] == [];
  }

  /** Before the header: a "Stand:" line sets the date, or throws when its date does not parse. */
  lemma PreambleStep(lines: seq<string>, i: nat)
    requires i < |lines| && HeaderIndex(lines[..i]).None? && !IsHeader(lines[i])
    requires Stand(lines[..i]).Ok?
    ensures HeaderIndex(lines[..i + 1]).None?
    ensures !IsStand(lines[i]) ==> Stand(lines[..i + 1]) == Stand(lines[..i])
    ensures IsStand(lines[i]) ==>
      Stand(lines[..i + 1]) == (match StandDate(lines[i]) case Ok(d) => Ok(Some(d)) case Err(e) => Err(e))
    ensures forall j :: 0 <= j < i + 1 ==> !IsHeader(lines[j])
  {
    assert lines[..i + 1][..i] == lines[..i];
    HeaderNone(lines[..i + 1]);
  }

  /** A "Stand:" line that does not parse, before any header line, fails the whole filter. */
  lemma StandStopsAt(lines: seq<string>, k: nat)
    requires k <= |lines| && Stand(lines[..k]).Err?
    requires forall j :: 0 <= j < k ==> !IsHeader(lines[j])
    ensures Filter(lines) == Err(Stand(lines[..k]).error)
  {
    match HeaderIndex(lines)
    case None =>
      StandFailedPrefix(lines, k);
    case Some(h) =>
      assert lines[..h][..k] == lines[..k];
      StandFailedPrefix(lines[..h], k);
  }

  lemma {:induction false} StandFailedPrefix(lines: seq<string>, k: nat)
    requires k <= |lines| && Stand(lines[..k]).Err?
    ensures Stand(lines) == Stand(lines[..k])
    decreases |lines|
  {
    if k < |lines| {
      var init := lines[..|lines| - 1];
      assert init[..k] == lines[..k];
      StandFailedPrefix(init, k);
    } else {
      assert lines[..k] == lines;
    }
  }

  /** A header at h with none before it is the first one of any longer list. */
  lemma HeaderOfLonger(lines: seq<string>, h: nat)
    requires h < |lines| && IsHeader(lines[h]) && forall j :: 0 <= j < h ==> !IsHeader(lines[j])
    ensures HeaderIndex(lines) == Some(h)
  {
  }

  lemma HeaderNone(lines: seq<string>)
    requires forall j :: 0 <= j < |lines| ==> !IsHeader(lines[j])
    ensures HeaderIndex(lines).None?
  {
  }

  // ---------------------------------------------------------------- what the filter keeps

  /** A line is kept after the header iff it is a line of Schleswig-Holstein. */
  lemma {:induction false} InStateLinesMembers(lines: seq<string>)
    ensures forall x :: x in InStateLines(lines) <==> x in lines && InState(x)
  {
    if lines != [] {
      var init := lines[..|lines| - 1];
      InStateLinesMembers(init);
      assert lines == init + [lines[|lines| - 1]];
    }
  }

  /** The order of the kept lines is their order in the input. */
  lemma {:induction false} InStateLinesAppend(a: seq<string>, b: seq<string>)
    ensures InStateLines(a + b) == InStateLines(a) + InStateLines(b)
    decreases |b|
  {
    if b != [] {
      var init := b[..|b| - 1];
      assert (a + b)[..|a + b| - 1] == a + init;
      InStateLinesAppend(a, init);
    } else {
      assert a + b == a;
    }
  }

  /**
   * The target file: nothing at all without a header line; otherwise the first
   * header line, then exactly the later lines of Schleswig-Holstein.
   */
  lemma TargetShape(lines: seq<string>)
    requires Filter(lines).Ok?
    ensures var t := Filter(lines).value.target;
      (t == [] <==> forall j :: 0 <= j < |lines| ==> !IsHeader(lines[j])) &&
      (t != [] ==> exists h :: (0 <= h < |lines| && t[0] == lines[h] && IsHeader(lines[h]) &&
        (forall j :: 0 <= j < h ==> !IsHeader(lines[j])) &&
        forall x :: x in t[1..] <==> x in lines[h + 1..] && InState(x)))
  {
    match HeaderIndex(lines)
    case None =>
    case Some(h) =>
      var t := Filter(lines).value.target;
      InStateLinesMembers(lines[h + 1..]);
      assert t[1..] == InStateLines(lines[h + 1..]);
  }

  /** The date comes from "Stand:" lines before the header; those after it are ignored. */
  lemma StandAfterHeaderIgnored(lines: seq<string>, h: nat)
    requires HeaderIndex(lines) == Some(h)
    ensures Filter(lines).Ok? <==> Stand(lines[..h]).Ok?
    ensures Filter(lines).Ok? ==> Filter(lines).value.stand == IsoOpt(Stand(lines[..h]).value)
  {
  }

  /** Without a "Stand:" line no date is written. */
  lemma {:induction false} NoStandLine(lines: seq<string>)
    requires forall j :: 0 <= j < |lines| ==> !IsStand(lines[j])
    ensures Stand(lines) == Ok(None)
  {
    if lines != [] {
      NoStandLine(lines[..|lines| - 1]);
    }
  }

  /** With "Stand:" lines that all parse, the last one's date is written. */
  lemma {:induction false} LastStandLine(lines: seq<string>, k: nat)
    requires k < |lines| && IsStand(lines[k]) && StandDate(lines[k]).Ok?
    requires forall j :: 0 <= j < |lines| && IsStand(lines[j]) ==> StandDate(lines[j]).Ok?
    requires forall j :: k < j < |lines| ==> !IsStand(lines[j])
    ensures Stand(lines) == Ok(Some(StandDate(lines[k]).value))
  {
    var init := lines[..|lines| - 1];
    if k < |lines| - 1 {
      LastStandLine(init, k);
    } else {
      StandOk(init);
    }
  }

  lemma {:induction false} StandOk(lines: seq<string>)
    requires forall j :: 0 <= j < |lines| && IsStand(lines[j]) ==> StandDate(lines[j]).Ok?
    ensures Stand(lines).Ok?
  {
    if lines != [] {
      StandOk(lines[..|lines| - 1]);
    }
  }

  // ---------------------------------------------------------------- the generator

  /** The outcome of generateDistributions: the URL it downloads, its result, and what the filter wrote. */
  datatype Outcome = Outcome(excelUrl: string, result: bool, filtered: Option<Filtered>)

  /**
   * generateDistributions: the Excel file's URL from the start page, the
   * download (None when it fails) converted to raw.csv from its first sheet,
   * then the filter over that file's lines. A failed download returns false
   * before anything is written.
   */
  method GenerateDistributions(startUrl: string, page: seq<string>, download: Option<Excel2Csv.Workbook>)
    returns (r: Result<Outcome>)
    ensures download.None? ==> r == Ok(Outcome(Origin(startUrl) + NullText(LastLink(page)), false, None))
    ensures download.Some? && |download.value| == 0 ==> r.Err?
    ensures download.Some? && |download.value| > 0 ==>
      var lines := ReadLines(Excel2Csv.SheetText(download.value[0]));
      (r.Ok? <==> Filter(lines).Ok?) &&
      (r.Ok? ==> r.value == Outcome(Origin(startUrl) + NullText(LastLink(page)), true, Some(Filter(lines).value)))
  {
    var excelUrl := DetermineExcelFileUrl(startUrl, page);
    var raw := Excel2Csv.GenerateDistributions("raw", Excel2Csv.SheetNumber(None), download);
    var generated :- raw;
    if !generated.result {
      return Ok(Outcome(excelUrl, false, None));
    }
    var filtered :- FilterLines(ReadLines(generated.csv.value));
    return Ok(Outcome(excelUrl, true, Some(filtered)));
  }
}
