/**
 * CoronaSchleswigFlensburg: collects the daily Corona figures per Amt and
 * municipality that the Kreis Schleswig-Flensburg publishes on its web site.
 * The current page links the pages of earlier days; every page not yet seen
 * is visited once and its table appended to a CSV file that lives on from
 * run to run. The web site is a map from URL to page as Jsoup selects it.
 */
module CoronaSchleswigFlensburg {
  import opened Wrappers
  import opened Text

  /** The cell texts of one table row. */
  type Row = seq<string>

  /** A link: its text and its URL-decoded href. */
  datatype Link = Link(text: string, href: string)

  /** A page: the rows of its table (inside the accordion if there is one) and the links of its content. */
  datatype Page = Page(rows: seq<Row>, links: seq<Link>)

  const Header: string := "Datum,Amt/Gemeinde,Aktive Quarantänen,Positiv Getestete"
  const StartUrl: string := "https://www.schleswig-flensburg.de/Leben-Soziales/Gesundheit/Coronavirus/Aktuelle-Zahlen/"
  const BaseUrl: string := "https://www.schleswig-flensburg.de"
  const LinkLabel: string := "Zu den Zahlen vom"

  /** The date of a line of the file or of a table's first cell: the text before the first comma. */
  function DateOf(s: string): string
  {
    SubstringBefore(s, ",")
  }

  /** The text before the first comma holds no comma. */
  lemma DateHasNoComma(s: string)
    ensures ',' !in DateOf(s)
  {
    var d := DateOf(s);
    forall j | 0 <= j < |d| ensures d[j] != ',' {
      assert d[j] == s[j];
      assert s[j..j + 1] == [s[j]];
      assert !At(s, ",", j) by {
        match IndexOf(s, ",")
        case None =>
        case Some(i) =>
          assert d == s[..i];
      }
    }
  }

  /** A line written for a date reads back that date. */
  lemma DateOfLine(date: string, rest: string)
    requires ',' !in date
    ensures DateOf(date + "," + rest) == date
  {
    var s := date + "," + rest;
    var n := |date|;
    assert At(s, ",", n);
    forall j | 0 <= j < n ensures !At(s, ",", j) {
      assert s[j] == date[j];
    }
    assert IndexOf(s, ",") == Some(n);
    assert s[..n] == date;
  }

  // ---------------------------------------------------------------- one table

  /** Elements.get(0..2): a row with fewer than three cells throws. */
  function Cells(row: Row): (r: Result<(string, string, string)>)
    ensures r.Ok? <==> |row| >= 3
    ensures r.Ok? ==> r.value == (row[0], row[1], row[2])
  {
    if |row| < 3 then Err("IndexOutOfBoundsException: Index " + IntText(|row|) + " out of bounds for length " + IntText(|row|))
    else Ok((row[0], row[1], row[2]))
  }

  function RowLine(date: string, c: (string, string, string)): string
  {
    date + "," + c.0 + "," + c.1 + "," + c.2
  }

  /** The lines of the data rows, all under the table's date. */
  function DataLines(date: string, rows: seq<Row>): (r: Result<seq<string>>)
    ensures r.Ok? ==> |r.value| == |rows|
  {
    if rows == [] then Ok([])
    else
      var init :- DataLines(date, rows[..|rows| - 1]);
      var c :- Cells(rows[|rows| - 1]);
      Ok(init + [RowLine(date, c)])
  }

  /**
   * The first row of a table: the date before the first comma of its first
   * cell, or None when that date was seen already; unexpected column titles throw.
   */
  function Start(seenDates: set<string>, row: Row): (r: Result<Option<string>>)
    ensures r.Ok? ==> |row| >= 3
    ensures r == Ok(None) <==> |row| >= 3 && DateOf(row[0]) in seenDates
    ensures r.Ok? && r.value.Some? <==>
      |row| >= 3 && DateOf(row[0]) !in seenDates && row[1] == "Aktive Quarantänen" && row[2] == "Positiv Getestete"
    ensures r.Ok? && r.value.Some? ==> r.value.value == DateOf(row[0])
  {
    var c :- Cells(row);
    var date := DateOf(c.0);
    if date in seenDates then Ok(None)
    else if c.1 != "Aktive Quarantänen" then
      Err("In Spalte 2 sollte 'Aktive Quarantänen' stehen, dort steht aber " + c.1)
    else if c.2 != "Positiv Getestete" then
      Err("In Spalte 3 sollte 'Positiv Getestete' stehen, dort steht aber " + c.2)
    else Ok(Some(date))
  }

  /** processTable: nothing for a seen date, otherwise every later row under the table's date. */
  function TableLines(seenDates: set<string>, rows: seq<Row>): Result<seq<string>>
  {
    if rows == [] then Ok([])
    else
      var start :- Start(seenDates, rows[0]);
      if start.None? then Ok([]) else DataLines(start.value, rows[1..])
  }

  /** Every line of a table carries the table's date, which was not seen before, and there is one per data row. */
  lemma {:induction false} TableShape(seenDates: set<string>, rows: seq<Row>)
    requires TableLines(seenDates, rows).Ok? && TableLines(seenDates, rows).value != []
    ensures |rows| >= 1 && |rows[0]| >= 3
    ensures var lines := TableLines(seenDates, rows).value;
      |lines| == |rows| - 1 &&
      forall i :: 0 <= i < |lines| ==> DateOf(lines[i]) == DateOf(rows[0][0]) && DateOf(rows[0][0]) !in seenDates
  {
    var date := DateOf(rows[0][0]);
    DateHasNoComma(rows[0][0]);
    DataLinesDates(date, rows[1..]);
  }

  lemma {:induction false} DataLinesDates(date: string, rows: seq<Row>)
    requires ',' !in date && DataLines(date, rows).Ok?
    ensures forall i :: 0 <= i < |rows| ==> DateOf(DataLines(date, rows).value[i]) == date
  {
    if rows != [] {
      var init := rows[..|rows| - 1];
      DataLinesDates(date, init);
      var c := Cells(rows[|rows| - 1]).value;
      DateOfLine(date, c.0 + "," + c.1 + "," + c.2);
      assert RowLine(date, c) == date + "," + (c.0 + "," + c.1 + "," + c.2);
    }
  }

  // ---------------------------------------------------------------- the file

  /** readExistingDates: the date of every line after the header. */
  function ExistingDates(lines: seq<string>): set<string>
  {
    set i | 1 <= i < |lines| :: DateOf(lines[i])
  }

  /** The dates of the lines after the header and before line i. */
  function DatesBefore(lines: seq<string>, i: nat): set<string>
    requires i <= |lines|
    ensures i == |lines| ==> DatesBefore(lines, i) == ExistingDates(lines)
  {
    set j | 1 <= j < i :: DateOf(lines[j])
  }

  lemma DatesBeforeStep(lines: seq<string>, i: nat)
    requires 1 <= i < |lines|
    ensures DatesBefore(lines, i + 1) == DatesBefore(lines, i) + {DateOf(lines[i])}
  {
  }

  /** A table whose date the file already holds is skipped on the next run: no date is written twice. */
  lemma RerunSkips(lines: seq<string>, k: nat, rows: seq<Row>)
    requires 1 <= k < |lines| && |rows| >= 1 && |rows[0]| >= 3
    requires DateOf(lines[k]) == DateOf(rows[0][0])
    ensures TableLines(ExistingDates(lines), rows) == Ok([])
  {
    assert DateOf(lines[k]) in ExistingDates(lines);
  }

  // ---------------------------------------------------------------- the crawl

  /** Every href that any page of the site links. */
  function Hrefs(web: map<string, Page>): set<string>
  {
    set u, l | u in web && l in web[u].links :: l.href
  }

  /** Every link of every page of the site leads to an href in `all`. */
  ghost predicate LinksWithin(web: map<string, Page>, all: set<string>)
  {
    forall u, l :: u in web && l in web[u].links ==> l.href in all
  }

  lemma HrefsWithin(web: map<string, Page>)
    ensures LinksWithin(web, Hrefs(web))
  {
  }

  /** The date a link names: the text after its label. */
  function LinkDate(text: string): string
  {
    SubstringAfter(text, LinkLabel + " ")
  }

  /** A link that some page of the site offers to follow, given the dates already seen. */
  ghost predicate Offered(web: map<string, Page>, seenDates: set<string>, href: string)
  {
    exists u, l :: u in web && l in web[u].links && l.href == href &&
      StartsWith(l.text, LinkLabel) && LinkDate(l.text) !in seenDates
  }

  lemma SmallerRest(all: set<string>, seen: set<string>, x: string)
    requires x in all && x !in seen
    ensures |all - (seen + {x})| < |all - seen|
  {
    assert all - (seen + {x}) == (all - seen) - {x};
  }

  lemma NotLarger(all: set<string>, a: set<string>, b: set<string>)
    requires a <= b
    ensures |all - b| <= |all - a|
  {
    SubsetNotLarger(all - b, all - a);
  }

  lemma {:induction false} SubsetNotLarger(a: set<string>, b: set<string>)
    requires a <= b
    ensures |a| <= |b|
    decreases |a|
  {
    if a != {} {
      var x :| x in a;
      SubsetNotLarger(a - {x}, b - {x});
    }
  }

  /** The hrefs seen are those followed, and as many as were followed (so none was followed twice, see NoneTwice). */
  ghost predicate Recorded(seenURLs: set<string>, followed: seq<string>)
  {
    (forall h :: h in seenURLs <==> h in followed) && |seenURLs| == |followed|
  }

  /** A record of hrefs never holds one href twice. */
  lemma NoneTwice(seenURLs: set<string>, followed: seq<string>)
    requires Recorded(seenURLs, followed)
    ensures forall i, j :: 0 <= i < j < |followed| ==> followed[i] != followed[j]
  {
    assert seenURLs == Elements(followed);
    forall i, j | 0 <= i < j < |followed| ensures followed[i] != followed[j] {
      if followed[i] == followed[j] {
        DuplicateShrinks(followed, i, j);
        assert false;
      }
    }
  }

  /** The hrefs a sequence holds. */
  ghost function Elements(s: seq<string>): set<string>
  {
    set x | x in s
  }

  lemma ElementsSnoc(s: seq<string>)
    requires s != []
    ensures Elements(s) == Elements(s[..|s| - 1]) + {s[|s| - 1]}
  {
    var n := |s| - 1;
    forall x | x in s ensures x in s[..n] || x == s[n] {
      var k :| 0 <= k < |s| && s[k] == x;
      if k < n {
        assert s[..n][k] == x;
      }
    }
  }

  lemma {:induction false} ElementsBound(s: seq<string>)
    ensures |Elements(s)| <= |s|
  {
    if s != [] {
      ElementsSnoc(s);
      ElementsBound(s[..|s| - 1]);
    }
  }

  /** A sequence that holds some element twice holds fewer distinct elements than it is long. */
  lemma {:induction false} DuplicateShrinks(s: seq<string>, i: nat, j: nat)
    requires i < j < |s| && s[i] == s[j]
    ensures |Elements(s)| < |s|
  {
    var n := |s| - 1;
    ElementsSnoc(s);
    if j == n {
      assert s[..n][i] == s[n];
      assert Elements(s) == Elements(s[..n]);
      ElementsBound(s[..n]);
    } else {
      assert s[..n][i] == s[..n][j];
      DuplicateShrinks(s[..n], i, j);
    }
  }

  /** The decision of processDocument's loop for one link. */
  predicate Follows(link: Link, seenURLs: set<string>, seenDates: set<string>)
  {
    StartsWith(link.text, LinkLabel) && link.href !in seenURLs && LinkDate(link.text) !in seenDates
  }

  lemma OfferedLink(web: map<string, Page>, seenDates: set<string>, url: string, link: Link)
    requires url in web && link in web[url].links
    requires StartsWith(link.text, LinkLabel) && LinkDate(link.text) !in seenDates
    ensures Offered(web, seenDates, link.href)
  {
  }

  /** Recording a new href keeps the record and follows one more offered href. */
  lemma Record(web: map<string, Page>, seenDates: set<string>, seenURLs: set<string>, followed: seq<string>, href: string)
    requires Recorded(seenURLs, followed) && href !in seenURLs && Offered(web, seenDates, href)
    ensures Recorded(seenURLs + {href}, followed + [href])
    ensures FollowedMore(web, seenDates, followed, followed + [href])
  {
    assert (followed + [href])[..|followed|] == followed;
    assert |seenURLs + {href}| == |seenURLs| + 1;
  }

  /** `after` continues `before` with hrefs some page offers. */
  ghost predicate FollowedMore(web: map<string, Page>, seenDates: set<string>, before: seq<string>, after: seq<string>)
  {
    |before| <= |after| && after[..|before|] == before &&
    forall i :: |before| <= i < |after| ==> Offered(web, seenDates, after[i])
  }

  /** `after` continues `before` with lines whose dates are not among those seen. */
  predicate WroteMore(seenDates: set<string>, before: seq<string>, after: seq<string>)
  {
    |before| <= |after| && after[..|before|] == before &&
    forall i :: |before| <= i < |after| ==> DateOf(after[i]) !in seenDates
  }

  lemma FollowedMoreTrans(web: map<string, Page>, seenDates: set<string>, a: seq<string>, b: seq<string>, c: seq<string>)
    requires FollowedMore(web, seenDates, a, b) && FollowedMore(web, seenDates, b, c)
    ensures FollowedMore(web, seenDates, a, c)
  {
    assert c[..|b|][..|a|] == c[..|a|];
    forall i | |a| <= i < |c| ensures Offered(web, seenDates, c[i]) {
      if i < |b| {
        assert c[i] == b[i];
      }
    }
  }

  /** Following `href` and then more offered hrefs follows `href` first and offered hrefs only. */
  lemma FollowedThrough(web: map<string, Page>, seenDates: set<string>, before: seq<string>, href: string, after: seq<string>)
    requires FollowedMore(web, seenDates, before, before + [href])
    requires FollowedMore(web, seenDates, before + [href], after)
    ensures FollowedMore(web, seenDates, before, after)
    ensures |after| > |before| && after[|before|] == href
  {
    FollowedMoreTrans(web, seenDates, before, before + [href], after);
    assert after[..|before| + 1][|before|] == href;
  }

  /** A crawl that follows nothing and writes nothing continues itself. */
  lemma NothingMore(web: map<string, Page>, seenDates: set<string>, followed: seq<string>, out: seq<string>)
    ensures FollowedMore(web, seenDates, followed, followed) && WroteMore(seenDates, out, out)
  {
    assert followed[..|followed|] == followed && out[..|out|] == out;
  }

  lemma WroteMoreTrans(seenDates: set<string>, a: seq<string>, b: seq<string>, c: seq<string>)
    requires WroteMore(seenDates, a, b) && WroteMore(seenDates, b, c)
    ensures WroteMore(seenDates, a, c)
  {
    assert c[..|b|][..|a|] == c[..|a|];
    forall i | |a| <= i < |c| ensures DateOf(c[i]) !in seenDates {
      if i < |b| {
        assert c[i] == b[i];
      }
    }
  }

  class Crawler {
    var seenURLs: set<string>
    var seenDates: set<string>
    /** The lines of the target file. */
    var out: seq<string>
    /** The hrefs followed, in order. */
    ghost var followed: seq<string>

    /** The hrefs seen are those followed, and none was followed twice. */
    ghost predicate Valid()
      reads this
    {
      Recorded(seenURLs, followed)
    }

    constructor ()
      ensures seenURLs == {} && seenDates == {} && out == [] && followed == []
      ensures Valid()
    {
      seenURLs := {};
      seenDates := {};
      out := [];
      followed := [];
    }

    /** readExistingDates over the lines of the existing file. */
    method ReadExistingDates(lines: seq<string>)
      modifies this
      ensures seenDates == old(seenDates) + ExistingDates(lines)
      ensures seenURLs == old(seenURLs) && out == old(out) && followed == old(followed)
    {
      if |lines| <= 1 {
        assert ExistingDates(lines) == {};
        return;
      }
      var i := 1;
      while i < |lines|
        invariant 1 <= i <= |lines|
        invariant seenDates == old(seenDates) + DatesBefore(lines, i)
        invariant seenURLs == old(seenURLs) && out == old(out) && followed == old(followed)
      {
        seenDates := seenDates + {SubstringBefore(lines[i], ",")};
        DatesBeforeStep(lines, i);
        i := i + 1;
      }
    }

    /** processTable over the rows of one page. */
    method ProcessTable(rows: seq<Row>) returns (r: Result<()>)
      modifies this
      ensures seenDates == old(seenDates) && seenURLs == old(seenURLs) && followed == old(followed)
      ensures r.Ok? <==> TableLines(seenDates, rows).Ok?
      ensures r.Ok? ==> out == old(out) + TableLines(seenDates, rows).value
      ensures WroteMore(seenDates, old(out), out)
    {
      var isFirst := true;
      var date := "";
      for i := 0 to |rows|
        invariant seenDates == old(seenDates) && seenURLs == old(seenURLs) && followed == old(followed)
        invariant isFirst <==> i == 0
        invariant i == 0 ==> out == old(out)
        invariant i > 0 ==>
          Start(seenDates, rows[0]) == Ok(Some(date)) &&
          DataLines(date, rows[1..i]).Ok? && out == old(out) + DataLines(date, rows[1..i]).value
      {
        if isFirst {
          isFirst := false;
          var start := Start(seenDates, rows[i]);
          if start.Err? {
            return Err(start.error);
          }
          if start.value.None? {
            return Ok(());
          }
          date := start.value.value;
          assert rows[1..1] == [];
        } else {
          var cells := Cells(rows[i]);
          if cells.Err? {
            DataFails(seenDates, rows, date, i);
            PartialFresh(seenDates, rows, date, i, old(out), out);
            return Err(cells.error);
          }
          var (cell1, cell2, cell3) := cells.value;
          out := out + [date + "," + cell1 + "," + cell2 + "," + cell3];
          DataLinesSnoc(date, rows, i);
        }
      }
      if |rows| > 0 {
        assert rows[1..|rows|] == rows[1..];
      }
      NewLinesFresh(seenDates, rows, old(out), out);
      r := Ok(());
    }

    /**
     * processDocument: the page's table, then each of its links in turn. A URL
     * the site does not serve throws.
     */
    method ProcessDocument(web: map<string, Page>, ghost all: set<string>, url: string) returns (r: Result<()>)
      requires Valid() && LinksWithin(web, all)
      modifies this
      ensures Valid() && seenDates == old(seenDates)
      ensures FollowedMore(web, seenDates, old(followed), followed)
      ensures WroteMore(seenDates, old(out), out)
      decreases |all - seenURLs|, 2
    {
      if url !in web {
        return Err("IOException: " + url);
      }
      var page := web[url];
      var _ :- ProcessTable(page.rows);
      for k := 0 to |page.links|
        invariant Valid() && seenDates == old(seenDates)
        invariant old(seenURLs) <= seenURLs
        invariant FollowedMore(web, seenDates, old(followed), followed)
        invariant WroteMore(seenDates, old(out), out)
      {
        NotLarger(all, old(seenURLs), seenURLs);
        ghost var (followedBefore, outBefore) := (followed, out);
        r := FollowLink(web, all, url, page.links[k]);
        FollowedMoreTrans(web, seenDates, old(followed), followedBefore, followed);
        WroteMoreTrans(seenDates, old(out), outBefore, out);
        if r.Err? {
          return;
        }
      }
      r := Ok(());
    }

    /**
     * One link of processDocument's loop: it is followed iff its text starts
     * with the label, its href is not yet seen and the date after the label is
     * not yet seen. The href is recorded before the page it leads to is
     * processed, so no href is followed twice.
     */
    method FollowLink(web: map<string, Page>, ghost all: set<string>, url: string, link: Link) returns (r: Result<()>)
      requires Valid() && LinksWithin(web, all) && url in web && link in web[url].links
      modifies this
      ensures Valid() && seenDates == old(seenDates) && old(seenURLs) <= seenURLs
      ensures FollowedMore(web, seenDates, old(followed), followed)
      ensures WroteMore(seenDates, old(out), out)
      ensures !Follows(link, old(seenURLs), seenDates) ==> r == Ok(()) && followed == old(followed) && out == old(out)
      ensures Follows(link, old(seenURLs), seenDates) ==> |followed| > |old(followed)| && followed[|old(followed)|] == link.href
      decreases |all - seenURLs|, 1
    {
      var text := link.text;
      var href := link.href;
      if StartsWith(text, LinkLabel) && href !in seenURLs {
        var date := SubstringAfter(text, LinkLabel + " ");
        if date !in seenDates {
          r := Visit(web, all, url, link);
          return;
        }
      }
      NothingMore(web, seenDates, followed, out);
      r := Ok(());
    }

    /** A link that is followed: its href recorded, then the page it leads to processed. */
    method Visit(web: map<string, Page>, ghost all: set<string>, url: string, link: Link) returns (r: Result<()>)
      requires Valid() && LinksWithin(web, all) && url in web && link in web[url].links
      requires Follows(link, seenURLs, seenDates)
      modifies this
      ensures Valid() && seenDates == old(seenDates) && old(seenURLs) <= seenURLs
      ensures FollowedMore(web, seenDates, old(followed), followed)
      ensures WroteMore(seenDates, old(out), out)
      ensures |followed| > |old(followed)| && followed[|old(followed)|] == link.href
      decreases |all - seenURLs|, 0
    {
      var href := link.href;
      OfferedLink(web, seenDates, url, link);
      SmallerRest(all, seenURLs, href);
      Record(web, seenDates, seenURLs, followed, href);
      seenURLs := seenURLs + {href};
      followed := followed + [href];
      r := ProcessDocument(web, all, BaseUrl + href);
      FollowedThrough(web, seenDates, old(followed), href, followed);
    }

    /**
     * work: an existing file (its lines) is appended to, after its dates are
     * read; otherwise a new file starts with the header line. Then the crawl
     * from the current page.
     */
    method Work(web: map<string, Page>, existing: Option<seq<string>>) returns (r: Result<()>)
      requires Valid() && seenURLs == {} && seenDates == {} && followed == []
      modifies this
      ensures Valid()
      ensures existing.Some? ==> seenDates == ExistingDates(existing.value)
      ensures existing.Some? ==> WroteMore(seenDates, existing.value, out)
      ensures existing.None? ==> seenDates == {} && WroteMore({}, [Header], out)
      ensures forall i :: 0 <= i < |followed| ==> Offered(web, seenDates, followed[i])
    {
      if existing.Some? {
        out := existing.value;
        ReadExistingDates(existing.value);
      } else {
        out := [Header];
      }
      HrefsWithin(web);
      r := ProcessDocument(web, Hrefs(web), StartUrl);
    }

    /**
     * generateDistributions: work, then the target file copied to corona.csv
     * in the output directory (`copy`); Files.copy throws when the directory
     * holds that file already (`taken`). Any exception leaves no copy.
     */
    method GenerateDistributions(web: map<string, Page>, existing: Option<seq<string>>, taken: bool)
      returns (r: Result<bool>, copy: Option<seq<string>>)
      requires Valid() && seenURLs == {} && seenDates == {} && followed == []
      modifies this
      ensures Valid()
      ensures r.Ok? <==> copy.Some?
      ensures r.Ok? ==> r.value && !taken && copy.value == out
      ensures existing.Some? ==> WroteMore(seenDates, existing.value, out)
      ensures existing.None? ==> WroteMore({}, [Header], out)
    {
      var w := Work(web, existing);
      if w.Err? {
        return Err(w.error), None;
      }
      if taken {
        return Err("FileAlreadyExistsException: corona.csv"), None;
      }
      r, copy := Ok(true), Some(out);
    }
  }

  lemma DataLinesSnoc(date: string, rows: seq<Row>, i: nat)
    requires 1 <= i < |rows| && |rows[i]| >= 3 && DataLines(date, rows[1..i]).Ok?
    ensures DataLines(date, rows[1..i + 1]) ==
      Ok(DataLines(date, rows[1..i]).value + [date + "," + rows[i][0] + "," + rows[i][1] + "," + rows[i][2]])
  {
    assert rows[1..i + 1][..i - 1] == rows[1..i];
  }

  /** A data row with fewer than three cells makes the whole table throw. */
  lemma DataFails(seenDates: set<string>, rows: seq<Row>, date: string, i: nat)
    requires 0 < i < |rows| && |rows[i]| < 3
    requires Start(seenDates, rows[0]) == Ok(Some(date)) && DataLines(date, rows[1..i]).Ok?
    ensures TableLines(seenDates, rows).Err?
  {
    assert rows[1..i + 1][..i - 1] == rows[1..i];
    DataLinesFailedPrefix(date, rows[1..], i);
    assert rows[1..][..i] == rows[1..i + 1];
  }

  lemma {:induction false} DataLinesFailedPrefix(date: string, rows: seq<Row>, k: nat)
    requires k <= |rows| && DataLines(date, rows[..k]).Err?
    ensures DataLines(date, rows).Err?
    decreases |rows|
  {
    if k < |rows| {
      var init := rows[..|rows| - 1];
      assert init[..k] == rows[..k];
      DataLinesFailedPrefix(date, init, k);
    } else {
      assert rows[..k] == rows;
    }
  }

  lemma NewLinesFresh(seenDates: set<string>, rows: seq<Row>, before: seq<string>, after: seq<string>)
    requires TableLines(seenDates, rows).Ok? && after == before + TableLines(seenDates, rows).value
    ensures WroteMore(seenDates, before, after)
  {
    assert after[..|before|] == before;
    var lines := TableLines(seenDates, rows).value;
    if lines != [] {
      TableShape(seenDates, rows);
      assert forall i :: |before| <= i < |after| ==> after[i] == lines[i - |before|];
    }
  }

  /** The lines a table wrote before a row threw. */
  lemma PartialFresh(seenDates: set<string>, rows: seq<Row>, date: string, i: nat, before: seq<string>, after: seq<string>)
    requires 0 < i <= |rows| && Start(seenDates, rows[0]) == Ok(Some(date))
    requires DataLines(date, rows[1..i]).Ok? && after == before + DataLines(date, rows[1..i]).value
    ensures WroteMore(seenDates, before, after)
  {
    DateHasNoComma(rows[0][0]);
    DataLinesDates(date, rows[1..i]);
    assert after[..|before|] == before;
    assert forall k :: |before| <= k < |after| ==> after[k] == DataLines(date, rows[1..i]).value[k - |before|];
  }
}
