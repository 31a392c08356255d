/**
 * CoronaWalker: the listener that turns the parsed Corona figures of the
 * Rendsburg-Eckernförde district into JSON text. Each entry is a municipality
 * key (ARS) with NAME/VALUE pairs; the parser itself is not part of this model,
 * its result is the sequence of entries.
 */
module CoronaWalker {
  import opened Text
  import opened CsvText

  datatype Pair = Pair(name: string, value: string)
  datatype Entry = Entry(ars: string, pairs: seq<Pair>)

  /** The quoted NAME, a colon with a blank on either side. */
  function NameText(name: string): string
  {
    "\"" + name + "\" : "
  }

  /** One pair: its name, then the raw VALUE text. */
  function PairText(p: Pair): string
  {
    NameText(p.name) + p.value
  }

  /** The pairs of an entry, a comma between two of them. */
  function PairsText(ps: seq<Pair>): string
  {
    if ps == [] then ""
    else if |ps| == 1 then PairText(ps[0])
    else PairsText(ps[..|ps| - 1]) + "," + PairText(ps[|ps| - 1])
  }

  /** The quoted ARS as a key, and the opening brace of its pairs. */
  function KeyText(ars: string): string
  {
    "\"" + ars + "\": {"
  }

  /** One entry: its key, its pairs, the closing brace. */
  function EntryText(e: Entry): string
  {
    KeyText(e.ars) + PairsText(e.pairs) + "}"
  }

  /** The entries, a comma and a line break between two of them. */
  function EntriesText(es: seq<Entry>): string
  {
    if es == [] then ""
    else if |es| == 1 then EntryText(es[0])
    else EntriesText(es[..|es| - 1]) + ",\n" + EntryText(es[|es| - 1])
  }

  /** Everything enterData prints. */
  function DataText(es: seq<Entry>): string
  {
    "{\n" + EntriesText(es) + " }\n"
  }

  lemma PairsTextSnoc(ps: seq<Pair>, j: nat)
    requires j < |ps|
    ensures PairsText(ps[..j + 1]) == PairsText(ps[..j]) + (if j == 0 then "" else ",") + PairText(ps[j])
  {
    assert ps[..j + 1][..j] == ps[..j];
  }

  lemma EntriesTextSnoc(es: seq<Entry>, i: nat)
    requires i < |es|
    ensures EntriesText(es[..i + 1]) == EntriesText(es[..i]) + (if i == 0 then "" else ",\n") + EntryText(es[i])
  {
    assert es[..i + 1][..i] == es[..i];
  }

  /** enterData, printing to a stream that starts empty. */
  method EnterData(entries: seq<Entry>) returns (out: string)
    ensures out == DataText(entries)
  {
    out := "{\n";
    var firstEntry := true;
    for i := 0 to |entries|
      invariant out == "{\n" + EntriesText(entries[..i])
      invariant firstEntry <==> i == 0
    {
      if firstEntry {
        firstEntry := false;
      } else {
        out := out + ",\n";
      }
      out := PrintEntry(out, entries[i]);
      EntriesTextSnoc(entries, i);
    }
    assert entries[..|entries|] == entries;
    out := out + " }\n";
  }

  /** The body of enterData's loop for one entry: its key, its pairs with the inner loop, the closing brace. */
  method PrintEntry(before: string, e: Entry) returns (out: string)
    ensures out == before + EntryText(e)
  {
    out := before + KeyText(e.ars);
    var firstPair := true;
    for j := 0 to |e.pairs|
      invariant out == before + KeyText(e.ars) + PairsText(e.pairs[..j])
      invariant firstPair <==> j == 0
    {
      ghost var prev := out;
      if firstPair {
        firstPair := false;
      } else {
        out := out + ",";
      }
      out := out + NameText(e.pairs[j].name);
      out := out + e.pairs[j].value;
      assert out == prev + (if j == 0 then "" else ",") + PairText(e.pairs[j]);
      PairsTextSnoc(e.pairs, j);
    }
    assert e.pairs[..|e.pairs|] == e.pairs;
    out := out + "}";
  }

  /** The text is framed by "{" on a line of its own and " }" at the end; with no entries it is just that frame. */
  lemma DataFrame(es: seq<Entry>)
    ensures var t := DataText(es); |t| >= 5 && t[..2] == "{\n" && t[|t| - 3..] == " }\n"
    ensures es == [] ==> DataText(es) == "{\n }\n"
  {
    var t := DataText(es);
    assert t[..2] == "{\n";
    assert t[|t| - 3..] == " }\n";
  }

  /** Every entry but the last as it ends its line: followed by the comma. */
  function CommaLines(es: seq<Entry>): (r: seq<string>)
    ensures |r| == |es|
  {
    if es == [] then [] else CommaLines(es[..|es| - 1]) + [EntryText(es[|es| - 1]) + ","]
  }

  /**
   * The lines of the output: "{", then one line per entry in input order, each
   * but the last closed by a comma and the last by " }"; with no entries the
   * closing " }" stands alone.
   */
  function OutputLines(es: seq<Entry>): seq<string>
  {
    if es == [] then ["{", " }"]
    else ["{"] + CommaLines(es[..|es| - 1]) + [EntryText(es[|es| - 1]) + " }"]
  }

  lemma {:induction false} CommaLinesPrinted(es: seq<Entry>)
    requires es != []
    ensures EntriesText(es) + ",\n" == Printed(CommaLines(es))
  {
    var init := es[..|es| - 1];
    var line := EntryText(es[|es| - 1]) + ",";
    PrintedSnoc(CommaLines(init), line);
    if |es| == 1 {
      assert CommaLines(init) == [];
    } else {
      CommaLinesPrinted(init);
    }
  }

  /** Re-association of the frame around the body lines. */
  lemma FrameAssoc(x: string, e: string)
    ensures "{\n" + (x + e) + " }\n" == "{" + "\n" + (x + (e + " }") + "\n")
  {
  }

  /** The output lines are the opening brace, then the body lines. */
  lemma PrintedCons(head: string, body: seq<string>)
    ensures Printed([head] + body) == head + "\n" + Printed(body)
  {
    assert ([head] + body)[1..] == body;
  }

  /** The text is exactly the lines above, each printed with its line break. */
  lemma OutputIsLines(es: seq<Entry>)
    ensures DataText(es) == Printed(OutputLines(es))
  {
    if es == [] {
      assert Printed([" }"]) == " }\n";
    } else {
      var init := es[..|es| - 1];
      var e := EntryText(es[|es| - 1]);
      var body := CommaLines(init) + [e + " }"];
      assert OutputLines(es) == ["{"] + body;
      PrintedCons("{", body);
      PrintedSnoc(CommaLines(init), e + " }");
      var x := if |es| == 1 then "" else EntriesText(init) + ",\n";
      assert Printed(CommaLines(init)) == x by {
        if |es| == 1 {
          assert CommaLines(init) == [];
        } else {
          CommaLinesPrinted(init);
        }
      }
      assert EntriesText(es) == x + e;
      FrameAssoc(x, e);
    }
  }

  predicate PlainEntry(e: Entry)
  {
    NoLineBreak(e.ars) && forall p :: p in e.pairs ==> NoLineBreak(p.name) && NoLineBreak(p.value)
  }

  lemma {:induction false} PairsTextNoBreak(ps: seq<Pair>)
    requires forall p :: p in ps ==> NoLineBreak(p.name) && NoLineBreak(p.value)
    ensures NoLineBreak(PairsText(ps))
  {
    if |ps| > 1 {
      PairsTextNoBreak(ps[..|ps| - 1]);
      assert ps[|ps| - 1] in ps;
    } else if |ps| == 1 {
      assert ps[0] in ps;
    }
  }

  lemma {:induction false} CommaLinesNoBreak(es: seq<Entry>)
    requires forall i :: 0 <= i < |es| ==> NoLineBreak(EntryText(es[i]))
    ensures forall i :: 0 <= i < |es| ==> NoLineBreak(CommaLines(es)[i])
  {
    if es != [] {
      CommaLinesNoBreak(es[..|es| - 1]);
    }
  }

  /**
   * Read back line by line, the output gives one line per entry, in input
   * order, as long as no key, name or value holds a line break.
   */
  lemma ReadBackLines(es: seq<Entry>)
    requires forall e :: e in es ==> PlainEntry(e)
    ensures ReadLines(DataText(es)) == OutputLines(es)
    ensures es != [] ==> |ReadLines(DataText(es))| == |es| + 1
  {
    OutputIsLines(es);
    var lines := OutputLines(es);
    forall i | 0 <= i < |es| ensures NoLineBreak(EntryText(es[i])) {
      assert es[i] in es;
      PairsTextNoBreak(es[i].pairs);
    }
    if es != [] {
      CommaLinesNoBreak(es[..|es| - 1]);
    }
    ReadPrinted(lines);
  }
}
