/**
 * CsvSortLines: downloads a CSV file and writes it back with its data lines
 * sorted in code-point order, the header line (unless the job's
 * `no_header` argument is true) kept in front.
 */
module CsvSortLines {
  import opened Wrappers
  import opened Text
  import opened Sorting

  /** The constructor: a header line unless `no_header` is a true value; a job without arguments throws. */
  function ContainsHeaderLine(args: Option<map<string, string>>): (r: Result<bool>)
    ensures r.Ok? <==> args.Some?
    ensures args.Some? && "no_header" !in args.value ==> r == Ok(true)
    ensures args.Some? && "no_header" in args.value ==> r == Ok(!ToBoolean(Some(args.value["no_header"])))
  {
    if args.None? then Err("NullPointerException: no generator arguments")
    else Ok(!ToBoolean(if "no_header" in args.value then Some(args.value["no_header"]) else None))
  }

  function Identity(s: string): string { s }

  /** What println of the first readLine prints: the line, or "null" for an empty file. */
  function HeaderText(input: seq<string>): string
  {
    if input == [] then "null" else input[0]
  }

  /** The lines that are sorted: all of them, or all but the header line. */
  function DataLines(containsHeader: bool, input: seq<string>): (r: seq<string>)
    ensures !containsHeader ==> r == input
    ensures containsHeader && input != [] ==> r == input[1..]
    ensures containsHeader && input == [] ==> r == []
  {
    if !containsHeader then input else if input == [] then [] else input[1..]
  }

  /** The lines of the target file. */
  function SortedOutput(containsHeader: bool, input: seq<string>): seq<string>
  {
    (if containsHeader then [HeaderText(input)] else []) + SortBy(DataLines(containsHeader, input), Identity)
  }

  /** The outcome of generateDistributions: its return value and the target file's lines. */
  datatype Generated = Generated(result: bool, target: seq<string>)

  /**
   * generateDistributions over the lines of the downloaded temporary file;
   * None when there is no such file (the download's own result is ignored).
   */
  method GenerateDistributions(containsHeader: bool, temp: Option<seq<string>>) returns (r: Result<Generated>)
    ensures temp.None? <==> r.Err?
    ensures temp.Some? ==> r == Ok(Generated(true, SortedOutput(containsHeader, temp.value)))
  {
    if temp.None? {
      return Err("FileNotFoundException: temp");
    }
    var input := temp.value;
    var out: seq<string> := [];
    var pos := 0;
    if containsHeader {
      out := out + [HeaderText(input)];
      pos := if input == [] then 0 else 1;
    }
    var start := pos;
    var lines: seq<string> := [];
    while pos < |input|
      invariant start <= pos <= |input|
      invariant lines == input[start..pos]
    {
      lines := lines + [input[pos]];
      pos := pos + 1;
    }
    assert lines == DataLines(containsHeader, input);
    lines := SortBy(lines, Identity);
    var head := out;
    assert head == if containsHeader then [HeaderText(input)] else [];
    var i := 0;
    while i < |lines|
      invariant 0 <= i <= |lines|
      invariant out == head + lines[..i]
    {
      out := out + [lines[i]];
      i := i + 1;
    }
    assert lines[..i] == lines;
    return Ok(Generated(true, out));
  }

  lemma SortedByIdentity(s: seq<string>)
    requires SortedBy(s, Identity)
    ensures SortedStrings(s)
  {
    forall i, j | 0 <= i < j < |s| ensures LexLe(s[i], s[j]) {
      assert LexLe(Identity(s[i]), Identity(s[j]));
    }
  }

  /** With a header line, the first input line comes out first and unchanged; an empty file yields just "null". */
  lemma HeaderFirst(input: seq<string>)
    ensures input != [] ==> SortedOutput(true, input)[0] == input[0]
    ensures input == [] ==> SortedOutput(true, input) == ["null"]
  {
  }

  /** The lines after the header are the data lines, each as often as in the input, in non-decreasing order. */
  lemma {:induction false} DataSortedPermutation(containsHeader: bool, input: seq<string>)
    ensures var k := if containsHeader then 1 else 0;
      var out := SortedOutput(containsHeader, input);
      |out| >= k &&
      multiset(out[k..]) == multiset(DataLines(containsHeader, input)) &&
      SortedStrings(out[k..])
  {
    var k := if containsHeader then 1 else 0;
    var data := DataLines(containsHeader, input);
    var out := SortedOutput(containsHeader, input);
    SortByCorrect(data, Identity);
    assert out[k..] == SortBy(data, Identity);
    SortedByIdentity(SortBy(data, Identity));
  }

  /** The order of the data lines is determined: any sorted permutation of them is what the file holds. */
  lemma OutputDetermined(containsHeader: bool, input: seq<string>, other: seq<string>)
    requires multiset(other) == multiset(DataLines(containsHeader, input)) && SortedStrings(other)
    ensures SortedOutput(containsHeader, input) == (if containsHeader then [HeaderText(input)] else []) + other
  {
    var k := if containsHeader then 1 else 0;
    DataSortedPermutation(containsHeader, input);
    var out := SortedOutput(containsHeader, input);
    SortedPermutationUnique(out[k..], other);
  }

  /** Sorting the output once more changes nothing. */
  lemma SortIdempotent(containsHeader: bool, input: seq<string>)
    ensures SortedOutput(containsHeader, SortedOutput(containsHeader, input)) == SortedOutput(containsHeader, input)
  {
    var out := SortedOutput(containsHeader, input);
    var k := if containsHeader then 1 else 0;
    DataSortedPermutation(containsHeader, input);
    DataSortedPermutation(containsHeader, out);
    if containsHeader {
      assert out != [] && HeaderText(out) == HeaderText(input);
    }
    assert DataLines(containsHeader, out) == out[k..];
    var again := SortedOutput(containsHeader, out);
    SortedPermutationUnique(again[k..], out[k..]);
    assert again == again[..k] + again[k..] && out == out[..k] + out[k..];
  }
}
